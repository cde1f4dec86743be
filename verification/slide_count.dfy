/**
 * The arithmetic at the top of `build_prompt`: from the requested slide count
 * and the "visuals count as slides" flag, the number of body ("main") slides,
 * the slide count quoted back to the model, and whether the odd-budget note is
 * added. The prompt text around these values is not modelled.
 */
module SlideCount {

  /** Python's `a // b` for a positive divisor: the floor of the quotient. */
  function FloorDiv(a: int, b: int): (q: int)
    requires b > 0
    ensures q * b <= a < q * b + b
  {
    a / b
  }

  /** Python's `a % b` for a positive divisor: never negative, even for negative `a`. */
  function FloorMod(a: int, b: int): (m: int)
    requires b > 0
    ensures 0 <= m < b
    ensures a == FloorDiv(a, b) * b + m
  {
    a % b
  }

  /** The values `build_prompt` interpolates into its prompt. */
  datatype Counts = Counts(slideCount: int, main: int, note: bool)

  /** Title, intro and recommendation slides are reserved out of every request. */
  const Reserved := 3

  /**
   * `build_prompt(text, slide_count, include_visuals)`, the lines computing the
   * counts. With visuals counted, every body slide but (for an odd budget) the
   * last one is followed by a visual slide, and together they fill the budget
   * left after the three reserved slides exactly. For an odd budget that takes
   * one body slide more than half of it; for an even budget the quoted count is
   * rewritten to leave the visual slides out.
   */
  function PlanCounts(slideCount: int, includeVisuals: bool): (c: Counts)
    ensures !includeVisuals ==> c == Counts(slideCount, slideCount - Reserved, false)
    ensures includeVisuals ==> 2 * c.main - FloorMod(slideCount - Reserved, 2) == slideCount - Reserved
    ensures includeVisuals && FloorMod(slideCount - Reserved, 2) == 1 ==>
              c.main == FloorDiv(slideCount - Reserved, 2) + 1 && c.slideCount == slideCount
    ensures includeVisuals && FloorMod(slideCount - Reserved, 2) == 0 ==>
              c.main == FloorDiv(slideCount - Reserved, 2)
              && c.slideCount == c.main + Reserved
              && c.slideCount + c.main == slideCount
    ensures c.note <==> includeVisuals && FloorMod(slideCount - Reserved, 2) == 1
  {
    var remaining := slideCount - Reserved;
    if includeVisuals then
      var main := FloorDiv(remaining, 2);
      var extra := FloorMod(remaining, 2);
      if extra == 1 then Counts(slideCount, main + 1, true)
      else Counts(main + Reserved, main, false)
    else
      Counts(slideCount, remaining, false)
  }

  /**
   * The smallest requests the upload form allows: with visuals counted, 5 asks
   * for one body slide and quotes 4 back, 6 asks for two with the note.
   */
  lemma SmallRequests()
    ensures PlanCounts(5, true) == Counts(4, 1, false)
    ensures PlanCounts(5, false) == Counts(5, 2, false)
    ensures PlanCounts(6, true) == Counts(6, 2, true)
  {
  }
}
