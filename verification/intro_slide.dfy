/**
 * `add_intro_slide`: under the template's "contents" and "aim" labels of the
 * second slide, a text box with the plan's `summary` and `aim`.
 */
module IntroSlide {
  import opened Outcomes
  import opened Json
  import opened Deck
  import Text

  const ContentLabel: string := "Layih\U{0259}nin m\U{0259}zmunu"
  const AimLabel: string := "M\U{0259}qs\U{0259}d"

  /** The plan field a shape announces by its stripped text, if any. */
  function FieldOf(sh: Shape): (r: Option<string>)
    ensures r.Some? ==> sh.frame.Some? && (r.value == "summary" || r.value == "aim")
    ensures r == Some("summary") <==> sh.frame.Some? && Text.Strip(FrameText(sh.frame.value)) == ContentLabel
    ensures r == Some("aim") <==> sh.frame.Some? && Text.Strip(FrameText(sh.frame.value)) == AimLabel
  {
    match sh.frame
    case None => None
    case Some(f) =>
      var caption := Text.Strip(FrameText(f));
      if caption == ContentLabel then Some("summary")
      else if caption == AimLabel then Some("aim")
      else None
  }

  /** A shape gets a text box under it: it announces a field that is present and truthy. */
  predicate Announces(sh: Shape, slide: seq<Member>) {
    FieldOf(sh).Some? && Truthy(GetOr(slide, FieldOf(sh).value, JNull))
  }

  /** The box of a new intro text box: 0.2in under `b`, as far left and as wide, 3in high. */
  function Below(b: Box): (c: Box)
    ensures c.left == b.left && c.width == b.width
    ensures c.top == b.top + b.height + TenthsOfInch(2) && c.height == TenthsOfInch(30)
  {
    Box(b.left, b.top + b.height + TenthsOfInch(2), b.width, TenthsOfInch(30))
  }

  /** A new text box whose only paragraph holds `t` in one run. */
  function IntroBox(b: Box, t: string): (sh: Shape)
    ensures sh.placeholder.None? && !sh.isTitle && sh.box == Below(b)
    ensures ShapeText(sh) == Ok(t)
  {
    var p := Paragraph([t], 0);
    assert ParagraphText(p) == t by {
      assert p.runs[1..] == [];
      assert Concat(p.runs) == t + Concat([]);
    }
    var f := [p];
    FrameTextOne(p);
    Shape(None, false, Some(f), Below(b), NoGraphic)
  }

  /** The text boxes added for one shape of the slide. */
  function BoxesFor(sh: Shape, slide: seq<Member>): (r: Result<seq<Shape>, Fault>)
    ensures !Announces(sh, slide) ==> r == Ok([])
    ensures Announces(sh, slide) ==>
              var v := GetOr(slide, FieldOf(sh).value, JNull);
              && (v.JString? ==> r.Ok? && |r.value| == 1 && r.value[0].box == Below(sh.box)
                                 && ShapeText(r.value[0]) == Ok(v.s))
              && (!v.JString? ==> r == Err(NotText))
  {
    match FieldOf(sh)
    case None => Ok([])
    case Some(field) =>
      var v := GetOr(slide, field, JNull);
      if !Truthy(v) then Ok([])
      else
        var t :- AsText(v);
        Ok([IntroBox(sh.box, t)])
  }

  /** How many of `shapes` announce a field. */
  function CountAnnouncing(shapes: seq<Shape>, slide: seq<Member>): nat {
    if |shapes| == 0 then 0
    else (if Announces(shapes[0], slide) then 1 else 0) + CountAnnouncing(shapes[1..], slide)
  }

  /**
   * The loop over the slide's shapes: one text box per announcing shape, in
   * shape order; a field that is truthy but not text stops the loop.
   */
  function IntroBoxes(shapes: seq<Shape>, slide: seq<Member>): (r: Result<seq<Shape>, Fault>)
    ensures r.Ok? <==> forall k :: 0 <= k < |shapes| ==> BoxesFor(shapes[k], slide).Ok?
    ensures r.Ok? ==> |r.value| == CountAnnouncing(shapes, slide)
    ensures r.Err? ==> r.error == NotText
  {
    if |shapes| == 0 then Ok([])
    else
      var tail := shapes[1..];
      assert forall k :: 0 <= k < |tail| ==> tail[k] == shapes[k + 1];
      var here :- BoxesFor(shapes[0], slide);
      var rest :- IntroBoxes(tail, slide);
      Ok(here + rest)
  }

  /** The intro boxes are made exactly when every announced field that is truthy is text. */
  lemma IntroBoxesOk(shapes: seq<Shape>, slide: seq<Member>)
    ensures IntroBoxes(shapes, slide).Ok? <==>
              forall k :: 0 <= k < |shapes| && Announces(shapes[k], slide) ==>
                GetOr(slide, FieldOf(shapes[k]).value, JNull).JString?
  {
    forall k | 0 <= k < |shapes|
      ensures BoxesFor(shapes[k], slide).Ok? <==>
                (Announces(shapes[k], slide) ==> GetOr(slide, FieldOf(shapes[k]).value, JNull).JString?)
    {
    }
  }

  /** The shapes the intro adds are plain text boxes: neither placeholders nor titles. */
  lemma {:induction false} IntroBoxesArePlain(shapes: seq<Shape>, slide: seq<Member>)
    requires IntroBoxes(shapes, slide).Ok?
    ensures forall i :: 0 <= i < |IntroBoxes(shapes, slide).value| ==>
              && IntroBoxes(shapes, slide).value[i].placeholder.None?
              && !IntroBoxes(shapes, slide).value[i].isTitle
  {
    if |shapes| > 0 {
      IntroBoxesArePlain(shapes[1..], slide);
    }
  }

  /**
   * `add_intro_slide(prs, slide)`: the template's second slide keeps its
   * shapes and gains the intro text boxes after them; nothing else changes.
   */
  function AddIntroSlide(d: Deck, slide: seq<Member>): (r: Result<Deck, Fault>)
    ensures |d.slides| < 2 ==> r == Err(NoSlide(1))
    ensures |d.slides| >= 2 ==>
              var boxes := IntroBoxes(d.slides[1].shapes, slide);
              && (r.Ok? <==> boxes.Ok?)
              && (boxes.Err? ==> r == Err(boxes.error))
    ensures r.Ok? ==> && |d.slides| >= 2
                      && |r.value.slides| == |d.slides| && r.value.layouts == d.layouts
                      && (forall k :: 0 <= k < |d.slides| && k != 1 ==> r.value.slides[k] == d.slides[k])
                      && var before := d.slides[1].shapes;
                         var after := r.value.slides[1].shapes;
                         && |after| == |before| + CountAnnouncing(before, slide)
                         && after[..|before|] == before
                         && IntroBoxes(before, slide) == Ok(after[|before|..])
  {
    if |d.slides| < 2 then Err(NoSlide(1))
    else
      var before := d.slides[1].shapes;
      var boxes :- IntroBoxes(before, slide);
      var after := before + boxes;
      assert after[..|before|] == before && after[|before|..] == boxes;
      Ok(d.(slides := d.slides[1 := Slide(after)]))
  }

  /** A template slide with neither label gains nothing. */
  lemma {:induction false} UnlabelledUnchanged(shapes: seq<Shape>, slide: seq<Member>)
    requires forall k :: 0 <= k < |shapes| ==> FieldOf(shapes[k]).None?
    ensures IntroBoxes(shapes, slide) == Ok([])
  {
    if |shapes| > 0 {
      var tail := shapes[1..];
      assert forall k :: 0 <= k < |tail| ==> tail[k] == shapes[k + 1];
      UnlabelledUnchanged(tail, slide);
    }
  }
}
