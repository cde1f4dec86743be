/**
 * `add_main_slide`: a new slide from layout 12 with the plan's title and up
 * to four points in its empty placeholders, followed, when the plan asks for
 * a visual, by a visual slide from layout 3.
 */
module MainSlide {
  import opened Outcomes
  import opened Json
  import opened Deck
  import Text
  import VisualSlide

  const BodyLayout: nat := 12
  const VisualLayout: nat := 3

  /** `slide.shapes.title.text = value` for a decoded value. */
  function TitleFrom(s: Slide, value: Json): (r: Result<Slide, Fault>)
    ensures TitleIndex(s).None? ==> r == Err(NoTitleShape)
    ensures TitleIndex(s).Some? && s.shapes[TitleIndex(s).value].frame.None? ==> r == Err(NoTextFrame)
    ensures TitleIndex(s).Some? && s.shapes[TitleIndex(s).value].frame.Some? ==>
              (if value.JString? then r == SetTitle(s, value.s) && r.Ok? else r == Err(NotText))
  {
    match TitleIndex(s)
    case None => Err(NoTitleShape)
    case Some(k) =>
      if s.shapes[k].frame.None? then Err(NoTextFrame)
      else
        var t :- AsText(value);
        SetTitle(s, t)
  }

  /** `f"point{k}"`. */
  function PointKey(k: nat): (key: string)
    requires 1 <= k <= 4
    ensures |key| == 6 && key[..5] == "point" && Text.DigitValue(key[5]) == k
  {
    "point" + [Text.Digit(k)]
  }

  /** `slide.get(f"point{k}", "")`. */
  function PointFor(slide: seq<Member>, k: nat): Json
    requires 1 <= k <= 4
  {
    GetOr(slide, PointKey(k), JString(""))
  }

  /** A placeholder whose text is blank: a slot for a point. */
  predicate EmptySlot(sh: Shape) {
    sh.placeholder.Some? && sh.frame.Some? && Text.Strip(FrameText(sh.frame.value)) == ""
  }

  /** How many of `shapes` satisfy `p`. */
  function CountWhere(shapes: seq<Shape>, p: Shape -> bool): nat {
    if |shapes| == 0 then 0 else (if p(shapes[0]) then 1 else 0) + CountWhere(shapes[1..], p)
  }

  /**
   * One slot takes one point: the frame is cleared, and a truthy point is
   * added after the emptied first paragraph as a paragraph of its own.
   */
  function FillSlot(sh: Shape, point: Json): (r: Result<Shape, Fault>)
    requires sh.frame.Some?
    ensures r.Err? <==> Truthy(point) && !point.JString?
    ensures r.Err? ==> r.error == NotText
    ensures r.Ok? ==> r.value == sh.(frame := r.value.frame) && r.value.frame.Some?
    ensures r.Ok? && !Truthy(point) ==> r.value.frame == Some(Cleared(sh.frame.value)) && ShapeText(r.value) == Ok("")
    ensures r.Ok? && Truthy(point) ==>
              && r.value.frame == Some(Cleared(sh.frame.value) + [Paragraph(RunsOf(point.s), 0)])
              && ShapeText(r.value) == Ok("\n" + point.s)
  {
    var cleared := Cleared(sh.frame.value);
    if Truthy(point) then
      var t :- AsText(point);
      var added := Paragraph(RunsOf(t), 0);
      FrameTextTwo(cleared[0], added);
      assert ParagraphText(cleared[0]) == "" && ParagraphText(added) == t;
      assert "" + "\n" + t == "\n" + t;
      assert cleared + [added] == [cleared[0], added];
      Ok(sh.(frame := Some(cleared + [added])))
    else
      FrameTextOne(cleared[0]);
      Ok(sh.(frame := Some(cleared)))
  }

  /**
   * The loop over the new slide's shapes, with the slot test `isSlot` and the
   * filling of a slot with point `k` as parameters: every placeholder's text
   * is read, and slots take points `next`, `next + 1`, … until point 4.
   */
  function FillEach(shapes: seq<Shape>, isSlot: Shape -> bool, fill: (Shape, nat) -> Result<Shape, Fault>, next: nat)
    : (r: Result<seq<Shape>, Fault>)
    ensures r.Ok? ==> |r.value| == |shapes|
  {
    if |shapes| == 0 then Ok([])
    else
      var sh := shapes[0];
      if sh.placeholder.Some? && sh.frame.None? then Err(NoTextFrame)
      else if isSlot(sh) && next <= 4 then
        var filled :- fill(sh, next);
        var rest :- FillEach(shapes[1..], isSlot, fill, next + 1);
        Ok([filled] + rest)
      else
        var rest :- FillEach(shapes[1..], isSlot, fill, next);
        Ok([sh] + rest)
  }

  /** The shape at `i` is a slot that still gets a point: it has fewer than `5 - next` slots before it. */
  ghost predicate Ranked(shapes: seq<Shape>, isSlot: Shape -> bool, next: nat, i: nat)
    requires i < |shapes|
  {
    isSlot(shapes[i]) && next + CountWhere(shapes[..i], isSlot) <= 4
  }

  lemma CountWhereStep(shapes: seq<Shape>, p: Shape -> bool, i: nat)
    requires 0 < i <= |shapes|
    ensures CountWhere(shapes[..i], p) == (if p(shapes[0]) then 1 else 0) + CountWhere(shapes[1..][..i - 1], p)
  {
    assert shapes[..i][1..] == shapes[1..][..i - 1];
  }

  /** Past the first shape, ranks shift by whether the first shape took a point. */
  lemma RankedShift(shapes: seq<Shape>, isSlot: Shape -> bool, next: nat, i: nat)
    requires 0 < i < |shapes|
    ensures var step := if isSlot(shapes[0]) && next <= 4 then 1 else 0;
            && shapes[i] == shapes[1..][i - 1]
            && (Ranked(shapes, isSlot, next, i) <==> Ranked(shapes[1..], isSlot, next + step, i - 1))
            && (Ranked(shapes, isSlot, next, i) ==>
                  CountWhere(shapes[..i], isSlot) == step + CountWhere(shapes[1..][..i - 1], isSlot))
  {
    CountWhereStep(shapes, isSlot, i);
  }

  /** Which slot gets which point: the slot with `c` slots before it takes point `next + c`. */
  lemma {:induction false} FillEachByRank(shapes: seq<Shape>, isSlot: Shape -> bool,
                                          fill: (Shape, nat) -> Result<Shape, Fault>, next: nat)
    requires FillEach(shapes, isSlot, fill, next).Ok?
    ensures var out := FillEach(shapes, isSlot, fill, next).value;
            forall i :: 0 <= i < |shapes| ==>
              if Ranked(shapes, isSlot, next, i)
              then fill(shapes[i], next + CountWhere(shapes[..i], isSlot)) == Ok(out[i])
              else out[i] == shapes[i]
  {
    if |shapes| > 0 {
      var tail := shapes[1..];
      var step := if isSlot(shapes[0]) && next <= 4 then 1 else 0;
      var out := FillEach(shapes, isSlot, fill, next).value;
      var rest := FillEach(tail, isSlot, fill, next + step);
      assert rest.Ok? && out[1..] == rest.value;
      FillEachByRank(tail, isSlot, fill, next + step);
      forall i | 0 <= i < |shapes|
        ensures if Ranked(shapes, isSlot, next, i)
                then fill(shapes[i], next + CountWhere(shapes[..i], isSlot)) == Ok(out[i])
                else out[i] == shapes[i]
      {
        if i == 0 {
          assert shapes[..0] == [];
        } else {
          RankedShift(shapes, isSlot, next, i);
          assert out[i] == rest.value[i - 1];
        }
      }
    }
  }

  /** Every placeholder among `shapes` has a text frame. */
  ghost predicate Framed(shapes: seq<Shape>) {
    forall i :: 0 <= i < |shapes| && shapes[i].placeholder.Some? ==> shapes[i].frame.Some?
  }

  /** Every slot that gets a point can be filled with it. */
  ghost predicate Fits(shapes: seq<Shape>, isSlot: Shape -> bool, fill: (Shape, nat) -> Result<Shape, Fault>, next: nat) {
    forall i :: 0 <= i < |shapes| && Ranked(shapes, isSlot, next, i) ==>
      fill(shapes[i], next + CountWhere(shapes[..i], isSlot)).Ok?
  }

  lemma FramedStep(shapes: seq<Shape>)
    requires |shapes| > 0
    ensures Framed(shapes) <==> (shapes[0].placeholder.Some? ==> shapes[0].frame.Some?) && Framed(shapes[1..])
  {
    var tail := shapes[1..];
    assert forall i :: 0 < i < |shapes| ==> shapes[i] == tail[i - 1];
  }

  lemma FitsStep(shapes: seq<Shape>, isSlot: Shape -> bool, fill: (Shape, nat) -> Result<Shape, Fault>, next: nat)
    requires |shapes| > 0
    ensures var step := if isSlot(shapes[0]) && next <= 4 then 1 else 0;
            Fits(shapes, isSlot, fill, next) <==>
              && (isSlot(shapes[0]) && next <= 4 ==> fill(shapes[0], next).Ok?)
              && Fits(shapes[1..], isSlot, fill, next + step)
  {
    var tail := shapes[1..];
    var step := if isSlot(shapes[0]) && next <= 4 then 1 else 0;
    assert shapes[..0] == [];
    forall i | 0 < i < |shapes|
      ensures shapes[i] == tail[i - 1]
      ensures Ranked(shapes, isSlot, next, i) <==> Ranked(tail, isSlot, next + step, i - 1)
      ensures Ranked(shapes, isSlot, next, i) ==>
                CountWhere(shapes[..i], isSlot) == step + CountWhere(tail[..i - 1], isSlot)
    {
      RankedShift(shapes, isSlot, next, i);
    }
    if Fits(shapes, isSlot, fill, next) && isSlot(shapes[0]) && next <= 4 {
      assert Ranked(shapes, isSlot, next, 0);
    }
    if Fits(shapes, isSlot, fill, next) {
      forall i | 0 <= i < |tail| && Ranked(tail, isSlot, next + step, i)
        ensures fill(tail[i], next + step + CountWhere(tail[..i], isSlot)).Ok?
      {
        assert Ranked(shapes, isSlot, next, i + 1);
      }
    }
  }

  /**
   * The loop succeeds exactly when every placeholder has a text frame and
   * every slot that gets a point can be filled with it.
   */
  lemma {:induction false} FillEachSucceeds(shapes: seq<Shape>, isSlot: Shape -> bool,
                                            fill: (Shape, nat) -> Result<Shape, Fault>, next: nat)
    ensures FillEach(shapes, isSlot, fill, next).Ok? <==> Framed(shapes) && Fits(shapes, isSlot, fill, next)
  {
    if |shapes| > 0 {
      var step := if isSlot(shapes[0]) && next <= 4 then 1 else 0;
      FillEachSucceeds(shapes[1..], isSlot, fill, next + step);
      FramedStep(shapes);
      FitsStep(shapes, isSlot, fill, next);
    }
  }

  /** Filling a slot of the body slide with point `k` of the plan element. */
  function Filler(slide: seq<Member>): (Shape, nat) -> Result<Shape, Fault> {
    (sh: Shape, k: nat) => if sh.frame.Some? && 1 <= k <= 4 then FillSlot(sh, PointFor(slide, k)) else Ok(sh)
  }

  /** The point loop of `add_main_slide`. */
  function FillPoints(shapes: seq<Shape>, slide: seq<Member>): (r: Result<seq<Shape>, Fault>)
    ensures r.Ok? ==> |r.value| == |shapes|
  {
    FillEach(shapes, EmptySlot, Filler(slide), 1)
  }

  /**
   * The slot with `c` slots before it takes `point{c + 1}` while `c < 4`, and
   * every other shape is left as it is.
   */
  lemma PointsByRank(shapes: seq<Shape>, slide: seq<Member>)
    requires FillPoints(shapes, slide).Ok?
    ensures var out := FillPoints(shapes, slide).value;
            forall i :: 0 <= i < |shapes| ==>
              if EmptySlot(shapes[i]) && CountWhere(shapes[..i], EmptySlot) < 4
              then FillSlot(shapes[i], PointFor(slide, 1 + CountWhere(shapes[..i], EmptySlot))) == Ok(out[i])
              else out[i] == shapes[i]
  {
    FillEachByRank(shapes, EmptySlot, Filler(slide), 1);
  }

  /**
   * The point loop succeeds exactly when every placeholder has a text frame
   * and every point that lands in a slot is text or falsy.
   */
  lemma PointsSucceed(shapes: seq<Shape>, slide: seq<Member>)
    ensures FillPoints(shapes, slide).Ok? <==>
              && Framed(shapes)
              && forall i :: 0 <= i < |shapes| && EmptySlot(shapes[i]) && CountWhere(shapes[..i], EmptySlot) < 4 ==>
                   var point := PointFor(slide, 1 + CountWhere(shapes[..i], EmptySlot));
                   !Truthy(point) || point.JString?
  {
    FillEachSucceeds(shapes, EmptySlot, Filler(slide), 1);
  }

  /** The plan element asks for a visual slide: its `visual` has a truthy type other than "none". */
  predicate WantsVisual(visual: Json) {
    visual.JObject? && Truthy(GetOr(visual.members, "type", JNull)) && GetOr(visual.members, "type", JNull) != JString("none")
  }

  /** The visual slide's title: the main title and the visual's title, "Visual" when it has none. */
  function Heading(title: Json, visual: seq<Member>, show: Json -> string): string {
    Str(title, show) + " - " + Str(GetOr(visual, "title", JString("Visual")), show)
  }

  /**
   * The visual slide from `layout`: titled with the heading, then given its
   * content; a fault in either step is the outcome.
   */
  function VisualSlideFor(layout: Slide, title: Json, visual: seq<Member>, services: VisualSlide.Services)
    : (r: Result<Slide, Fault>)
    ensures var titled := SetTitle(layout, Heading(title, visual, services.show));
            && (titled.Err? ==> r == Err(titled.error))
            && (titled.Ok? ==> r == VisualSlide.VisualContent(titled.value, visual, services))
  {
    var titled :- SetTitle(layout, Heading(title, visual, services.show));
    VisualSlide.VisualContent(titled, visual, services)
  }

  /** The body slide: layout 12, titled, its slots filled. */
  function BodySlide(d: Deck, slide: seq<Member>): (r: Result<Slide, Fault>)
    ensures |d.layouts| <= BodyLayout ==> r == Err(NoLayout(BodyLayout))
    ensures |d.layouts| > BodyLayout && "title" !in Keys(slide) ==> r == Err(KeyMissing("title"))
    ensures |d.layouts| > BodyLayout && "title" in Keys(slide) ==>
              var titled := TitleFrom(d.layouts[BodyLayout], Get(slide, "title").value);
              && (titled.Err? ==> r == Err(titled.error))
              && (titled.Ok? ==>
                    var filled := FillPoints(titled.value.shapes, slide);
                    && (filled.Err? ==> r == Err(filled.error))
                    && (filled.Ok? ==> r == Ok(Slide(filled.value))))
    ensures r.Ok? ==> && |d.layouts| > BodyLayout && "title" in Keys(slide)
                      && TitleFrom(d.layouts[BodyLayout], Get(slide, "title").value).Ok?
                      && var titled := TitleFrom(d.layouts[BodyLayout], Get(slide, "title").value).value;
                         FillPoints(titled.shapes, slide) == Ok(r.value.shapes)
  {
    var s :- NewSlide(d, BodyLayout);
    var title :- Key(slide, "title");
    var titled :- TitleFrom(s, title);
    var shapes :- FillPoints(titled.shapes, slide);
    Ok(Slide(shapes))
  }

  /**
   * `add_main_slide(prs, slide)`: the body slide is appended, then the visual
   * slide when the plan asks for one; the slides before are untouched.
   */
  function AddMainSlide(d: Deck, slide: seq<Member>, services: VisualSlide.Services): (r: Result<Deck, Fault>)
    ensures r.Ok? ==>
              var visual := GetOr(slide, "visual", JObject([]));
              && BodySlide(d, slide).Ok?
              && visual.JObject?
              && r.value.layouts == d.layouts
              && |r.value.slides| == |d.slides| + (if WantsVisual(visual) then 2 else 1)
              && r.value.slides[..|d.slides|] == d.slides
              && r.value.slides[|d.slides|] == BodySlide(d, slide).value
    ensures BodySlide(d, slide).Err? ==> r == Err(BodySlide(d, slide).error)
    ensures BodySlide(d, slide).Ok? && !GetOr(slide, "visual", JObject([])).JObject? ==> r == Err(NotADict)
    ensures BodySlide(d, slide).Ok? ==>
              var visual := GetOr(slide, "visual", JObject([]));
              && (visual.JObject? && !WantsVisual(visual) ==> r.Ok?)
              && (WantsVisual(visual) ==>
                    var extra := VisualSlideFor(d.layouts[VisualLayout], Get(slide, "title").value, visual.members, services);
                    && (extra.Err? ==> r == Err(extra.error))
                    && (extra.Ok? ==> r.Ok? && r.value.slides[|d.slides| + 1] == extra.value))
  {
    var body :- BodySlide(d, slide);
    var withBody := d.slides + [body];
    assert withBody[..|d.slides|] == d.slides;
    var visual := GetOr(slide, "visual", JObject([]));
    if !visual.JObject? then Err(NotADict)
    else if !WantsVisual(visual) then Ok(d.(slides := withBody))
    else
      var content :- VisualSlideFor(d.layouts[VisualLayout], Get(slide, "title").value, visual.members, services);
      var slides := withBody + [content];
      assert slides[..|d.slides|] == d.slides;
      Ok(d.(slides := slides))
  }
}
