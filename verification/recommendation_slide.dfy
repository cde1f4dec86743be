/**
 * `add_recommendation_slide`: a new slide from layout 3 titled "next steps",
 * whose last shape with a blank first paragraph lists the plan's
 * recommendations.
 */
module RecommendationSlide {
  import opened Outcomes
  import opened Json
  import opened Deck
  import Text
  import PlanParser

  const RecommendationLayout: nat := 3
  const NextSteps: string := "N\U{00F6}vb\U{0259}ti add\U{0131}mlar"

  /** `slide.get(f"recommendation{i}")` for `i` from 1 to 5, absent ones as null. */
  function Recommendations(slide: seq<Member>): (vs: seq<Json>)
    ensures |vs| == 5
    ensures forall i :: 0 <= i < 5 ==> vs[i] == GetOr(slide, PlanParser.RecommendationFields[i], JNull)
  {
    seq(5, i requires 0 <= i < 5 => GetOr(slide, PlanParser.RecommendationFields[i], JNull))
  }

  /** The truthy values among `vs`, in order. */
  function TruthyOnly(vs: seq<Json>): (r: seq<Json>)
    ensures |r| <= |vs|
    ensures forall v :: v in r <==> v in vs && Truthy(v)
  {
    if |vs| == 0 then []
    else if Truthy(vs[0]) then [vs[0]] + TruthyOnly(vs[1..])
    else TruthyOnly(vs[1..])
  }

  /** Every truthy value is kept as many times as it occurs, and no falsy one is. */
  lemma {:induction false} TruthyOnlyCounts(vs: seq<Json>)
    ensures forall v :: multiset(TruthyOnly(vs))[v] == if Truthy(v) then multiset(vs)[v] else 0
  {
    if |vs| > 0 {
      assert vs == [vs[0]] + vs[1..];
      TruthyOnlyCounts(vs[1..]);
    }
  }

  /**
   * The paragraphs the loop adds: one level-1 paragraph per truthy
   * recommendation, in order; a truthy value that is not text stops it.
   */
  function RecommendationParagraphs(vs: seq<Json>): (r: Result<seq<Paragraph>, Fault>)
    ensures r.Ok? <==> forall i :: 0 <= i < |vs| && Truthy(vs[i]) ==> vs[i].JString?
    ensures r.Err? ==> r.error == NotText
    ensures r.Ok? ==> && |r.value| == |TruthyOnly(vs)|
                      && forall j :: 0 <= j < |r.value| ==>
                           r.value[j].level == 1 && TruthyOnly(vs)[j] == JString(ParagraphText(r.value[j]))
  {
    if |vs| == 0 then Ok([])
    else
      var tail := vs[1..];
      assert forall i :: 0 < i < |vs| ==> vs[i] == tail[i - 1];
      if Truthy(vs[0]) then
        var t :- AsText(vs[0]);
        var rest :- RecommendationParagraphs(tail);
        Ok([Paragraph(RunsOf(t), 1)] + rest)
      else RecommendationParagraphs(tail)
  }

  /** A shape whose text frame's first paragraph is blank: a place for the list. */
  predicate BlankLead(sh: Shape) {
    sh.frame.Some? && |sh.frame.value| > 0 && Text.Strip(ParagraphText(sh.frame.value[0])) == ""
  }

  /** The list goes to the last shape with a blank first paragraph. */
  function Target(s: Slide): (r: Option<nat>)
    ensures r.Some? ==> r.value < |s.shapes| && BlankLead(s.shapes[r.value])
    ensures forall k :: 0 <= k < |s.shapes| && (r.None? || r.value < k) ==> !BlankLead(s.shapes[k])
  {
    LastWhere(s.shapes, BlankLead)
  }

  /**
   * The new slide once titled: the title shape, when there is one, reads
   * "next steps" and nothing else changes; without one the slide is as it was.
   */
  function Titled(s: Slide): (r: Result<Slide, Fault>)
    ensures TitleIndex(s).None? ==> r == Ok(s)
    ensures TitleIndex(s).Some? ==> (r.Ok? <==> s.shapes[TitleIndex(s).value].frame.Some?)
    ensures r.Err? ==> r.error == NoTextFrame
    ensures r.Ok? && TitleIndex(s).Some? ==>
              var k := TitleIndex(s).value;
              && |r.value.shapes| == |s.shapes|
              && ShapeText(r.value.shapes[k]) == Ok(NextSteps)
              && r.value.shapes[k].isTitle && r.value.shapes[k].placeholder == s.shapes[k].placeholder
              && forall m :: 0 <= m < |s.shapes| && m != k ==> r.value.shapes[m] == s.shapes[m]
  {
    if TitleIndex(s).None? then Ok(s) else SetTitle(s, NextSteps)
  }

  /**
   * The titled slide with its list: the target's frame is cleared and takes
   * the recommendation paragraphs; every other shape is left as it is.
   */
  function WithList(s: Slide, slide: seq<Member>): (r: Result<Slide, Fault>)
    ensures Target(s).None? ==> r == Ok(s)
    ensures Target(s).Some? ==>
              var k := Target(s).value;
              var ps := RecommendationParagraphs(Recommendations(slide));
              && (r.Ok? <==> ps.Ok?)
              && (r.Ok? ==> && |r.value.shapes| == |s.shapes|
                            && r.value.shapes[k] == s.shapes[k].(frame := Some(Cleared(s.shapes[k].frame.value) + ps.value))
                            && forall m :: 0 <= m < |s.shapes| && m != k ==> r.value.shapes[m] == s.shapes[m])
  {
    match Target(s)
    case None => Ok(s)
    case Some(k) =>
      var ps :- RecommendationParagraphs(Recommendations(slide));
      var sh := s.shapes[k];
      Ok(Slide(s.shapes[k := sh.(frame := Some(Cleared(sh.frame.value) + ps))]))
  }

  /**
   * `add_recommendation_slide(prs, slide)`: one slide is appended and the
   * slides before it are untouched.
   */
  function AddRecommendationSlide(d: Deck, slide: seq<Member>): (r: Result<Deck, Fault>)
    ensures |d.layouts| <= RecommendationLayout ==> r == Err(NoLayout(RecommendationLayout))
    ensures |d.layouts| > RecommendationLayout ==>
              var titled := Titled(d.layouts[RecommendationLayout]);
              && (titled.Err? ==> r == Err(titled.error))
              && (titled.Ok? ==>
                    var listed := WithList(titled.value, slide);
                    && (listed.Err? ==> r == Err(listed.error))
                    && (listed.Ok? ==> r.Ok?))
    ensures r.Ok? ==> && |d.layouts| > RecommendationLayout
                      && r.value.layouts == d.layouts
                      && |r.value.slides| == |d.slides| + 1
                      && r.value.slides[..|d.slides|] == d.slides
                      && Titled(d.layouts[RecommendationLayout]).Ok?
                      && WithList(Titled(d.layouts[RecommendationLayout]).value, slide) == Ok(r.value.slides[|d.slides|])
  {
    var s :- NewSlide(d, RecommendationLayout);
    var titled :- Titled(s);
    var listed :- WithList(titled, slide);
    var slides := d.slides + [listed];
    assert slides[..|d.slides|] == d.slides;
    Ok(d.(slides := slides))
  }

  /**
   * The slide is added whenever layout 3 exists, its title shape (if any) has
   * a text frame, and every truthy recommendation is text.
   */
  lemma RecommendationSlideAdded(d: Deck, slide: seq<Member>)
    requires |d.layouts| > RecommendationLayout
    requires var s := d.layouts[RecommendationLayout];
             TitleIndex(s).Some? ==> s.shapes[TitleIndex(s).value].frame.Some?
    requires forall i :: 0 <= i < 5 ==>
               var v := GetOr(slide, PlanParser.RecommendationFields[i], JNull);
               Truthy(v) ==> v.JString?
    ensures AddRecommendationSlide(d, slide).Ok?
  {
    var vs := Recommendations(slide);
    assert RecommendationParagraphs(vs).Ok?;
  }

  /** Appending a value keeps the earlier truthy values in order and adds the new one when it is truthy. */
  lemma {:induction false} TruthyOnlySnoc(vs: seq<Json>, v: Json)
    ensures TruthyOnly(vs + [v]) == TruthyOnly(vs) + (if Truthy(v) then [v] else [])
  {
    if |vs| == 0 {
      assert vs + [v] == [v];
    } else {
      assert (vs + [v])[0] == vs[0];
      assert (vs + [v])[1..] == vs[1..] + [v];
      TruthyOnlySnoc(vs[1..], v);
    }
  }

  /** All five recommendations present as non-empty text: five paragraphs, in order. */
  lemma AllFiveListed(slide: seq<Member>)
    requires forall i :: 0 <= i < 5 ==>
               var v := GetOr(slide, PlanParser.RecommendationFields[i], JNull);
               v.JString? && |v.s| > 0
    ensures var ps := RecommendationParagraphs(Recommendations(slide));
            && ps.Ok? && |ps.value| == 5
            && forall j :: 0 <= j < 5 ==>
                 JString(ParagraphText(ps.value[j])) == GetOr(slide, PlanParser.RecommendationFields[j], JNull)
  {
    var vs := Recommendations(slide);
    AllTruthyKept(vs);
  }

  lemma {:induction false} AllTruthyKept(vs: seq<Json>)
    requires forall i :: 0 <= i < |vs| ==> Truthy(vs[i])
    ensures TruthyOnly(vs) == vs
  {
    if |vs| > 0 {
      var tail := vs[1..];
      assert forall i :: 0 <= i < |tail| ==> tail[i] == vs[i + 1];
      AllTruthyKept(tail);
      assert vs == [vs[0]] + tail;
    }
  }
}
