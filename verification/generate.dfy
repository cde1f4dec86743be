/**
 * `generate_pptx`: every plan element is rendered into the template deck in
 * order, then the template's two sample slides at positions 2 and 3 are
 * removed. Loading the template and saving the file are not modelled.
 */
module Generate {
  import opened Outcomes
  import opened Json
  import opened Deck
  import TitleSlide
  import IntroSlide
  import MainSlide
  import VisualSlide
  import RecommendationSlide

  /** `delete_slide(prs, i)`: the slide at `i` is removed and the others keep their order. */
  function DeleteSlide(d: Deck, i: nat): (r: Result<Deck, Fault>)
    ensures r.Ok? <==> i < |d.slides|
    ensures r.Err? ==> r.error == NoSlide(i)
    ensures r.Ok? ==> && r.value.layouts == d.layouts
                      && |r.value.slides| == |d.slides| - 1
                      && forall k :: 0 <= k < |r.value.slides| ==>
                           r.value.slides[k] == d.slides[if k < i then k else k + 1]
  {
    if i < |d.slides| then Ok(d.(slides := d.slides[..i] + d.slides[i + 1..]))
    else Err(NoSlide(i))
  }

  /** Removing slide 3 and then slide 2 removes exactly the slides at 2 and 3. */
  lemma DeleteThreeThenTwo(d: Deck)
    requires |d.slides| >= 4
    ensures DeleteSlide(d, 3).Ok?
    ensures DeleteSlide(DeleteSlide(d, 3).value, 2) == Ok(d.(slides := d.slides[..2] + d.slides[4..]))
  {
    var once := DeleteSlide(d, 3).value;
    var twice := DeleteSlide(once, 2).value;
    assert twice.slides == d.slides[..2] + d.slides[4..];
  }

  /** The element's `type`, with `.get('type')` giving null when there is none. */
  function TypeOf(ms: seq<Member>): Json {
    GetOr(ms, "type", JNull)
  }

  /** The types the loop renders; every other type is skipped. */
  predicate Dispatched(t: Json) {
    t == JString("title") || t == JString("intro") || t == JString("main") || t == JString("recommendation")
  }

  /** How many slides rendering `element` appends to the deck. */
  function Appended(element: Json): nat {
    if !element.JObject? then 0
    else if TypeOf(element.members) == JString("main") then
      if MainSlide.WantsVisual(GetOr(element.members, "visual", JObject([]))) then 2 else 1
    else if TypeOf(element.members) == JString("recommendation") then 1
    else 0
  }

  /**
   * One iteration of the loop in `generate_pptx`: the element is dispatched
   * on its type; title and intro rewrite template slides 0 and 1, main and
   * recommendation append, any other type is skipped.
   */
  function AddSlideFor(d: Deck, element: Json, services: VisualSlide.Services, today: TitleSlide.Date)
    : (r: Result<Deck, Fault>)
    requires TitleSlide.ValidDate(today)
    ensures !element.JObject? ==> r == Err(NotADict)
    ensures r.Ok? ==> && r.value.layouts == d.layouts
                      && |r.value.slides| == |d.slides| + Appended(element)
                      && forall k :: 2 <= k < |d.slides| ==> r.value.slides[k] == d.slides[k]
    ensures element.JObject? && TypeOf(element.members) == JString("title") ==>
              r == TitleSlide.AddTitleSlide(d, element.members, today)
    ensures element.JObject? && TypeOf(element.members) == JString("intro") ==>
              r == IntroSlide.AddIntroSlide(d, element.members)
    ensures element.JObject? && TypeOf(element.members) == JString("main") ==>
              r == MainSlide.AddMainSlide(d, element.members, services)
    ensures element.JObject? && TypeOf(element.members) == JString("recommendation") ==>
              r == RecommendationSlide.AddRecommendationSlide(d, element.members)
    ensures element.JObject? && !Dispatched(TypeOf(element.members)) ==> r == Ok(d)
  {
    if !element.JObject? then Err(NotADict)
    else
      var ms := element.members;
      var t := TypeOf(ms);
      if t == JString("title") then TitleSlide.AddTitleSlide(d, ms, today)
      else if t == JString("intro") then IntroSlide.AddIntroSlide(d, ms)
      else if t == JString("main") then
        var r := MainSlide.AddMainSlide(d, ms, services);
        if r.Ok? then PrefixKept(d.slides, r.value.slides); r else r
      else if t == JString("recommendation") then
        var r := RecommendationSlide.AddRecommendationSlide(d, ms);
        if r.Ok? then PrefixKept(d.slides, r.value.slides); r else r
      else Ok(d)
  }

  /** Slides kept as a prefix keep their positions. */
  lemma PrefixKept(before: seq<Slide>, after: seq<Slide>)
    requires |before| <= |after| && after[..|before|] == before
    ensures forall k :: 0 <= k < |before| ==> after[k] == before[k]
  {
    assert forall k :: 0 <= k < |before| ==> after[k] == after[..|before|][k];
  }

  /** How many slides rendering the whole plan appends. */
  function TotalAppended(plan: seq<Json>): nat {
    if |plan| == 0 then 0 else Appended(plan[0]) + TotalAppended(plan[1..])
  }

  /**
   * The loop of `generate_pptx`: the elements in order, stopping at the first
   * fault. Slides from position 2 of the deck on are never rewritten.
   */
  function Build(d: Deck, plan: seq<Json>, services: VisualSlide.Services, today: TitleSlide.Date)
    : (r: Result<Deck, Fault>)
    requires TitleSlide.ValidDate(today)
    ensures r.Ok? ==> && r.value.layouts == d.layouts
                      && |r.value.slides| == |d.slides| + TotalAppended(plan)
                      && forall k :: 2 <= k < |d.slides| ==> r.value.slides[k] == d.slides[k]
    decreases |plan|
  {
    if |plan| == 0 then Ok(d)
    else
      var next :- AddSlideFor(d, plan[0], services, today);
      Build(next, plan[1..], services, today)
  }

  /** One loop iteration as a step function, for stating facts about the whole loop. */
  function Stepper(services: VisualSlide.Services, today: TitleSlide.Date): (step: (Deck, Json) -> Result<Deck, Fault>)
    requires TitleSlide.ValidDate(today)
    ensures forall e, j :: step(e, j) == AddSlideFor(e, j, services, today)
  {
    (e: Deck, j: Json) => AddSlideFor(e, j, services, today)
  }

  /** The shape of the loop for any step: elements in order, stopping at the first fault. */
  function Fold(d: Deck, plan: seq<Json>, step: (Deck, Json) -> Result<Deck, Fault>): Result<Deck, Fault>
    decreases |plan|
  {
    if |plan| == 0 then Ok(d)
    else
      var next :- step(d, plan[0]);
      Fold(next, plan[1..], step)
  }

  /** `Build` is the loop with `AddSlideFor` as its step. */
  lemma {:induction false} BuildIsFold(d: Deck, plan: seq<Json>, services: VisualSlide.Services, today: TitleSlide.Date)
    requires TitleSlide.ValidDate(today)
    ensures Build(d, plan, services, today) == Fold(d, plan, Stepper(services, today))
    decreases |plan|
  {
    if |plan| > 0 {
      var first := AddSlideFor(d, plan[0], services, today);
      if first.Ok? {
        BuildIsFold(first.value, plan[1..], services, today);
      }
    }
  }

  /**
   * The loop seen from its last element: one element more is rendered into
   * the deck built so far, unless an earlier element already failed.
   */
  lemma {:induction false} FoldSnoc(d: Deck, xs: seq<Json>, x: Json, step: (Deck, Json) -> Result<Deck, Fault>)
    ensures var before := Fold(d, xs, step);
            Fold(d, xs + [x], step) == if before.Err? then before else step(before.value, x)
    decreases |xs|
  {
    if |xs| == 0 {
      assert xs + [x] == [x];
      assert [x][1..] == [];
    } else {
      assert (xs + [x])[0] == xs[0];
      assert (xs + [x])[1..] == xs[1..] + [x];
      var first := step(d, xs[0]);
      if first.Ok? {
        FoldSnoc(first.value, xs[1..], x, step);
      }
    }
  }

  /** Folding the first `k` elements succeeds, and so does the step for the element after them. */
  predicate StepOk(d: Deck, plan: seq<Json>, k: nat, step: (Deck, Json) -> Result<Deck, Fault>)
    requires k < |plan|
  {
    Fold(d, plan[..k], step).Ok? && step(Fold(d, plan[..k], step).value, plan[k]).Ok?
  }

  /**
   * The loop succeeds exactly when every element's step succeeds on the deck
   * the elements before it built; when it fails, the fault is that of the
   * first element whose step fails.
   */
  lemma {:induction false} FoldSteps(d: Deck, plan: seq<Json>, step: (Deck, Json) -> Result<Deck, Fault>)
    ensures Fold(d, plan, step).Ok? <==> forall k :: 0 <= k < |plan| ==> StepOk(d, plan, k, step)
    ensures Fold(d, plan, step).Err? ==>
              exists k :: && 0 <= k < |plan|
                          && (forall j :: 0 <= j < k ==> StepOk(d, plan, j, step))
                          && Fold(d, plan[..k], step).Ok?
                          && step(Fold(d, plan[..k], step).value, plan[k]) == Err(Fold(d, plan, step).error)
    decreases |plan|
  {
    if |plan| > 0 {
      var n := |plan| - 1;
      var xs := plan[..n];
      var x := plan[n];
      assert plan == xs + [x];
      FoldSnoc(d, xs, x, step);
      FoldSteps(d, xs, step);
      forall k | 0 <= k < n
        ensures StepOk(d, plan, k, step) == StepOk(d, xs, k, step)
      {
        assert plan[..k] == xs[..k];
      }
      assert StepOk(d, plan, n, step) <==> Fold(d, xs, step).Ok? && step(Fold(d, xs, step).value, x).Ok?;
      if Fold(d, xs, step).Err? {
        var k :| && 0 <= k < |xs|
                 && (forall j :: 0 <= j < k ==> StepOk(d, xs, j, step))
                 && Fold(d, xs[..k], step).Ok?
                 && step(Fold(d, xs[..k], step).value, xs[k]) == Err(Fold(d, xs, step).error);
        assert plan[..k] == xs[..k];
      }
    }
  }

  /**
   * Rendering the plan succeeds exactly when every element renders into the
   * deck the elements before it built; a fault is the first element's fault.
   */
  lemma BuildSteps(d: Deck, plan: seq<Json>, services: VisualSlide.Services, today: TitleSlide.Date)
    requires TitleSlide.ValidDate(today)
    ensures var step := Stepper(services, today);
            && (Build(d, plan, services, today).Ok? <==> forall k :: 0 <= k < |plan| ==> StepOk(d, plan, k, step))
            && (Build(d, plan, services, today).Err? ==>
                  exists k :: && 0 <= k < |plan|
                              && (forall j :: 0 <= j < k ==> StepOk(d, plan, j, step))
                              && Fold(d, plan[..k], step).Ok?
                              && AddSlideFor(Fold(d, plan[..k], step).value, plan[k], services, today)
                                 == Err(Build(d, plan, services, today).error))
  {
    BuildIsFold(d, plan, services, today);
    FoldSteps(d, plan, Stepper(services, today));
  }

  /**
   * `generate_pptx(slides)` up to saving: the rendered deck without the
   * slides at positions 2 and 3, which are the template's own sample slides
   * whenever the template has at least four.
   */
  function GeneratePptx(template: Deck, plan: seq<Json>, services: VisualSlide.Services, today: TitleSlide.Date)
    : (r: Result<Deck, Fault>)
    requires TitleSlide.ValidDate(today)
    ensures Build(template, plan, services, today).Err? ==> r == Build(template, plan, services, today)
    ensures r.Ok? <==> Build(template, plan, services, today).Ok?
                       && |Build(template, plan, services, today).value.slides| >= 4
    ensures Build(template, plan, services, today).Ok? && |template.slides| >= 4 ==> r.Ok?
    ensures Build(template, plan, services, today).Ok? ==>
              var built := Build(template, plan, services, today).value;
              && (r.Ok? <==> |built.slides| >= 4)
              && (r.Err? ==> r.error == NoSlide(3))
              && (r.Ok? ==> r.value == built.(slides := built.slides[..2] + built.slides[4..]))
    ensures r.Ok? ==> |r.value.slides| == |template.slides| + TotalAppended(plan) - 2
    ensures r.Ok? && |template.slides| >= 4 ==>
              && r.value.slides[..2] == Build(template, plan, services, today).value.slides[..2]
              && r.value.slides[2..|template.slides| - 2] == template.slides[4..]
  {
    var built :- Build(template, plan, services, today);
    var once :- DeleteSlide(built, 3);
    DeleteThreeThenTwo(built);
    var result := built.(slides := built.slides[..2] + built.slides[4..]);
    assert |template.slides| >= 4 ==> result.slides[2..|template.slides| - 2] == template.slides[4..];
    DeleteSlide(once, 2)
  }
}
