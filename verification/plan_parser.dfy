/**
 * `parse_gpt_response`: cut the bracketed JSON array out of the language
 * model's free-form answer, decode it, and check every slide of the plan.
 * Decoding JSON text is the opaque partial function `decode` (`json.loads`).
 */
module PlanParser {
  import opened Outcomes
  import opened Json
  import Text

  /** Why one element of the plan was refused. */
  datatype SlideProblem =
    | NotAnObject
    | UnhashableType
    | UnknownType(found: Json)
    | TitleFieldsMissing
    | IntroFieldsMissing
    | MainFieldsMissing(missing: set<string>)
    | VisualNotAnObject
    | TooFewRecommendations

  /** The exception `parse_gpt_response` lets escape. */
  datatype ParseError =
    | NoBracketedText
    | InvalidJson
    | NotAList
    | BadSlide(index: nat, problem: SlideProblem)
  {
    /**
     * Whether the exception is a `ValueError`. With no bracketed text the local
     * `cleaned_text` is never bound, so `json.loads(cleaned_text)` raises
     * `UnboundLocalError`; a list or dict as `type` cannot be looked up in a set
     * and raises `TypeError`.
     */
    predicate IsValueError() {
      match this
      case NoBracketedText => false
      case BadSlide(_, UnhashableType) => false
      case _ => true
    }
  }

  const SlideTypes: set<string> := {"title", "intro", "main", "recommendation"}

  const MainFields: set<string> := {"title", "point1", "point2", "point3", "point4", "visual"}

  /** `[f"recommendation{i}" for i in range(1, 6)]`. */
  const RecommendationFields: seq<string> :=
    ["recommendation1", "recommendation2", "recommendation3", "recommendation4", "recommendation5"]

  // ---------------------------------------------------------------------------
  // Cutting the payload: re.search(r'\[.*\]', text, re.DOTALL)
  // ---------------------------------------------------------------------------

  /** The pattern `\[.*\]` (with `.` matching newlines too) matches `text[i..j]`. */
  ghost predicate BracketMatch(text: string, i: int, j: int) {
    0 <= i && i + 2 <= j <= |text| && text[i] == '[' && text[j - 1] == ']'
  }

  /**
   * The match `re.search` reports: it starts at the leftmost position where the
   * pattern matches at all, and the greedy `.*` makes it as long as possible.
   */
  ghost predicate SearchMatch(text: string, i: int, j: int) {
    && BracketMatch(text, i, j)
    && (forall i', j' :: BracketMatch(text, i', j') ==> i <= i')
    && (forall j' :: BracketMatch(text, i, j') ==> j' <= j)
  }

  /** Index of the first occurrence of `c` in `s`. */
  function FirstIndex(s: string, c: char): (r: Option<nat>)
    ensures r.Some? ==> r.value < |s| && s[r.value] == c
    ensures forall m :: 0 <= m < |s| && (r.None? || m < r.value) ==> s[m] != c
  {
    if |s| == 0 then None
    else if s[0] == c then Some(0)
    else
      match FirstIndex(s[1..], c)
      case None => None
      case Some(k) => Some(k + 1)
  }

  /** Index of the last occurrence of `c` in `s`. */
  function LastIndex(s: string, c: char): (r: Option<nat>)
    ensures r.Some? ==> r.value < |s| && s[r.value] == c
    ensures forall m :: 0 <= m < |s| && (r.None? || r.value < m) ==> s[m] != c
  {
    if |s| == 0 then None
    else if s[|s| - 1] == c then Some(|s| - 1)
    else LastIndex(s[..|s| - 1], c)
  }

  /**
   * `match.group(0)` when `re.search` matches, from the first `[` to the last `]`;
   * `None` when it does not.
   */
  function BracketedText(text: string): (r: Option<string>)
    ensures r.Some? <==> exists i, j :: BracketMatch(text, i, j)
    ensures r.Some? ==> exists i, j :: SearchMatch(text, i, j) && r.value == text[i..j]
  {
    match (FirstIndex(text, '['), LastIndex(text, ']'))
    case (Some(i), Some(k)) =>
      if i < k then
        assert SearchMatch(text, i, k + 1);
        Some(text[i..k + 1])
      else None
    case _ => None
  }

  /**
   * Prose before the array and after it is ignored, provided the prose before
   * holds no `[` and the prose after holds no `]` (a fenced code block, say).
   */
  lemma {:induction false} SurroundingProseIgnored(before: string, body: string, after: string)
    requires '[' !in before && ']' !in after
    requires |body| >= 2 && body[0] == '[' && body[|body| - 1] == ']'
    ensures BracketedText(before + body + after) == Some(body)
  {
    var text := before + body + after;
    var i, j := |before|, |before| + |body|;
    assert text[i..j] == body;
    assert BracketMatch(text, i, j);
    assert forall m :: 0 <= m < i ==> text[m] != '[' by {
      forall m | 0 <= m < i ensures text[m] != '[' {
        assert text[m] == before[m];
      }
    }
    assert forall m :: j <= m < |text| ==> text[m] != ']' by {
      forall m | j <= m < |text| ensures text[m] != ']' {
        assert text[m] == after[m - j];
      }
    }
    var p := BracketedText(text).value;
    var i1, j1 :| SearchMatch(text, i1, j1) && p == text[i1..j1];
    assert i1 == i && j1 == j;
  }

  // ---------------------------------------------------------------------------
  // Checking one slide
  // ---------------------------------------------------------------------------

  /** How many of `names` are keys of the object: `len([f for f in names if f in slide])`. */
  function CountPresent(names: seq<string>, ms: seq<Member>): (n: nat)
    ensures n <= |names|
  {
    if |names| == 0 then 0
    else (if names[0] in Keys(ms) then 1 else 0) + CountPresent(names[1..], ms)
  }

  /** No name occurs twice in `names`. */
  ghost predicate Distinct(names: seq<string>) {
    forall a, b :: 0 <= a < b < |names| ==> names[a] != names[b]
  }

  /** Counting the listed names that are keys counts the distinct keys among them. */
  lemma {:induction false} CountPresentIsKeyCount(names: seq<string>, ms: seq<Member>)
    requires Distinct(names)
    ensures CountPresent(names, ms) == |set f | f in names && f in Keys(ms)|
  {
    var keys := Keys(ms);
    if |names| == 0 {
      assert (set f | f in names && f in keys) == {};
    } else {
      var rest := names[1..];
      assert Distinct(rest) by {
        forall a, b | 0 <= a < b < |rest| ensures rest[a] != rest[b] {
          assert rest[a] == names[a + 1] && rest[b] == names[b + 1];
        }
      }
      CountPresentIsKeyCount(rest, ms);
      var here := set f | f in names && f in keys;
      var later := set f | f in rest && f in keys;
      assert names[0] !in rest by {
        forall b | 0 <= b < |rest| ensures rest[b] != names[0] {
          assert rest[b] == names[b + 1];
        }
      }
      assert names == [names[0]] + rest;
      if names[0] in keys {
        assert here == {names[0]} + later;
      } else {
        assert here == later;
      }
    }
  }

  /**
   * What a well-formed slide is, stated declaratively: an object whose `type`
   * is one of the four slide kinds and which has the keys that kind needs.
   * Only keys are looked at; no value but `main.visual` is inspected.
   */
  ghost predicate ValidSlide(j: Json) {
    && j.JObject?
    && var keys := Keys(j.members);
       var t := Get(j.members, "type");
       && t.Some? && t.value.JString? && t.value.s in SlideTypes
       && (t.value.s == "title" ==> "title" in keys)
       && (t.value.s == "intro" ==> "aim" in keys && "summary" in keys)
       && (t.value.s == "main" ==> MainFields <= keys && Get(j.members, "visual").value.JObject?)
       && (t.value.s == "recommendation" ==>
             |set f | f in RecommendationFields && f in keys| >= 4)
  }

  /** The first check of `parse_gpt_response`'s loop body that fails for `j`, if any. */
  function CheckSlide(j: Json): (r: Option<SlideProblem>)
    ensures r.None? <==> ValidSlide(j)
    ensures r == Some(UnhashableType) <==>
              j.JObject? && (GetOr(j.members, "type", JNull).JArray? || GetOr(j.members, "type", JNull).JObject?)
    ensures r == Some(NotAnObject) <==> !j.JObject?
    ensures r.Some? && r.value.UnknownType? <==>
              && j.JObject?
              && var t := GetOr(j.members, "type", JNull);
                 !t.JArray? && !t.JObject? && !(t.JString? && t.s in SlideTypes)
    ensures r.Some? && r.value.UnknownType? ==> r.value.found == GetOr(j.members, "type", JNull)
    ensures r == Some(TitleFieldsMissing) <==>
              j.JObject? && GetOr(j.members, "type", JNull) == JString("title") && "title" !in Keys(j.members)
    ensures r == Some(IntroFieldsMissing) <==>
              && j.JObject? && GetOr(j.members, "type", JNull) == JString("intro")
              && !("aim" in Keys(j.members) && "summary" in Keys(j.members))
    ensures r.Some? && r.value.MainFieldsMissing? <==>
              j.JObject? && GetOr(j.members, "type", JNull) == JString("main") && !(MainFields <= Keys(j.members))
    ensures r.Some? && r.value.MainFieldsMissing? ==>
              r.value.missing == MainFields - Keys(j.members) && r.value.missing != {}
    ensures r == Some(VisualNotAnObject) <==>
              && j.JObject? && GetOr(j.members, "type", JNull) == JString("main") && MainFields <= Keys(j.members)
              && !GetOr(j.members, "visual", JNull).JObject?
    ensures r == Some(TooFewRecommendations) <==>
              && j.JObject? && GetOr(j.members, "type", JNull) == JString("recommendation")
              && |set f | f in RecommendationFields && f in Keys(j.members)| < 4
  {
    if !j.JObject? then Some(NotAnObject)
    else
      var ms := j.members;
      var t := GetOr(ms, "type", JNull);
      if t.JArray? || t.JObject? then Some(UnhashableType)
      else if !(t.JString? && t.s in SlideTypes) then Some(UnknownType(t))
      else if t.s == "title" then
        if "title" in Keys(ms) then None else Some(TitleFieldsMissing)
      else if t.s == "intro" then
        if "aim" in Keys(ms) && "summary" in Keys(ms) then None else Some(IntroFieldsMissing)
      else if t.s == "main" then
        if !(MainFields <= Keys(ms)) then
          SomeMissing(MainFields, Keys(ms));
          Some(MainFieldsMissing(MainFields - Keys(ms)))
        else if !Get(ms, "visual").value.JObject? then Some(VisualNotAnObject)
        else None
      else
        CountPresentIsKeyCount(RecommendationFields, ms);
        if CountPresent(RecommendationFields, ms) < 4 then Some(TooFewRecommendations) else None
  }

  lemma SomeMissing(need: set<string>, have: set<string>)
    requires !(need <= have)
    ensures need - have != {}
  {
    var w :| w in need && w !in have;
    assert w in need - have;
  }

  /** Four recommendations suffice, and even empty strings count: only the keys are looked at. */
  lemma FourRecommendationsAccepted()
    ensures CheckSlide(JObject([
              Member("type", JString("recommendation")),
              Member("recommendation1", JString("")), Member("recommendation2", JString("")),
              Member("recommendation3", JString("")), Member("recommendation4", JString(""))])) == None
  {
    var ms := [
      Member("type", JString("recommendation")),
      Member("recommendation1", JString("")), Member("recommendation2", JString("")),
      Member("recommendation3", JString("")), Member("recommendation4", JString(""))];
    assert Get(ms, "type") == Some(JString("recommendation"));
    assert forall k :: 0 <= k < 4 ==> RecommendationFields[k] in Keys(ms) by {
      assert ms[1].key == RecommendationFields[0] && ms[2].key == RecommendationFields[1];
      assert ms[3].key == RecommendationFields[2] && ms[4].key == RecommendationFields[3];
    }
    CountFirstFour(ms);
  }

  lemma CountFirstFour(ms: seq<Member>)
    requires forall k :: 0 <= k < 4 ==> RecommendationFields[k] in Keys(ms)
    ensures CountPresent(RecommendationFields, ms) >= 4
  {
    var names := RecommendationFields;
    assert names[3..][0] == names[3] && names[3..][1..] == names[4..];
    assert CountPresent(names[3..], ms) >= 1;
    assert names[2..][0] == names[2] && names[2..][1..] == names[3..];
    assert CountPresent(names[2..], ms) >= 2;
    assert names[1..][0] == names[1] && names[1..][1..] == names[2..];
    assert CountPresent(names[1..], ms) >= 3;
  }

  /** Three recommendations are refused. */
  lemma ThreeRecommendationsRefused()
    ensures CheckSlide(JObject([
              Member("type", JString("recommendation")),
              Member("recommendation1", JString("a")), Member("recommendation2", JString("b")),
              Member("recommendation3", JString("c"))])) == Some(TooFewRecommendations)
  {
    var ms := [
      Member("type", JString("recommendation")),
      Member("recommendation1", JString("a")), Member("recommendation2", JString("b")),
      Member("recommendation3", JString("c"))];
    assert Get(ms, "type") == Some(JString("recommendation"));
    var names := RecommendationFields;
    assert Keys(ms) == {"type", "recommendation1", "recommendation2", "recommendation3"};
    assert names[3] !in Keys(ms) && names[4] !in Keys(ms);
    assert names[3..][1..] == names[4..];
    assert names[2..][1..] == names[3..];
    assert names[1..][1..] == names[2..];
  }

  /** A body slide without `point3` is refused, and the error names exactly `point3`. */
  lemma MissingPointNamed(title: Json, p1: Json, p2: Json, p4: Json, visual: Json)
    ensures CheckSlide(JObject([
              Member("type", JString("main")), Member("title", title), Member("point1", p1),
              Member("point2", p2), Member("point4", p4), Member("visual", visual)]))
            == Some(MainFieldsMissing({"point3"}))
  {
    var ms := [
      Member("type", JString("main")), Member("title", title), Member("point1", p1),
      Member("point2", p2), Member("point4", p4), Member("visual", visual)];
    assert Get(ms, "type") == Some(JString("main"));
    KeysWithoutPoint3(ms);
    assert MainFields - Keys(ms) == {"point3"};
  }

  lemma KeysWithoutPoint3(ms: seq<Member>)
    requires |ms| == 6 && ms[0].key == "type" && ms[1].key == "title" && ms[2].key == "point1"
    requires ms[3].key == "point2" && ms[4].key == "point4" && ms[5].key == "visual"
    ensures Keys(ms) == {"type", "title", "point1", "point2", "point4", "visual"}
  {
    assert ms[0] in ms && ms[1] in ms && ms[2] in ms && ms[3] in ms && ms[4] in ms && ms[5] in ms;
  }

  // ---------------------------------------------------------------------------
  // Checking the plan and the whole response
  // ---------------------------------------------------------------------------

  /** Every slide of the plan is well formed. */
  ghost predicate ValidPlan(items: seq<Json>) {
    forall k :: 0 <= k < |items| ==> ValidSlide(items[k])
  }

  /** The `for i, slide in enumerate(slides)` loop, from position `start` on. */
  function ValidateFrom(items: seq<Json>, start: nat): (r: Result<seq<Json>, ParseError>)
    requires start <= |items|
    ensures r.Ok? <==> forall k :: start <= k < |items| ==> ValidSlide(items[k])
    ensures r.Ok? ==> r.value == items
    ensures r.Err? ==> && r.error.BadSlide?
                       && start <= r.error.index < |items|
                       && CheckSlide(items[r.error.index]) == Some(r.error.problem)
                       && forall k :: start <= k < r.error.index ==> ValidSlide(items[k])
    decreases |items| - start
  {
    if start == |items| then Ok(items)
    else
      match CheckSlide(items[start])
      case Some(p) => Err(BadSlide(start, p))
      case None => ValidateFrom(items, start + 1)
  }

  /**
   * The plan checks succeed exactly when every slide is well formed, and then
   * hand the decoded list back unchanged; otherwise the error names the first
   * bad slide and what is wrong with it.
   */
  function ValidatePlan(items: seq<Json>): (r: Result<seq<Json>, ParseError>)
    ensures r.Ok? <==> ValidPlan(items)
    ensures r.Ok? ==> r.value == items
    ensures r.Err? ==> && r.error.BadSlide?
                       && r.error.index < |items|
                       && CheckSlide(items[r.error.index]) == Some(r.error.problem)
                       && ValidPlan(items[..r.error.index])
  {
    var r := ValidateFrom(items, 0);
    assert r.Err? ==> forall k :: 0 <= k < r.error.index ==> items[..r.error.index][k] == items[k];
    r
  }

  /** Validity is a property of each slide alone, so it splits over concatenation. */
  lemma ValidPlanConcat(xs: seq<Json>, ys: seq<Json>)
    ensures ValidPlan(xs + ys) <==> ValidPlan(xs) && ValidPlan(ys)
  {
    var zs := xs + ys;
    assert forall k :: 0 <= k < |xs| ==> zs[k] == xs[k];
    assert forall k :: 0 <= k < |ys| ==> zs[|xs| + k] == ys[k];
    if ValidPlan(xs) && ValidPlan(ys) {
      forall k | 0 <= k < |zs| ensures ValidSlide(zs[k]) {
        if k >= |xs| { assert zs[k] == ys[k - |xs|]; }
      }
    }
  }

  /** `parse_gpt_response(text)`. */
  function ParseResponse(text: string, decode: string -> Option<Json>): (r: Result<seq<Json>, ParseError>)
    ensures BracketedText(text).None? <==> r == Err(NoBracketedText)
    ensures r.Ok? <==> && BracketedText(text).Some?
                       && decode(BracketedText(text).value).Some?
                       && decode(BracketedText(text).value).value.JArray?
                       && ValidPlan(decode(BracketedText(text).value).value.items)
    ensures BracketedText(text).Some? && decode(BracketedText(text).value).None? ==> r == Err(InvalidJson)
    ensures BracketedText(text).Some? && decode(BracketedText(text).value).Some? ==>
              var v := decode(BracketedText(text).value).value;
              && (!v.JArray? ==> r == Err(NotAList))
              && (v.JArray? ==> r == ValidatePlan(v.items))
    ensures r.Ok? ==> decode(BracketedText(text).value) == Some(JArray(r.value))
  {
    match BracketedText(text)
    case None => Err(NoBracketedText)
    case Some(p) =>
      assert Text.Strip(p) == p by { Text.StripUnchanged(p); }
      match decode(Text.Strip(p))
      case None => Err(InvalidJson)
      case Some(JArray(items)) => ValidatePlan(items)
      case Some(_) => Err(NotAList)
  }

  /**
   * Re-parsing the serialisation of a well-formed plan (every plan `ParseResponse`
   * accepts is one) gives the same plan back, for any serialiser that writes a
   * JSON array as bracketed text `decode` reads back.
   */
  lemma ReparseAccepted(decode: string -> Option<Json>, encoded: string, plan: seq<Json>)
    requires ValidPlan(plan)
    requires |encoded| >= 2 && encoded[0] == '[' && encoded[|encoded| - 1] == ']'
    requires decode(encoded) == Some(JArray(plan))
    ensures ParseResponse(encoded, decode) == Ok(plan)
  {
    SurroundingProseIgnored("", encoded, "");
    assert "" + encoded + "" == encoded;
  }
}
