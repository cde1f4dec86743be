/**
 * `add_title_slide`: the template's first slide gets the plan's title in its
 * title placeholder and today's date in the placeholder that mentions "Tarix".
 */
module TitleSlide {
  import opened Outcomes
  import opened Json
  import opened Deck
  import Text

  /** A calendar date as `date.today()` gives it. */
  datatype Date = Date(day: nat, month: nat, year: nat)

  /** Dates the model formats: four-digit years. */
  predicate ValidDate(d: Date) {
    1 <= d.day <= 31 && 1 <= d.month <= 12 && 1000 <= d.year <= 9999
  }

  /** Reads a `DD/MM/YYYY` text back into a date. */
  function ReadDate(s: string): Date
    requires |s| == 10
  {
    Date(Text.DigitValue(s[0]) * 10 + Text.DigitValue(s[1]),
         Text.DigitValue(s[3]) * 10 + Text.DigitValue(s[4]),
         ((Text.DigitValue(s[6]) * 10 + Text.DigitValue(s[7])) * 100
          + Text.DigitValue(s[8]) * 10 + Text.DigitValue(s[9])))
  }

  /** `today.strftime("%d/%m/%Y")`: two-digit day and month, four-digit year. */
  function FormatDate(d: Date): (s: string)
    requires ValidDate(d)
    ensures |s| == 10 && s[2] == '/' && s[5] == '/'
    ensures ReadDate(s) == d
  {
    var day := Text.Pad2(d.day);
    var month := Text.Pad2(d.month);
    var year := Text.Pad4(d.year);
    var s := day + "/" + month + "/" + year;
    assert s[0] == day[0] && s[1] == day[1] && s[3] == month[0] && s[4] == month[1];
    assert s[6] == year[0] && s[7] == year[1] && s[8] == year[2] && s[9] == year[3];
    s
  }

  const DateMarker: string := "Tarix"

  /** The line written over the date placeholder. */
  function DateLine(d: Date): (s: string)
    requires ValidDate(d)
    ensures |s| == 17 && s[..7] == DateMarker + ": " && ReadDate(s[7..]) == d
  {
    var s := DateMarker + ": " + FormatDate(d);
    assert s[7..] == FormatDate(d);
    s
  }

  /**
   * Writes `t` into the first paragraph of a shape's text frame: through the
   * paragraph's first run when it has one, as the paragraph's text otherwise.
   */
  function WriteLead(sh: Shape, t: string): (r: Result<Shape, Fault>)
    ensures sh.frame.None? ==> r == Err(NoTextFrame)
    ensures sh.frame.Some? && |sh.frame.value| == 0 ==> r == Err(NoParagraph)
    ensures r.Ok? ==> && sh.frame.Some? && r.value.frame.Some?
                      && var f := sh.frame.value;
                         var g := r.value.frame.value;
                         && |f| > 0 && r.value == sh.(frame := Some(g))
                         && g == f[0 := WithFirstRun(f[0], t)]
  {
    match sh.frame
    case None => Err(NoTextFrame)
    case Some(f) =>
      if |f| == 0 then Err(NoParagraph)
      else Ok(sh.(frame := Some(f[0 := WithFirstRun(f[0], t)])))
  }

  /** A first paragraph with at most one run reads back exactly what `WriteLead` wrote. */
  lemma LeadReadsBack(sh: Shape, t: string)
    requires sh.frame.Some? && |sh.frame.value| > 0 && |sh.frame.value[0].runs| <= 1
    ensures WriteLead(sh, t).Ok?
    ensures ParagraphText(WriteLead(sh, t).value.frame.value[0]) == t
  {
    var p := sh.frame.value[0];
    if |p.runs| == 1 {
      var q := WithFirstRun(p, t);
      assert q.runs == [t];
      assert Concat(q.runs) == t + Concat([]);
    }
  }

  /**
   * The title part: when the slide has a title shape, its first paragraph
   * takes the plan's `title`; a slide without one is left as it is.
   */
  function WriteTitle(s: Slide, slide: seq<Member>): (r: Result<Slide, Fault>)
    ensures TitleIndex(s).None? ==> r == Ok(s)
    ensures TitleIndex(s).Some? ==>
              var sh := s.shapes[TitleIndex(s).value];
              var title := Get(slide, "title");
              && (sh.frame.None? ==> r == Err(NoTextFrame))
              && (sh.frame.Some? && |sh.frame.value| == 0 ==> r == Err(NoParagraph))
              && (sh.frame.Some? && |sh.frame.value| > 0 && title.None? ==> r == Err(KeyMissing("title")))
              && (sh.frame.Some? && |sh.frame.value| > 0 && title.Some? && !title.value.JString? ==> r == Err(NotText))
              && (r.Ok? <==> sh.frame.Some? && |sh.frame.value| > 0 && title.Some? && title.value.JString?)
    ensures r.Ok? && TitleIndex(s).Some? ==>
              var k := TitleIndex(s).value;
              && |r.value.shapes| == |s.shapes|
              && WriteLead(s.shapes[k], Get(slide, "title").value.s) == Ok(r.value.shapes[k])
              && forall m :: 0 <= m < |s.shapes| && m != k ==> r.value.shapes[m] == s.shapes[m]
  {
    match TitleIndex(s)
    case None => Ok(s)
    case Some(k) =>
      var sh := s.shapes[k];
      if sh.frame.None? then Err(NoTextFrame)
      else if |sh.frame.value| == 0 then Err(NoParagraph)
      else
        var title :- Key(slide, "title");
        var t :- AsText(title);
        var f := sh.frame.value;
        Ok(Slide(s.shapes[k := sh.(frame := Some(f[0 := WithFirstRun(f[0], t)]))]))
  }

  /** A placeholder whose text mentions the date marker. */
  predicate DateSlot(sh: Shape) {
    sh.placeholder.Some? && sh.frame.Some? && Text.Contains(FrameText(sh.frame.value), DateMarker)
  }

  /** A frame mentioning the marker has text, so it has a first paragraph to write into. */
  lemma DateSlotHasParagraph(sh: Shape)
    requires DateSlot(sh)
    ensures |sh.frame.value| > 0
  {
  }

  // ---------------------------------------------------------------------------
  // The order `slide.placeholders` iterates in
  // ---------------------------------------------------------------------------

  /** A placeholder's `idx`. */
  function Idx(sh: Shape): nat {
    sh.placeholder.GetOr(0)
  }

  /**
   * Shape `a` comes before shape `b` when iterating the placeholders: they are
   * sorted by `idx`, and the sort is stable, so equal `idx` values keep
   * shape-tree order.
   */
  predicate Before(shapes: seq<Shape>, a: nat, b: nat) {
    && a < |shapes| && b < |shapes|
    && (Idx(shapes[a]) < Idx(shapes[b]) || (Idx(shapes[a]) == Idx(shapes[b]) && a < b))
  }

  /** `order` lists shape positions in iteration order. */
  predicate Sorted(shapes: seq<Shape>, order: seq<nat>) {
    forall i, j :: 0 <= i < j < |order| ==> Before(shapes, order[i], order[j])
  }

  /** Puts position `k`, later in the tree than every position of `order`, into its place. */
  function InsertByIdx(shapes: seq<Shape>, order: seq<nat>, k: nat): (r: seq<nat>)
    requires k < |shapes|
    requires forall i :: 0 <= i < |order| ==> order[i] < k
    requires Sorted(shapes, order)
    ensures |r| == |order| + 1
    ensures forall i :: 0 <= i < |r| ==> r[i] <= k
    ensures forall x :: x in r <==> x in order || x == k
    ensures Sorted(shapes, r)
  {
    if |order| == 0 then [k]
    else if Idx(shapes[k]) < Idx(shapes[order[0]]) then
      assert forall x :: x in order ==> Before(shapes, k, x) by {
        assert forall i :: 0 < i < |order| ==> Before(shapes, order[0], order[i]);
      }
      SortedCons(shapes, k, order);
      [k] + order
    else
      var tail := order[1..];
      assert order == [order[0]] + tail;
      SortedTail(shapes, order);
      var rest := InsertByIdx(shapes, tail, k);
      assert forall x :: x in rest ==> Before(shapes, order[0], x) by {
        assert forall x :: x in tail ==> Before(shapes, order[0], x) by {
          assert forall i :: 0 <= i < |tail| ==> tail[i] == order[i + 1];
        }
      }
      SortedCons(shapes, order[0], rest);
      [order[0]] + rest
  }

  lemma SortedTail(shapes: seq<Shape>, order: seq<nat>)
    requires |order| > 0 && Sorted(shapes, order)
    ensures Sorted(shapes, order[1..])
  {
    assert forall i :: 0 <= i < |order| - 1 ==> order[1..][i] == order[i + 1];
  }

  /** A sorted list stays sorted with a first element before all of its elements. */
  lemma SortedCons(shapes: seq<Shape>, a: nat, order: seq<nat>)
    requires Sorted(shapes, order)
    requires a < |shapes|
    requires forall x :: x in order ==> Before(shapes, a, x)
    ensures Sorted(shapes, [a] + order)
  {
    var r := [a] + order;
    forall i, j | 0 <= i < j < |r| ensures Before(shapes, r[i], r[j]) {
      assert r[j] == order[j - 1];
      if i > 0 {
        assert r[i] == order[i - 1];
      } else {
        assert order[j - 1] in order;
      }
    }
  }

  /** The placeholders among the first `n` shapes, in iteration order. */
  function PlaceholdersUpTo(shapes: seq<Shape>, n: nat): (r: seq<nat>)
    requires n <= |shapes|
    ensures forall i :: 0 <= i < |r| ==> r[i] < n
    ensures forall x: nat :: x in r <==> x < n && shapes[x].placeholder.Some?
    ensures Sorted(shapes, r)
  {
    if n == 0 then []
    else
      var earlier := PlaceholdersUpTo(shapes, n - 1);
      if shapes[n - 1].placeholder.Some? then InsertByIdx(shapes, earlier, n - 1) else earlier
  }

  /** `slide.placeholders` as iterated: every placeholder once, sorted by `idx`. */
  function Placeholders(shapes: seq<Shape>): (r: seq<nat>)
    ensures forall i :: 0 <= i < |r| ==> r[i] < |shapes|
    ensures forall x: nat :: x in r <==> x < |shapes| && shapes[x].placeholder.Some?
    ensures Sorted(shapes, r)
  {
    PlaceholdersUpTo(shapes, |shapes|)
  }

  // ---------------------------------------------------------------------------
  // Stamping the date
  // ---------------------------------------------------------------------------

  /**
   * The date placeholder the loop stops at, stated without the sort: the
   * placeholder mentioning the marker that comes first in iteration order.
   */
  function DateSlotIndex(shapes: seq<Shape>): (r: Option<nat>)
    ensures r.Some? ==> r.value < |shapes| && DateSlot(shapes[r.value])
    ensures r.None? ==> forall k :: 0 <= k < |shapes| ==> !DateSlot(shapes[k])
    ensures r.Some? ==> forall k :: 0 <= k < |shapes| && k != r.value && DateSlot(shapes[k]) ==> Before(shapes, r.value, k)
  {
    EarliestSlot(shapes, |shapes|)
  }

  /** The scan behind `DateSlotIndex`: a later slot wins only with a strictly smaller `idx`. */
  function EarliestSlot(shapes: seq<Shape>, n: nat): (r: Option<nat>)
    requires n <= |shapes|
    ensures r.Some? ==> r.value < n && DateSlot(shapes[r.value])
    ensures r.None? ==> forall k :: 0 <= k < n ==> !DateSlot(shapes[k])
    ensures r.Some? ==> forall k :: 0 <= k < n && k != r.value && DateSlot(shapes[k]) ==> Before(shapes, r.value, k)
  {
    if n == 0 then None
    else
      var best := EarliestSlot(shapes, n - 1);
      if !DateSlot(shapes[n - 1]) then best
      else if best.None? || Idx(shapes[n - 1]) < Idx(shapes[best.value]) then Some(n - 1)
      else best
  }

  /**
   * Every placeholder read before the loop stops has a text frame: those
   * before `m` in iteration order, or all of them when nothing matches.
   */
  ghost predicate ReadBefore(shapes: seq<Shape>, m: Option<nat>) {
    forall k :: 0 <= k < |shapes| && shapes[k].placeholder.Some? && (m.None? || Before(shapes, k, m.value)) ==>
      shapes[k].frame.Some?
  }

  /** The position in `order`, from `from` on, of the first shape mentioning the marker. */
  function FirstSlot(shapes: seq<Shape>, order: seq<nat>, from: nat): (r: Option<nat>)
    requires from <= |order|
    requires forall i :: 0 <= i < |order| ==> order[i] < |shapes|
    ensures r.Some? ==> from <= r.value < |order| && DateSlot(shapes[order[r.value]])
    ensures forall i :: from <= i < |order| && (r.None? || i < r.value) ==> !DateSlot(shapes[order[i]])
    decreases |order| - from
  {
    if from == |order| then None
    else if DateSlot(shapes[order[from]]) then Some(from)
    else FirstSlot(shapes, order, from + 1)
  }

  /**
   * The `for placeholder in s.placeholders` loop from position `from` of
   * `order`: each placeholder's text is read, and the first one mentioning
   * the marker has its first paragraph replaced by `line`, which ends the loop.
   */
  function StampFrom(shapes: seq<Shape>, order: seq<nat>, from: nat, line: string): (r: Result<seq<Shape>, Fault>)
    requires from <= |order|
    requires forall i :: 0 <= i < |order| ==> order[i] < |shapes|
    ensures var u := FirstSlot(shapes, order, from);
            r.Ok? <==> forall i :: from <= i < (if u.Some? then u.value else |order|) ==> shapes[order[i]].frame.Some?
    ensures r.Ok? && FirstSlot(shapes, order, from).None? ==> r.value == shapes
    ensures r.Ok? && FirstSlot(shapes, order, from).Some? ==>
              var m := order[FirstSlot(shapes, order, from).value];
              && |r.value| == |shapes|
              && WriteLead(shapes[m], line) == Ok(r.value[m])
              && forall k :: 0 <= k < |shapes| && k != m ==> r.value[k] == shapes[k]
    ensures r.Err? ==> r.error == NoTextFrame
    decreases |order| - from
  {
    if from == |order| then Ok(shapes)
    else
      var sh := shapes[order[from]];
      if sh.frame.None? then Err(NoTextFrame)
      else if DateSlot(sh) then
        DateSlotHasParagraph(sh);
        var f := sh.frame.value;
        Ok(shapes[order[from] := sh.(frame := Some(f[0 := WithFirstRun(f[0], line)]))])
      else StampFrom(shapes, order, from + 1, line)
  }

  /** `Before` is a strict order: never both ways. */
  lemma BeforeAsymmetric(shapes: seq<Shape>, a: nat, b: nat)
    ensures !(Before(shapes, a, b) && Before(shapes, b, a))
  {
  }

  /**
   * Scanning any sorted list of all the placeholders stops at `DateSlotIndex`,
   * after reading exactly the placeholders before it.
   */
  lemma ScanStopsAtEarliest(shapes: seq<Shape>, order: seq<nat>)
    requires forall i :: 0 <= i < |order| ==> order[i] < |shapes|
    requires forall x: nat :: x in order <==> x < |shapes| && shapes[x].placeholder.Some?
    requires Sorted(shapes, order)
    ensures var u := FirstSlot(shapes, order, 0);
            && (u.None? <==> DateSlotIndex(shapes).None?)
            && (u.Some? ==> order[u.value] == DateSlotIndex(shapes).value)
            && ((forall i :: 0 <= i < (if u.Some? then u.value else |order|) ==> shapes[order[i]].frame.Some?)
                <==> ReadBefore(shapes, DateSlotIndex(shapes)))
  {
    ScanFindsEarliest(shapes, order);
    ScanReadsBefore(shapes, order);
  }

  lemma ScanFindsEarliest(shapes: seq<Shape>, order: seq<nat>)
    requires forall i :: 0 <= i < |order| ==> order[i] < |shapes|
    requires forall x: nat :: x in order <==> x < |shapes| && shapes[x].placeholder.Some?
    requires Sorted(shapes, order)
    ensures var u := FirstSlot(shapes, order, 0);
            && (u.None? <==> DateSlotIndex(shapes).None?)
            && (u.Some? ==> order[u.value] == DateSlotIndex(shapes).value)
  {
    var u := FirstSlot(shapes, order, 0);
    var m := DateSlotIndex(shapes);
    if m.Some? {
      assert m.value in order;
      var j :| 0 <= j < |order| && order[j] == m.value;
      assert u.Some? && u.value <= j;
      if u.value < j {
        BeforeAsymmetric(shapes, order[u.value], m.value);
      }
    }
  }

  lemma ScanReadsBefore(shapes: seq<Shape>, order: seq<nat>)
    requires forall i :: 0 <= i < |order| ==> order[i] < |shapes|
    requires forall x: nat :: x in order <==> x < |shapes| && shapes[x].placeholder.Some?
    requires Sorted(shapes, order)
    requires var u := FirstSlot(shapes, order, 0);
             && (u.None? <==> DateSlotIndex(shapes).None?)
             && (u.Some? ==> order[u.value] == DateSlotIndex(shapes).value)
    ensures var u := FirstSlot(shapes, order, 0);
            (forall i :: 0 <= i < (if u.Some? then u.value else |order|) ==> shapes[order[i]].frame.Some?)
            <==> ReadBefore(shapes, DateSlotIndex(shapes))
  {
    var u := FirstSlot(shapes, order, 0);
    var cut := if u.Some? then u.value else |order|;
    if forall i :: 0 <= i < cut ==> shapes[order[i]].frame.Some? {
      PrefixReadIsReadBefore(shapes, order, cut, DateSlotIndex(shapes));
    }
    if ReadBefore(shapes, DateSlotIndex(shapes)) {
      forall i | 0 <= i < cut ensures shapes[order[i]].frame.Some? {
        assert order[i] in order;
        if u.Some? {
          assert Before(shapes, order[i], order[u.value]);
        }
      }
    }
  }

  /** Reading the placeholders before position `cut` of the order reads every one before the stop. */
  lemma PrefixReadIsReadBefore(shapes: seq<Shape>, order: seq<nat>, cut: nat, m: Option<nat>)
    requires forall i :: 0 <= i < |order| ==> order[i] < |shapes|
    requires forall x: nat :: x in order <==> x < |shapes| && shapes[x].placeholder.Some?
    requires Sorted(shapes, order)
    requires cut <= |order|
    requires m.None? ==> cut == |order|
    requires m.Some? ==> cut < |order| && order[cut] == m.value
    requires forall i :: 0 <= i < cut ==> shapes[order[i]].frame.Some?
    ensures ReadBefore(shapes, m)
  {
    forall k | 0 <= k < |shapes| && shapes[k].placeholder.Some? && (m.None? || Before(shapes, k, m.value))
      ensures shapes[k].frame.Some?
    {
      assert k in order;
      var i :| 0 <= i < |order| && order[i] == k;
      if m.Some? && i >= cut {
        BeforeAsymmetric(shapes, k, m.value);
      }
    }
  }

  /**
   * The placeholder scan: placeholders are read in iteration order until the
   * first one that mentions the date marker, whose first paragraph then takes
   * `line`; every other shape is left as it is.
   */
  function StampDate(shapes: seq<Shape>, line: string): (r: Result<seq<Shape>, Fault>)
    ensures r.Ok? <==> ReadBefore(shapes, DateSlotIndex(shapes))
    ensures r.Ok? && DateSlotIndex(shapes).None? ==> r.value == shapes
    ensures r.Ok? && DateSlotIndex(shapes).Some? ==>
              var m := DateSlotIndex(shapes).value;
              && |r.value| == |shapes|
              && WriteLead(shapes[m], line) == Ok(r.value[m])
              && forall k :: 0 <= k < |shapes| && k != m ==> r.value[k] == shapes[k]
    ensures r.Err? ==> r.error == NoTextFrame
  {
    var order := Placeholders(shapes);
    ScanStopsAtEarliest(shapes, order);
    StampFrom(shapes, order, 0, line)
  }

  /**
   * The body of `add_title_slide` on the first slide: the title is written,
   * then the date line is stamped; a fault in either step is the outcome.
   */
  function TitleAndDate(s: Slide, slide: seq<Member>, line: string): (r: Result<Slide, Fault>)
    ensures WriteTitle(s, slide).Err? ==> r == Err(WriteTitle(s, slide).error)
    ensures WriteTitle(s, slide).Ok? ==>
              var stamped := StampDate(WriteTitle(s, slide).value.shapes, line);
              && (stamped.Err? ==> r == Err(stamped.error))
              && (stamped.Ok? ==> r == Ok(Slide(stamped.value)))
    ensures r.Ok? ==> |r.value.shapes| == |s.shapes|
  {
    var titled :- WriteTitle(s, slide);
    assert |titled.shapes| == |s.shapes|;
    var shapes :- StampDate(titled.shapes, line);
    Ok(Slide(shapes))
  }

  /**
   * `add_title_slide(prs, slide)`: the title and the date are written into the
   * template's first slide; no other slide changes and no shape is added.
   */
  function AddTitleSlide(d: Deck, slide: seq<Member>, today: Date): (r: Result<Deck, Fault>)
    requires ValidDate(today)
    ensures |d.slides| == 0 ==> r == Err(NoSlide(0))
    ensures |d.slides| > 0 ==>
              var written := TitleAndDate(d.slides[0], slide, DateLine(today));
              && (written.Err? ==> r == Err(written.error))
              && (written.Ok? ==> r.Ok? && |r.value.slides| == |d.slides| && r.value.slides[0] == written.value)
    ensures r.Ok? ==> && |d.slides| > 0
                      && |r.value.slides| == |d.slides| && r.value.layouts == d.layouts
                      && |r.value.slides[0].shapes| == |d.slides[0].shapes|
                      && forall k :: 1 <= k < |d.slides| ==> r.value.slides[k] == d.slides[k]
  {
    if |d.slides| == 0 then Err(NoSlide(0))
    else
      var written :- TitleAndDate(d.slides[0], slide, DateLine(today));
      Ok(d.(slides := d.slides[0 := written]))
  }
}
