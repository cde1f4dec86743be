/**
 * An abstract presentation as python-pptx exposes it to the slide builders:
 * slides are ordered lists of shapes; a shape may be a placeholder (with its
 * `idx`), the title placeholder, hold a text frame of paragraphs of runs, and
 * carry a chart or a picture. Layout `n` stands for the slide `add_slide`
 * builds from it: the layout's placeholders other than date, footer and slide
 * number, each with an empty text frame, so on a fresh slide every placeholder
 * reads as blank until something is written to it.
 */
module Deck {
  import opened Outcomes
  import opened Json
  import Text

  /** Lengths are English Metric Units; a tenth of an inch is 91440 of them. */
  const EmuPerTenthInch: int := 91440

  /** `Inches(n / 10)`. */
  function TenthsOfInch(n: int): int {
    n * EmuPerTenthInch
  }

  datatype Box = Box(left: int, top: int, width: int, height: int)

  datatype Paragraph = Paragraph(runs: seq<string>, level: nat)

  /** A text frame: at least one paragraph in every frame python-pptx writes. */
  type Frame = seq<Paragraph>

  datatype ChartKind = ClusteredColumn | LineChart | PieChart

  /**
   * What `add_chart` configures: kind, title, the one data series, the legend
   * and data-label switches, and the two axis titles.
   */
  datatype Chart = Chart(
    kind: ChartKind,
    title: string,
    categories: seq<Json>,
    values: seq<real>,
    hasLegend: bool,
    showValue: bool,
    pieLabels: bool,
    categoryAxisTitle: Option<string>,
    valueAxisTitle: Option<string>)

  datatype Graphic = NoGraphic | ChartGraphic(chart: Chart) | PictureGraphic(path: string)

  /**
   * On every slide python-pptx builds, the title shape is the placeholder
   * with `idx` 0; the model keeps `isTitle` separate and does not require it.
   */
  datatype Shape = Shape(
    placeholder: Option<nat>,
    isTitle: bool,
    frame: Option<Frame>,
    box: Box,
    graphic: Graphic)

  datatype Slide = Slide(shapes: seq<Shape>)

  datatype Deck = Deck(slides: seq<Slide>, layouts: seq<Slide>)

  /** The Python exceptions a slide builder can let escape. */
  datatype Fault =
    | NotADict                  // AttributeError: `.get` on a value that is not a dict
    | KeyMissing(key: string)   // KeyError
    | NotText                   // python-pptx handed a non-string where it stores text
    | NotIterable               // TypeError: iterating a number, a boolean or null
    | NotAFloat                 // float() refusing a value
    | BadSizes                  // convert_sizes refusing a slice size
    | NoSlide(index: nat)       // IndexError on the slide list
    | NoLayout(index: nat)      // IndexError on the layout list
    | NoTitleShape              // AttributeError: the slide has no title placeholder
    | NoTextFrame               // the shape cannot hold text
    | NoParagraph               // IndexError on `paragraphs[0]`

  // ---------------------------------------------------------------------------
  // Reading and writing text
  // ---------------------------------------------------------------------------

  function Concat(runs: seq<string>): string {
    if |runs| == 0 then "" else runs[0] + Concat(runs[1..])
  }

  /** `paragraph.text`: its runs one after the other. */
  function ParagraphText(p: Paragraph): string {
    Concat(p.runs)
  }

  /** `text_frame.text`: the paragraphs joined by newlines. */
  function FrameText(f: Frame): string {
    Text.Join(seq(|f|, i requires 0 <= i < |f| => ParagraphText(f[i])), '\n')
  }

  /** A frame of one paragraph reads as that paragraph. */
  lemma FrameTextOne(p: Paragraph)
    ensures FrameText([p]) == ParagraphText(p)
  {
    var f := [p];
    var texts := seq(|f|, i requires 0 <= i < |f| => ParagraphText(f[i]));
    assert texts == [ParagraphText(p)];
  }

  /** A frame of two paragraphs reads as their texts on two lines. */
  lemma FrameTextTwo(p: Paragraph, q: Paragraph)
    ensures FrameText([p, q]) == ParagraphText(p) + "\n" + ParagraphText(q)
  {
    var f := [p, q];
    var texts := seq(|f|, i requires 0 <= i < |f| => ParagraphText(f[i]));
    assert texts == [ParagraphText(p), ParagraphText(q)];
    assert texts[1..] == [ParagraphText(q)];
    assert Text.Join(texts, '\n') == texts[0] + ['\n'] + Text.Join(texts[1..], '\n');
  }

  /** The runs `append_text(t)` leaves in an emptied paragraph; they read back as `t`. */
  function RunsOf(t: string): (runs: seq<string>)
    ensures Concat(runs) == t
  {
    if |t| == 0 then [] else
      assert Concat([t]) == t + Concat([t][1..]);
      [t]
  }

  /** `text_frame.text = t`: one paragraph per line of `t`. */
  function FrameOf(t: string): (f: Frame)
    ensures |f| >= 1
    ensures FrameText(f) == t
  {
    var lines := Text.Split(t, '\n');
    var f := seq(|lines|, i requires 0 <= i < |lines| => Paragraph(RunsOf(lines[i]), 0));
    assert seq(|f|, i requires 0 <= i < |f| => ParagraphText(f[i])) == lines by {
      forall i | 0 <= i < |f| ensures ParagraphText(f[i]) == lines[i] {
      }
    }
    Text.JoinSplit(t, '\n');
    f
  }

  /** `text_frame.clear()`: only the first paragraph is kept, emptied of its runs. */
  function Cleared(f: Frame): (g: Frame)
    ensures |g| == 1 && g[0].runs == [] && FrameText(g) == ""
  {
    if |f| == 0 then [Paragraph([], 0)] else [f[0].(runs := [])]
  }

  /** Sets the text of a paragraph the way the title builder does: through its first run when it has one. */
  function WithFirstRun(p: Paragraph, t: string): (q: Paragraph)
    ensures q.level == p.level
    ensures |p.runs| > 0 ==> q.runs == p.runs[0 := t]
    ensures |p.runs| == 0 ==> ParagraphText(q) == t
  {
    if |p.runs| > 0 then p.(runs := p.runs[0 := t]) else p.(runs := RunsOf(t))
  }

  /** `shape.text`, which only shapes with a text frame have. */
  function ShapeText(sh: Shape): Result<string, Fault> {
    match sh.frame
    case None => Err(NoTextFrame)
    case Some(f) => Ok(FrameText(f))
  }

  /** `shape.text = t`. */
  function SetShapeText(sh: Shape, t: string): (r: Result<Shape, Fault>)
    ensures sh.frame.None? <==> r.Err?
    ensures r.Ok? ==> ShapeText(r.value) == Ok(t) && r.value == sh.(frame := r.value.frame)
  {
    match sh.frame
    case None => Err(NoTextFrame)
    case Some(_) => Ok(sh.(frame := Some(FrameOf(t))))
  }

  /** A new text box: not a placeholder, holding `t`. */
  function TextBox(box: Box, t: string): (sh: Shape)
    ensures sh.placeholder.None? && !sh.isTitle && ShapeText(sh) == Ok(t)
  {
    Shape(None, false, Some(FrameOf(t)), box, NoGraphic)
  }

  /** A decoded value python-pptx accepts as text. */
  function AsText(j: Json): Result<string, Fault> {
    if j.JString? then Ok(j.s) else Err(NotText)
  }

  /** `slide[k]` on a decoded dict. */
  function Key(ms: seq<Member>, k: string): (r: Result<Json, Fault>)
    ensures r.Ok? <==> k in Keys(ms)
    ensures r.Err? ==> r.error == KeyMissing(k)
  {
    match Get(ms, k)
    case None => Err(KeyMissing(k))
    case Some(v) => Ok(v)
  }

  // ---------------------------------------------------------------------------
  // Finding shapes
  // ---------------------------------------------------------------------------

  /** Position of the first shape satisfying `p`. */
  function FirstWhere(shapes: seq<Shape>, p: Shape -> bool): (r: Option<nat>)
    ensures r.Some? ==> r.value < |shapes| && p(shapes[r.value])
    ensures forall k :: 0 <= k < |shapes| && (r.None? || k < r.value) ==> !p(shapes[k])
  {
    if |shapes| == 0 then None
    else if p(shapes[0]) then Some(0)
    else
      match FirstWhere(shapes[1..], p)
      case None => None
      case Some(k) => Some(k + 1)
  }

  /** Position of the last shape satisfying `p`. */
  function LastWhere(shapes: seq<Shape>, p: Shape -> bool): (r: Option<nat>)
    ensures r.Some? ==> r.value < |shapes| && p(shapes[r.value])
    ensures forall k :: 0 <= k < |shapes| && (r.None? || r.value < k) ==> !p(shapes[k])
  {
    if |shapes| == 0 then None
    else if p(shapes[|shapes| - 1]) then Some(|shapes| - 1)
    else LastWhere(shapes[..|shapes| - 1], p)
  }

  /** `slide.shapes.title`: the first title placeholder. */
  function TitleIndex(s: Slide): (r: Option<nat>)
    ensures r.Some? ==> r.value < |s.shapes| && s.shapes[r.value].isTitle
    ensures forall k :: 0 <= k < |s.shapes| && (r.None? || k < r.value) ==> !s.shapes[k].isTitle
  {
    FirstWhere(s.shapes, (sh: Shape) => sh.isTitle)
  }

  /** `slide.placeholders[idx]`, looked up by the placeholder's `idx`. */
  function PlaceholderIndex(s: Slide, idx: nat): (r: Option<nat>)
    ensures r.Some? ==> r.value < |s.shapes| && s.shapes[r.value].placeholder == Some(idx)
    ensures forall k :: 0 <= k < |s.shapes| && (r.None? || k < r.value) ==> s.shapes[k].placeholder != Some(idx)
  {
    FirstWhere(s.shapes, (sh: Shape) => sh.placeholder == Some(idx))
  }

  /**
   * `prs.slides.add_slide(prs.slide_layouts[layout])`: the slide built from
   * layout `layout`, which `d.layouts[layout]` already stands for.
   */
  function NewSlide(d: Deck, layout: nat): (r: Result<Slide, Fault>)
    ensures r.Ok? <==> layout < |d.layouts|
    ensures r.Ok? ==> r.value == d.layouts[layout]
    ensures r.Err? ==> r.error == NoLayout(layout)
  {
    if layout < |d.layouts| then Ok(d.layouts[layout]) else Err(NoLayout(layout))
  }

  /** `slide.shapes.title.text = t` on a fresh slide. */
  function SetTitle(s: Slide, t: string): (r: Result<Slide, Fault>)
    ensures TitleIndex(s).None? ==> r == Err(NoTitleShape)
    ensures TitleIndex(s).Some? ==> (r.Ok? <==> s.shapes[TitleIndex(s).value].frame.Some?)
    ensures TitleIndex(s).Some? && r.Err? ==> r.error == NoTextFrame
    ensures r.Ok? ==> && TitleIndex(s).Some?
                      && |r.value.shapes| == |s.shapes|
                      && ShapeText(r.value.shapes[TitleIndex(s).value]) == Ok(t)
                      && r.value.shapes[TitleIndex(s).value]
                         == s.shapes[TitleIndex(s).value].(frame := r.value.shapes[TitleIndex(s).value].frame)
                      && forall k :: 0 <= k < |s.shapes| && k != TitleIndex(s).value ==> r.value.shapes[k] == s.shapes[k]
  {
    match TitleIndex(s)
    case None => Err(NoTitleShape)
    case Some(t0) =>
      var sh :- SetShapeText(s.shapes[t0], t);
      Ok(Slide(s.shapes[t0 := sh]))
  }
}
