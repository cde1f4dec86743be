# Slide-plan validation and deck population, in Dafny

A model of the core of an app that turns a document into a PowerPoint deck. A
language model is asked for a JSON slide plan. The app cuts the JSON array out
of the reply, validates it slide by slide, and fills a fixed template with it:
a title slide, an intro slide, body ("main") slides each optionally followed by
a visual slide (chart, generated picture, or a text notice), and a
recommendation slide. Two sample slides of the template are then removed.

The same functions exist twice in the repository: as `utils/slide.py`,
`utils/prompt.py` and `utils/chart.py`, and as the single file
`codeGemine.py`, whose functions have the same text. Each is modelled once.
The table cites one copy. The other copy's lines are:

| function | utils copy | codeGemine.py |
|---|---|---|
| `build_prompt` counts | prompt.py:9-25 | 62-78 |
| `parse_gpt_response` | slide.py:277-323 | 220-266 |
| `add_title_slide` | slide.py:17-38 | 271-294 |
| `add_intro_slide` | slide.py:41-106 | 297-364 |
| `convert_sizes` | slide.py:109-119 | 367-377 |
| `add_main_slide` | slide.py:122-197 | 380-460 |
| `insert_text_or_fallback` | slide.py:200-206 | 462-468 |
| `add_recommendation_slide` | slide.py:209-248 | 472-513 |
| `delete_slide` | slide.py:251-253 | 517-519 |
| `generate_pptx` | slide.py:256-274 | 521-542 |
| `add_chart` | chart.py:9-83 | 546-620 |

## Modules

- `Outcomes`: `Option` and `Result`. A Python exception is an `Err`.
- `Text`: `str.strip` over Python's whitespace set, `split`/`join` on one
  character, `in`, `replace`, slicing, and zero-padded digits.
- `Json`: decoded JSON values. Objects are ordered member lists, so dict
  iteration order is kept. Also Python truthiness, `dict.get`, what `for`
  visits, `str()` and `float()` of a value.
- `PlanParser`: `parse_gpt_response`. It covers the greedy `\[.*\]` search,
  the per-slide checks, and the first failing slide.
- `SlideCount`: the slide-count arithmetic at the top of `build_prompt`, with
  Python's floor `//` and `%`.
- `Sizes`: `convert_sizes`.
- `Deck`: an abstract presentation. It has slides and layouts; a layout stands
  for the slide `add_slide` builds from it. A slide is a list
  of shapes. A shape has a placeholder `idx`, a title flag, a text frame, a box
  in EMU, and a chart or picture. python-pptx's text setters become functions
  on it.
- `Charts`: `add_chart` as a decision, from its arguments to no chart or a
  configured chart with its box.
- `TitleSlide`, `IntroSlide`, `MainSlide`, `VisualSlide`,
  `RecommendationSlide`: the slide builders, as functions from a deck to a
  deck.
- `Generate`: `delete_slide` and `generate_pptx`.

Things the model takes as parameters:
- `json.loads` is the partial function `decode`.
- `float()` on a string is `parseFloat`.
- `str()` of numbers, lists and dicts is `show`.
- The translate-and-generate image pipeline is `imaging`. It is true exactly
  when it saved a picture.
- `date.today()` is a `Date` argument.

Where the code does something other than what its comments or message texts
suggest, the model follows the code:
- When the reply has no `[ … ]`, `cleaned_text` is never bound. The failure is
  therefore not the `ValueError` the other checks raise. In the model it is
  `NoBracketedText`, and `IsValueError()` is false for it.
- A `type` that is a list or a dict makes the set-membership test itself raise
  `TypeError`. In the model this is `UnhashableType`, also not a `ValueError`.
- A recommendation slide passes validation with any four of the five keys
  present, whatever their values. Rendering it, however, lists only the truthy
  values.
- The recommendation list goes to the last shape whose first paragraph is
  blank, not the first.
- With visuals counted and an odd budget, the body-slide count is half the
  budget rounded down, plus one.

## Model

| member | source | states |
|---|---|---|
| Json.GetDistinct | utils/slide.py:297 | In an object whose keys are distinct, `get(k)` finds `v` exactly when the member `k: v` is in the object. |
| PlanParser.BracketedText | utils/slide.py:280-282 | A payload exists exactly when some `[` comes before a later `]`. The payload is the leftmost-longest match of `\[.*\]` across newlines, that is, from the first `[` to the last `]`. |
| PlanParser.SurroundingProseIgnored | utils/slide.py:280-284 | Prose before the array without `[`, and after it without `]`, is cut away; the payload is exactly the array text. |
| PlanParser.CheckSlide | utils/slide.py:294-321 | No problem exactly when the element meets the declarative well-formedness predicate, and each error holds exactly in its own case, checked in the source's order. A non-object is `NotAnObject`. A list or dict `type` is the unhashable case. Any other type outside the four is `UnknownType`, carrying the value found. A title slide without `title`, an intro slide without both `aim` and `summary`, and a main slide missing required keys are each refused; the main error names exactly the missing keys. A main slide whose `visual` is not a dict is refused. A recommendation slide with fewer than four recommendation keys is refused. |
| PlanParser.CountPresentIsKeyCount | utils/slide.py:318-320 | The length of the comprehension over the five recommendation names equals the number of those keys present in the object. |
| PlanParser.FourRecommendationsAccepted | utils/slide.py:316-321 | Four recommendation keys with empty-string values are accepted: presence is by key only. |
| PlanParser.ThreeRecommendationsRefused | utils/slide.py:316-321 | Three recommendation keys are refused. |
| PlanParser.MissingPointNamed | utils/slide.py:308-312 | A main slide without `point3` is refused, and the error names exactly `{point3}`. |
| PlanParser.ValidatePlan | utils/slide.py:291-323 | Success exactly when every element is well formed, and the list comes back unchanged. Otherwise the error names the first bad element and its problem, and every element before it is well formed. |
| PlanParser.ValidPlanConcat | utils/slide.py:294-299 | Validity is checked element by element, so a concatenation is valid exactly when both parts are. |
| PlanParser.ParseResponse | utils/slide.py:277-323 | A missing bracket pair is its own error. A payload that does not decode is `InvalidJson`. A decoded value that is not a list is `NotAList`. A decoded list gives exactly `ValidatePlan`'s outcome. So success holds exactly when the payload decodes to a list of well-formed elements, and the result is that list. |
| PlanParser.ReparseAccepted | utils/slide.py:277-323 | Re-parsing the bracketed serialisation of any well-formed plan (so of any accepted plan) gives the same plan. |
| SlideCount.FloorDiv | utils/prompt.py:13 | `//` is floor division: `q*b <= a < q*b + b`. |
| SlideCount.FloorMod | utils/prompt.py:14 | `%` by a positive divisor is never negative, and `a == (a//b)*b + a%b`. |
| SlideCount.PlanCounts | utils/prompt.py:9-25 | Visuals off: `main = slide_count - 3`, the count is unchanged and there is no note. Visuals on: `2*main - extra == remaining`. Odd: `main = remaining//2 + 1` and the count is kept. Even: `main = remaining//2` and the count becomes `main + 3`. The note is present exactly for visuals on with an odd budget. |
| SlideCount.SmallRequests | utils/prompt.py:9-25 | Requests of 5 and 6 slides give the counts (4, 1), (5, 2) and (6, 2 with note). |
| Sizes.SizeText | utils/slide.py:112-117 | The text given to `float()` is the stripped size, minus one trailing `%` when the stripped size ends with one. |
| Sizes.PlainKept | utils/slide.py:112-117 | Whitespace around a plain size is removed and nothing else. |
| Sizes.PercentDropped | utils/slide.py:112-115 | A size with a `%` and surrounding whitespace reaches `float()` as the bare number text. |
| Sizes.BlankBeforePercentKept | utils/slide.py:112-115 | The `%` is cut after stripping, so `"40 %"` reaches `float()` as `"40 "`. |
| Sizes.OnePercentOnly | utils/slide.py:113-115 | Only one `%` is cut: `"40%%"` reaches `float()` as `"40%"`. |
| Sizes.ConvertEach | utils/slide.py:110-119 | One result per element, in order; otherwise the position of the first element that fails, with all before it converted. |
| Sizes.ConvertSizes | utils/slide.py:109-119 | Success exactly when every size converts. The length and order are kept, and each number is the parse of that element's text. A failure is at the first bad element: a non-string raises `AttributeError`, a string `ValueError`. |
| Sizes.ConvertExamples | utils/slide.py:109-119 | `["40%", "60"]` gives `[40.0, 60.0]`, and `["abc"]` fails at position 0. |
| Charts.AxisTitle | utils/chart.py:77-83 | An axis title is set only from a truthy label, and a truthy non-string label raises. |
| Charts.ChartFor | utils/chart.py:9-83 | No chart exactly in three cases: a pie without labels or sizes, a bar or line chart without x or y, or any other type. Otherwise, data that cannot be iterated raises. Then a title that is not text raises. Success holds exactly when the data iterates, the title is text, and (for bar and line) both axis labels are falsy or text. Bar maps to clustered column, line to line, pie to pie. The title is the given title, the legend is off and values are shown. Pie labels are set for pie only. The categories are what iterating labels or x visits. The box is placeholder 1's, or else (1in, 2.5in, 6in, 3in). Axis titles are set for bar and line only. |
| Charts.PieIgnoresAxes | utils/chart.py:12-18 | A pie chart's outcome does not depend on `x`, `y`, `xlabel` or `ylabel`. |
| Charts.BarOrLineIgnoresSlices | utils/chart.py:19-25 | A bar or line chart's outcome does not depend on `labels` or `sizes`. |
| Charts.PlacementOnlyMovesBox | utils/chart.py:42-58 | Where placeholder 1 sits changes only the box: success, the fault, whether a chart is made, and the chart itself are the same for any placement. |
| Deck.FrameOf | utils/slide.py:206 | Setting a frame's text gives at least one paragraph, and reading the frame's text back gives the same string (split, then join). |
| Deck.Cleared | utils/slide.py:139 | `clear()` leaves one empty paragraph and the frame reads as empty. |
| Deck.WithFirstRun | utils/slide.py:24-28 | Writing through the first run replaces only that run. Without runs, the paragraph reads as the new text. The level is kept. |
| Deck.SetShapeText | utils/slide.py:203 | Fails exactly for a shape without a text frame. Otherwise the shape reads back the text, and only its frame changed. |
| Deck.TextBox | utils/slide.py:205-206 | A new text box is not a placeholder and reads as its text. |
| Deck.Key | utils/slide.py:126 | `slide[k]` succeeds exactly when `k` is a key. Otherwise it is `KeyError(k)`. |
| Deck.TitleIndex | utils/slide.py:22 | `shapes.title` is the first title shape, if there is one. |
| Deck.PlaceholderIndex | utils/slide.py:202 | `placeholders[1]` is the first shape whose placeholder `idx` is 1, if any. |
| Deck.NewSlide | utils/slide.py:123-124 | `add_slide(slide_layouts[n])` succeeds exactly when layout `n` exists, and the new slide is the slide built from it. Otherwise it fails with `NoLayout(n)`. |
| Deck.SetTitle | utils/slide.py:126 | Fails without a title shape. With one, it succeeds exactly when the title shape has a text frame, and otherwise fails with `NoTextFrame`. On success only the title shape's frame changes, and it reads back the title. |
| TitleSlide.FormatDate | utils/slide.py:18-19 | `%d/%m/%Y` gives 10 characters with `/` at positions 2 and 5, and reading the digits back gives the date. |
| TitleSlide.DateLine | utils/slide.py:35-37 | The stamped line is 17 characters: `Tarix: ` followed by the formatted date, from which the date reads back. |
| TitleSlide.WriteLead | utils/slide.py:24-28 | Writes into the first paragraph only. No frame or no paragraph is an error. |
| TitleSlide.LeadReadsBack | utils/slide.py:24-28 | When the first paragraph has at most one run, it reads back exactly the written text. |
| TitleSlide.WriteTitle | utils/slide.py:22-28 | Without a title shape the slide is unchanged. With one, the errors come in the source's order: no text frame, no first paragraph, no `title` key (`KeyError`), a non-text title. Success holds exactly when none of these applies, and then only the title shape's first paragraph takes the plan's `title`. |
| TitleSlide.DateSlotIndex | utils/slide.py:30-31 | python-pptx visits placeholders sorted by `idx`, keeping shape order among equal `idx`. The slot is a placeholder whose text contains `Tarix`. None is found exactly when no placeholder mentions it. Otherwise every other such placeholder comes after the one found in that order. |
| TitleSlide.Placeholders | utils/slide.py:30 | `s.placeholders` lists exactly the shapes that are placeholders, each once, sorted by `idx` with shape order among equal `idx`. |
| TitleSlide.ScanStopsAtEarliest | utils/slide.py:30-38 | Scanning any such sorted list stops exactly at `DateSlotIndex`, or runs to the end when there is none. It reads a frame for every placeholder before that point. |
| TitleSlide.StampDate | utils/slide.py:30-38 | The loop succeeds exactly when every placeholder visited before the date slot (or every placeholder, when there is none) has a text frame; otherwise the fault is `NoTextFrame`. Without a slot the shapes are unchanged. With one, only that slot is rewritten: its first paragraph takes the line, and every other shape is unchanged. |
| TitleSlide.TitleAndDate | utils/slide.py:22-38 | The title is written first, and its fault is the outcome. Then the date is stamped on the titled slide, and its fault is the outcome. Otherwise the result is the stamped slide, with as many shapes as before. |
| TitleSlide.DateSlotHasParagraph | utils/slide.py:31-33 | A placeholder whose text mentions `Tarix` has a first paragraph, so `paragraphs[0]` never fails there. |
| TitleSlide.AddTitleSlide | utils/slide.py:17-38 | Without slide 0 it fails with `NoSlide(0)`. Otherwise it fails exactly when writing the title and the date fails, with that fault. On success slide 0 becomes the written slide, with no shape added, and every other slide and the layouts are unchanged. |
| IntroSlide.FieldOf | utils/slide.py:45-76 | A shape announces `summary` or `aim` exactly when its stripped text is the contents label or the aim label. |
| IntroSlide.Below | utils/slide.py:51-57 | The new box has the shape's left and width, and `top + height + 0.2in` as its top. Its height is 3in. |
| IntroSlide.IntroBox | utils/slide.py:57-69 | The new box is a plain text box below the shape that reads as the field's text. |
| IntroSlide.BoxesFor | utils/slide.py:47-104 | A shape gets a box exactly when it announces a field that is present and truthy, placed below it and holding the field. A truthy non-string field raises. |
| IntroSlide.IntroBoxes | utils/slide.py:45-106 | The loop succeeds exactly when every shape's step does, and then adds one box per announcing shape. |
| IntroSlide.IntroBoxesOk | utils/slide.py:45-104 | The box loop succeeds exactly when every announced field that is truthy is text. |
| IntroSlide.IntroBoxesArePlain | utils/slide.py:57 | Every added box is neither a placeholder nor a title. |
| IntroSlide.UnlabelledUnchanged | utils/slide.py:45-106 | A slide without either label gets no boxes. |
| IntroSlide.AddIntroSlide | utils/slide.py:41-106 | Without slide 1 it fails with `NoSlide(1)`. Otherwise it succeeds exactly when the box loop over slide 1 does, and it fails with that loop's fault. On success only slide 1 changes: it keeps its shapes, and the new boxes come after them. |
| VisualSlide.InsertTextOrFallback | utils/slide.py:200-206 | With placeholder 1, only that placeholder changes, and it reads as the text (it fails if it has no frame). Without it, a text box at (1in, 3in, 6in, 1in) holding the text is added. Either way some shape shows the text. |
| VisualSlide.ImagePath | utils/slide.py:173 | `generated_image_` followed by the title's first ten characters with blanks as underscores, then `.png`. The path has no blank. |
| VisualSlide.Floats | utils/slide.py:162 | `list(map(float, y))` keeps length and order. Iterating a non-iterable raises, and so does any element `float()` refuses. |
| VisualSlide.SliceSizes | utils/slide.py:166 | The pie sizes are `convert_sizes` of what iterating the value visits. |
| VisualSlide.PlaceholderBox | utils/chart.py:42-48 | The chart's box is placeholder 1's exactly when the slide has that placeholder. |
| VisualSlide.WithChart | utils/chart.py:58 | With a chart, the slide gains exactly one shape, the chart at its box. Without one, the slide is unchanged. |
| VisualSlide.BarOrLine | utils/slide.py:160-163 | The `title`, `x` and `y` keys are required in that order, each missing one raising `KeyError`. A `y` that does not convert to floats raises that fault. Then `add_chart`'s decision is taken, with labels defaulting to "": its fault is the outcome, and otherwise the slide gets its chart, if any. The slide succeeds only along that path. |
| VisualSlide.Pie | utils/slide.py:165-168 | `sizes` is required and converted before `title` and then `labels` are looked up; each missing key and a failed conversion is the fault. Then `add_chart`'s pie decision is taken: its fault is the outcome, and otherwise the slide gets its chart, if any. |
| VisualSlide.BarOrLineCharted | utils/slide.py:160-163 | A bar or line visual with a text title, lists for `x` and `y`, numbers in `y` and falsy or text axis labels always gets its chart: exactly one shape more, categories `x`, and the numbers of `y` as values. |
| VisualSlide.PieCharted | utils/slide.py:165-168 | A pie visual with a text title, lists for labels and sizes, and sizes that all convert always gets its chart: exactly one shape more, a pie over the labels with the converted sizes. |
| VisualSlide.Image | utils/slide.py:171-195 | A missing description escapes. If the title is text, the pipeline saves the picture and placeholder 1 exists, the picture is added over that placeholder. Otherwise the description's notice is inserted. |
| VisualSlide.VisualContent | utils/slide.py:160-197 | bar/line, pie and image go to their branches. Any other type shows the "not supported" notice, and a failed image shows the description notice. No shape is removed. |
| MainSlide.TitleFrom | utils/slide.py:126 | No title shape, then no text frame, then a non-string title, each raise in that order. Otherwise only the title is set. |
| MainSlide.PointKey | utils/slide.py:135 | The key is `point` followed by the single digit `k`. |
| MainSlide.FillSlot | utils/slide.py:135-148 | A falsy point clears the frame, which then reads as empty. A truthy text point is added as a new paragraph after the cleared one, and the frame reads as a newline then the point. A truthy non-string raises. |
| MainSlide.FillEach | utils/slide.py:129-151 | The loop keeps one shape per shape. |
| MainSlide.FillEachByRank | utils/slide.py:129-151 | The slot with `c` slots before it takes point `next + c` while that is at most 4. Every other shape is unchanged. |
| MainSlide.FillEachSucceeds | utils/slide.py:129-151 | The loop succeeds exactly when every placeholder has a text frame and every slot that gets a point can take it. |
| MainSlide.FillPoints | utils/slide.py:127-151 | The point loop keeps one shape per shape. |
| MainSlide.PointsByRank | utils/slide.py:129-151 | The k-th blank placeholder in shape order, for k up to 4, receives `point{k}` (a missing or empty one clears it). Non-placeholders, non-blank placeholders and blank ones after the fourth are untouched. |
| MainSlide.PointsSucceed | utils/slide.py:129-151 | The point loop succeeds exactly when every placeholder has a text frame and every point that lands is text or falsy. |
| MainSlide.BodySlide | utils/slide.py:122-151 | Without layout 12 it fails with `NoLayout(12)`. A missing `title` raises `KeyError`. Then a title fault is the outcome, then a point-loop fault is the outcome. Otherwise the body slide is the titled layout with its points filled. |
| MainSlide.VisualSlideFor | utils/slide.py:156-197 | The visual slide is layout 3 titled `<title> - <visual.title or Visual>`: a title fault is the outcome, and otherwise the result is the visual's content on the titled slide. |
| MainSlide.AddMainSlide | utils/slide.py:122-197 | A body-slide fault is the outcome. A visual that is not a dict raises. A dict visual with no wanted type succeeds with one slide appended. A visual whose `type` is truthy and not `none` succeeds exactly when the visual slide does, with its fault otherwise, and appends it as the second slide. The earlier slides are untouched, and the first appended slide is the body slide. |
| RecommendationSlide.TruthyOnly | codeGemine.py:502-504 | Keeps exactly the truthy values, and the result is no longer than the input. |
| RecommendationSlide.TruthyOnlyCounts | codeGemine.py:502-504 | Each truthy value is kept as many times as it occurs, and no falsy value is kept. |
| RecommendationSlide.TruthyOnlySnoc | codeGemine.py:502-504 | Filtering is in order: one value more keeps the earlier result and appends the value exactly when it is truthy. |
| RecommendationSlide.RecommendationParagraphs | codeGemine.py:502-513 | One level-1 paragraph per truthy recommendation, in ascending order, reading as that recommendation. A truthy non-string raises. |
| RecommendationSlide.Target | codeGemine.py:481-496 | The target is the last shape whose text frame's first paragraph strips to empty, and no later shape qualifies. |
| RecommendationSlide.Titled | codeGemine.py:477-479 | Without a title shape the slide is unchanged. With one, it succeeds exactly when the title shape has a text frame, and otherwise fails with `NoTextFrame`. On success the title reads back "Növbəti addımlar", the title shape keeps its kind and placeholder, and every other shape is unchanged. |
| RecommendationSlide.WithList | codeGemine.py:498-513 | Without a target the slide is unchanged. Otherwise only the target changes: it is cleared and given the recommendation paragraphs. |
| RecommendationSlide.AddRecommendationSlide | codeGemine.py:472-513 | Without layout 3 it fails with `NoLayout(3)`. Then a title fault is the outcome, then a list fault is the outcome, and otherwise it succeeds. Exactly one slide is appended, the titled slide with its list, and the earlier slides are untouched. |
| RecommendationSlide.RecommendationSlideAdded | codeGemine.py:472-513 | The slide is added whenever layout 3 exists, its title shape (if any) has a text frame, and every truthy recommendation is text. |
| RecommendationSlide.AllFiveListed | codeGemine.py:502-513 | Five non-empty text recommendations give five paragraphs, in order. |
| RecommendationSlide.AllTruthyKept | codeGemine.py:502-504 | When every value is truthy, nothing is skipped. |
| Generate.DeleteSlide | codeGemine.py:517-519 | Fails exactly when the index is out of range. Otherwise that slide is removed and the others keep their order. |
| Generate.DeleteThreeThenTwo | codeGemine.py:536-537 | Deleting slide 3 and then slide 2 removes exactly the original slides at 2 and 3. |
| Generate.AddSlideFor | codeGemine.py:524-533 | Dispatches on `type`. title and intro append nothing, main appends one or two slides, recommendation appends one, and other types are skipped. Slides from position 2 on are never rewritten. |
| Generate.Build | codeGemine.py:524-533 | After the loop, the deck has the template count plus each element's appended count, and the template slides from position 2 on are unchanged. |
| Generate.BuildIsFold | codeGemine.py:524-533 | The loop is a left fold of one iteration's step over the elements, stopping at the first fault. |
| Generate.FoldSnoc | codeGemine.py:524-533 | One element more is rendered into the deck built so far, unless an earlier element already failed. |
| Generate.FoldSteps | codeGemine.py:524-533 | A fold succeeds exactly when each element's step succeeds on the deck the earlier elements built. When it fails, there is a first failing element, and its fault is the outcome. |
| Generate.BuildSteps | codeGemine.py:524-533 | Rendering the plan succeeds exactly when each element renders into the deck the earlier elements built. A fault is that of the first element that fails. |
| Generate.GeneratePptx | codeGemine.py:521-542 | A build fault is the outcome. It succeeds exactly when the build does and the built deck has at least 4 slides, so always when the build succeeds on a template of at least 4 slides; otherwise it fails with `NoSlide(3)`. The result is the built deck without positions 2 and 3, and its length is the template count plus the appended count minus 2. For a template of at least 4 slides, the removed slides are the template's own slides 2 and 3. |

## Left out

- Reading and saving files, printing, the web UI (`main.py`), and document
  text extraction are left out; they are I/O.
- The language-model and image-generation calls, and translation, are left
  out. They are network services, and the image pipeline is the parameter
  `imaging`.
- The prompt literal of `build_prompt` is left out. Only the numbers it
  interpolates are modelled.
- Fonts, sizes, colours, margins, word wrap and chart XML are left out; they
  are styling with no effect on content. The pie data-label settings
  (category name, percentage, outside-end position) are one flag.
- Python exception classes become the `Fault`, `ParseError` and `SizeError`
  constructors.
- How `placeholders[1]` is looked up is abstracted: a lookup that finds
  nothing is `None`. Which exception python-pptx raises there, and so whether
  the `except IndexError` handlers catch it, is python-pptx internals.
- Charts.ChartFor: without placeholder 1 the chart takes the fallback box
  that `add_chart` names. If python-pptx's lookup raises instead, the
  fallback is never reached and `add_chart` raises; the model does not
  follow that path.
- Json.GetDistinct: decoded objects are taken to have distinct keys.
  `json.loads` keeps the last value of a repeated key, while `Get` finds the
  first member with that key, so the two agree only under `DistinctKeys`.
- Deck.NewSlide: `d.layouts[n]` is not the layout itself but the slide
  `add_slide` builds from it. That slide has the layout's placeholders except
  date, footer and slide number, each with an empty text frame, so no
  placeholder reads as non-blank before something is written to it. How
  python-pptx clones a layout is its own internals.
- The title shape is the placeholder with `idx` 0 on every slide python-pptx
  builds; the model keeps the title flag separate and does not require this.
- `json.loads`, `float()` on strings, and `str()` of numbers, lists and dicts
  are opaque parameters. Floating point is modelled as `real`.
- Setting paragraph or run text keeps the text whole. python-pptx would turn a
  newline inside it into a line break.
- IntroSlide.IntroBoxes: boxes added during the loop are not visited again.
  With python-pptx they might be, when a field's own text equals a label.
- IntroSlide.IntroBoxes: the contract gives the number of boxes and their
  kind, not which shape each box belongs to. BoxesFor states the placement
  shape by shape.
- Every python-pptx text setter is modelled as refusing a value that is not a
  string.
- TitleSlide.AddTitleSlide: requires a four-digit year (1000 to 9999), the
  only years `%Y` prints as four digits. The date comes in as an argument
  rather than from `date.today()`.
- TitleSlide.FormatDate: requires a four-digit year, for the same reason.
