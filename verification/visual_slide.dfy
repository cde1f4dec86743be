/**
 * The visual slide `add_main_slide` appends after a main slide whose visual
 * has a type: a chart, a generated picture, or a text notice in its place;
 * and `insert_text_or_fallback`, which writes such a notice.
 */
module VisualSlide {
  import opened Outcomes
  import opened Json
  import opened Deck
  import Text
  import Sizes
  import Charts

  /**
   * What the visual slide calls but the model does not define: Python's
   * `float()` on a string, `str()` of numbers, lists and dicts, and the image
   * pipeline (translate the description, generate a picture from it, save it
   * at the path), which is true exactly when none of its steps raised.
   */
  datatype Services = Services(
    parseFloat: string -> Option<real>,
    show: Json -> string,
    imaging: (Json, string) -> bool)

  /** The fallback text box: 1in from the left, 3in from the top, 6in wide, 1in high. */
  const NoticeBox: Box := Box(TenthsOfInch(10), TenthsOfInch(30), TenthsOfInch(60), TenthsOfInch(10))

  /** Some shape of the slide reads `text`. */
  ghost predicate Shows(s: Slide, text: string) {
    exists k :: 0 <= k < |s.shapes| && ShapeText(s.shapes[k]) == Ok(text)
  }

  /**
   * `insert_text_or_fallback(slide, text)`: the text replaces the contents of
   * placeholder 1 when the slide has one, and goes into a new text box at the
   * fixed position otherwise.
   */
  function InsertTextOrFallback(s: Slide, text: string): (r: Result<Slide, Fault>)
    ensures PlaceholderIndex(s, 1).Some? ==>
              var k := PlaceholderIndex(s, 1).value;
              && (r.Err? <==> s.shapes[k].frame.None?)
              && (r.Ok? ==> && |r.value.shapes| == |s.shapes|
                            && ShapeText(r.value.shapes[k]) == Ok(text)
                            && forall m :: 0 <= m < |s.shapes| && m != k ==> r.value.shapes[m] == s.shapes[m])
    ensures PlaceholderIndex(s, 1).None? ==> r == Ok(Slide(s.shapes + [TextBox(NoticeBox, text)]))
    ensures r.Ok? ==> Shows(r.value, text)
    ensures r.Err? ==> r.error == NoTextFrame
  {
    match PlaceholderIndex(s, 1)
    case Some(k) =>
      var written :- SetShapeText(s.shapes[k], text);
      var shapes := s.shapes[k := written];
      assert ShapeText(shapes[k]) == Ok(text);
      Ok(Slide(shapes))
    case None =>
      var shapes := s.shapes + [TextBox(NoticeBox, text)];
      assert ShapeText(shapes[|s.shapes|]) == Ok(text);
      Ok(Slide(shapes))
  }

  /** The notice shown for a visual type the renderer does not support. */
  function UnsupportedNotice(visualType: Json, show: Json -> string): string {
    "[Vizual n\U{00F6}v\U{00FC} '" + Str(visualType, show) + "' h\U{0259}l\U{0259} d\U{0259}st\U{0259}kl\U{0259}nmir]"
  }

  /** The notice shown in place of a picture: the untranslated description. */
  function ImageNotice(description: Json, show: Json -> string): string {
    "[\U{015E}\U{0259}kil t\U{0259}sviri: " + Str(description, show) + "]"
  }

  const ImagePrefix: string := "generated_image_"

  /**
   * Where the generated picture is saved: the first ten characters of the
   * visual's title, blanks turned into underscores, between a fixed prefix
   * and `.png`.
   */
  function ImagePath(title: string): (p: string)
    ensures |p| == |ImagePrefix| + (if |title| < 10 then |title| else 10) + 4
    ensures p[..|ImagePrefix|] == ImagePrefix && p[|p| - 4..] == ".png"
    ensures forall i :: 0 <= i < |p| - |ImagePrefix| - 4 ==>
              p[|ImagePrefix| + i] == if title[i] == ' ' then '_' else title[i]
    ensures ' ' !in p
  {
    var name := Text.Replace(Text.Head(title, 10), ' ', '_');
    var p := ImagePrefix + name + ".png";
    assert p[..|ImagePrefix|] == ImagePrefix;
    assert p[|p| - 4..] == ".png";
    assert forall i :: 0 <= i < |name| ==> p[|ImagePrefix| + i] == name[i];
    p
  }

  /** `list(map(float, y))`. */
  function Floats(y: Json, parseFloat: string -> Option<real>): (r: Result<seq<real>, Fault>)
    ensures Iterate(y).None? ==> r == Err(NotIterable)
    ensures Iterate(y).Some? ==>
              var xs := Iterate(y).value;
              && (r.Ok? <==> forall i :: 0 <= i < |xs| ==> ToFloat(xs[i], parseFloat).Some?)
              && (r.Ok? ==> |r.value| == |xs| && forall i :: 0 <= i < |xs| ==> ToFloat(xs[i], parseFloat) == Some(r.value[i]))
              && (r.Err? ==> r.error == NotAFloat)
  {
    match Iterate(y)
    case None => Err(NotIterable)
    case Some(xs) =>
      match Sizes.ConvertEach(xs, (x: Json) => ToFloat(x, parseFloat))
      case Ok(vs) => Ok(vs)
      case Err(_) => Err(NotAFloat)
  }

  /** `convert_sizes(visual["sizes"])`, with its failures as one fault. */
  function SliceSizes(sizes: Json, parseFloat: string -> Option<real>): (r: Result<seq<real>, Fault>)
    ensures Iterate(sizes).None? ==> r == Err(NotIterable)
    ensures Iterate(sizes).Some? ==>
              && (r.Ok? <==> Sizes.ConvertSizes(Iterate(sizes).value, parseFloat).Ok?)
              && (r.Ok? ==> Sizes.ConvertSizes(Iterate(sizes).value, parseFloat) == Ok(r.value))
              && (r.Err? ==> r.error == BadSizes)
  {
    match Iterate(sizes)
    case None => Err(NotIterable)
    case Some(xs) =>
      match Sizes.ConvertSizes(xs, parseFloat)
      case Ok(vs) => Ok(vs)
      case Err(_) => Err(BadSizes)
  }

  /** The box of placeholder 1, when the slide has it. */
  function PlaceholderBox(s: Slide): (r: Option<Box>)
    ensures r.Some? <==> PlaceholderIndex(s, 1).Some?
    ensures r.Some? ==> r.value == s.shapes[PlaceholderIndex(s, 1).value].box
  {
    match PlaceholderIndex(s, 1)
    case None => None
    case Some(k) => Some(s.shapes[k].box)
  }

  /** The slide after `add_chart`: unchanged without a chart, the chart added last with one. */
  function WithChart(s: Slide, placed: Option<Charts.Placed>): (r: Slide)
    ensures placed.None? ==> r == s
    ensures placed.Some? ==> && |r.shapes| == |s.shapes| + 1 && r.shapes[..|s.shapes|] == s.shapes
                             && r.shapes[|s.shapes|].box == placed.value.box
                             && r.shapes[|s.shapes|].graphic == ChartGraphic(placed.value.chart)
  {
    match placed
    case None => s
    case Some(p) =>
      var shapes := s.shapes + [Shape(None, false, None, p.box, ChartGraphic(p.chart))];
      assert shapes[..|s.shapes|] == s.shapes;
      Slide(shapes)
  }

  /** The bar and line branch: title, categories and values from the visual, labels optional. */
  function BarOrLine(s: Slide, visual: seq<Member>, services: Services): (r: Result<Slide, Fault>)
    requires Charts.IsBarOrLine(GetOr(visual, "type", JNull))
    ensures "title" !in Keys(visual) ==> r == Err(KeyMissing("title"))
    ensures "title" in Keys(visual) && "x" !in Keys(visual) ==> r == Err(KeyMissing("x"))
    ensures "title" in Keys(visual) && "x" in Keys(visual) && "y" !in Keys(visual) ==> r == Err(KeyMissing("y"))
    ensures "title" in Keys(visual) && "x" in Keys(visual) && "y" in Keys(visual) ==>
              var values := Floats(Get(visual, "y").value, services.parseFloat);
              && (values.Err? ==> r == Err(values.error))
              && (values.Ok? ==>
                    var placed := Charts.ChartFor(GetOr(visual, "type", JNull), Get(visual, "title").value,
                                                  Get(visual, "x").value, Some(values.value),
                                                  GetOr(visual, "xlabel", JString("")), GetOr(visual, "ylabel", JString("")),
                                                  JNull, None, PlaceholderBox(s));
                    && (placed.Err? ==> r == Err(placed.error))
                    && (placed.Ok? ==> r == Ok(WithChart(s, placed.value))))
    ensures r.Ok? ==>
              && Floats(Get(visual, "y").value, services.parseFloat).Ok?
              && var placed := Charts.ChartFor(GetOr(visual, "type", JNull), Get(visual, "title").value,
                                               Get(visual, "x").value,
                                               Some(Floats(Get(visual, "y").value, services.parseFloat).value),
                                               GetOr(visual, "xlabel", JString("")), GetOr(visual, "ylabel", JString("")),
                                               JNull, None, PlaceholderBox(s));
                 placed.Ok? && r.value == WithChart(s, placed.value)
  {
    var title :- Key(visual, "title");
    var x :- Key(visual, "x");
    var y :- Key(visual, "y");
    var values :- Floats(y, services.parseFloat);
    var placed :- Charts.ChartFor(GetOr(visual, "type", JNull), title, x, Some(values),
                                  GetOr(visual, "xlabel", JString("")), GetOr(visual, "ylabel", JString("")),
                                  JNull, None, PlaceholderBox(s));
    Ok(WithChart(s, placed))
  }

  /** The pie branch: sizes converted first, then title and labels. */
  function Pie(s: Slide, visual: seq<Member>, services: Services): (r: Result<Slide, Fault>)
    ensures "sizes" !in Keys(visual) ==> r == Err(KeyMissing("sizes"))
    ensures "sizes" in Keys(visual) ==>
              var values := SliceSizes(Get(visual, "sizes").value, services.parseFloat);
              && (values.Err? ==> r == Err(values.error))
              && (values.Ok? && "title" !in Keys(visual) ==> r == Err(KeyMissing("title")))
              && (values.Ok? && "title" in Keys(visual) && "labels" !in Keys(visual) ==> r == Err(KeyMissing("labels")))
              && (values.Ok? && "title" in Keys(visual) && "labels" in Keys(visual) ==>
                    var placed := Charts.ChartFor(JString("pie"), Get(visual, "title").value, JNull, None,
                                                  JNull, JNull, Get(visual, "labels").value, Some(values.value),
                                                  PlaceholderBox(s));
                    && (placed.Err? ==> r == Err(placed.error))
                    && (placed.Ok? ==> r == Ok(WithChart(s, placed.value))))
    ensures r.Ok? ==>
              && "sizes" in Keys(visual) && "title" in Keys(visual) && "labels" in Keys(visual)
              && SliceSizes(Get(visual, "sizes").value, services.parseFloat).Ok?
              && var placed := Charts.ChartFor(JString("pie"), Get(visual, "title").value, JNull, None,
                                               JNull, JNull, Get(visual, "labels").value,
                                               Some(SliceSizes(Get(visual, "sizes").value, services.parseFloat).value),
                                               PlaceholderBox(s));
                 placed.Ok? && r.value == WithChart(s, placed.value)
  {
    var sizes :- Key(visual, "sizes");
    var values :- SliceSizes(sizes, services.parseFloat);
    var title :- Key(visual, "title");
    var labels :- Key(visual, "labels");
    var placed :- Charts.ChartFor(JString("pie"), title, JNull, None, JNull, JNull, labels, Some(values), PlaceholderBox(s));
    Ok(WithChart(s, placed))
  }

  /**
   * A bar or line visual with a text title, lists for `x` and `y`, numbers in
   * `y` and text or empty axis labels always gets its chart: one shape more,
   * over `x` with the numbers of `y`.
   */
  lemma BarOrLineCharted(s: Slide, visual: seq<Member>, services: Services)
    requires Charts.IsBarOrLine(GetOr(visual, "type", JNull))
    requires GetOr(visual, "title", JNull).JString?
    requires GetOr(visual, "x", JNull).JArray? && GetOr(visual, "y", JNull).JArray?
    requires forall i :: 0 <= i < |GetOr(visual, "y", JNull).items| ==> GetOr(visual, "y", JNull).items[i].JNumber?
    requires var l := GetOr(visual, "xlabel", JString("")); !Truthy(l) || l.JString?
    requires var l := GetOr(visual, "ylabel", JString("")); !Truthy(l) || l.JString?
    ensures BarOrLine(s, visual, services).Ok?
    ensures var r := BarOrLine(s, visual, services).value;
            var ys := GetOr(visual, "y", JNull).items;
            && |r.shapes| == |s.shapes| + 1 && r.shapes[..|s.shapes|] == s.shapes
            && r.shapes[|s.shapes|].graphic.ChartGraphic?
            && var c := r.shapes[|s.shapes|].graphic.chart;
               && c.categories == GetOr(visual, "x", JNull).items
               && |c.values| == |ys| && forall i :: 0 <= i < |ys| ==> c.values[i] == ys[i].n
  {
    var ys := GetOr(visual, "y", JNull).items;
    var values := Floats(GetOr(visual, "y", JNull), services.parseFloat);
    assert forall i :: 0 <= i < |ys| ==> ToFloat(ys[i], services.parseFloat) == Some(ys[i].n);
    assert values.Ok?;
  }

  /**
   * A pie visual with a text title, a list of labels and a list of sizes that
   * all convert always gets its chart: one shape more, over the labels with
   * the converted sizes.
   */
  lemma PieCharted(s: Slide, visual: seq<Member>, services: Services)
    requires GetOr(visual, "title", JNull).JString?
    requires GetOr(visual, "labels", JNull).JArray? && GetOr(visual, "sizes", JNull).JArray?
    requires var sizes := GetOr(visual, "sizes", JNull).items;
             forall i :: 0 <= i < |sizes| ==> Sizes.SizeValue(sizes[i], services.parseFloat).Some?
    ensures Pie(s, visual, services).Ok?
    ensures var r := Pie(s, visual, services).value;
            var sizes := GetOr(visual, "sizes", JNull).items;
            && |r.shapes| == |s.shapes| + 1 && r.shapes[..|s.shapes|] == s.shapes
            && r.shapes[|s.shapes|].graphic.ChartGraphic?
            && var c := r.shapes[|s.shapes|].graphic.chart;
               && c.kind == PieChart && c.categories == GetOr(visual, "labels", JNull).items
               && |c.values| == |sizes|
               && forall i :: 0 <= i < |sizes| ==> Sizes.SizeValue(sizes[i], services.parseFloat) == Some(c.values[i])
  {
  }

  /**
   * The image pipeline succeeds: the title makes a file name, the pipeline
   * saves the picture, and the slide has placeholder 1 to put it in.
   */
  predicate PictureFits(s: Slide, visual: seq<Member>, services: Services)
    requires "description" in Keys(visual)
  {
    && GetOr(visual, "title", JNull).JString?
    && services.imaging(Get(visual, "description").value, ImagePath(GetOr(visual, "title", JNull).s))
    && PlaceholderIndex(s, 1).Some?
  }

  /**
   * The image branch: the picture over placeholder 1 when everything
   * succeeds, the description as a notice otherwise. Only a missing
   * description escapes, since the notice needs it.
   */
  function Image(s: Slide, visual: seq<Member>, services: Services): (r: Result<Slide, Fault>)
    ensures "description" !in Keys(visual) ==> r == Err(KeyMissing("description"))
    ensures "description" in Keys(visual) && PictureFits(s, visual, services) ==>
              var path := ImagePath(GetOr(visual, "title", JNull).s);
              var box := s.shapes[PlaceholderIndex(s, 1).value].box;
              r == Ok(Slide(s.shapes + [Shape(None, false, None, box, PictureGraphic(path))]))
    ensures "description" in Keys(visual) && !PictureFits(s, visual, services) ==>
              r == InsertTextOrFallback(s, ImageNotice(Get(visual, "description").value, services.show))
  {
    match Get(visual, "description")
    case None => Err(KeyMissing("description"))
    case Some(description) =>
      if PictureFits(s, visual, services) then
        var path := ImagePath(GetOr(visual, "title", JNull).s);
        var box := s.shapes[PlaceholderIndex(s, 1).value].box;
        Ok(Slide(s.shapes + [Shape(None, false, None, box, PictureGraphic(path))]))
      else InsertTextOrFallback(s, ImageNotice(description, services.show))
  }

  /** The visual types that have their own branch. */
  predicate Supported(visualType: Json) {
    Charts.IsBarOrLine(visualType) || Charts.IsPie(visualType) || visualType == JString("image")
  }

  /**
   * What goes on the titled visual slide `s`: a chart for bar, line and pie,
   * a picture or its notice for image, and for any other type a notice that
   * the type is not supported.
   */
  function VisualContent(s: Slide, visual: seq<Member>, services: Services): (r: Result<Slide, Fault>)
    ensures var t := GetOr(visual, "type", JNull);
            && (Charts.IsBarOrLine(t) ==> r == BarOrLine(s, visual, services))
            && (Charts.IsPie(t) ==> r == Pie(s, visual, services))
            && (t == JString("image") ==> r == Image(s, visual, services))
            && (!Supported(t) ==> r == InsertTextOrFallback(s, UnsupportedNotice(t, services.show)))
    ensures var t := GetOr(visual, "type", JNull);
            && (!Supported(t) && r.Ok? ==> Shows(r.value, UnsupportedNotice(t, services.show)))
            && (t == JString("image") && "description" in Keys(visual) && !PictureFits(s, visual, services) && r.Ok? ==>
                  Shows(r.value, ImageNotice(Get(visual, "description").value, services.show)))
    ensures r.Ok? ==> |r.value.shapes| >= |s.shapes|
  {
    var t := GetOr(visual, "type", JNull);
    if Charts.IsBarOrLine(t) then BarOrLine(s, visual, services)
    else if Charts.IsPie(t) then Pie(s, visual, services)
    else if t == JString("image") then Image(s, visual, services)
    else InsertTextOrFallback(s, UnsupportedNotice(t, services.show))
  }
}
