/**
 * `convert_sizes`: the pie-chart slice sizes as the model wrote them
 * ("40%", " 60 ") turned into numbers. Python's `float()` grammar is the
 * opaque partial function `parseFloat`.
 */
module Sizes {
  import opened Outcomes
  import opened Json
  import Text

  /** The exception that stops the conversion, at the position of the first bad size. */
  datatype SizeError =
    | NotAString(index: nat)   // `AttributeError`: only strings have `.strip()`
    | NotANumber(index: nat)   // `ValueError` from `float()`

  /** The text handed to `float()`: stripped, then one trailing `%` dropped. */
  function SizeText(s: string): (t: string)
    ensures Text.EndsWith(Text.Strip(s), '%') ==> t + "%" == Text.Strip(s)
    ensures !Text.EndsWith(Text.Strip(s), '%') ==> t == Text.Strip(s)
  {
    var u := Text.Strip(s);
    if Text.EndsWith(u, '%') then u[..|u| - 1] else u
  }

  /** A plain size reaches `float()` without its surrounding whitespace. */
  lemma PlainKept(pre: string, n: string, post: string)
    requires forall i :: 0 <= i < |pre| ==> Text.IsSpace(pre[i])
    requires forall i :: 0 <= i < |post| ==> Text.IsSpace(post[i])
    requires |n| > 0 && !Text.IsSpace(n[0]) && !Text.IsSpace(n[|n| - 1]) && !Text.EndsWith(n, '%')
    ensures SizeText(pre + n + post) == n
  {
    Text.StripPadded(pre, n, post);
  }

  /** A size with a percent sign reaches `float()` as the same text without it. */
  lemma PercentDropped(pre: string, n: string, post: string)
    requires forall i :: 0 <= i < |pre| ==> Text.IsSpace(pre[i])
    requires forall i :: 0 <= i < |post| ==> Text.IsSpace(post[i])
    requires |n| > 0 && !Text.IsSpace(n[0])
    ensures SizeText(pre + n + "%" + post) == n
  {
    var core := n + "%";
    assert core[0] == n[0] && core[|core| - 1] == '%';
    Text.StripPadded(pre, core, post);
    assert pre + core + post == pre + n + "%" + post;
    assert core[..|n|] == n;
  }

  /** The `%` is dropped after stripping, so a blank before it stays: "40 %" reaches `float()` as "40 ". */
  lemma BlankBeforePercentKept(n: string)
    requires |n| > 0 && !Text.IsSpace(n[0])
    ensures SizeText(n + " %") == n + " "
  {
    Text.StripPadded("", n + " %", "");
    assert "" + (n + " %") + "" == n + " %";
    assert (n + " %")[..|n| + 1] == n + " ";
  }

  /** Only one trailing `%` is dropped: "40%%" reaches `float()` as "40%". */
  lemma OnePercentOnly(n: string)
    requires |n| > 0 && !Text.IsSpace(n[0])
    ensures SizeText(n + "%%") == n + "%"
  {
    Text.StripPadded("", n + "%%", "");
    assert "" + (n + "%%") + "" == n + "%%";
    assert (n + "%%")[..|n| + 1] == n + "%";
  }

  /** The number one decoded size stands for, if it stands for one. */
  function SizeValue(j: Json, parseFloat: string -> Option<real>): Option<real> {
    if j.JString? then parseFloat(SizeText(j.s)) else None
  }

  /**
   * The loop of `convert_sizes` with the per-element conversion `value` left
   * abstract: one result per element, in order, or the position of the first
   * element that does not convert.
   */
  function ConvertEach(xs: seq<Json>, value: Json -> Option<real>): (r: Result<seq<real>, nat>)
    ensures r.Ok? ==> |r.value| == |xs| && forall i :: 0 <= i < |xs| ==> value(xs[i]) == Some(r.value[i])
    ensures r.Err? ==> r.error < |xs| && value(xs[r.error]).None?
                       && forall i :: 0 <= i < r.error ==> value(xs[i]).Some?
  {
    if |xs| == 0 then Ok([])
    else
      match value(xs[0])
      case None => Err(0)
      case Some(v) =>
        match ConvertEach(xs[1..], value)
        case Err(k) => Err(k + 1)
        case Ok(vs) => Ok([v] + vs)
  }

  /**
   * `convert_sizes(sizes)`: one number per size, in order, or the error of the
   * first size that is not a string or does not parse.
   */
  function ConvertSizes(sizes: seq<Json>, parseFloat: string -> Option<real>): (r: Result<seq<real>, SizeError>)
    ensures r.Ok? <==> forall i :: 0 <= i < |sizes| ==> SizeValue(sizes[i], parseFloat).Some?
    ensures r.Ok? ==> |r.value| == |sizes|
                      && forall i :: 0 <= i < |sizes| ==> SizeValue(sizes[i], parseFloat) == Some(r.value[i])
    ensures r.Err? ==> && r.error.index < |sizes|
                       && SizeValue(sizes[r.error.index], parseFloat).None?
                       && (r.error.NotAString? <==> !sizes[r.error.index].JString?)
                       && forall i :: 0 <= i < r.error.index ==> SizeValue(sizes[i], parseFloat).Some?
  {
    var value := j => SizeValue(j, parseFloat);
    match ConvertEach(sizes, value)
    case Ok(vs) => Ok(vs)
    case Err(k) => Err(if sizes[k].JString? then NotANumber(k) else NotAString(k))
  }

  /** `convert_sizes(["40%", "60"])` is `[40.0, 60.0]`; `convert_sizes(["abc"])` raises `ValueError`. */
  lemma ConvertExamples(parseFloat: string -> Option<real>)
    requires parseFloat("40") == Some(40.0) && parseFloat("60") == Some(60.0)
    requires parseFloat("abc") == None
    ensures ConvertSizes([JString("40%"), JString("60")], parseFloat) == Ok([40.0, 60.0])
    ensures ConvertSizes([JString("abc")], parseFloat) == Err(NotANumber(0))
  {
    PercentDropped("", "40", "");
    assert "" + "40" + "%" + "" == "40%";
    assert SizeValue(JString("40%"), parseFloat) == Some(40.0);
    PlainKept("", "60", "");
    assert "" + "60" + "" == "60";
    assert SizeValue(JString("60"), parseFloat) == Some(60.0);
    var sizes := [JString("40%"), JString("60")];
    var r := ConvertSizes(sizes, parseFloat);
    assert SizeValue(sizes[0], parseFloat).Some? && SizeValue(sizes[1], parseFloat).Some?;
    assert r.value[0] == 40.0 && r.value[1] == 60.0;
    assert r.value == [40.0, 60.0];
    PlainKept("", "abc", "");
    assert "" + "abc" + "" == "abc";
    assert SizeValue(JString("abc"), parseFloat) == None;
  }
}
