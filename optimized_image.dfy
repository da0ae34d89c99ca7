/**
 * The adaptive image element: a two-mode machine (`Primary`, then `Fallback` after the
 * first load error, never back) and the rule that picks the `src`, `srcSet` and `sizes`
 * it renders.
 */
module OptimizedImage {
  import opened Wrappers
  import opened SupabaseImage

  datatype Mode = Primary | Fallback

  datatype Variant = Thumb | Display

  function VariantName(v: Variant): string {
    match v
    case Thumb => "thumb"
    case Display => "display"
  }

  const DefaultWidths: seq<int> := [480, 768, 1024, 1280]
  const DefaultQuality: int := 70
  const DefaultFormat: Format := Webp

  /**
   * The props the element reads; an omitted prop is `None`. `preferRender` is not one
   * of the component's own props: it is passed on to the `<img>` untouched and never
   * consulted here. `hasOnError` says whether the caller passed an `onError` handler.
   */
  datatype Props = Props(
    src: string,
    widths: Option<seq<int>>,
    quality: Option<int>,
    format: Option<Format>,
    variant: Option<Variant>,
    sizes: Option<string>,
    preferRender: bool,
    hasOnError: bool)

  function Widths(p: Props): seq<int> { p.widths.GetOr(DefaultWidths) }
  function Quality(p: Props): int { p.quality.GetOr(DefaultQuality) }
  function FormatOf(p: Props): Format { p.format.GetOr(DefaultFormat) }

  function AsciiLower(c: char): char {
    if 'A' <= c <= 'Z' then (c as int + 32) as char else c
  }

  function ToLower(s: string): (r: string)
    ensures |r| == |s|
    ensures forall i :: 0 <= i < |s| ==> r[i] == AsciiLower(s[i])
  {
    if s == [] then [] else [AsciiLower(s[0])] + ToLower(s[1..])
  }

  /**
   * The configuration flag: on exactly when the setting, lower-cased, is `1` or `true`
   * (a missing setting reads as the empty string).
   */
  function TransformsEnabled(setting: Option<string>): (r: bool)
    ensures r <==> (setting.Some? &&
      (setting.value == "1" ||
       (|setting.value| == 4 && setting.value[0] in "tT" && setting.value[1] in "rR" &&
        setting.value[2] in "uU" && setting.value[3] in "eE")))
  {
    var v := ToLower(setting.GetOr(""));
    v == "1" || v == "true"
  }

  /** `Math.max(...widths)`: the largest width, or -Infinity for an empty list. */
  function MaxWidth(widths: seq<int>): (m: Num)
    ensures m == NegInfinity <==> widths == []
    ensures m.Int? ==> m.n in widths && forall w :: w in widths ==> w <= m.n
  {
    if widths == [] then NegInfinity
    else
      assert widths == [widths[0]] + widths[1..];
      match MaxWidth(widths[1..])
      case NegInfinity => Int(widths[0])
      case Int(n) => if widths[0] >= n then Int(widths[0]) else Int(n)
  }

  /** The transform for the main render URL: the widest width, the quality and format. */
  function PrimaryTransform(p: Props): Transform {
    Transform(Some(MaxWidth(Widths(p))), None, Some(Quality(p)), Some(FormatOf(p)), None)
  }

  /** The transform shared by every `srcset` entry. */
  function SrcSetTransform(p: Props): Transform {
    Transform(None, None, Some(Quality(p)), Some(FormatOf(p)), None)
  }

  /** The `primary` memo. */
  function PrimaryUrl(p: Props, mode: Mode, enabled: bool, parse: Parser): Option<string> {
    if mode != Primary then None
    else if enabled then RenderUrl(p.src, parse, PrimaryTransform(p))
    else if p.variant.Some? then VariantUrl(p.src, parse, VariantName(p.variant.value))
    else None
  }

  /** The `srcSet` memo. */
  function SrcSetOf(p: Props, mode: Mode, enabled: bool, parse: Parser): Option<string> {
    if mode != Primary || !enabled then None
    else SrcSet(p.src, parse, Widths(p), SrcSetTransform(p))
  }

  datatype ImgAttributes = ImgAttributes(src: string, srcSet: Option<string>, sizes: Option<string>)

  /**
   * What the `<img>` receives. With transforms on, the source is the render URL at the
   * widest width and the variant is never tried, even when the render URL is null. With
   * transforms off, it is the variant URL when a variant is asked for. A null choice and
   * the fallback mode both give the original `src`. A candidate set is emitted only in
   * primary mode with transforms on, and is then the `srcset` built from the widths at the
   * shared quality and format; `sizes` is passed only beside a candidate set.
   */
  function Attributes(p: Props, mode: Mode, enabled: bool, parse: Parser): (a: ImgAttributes)
    ensures mode == Fallback ==> a == ImgAttributes(p.src, None, None)
    ensures mode == Primary && enabled ==> a.src == RenderUrl(p.src, parse, PrimaryTransform(p)).GetOr(p.src)
    ensures mode == Primary && !enabled ==>
      a.src == (if p.variant.Some? then VariantUrl(p.src, parse, VariantName(p.variant.value)).GetOr(p.src) else p.src)
    ensures a.srcSet.Some? <==> mode == Primary && enabled && Widths(p) != [] && IsStorageUrl(p.src, parse)
    ensures a.srcSet.Some? ==> a.srcSet == SrcSet(p.src, parse, Widths(p), SrcSetTransform(p))
    ensures a.sizes == if a.srcSet.Some? then p.sizes else None
  {
    var primary := PrimaryUrl(p, mode, enabled, parse);
    var srcSet := SrcSetOf(p, mode, enabled, parse);
    ImgAttributes(primary.GetOr(p.src), srcSet, if srcSet.Some? && srcSet.value != "" then p.sizes else None)
  }

  /** `preferRender` has no effect on what is rendered. */
  lemma PreferRenderIgnored(p: Props, mode: Mode, enabled: bool, parse: Parser)
    ensures Attributes(p.(preferRender := true), mode, enabled, parse) == Attributes(p.(preferRender := false), mode, enabled, parse)
  {
  }

  /** One rendered image instance: its props, its mode, and the errors passed on to the caller. */
  class Image {
    const transformsEnabled: bool
    const parse: Parser
    var props: Props
    var mode: Mode
    /** How many times the caller's `onError` has been invoked (never, when it has none). */
    var errorsForwarded: nat

    constructor(setting: Option<string>, parse: Parser, props: Props)
      ensures transformsEnabled == TransformsEnabled(setting) && this.parse == parse
      ensures this.props == props && mode == Primary && errorsForwarded == 0
    {
      transformsEnabled := TransformsEnabled(setting);
      this.parse := parse;
      this.props := props;
      mode := Primary;
      errorsForwarded := 0;
    }

    function Rendered(): ImgAttributes
      reads this
    {
      Attributes(props, mode, transformsEnabled, parse)
    }

    /** A load error: the mode becomes `Fallback` (from either mode), then the caller's
        handler is invoked when it has one. */
    method OnError()
      modifies this`mode, this`errorsForwarded
      ensures mode == Fallback
      ensures errorsForwarded == old(errorsForwarded) + (if props.hasOnError then 1 else 0)
      ensures Rendered() == ImgAttributes(props.src, None, None)
    {
      mode := Fallback;
      if props.hasOnError {
        errorsForwarded := errorsForwarded + 1;
      }
    }

    /** A re-render with new props (a new `src` included) keeps the mode. */
    method SetProps(p: Props)
      modifies this`props
      ensures props == p && mode == old(mode)
    {
      props := p;
    }
  }
}
