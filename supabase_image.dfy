/**
 * URL rewriting for images kept in the object store: the render-endpoint URL with
 * transform query parameters, the fixed-name variant URL (`<base>-<suffix>.webp`),
 * and the responsive candidate list (`srcset`).
 *
 * Parsing an absolute URL is outside the model: a `Parser` is the result of
 * `new URL(input)` for every input (`None` when the constructor throws), and a parsed
 * URL is an origin, a pathname, an ordered list of query pairs and a fragment.
 */
module SupabaseImage {
  import opened Wrappers
  import opened Strings

  datatype Format = Origin | Webp | Avif
  datatype Resize = Cover | Contain | Fill | Inside | Outside

  function FormatName(f: Format): string {
    match f
    case Origin => "origin"
    case Webp => "webp"
    case Avif => "avif"
  }

  function ResizeName(r: Resize): string {
    match r
    case Cover => "cover"
    case Contain => "contain"
    case Fill => "fill"
    case Inside => "inside"
    case Outside => "outside"
  }

  /** A JavaScript number as it can reach the `width` option: an integer, or
      -Infinity (what `Math.max()` yields for an empty list). */
  datatype Num = Int(n: int) | NegInfinity

  function NumToString(x: Num): string {
    match x
    case Int(n) => IntToString(n)
    case NegInfinity => "-Infinity"
  }

  /** A present, non-zero number is truthy (-Infinity included). */
  predicate NumTruthy(x: Option<Num>) {
    x.Some? && x.value != Int(0)
  }

  predicate IntTruthy(x: Option<int>) {
    x.Some? && x.value != 0
  }

  /** The transform options; an absent option is `None`. */
  datatype Transform = Transform(
    width: Option<Num>,
    height: Option<int>,
    quality: Option<int>,
    format: Option<Format>,
    resize: Option<Resize>)

  type Query = seq<(string, string)>

  /** A parsed absolute URL. `origin` is everything before the pathname. */
  datatype Url = Url(origin: string, pathname: string, query: Query, hash: string)

  /** What `new URL(s)` gives for every string `s`; `None` when it throws. */
  type Parser = string -> Option<Url>

  const ObjectMarker: string := "/storage/v1/object/"
  const RenderMarker: string := "/storage/v1/render/image/"

  // ---------------------------------------------------------------------------
  // Query parameters (URLSearchParams)

  /** `searchParams.get(k)`: the value of the first pair named `k`. */
  function Get(q: Query, k: string): Option<string> {
    if q == [] then None
    else if q[0].0 == k then Some(q[0].1)
    else Get(q[1..], k)
  }

  /** The pairs of `q` not named `k`, in order. */
  function Without(q: Query, k: string): (r: Query)
    ensures Get(r, k) == None
  {
    if q == [] then []
    else if q[0].0 == k then Without(q[1..], k)
    else [q[0]] + Without(q[1..], k)
  }

  /** The number of pairs named `k`. */
  function Count(q: Query, k: string): nat {
    if q == [] then 0 else (if q[0].0 == k then 1 else 0) + Count(q[1..], k)
  }

  lemma {:induction false} WithoutTwice(q: Query, k: string)
    ensures Without(Without(q, k), k) == Without(q, k)
    ensures Count(Without(q, k), k) == 0
  {
    if q != [] {
      WithoutTwice(q[1..], k);
      if q[0].0 != k {
        assert ([q[0]] + Without(q[1..], k))[1..] == Without(q[1..], k);
      }
    }
  }

  lemma {:induction false} GetWithout(q: Query, k: string, k': string)
    requires k' != k
    ensures Get(Without(q, k), k') == Get(q, k')
  {
    if q != [] {
      GetWithout(q[1..], k, k');
      if q[0].0 != k {
        assert ([q[0]] + Without(q[1..], k))[1..] == Without(q[1..], k);
      }
    }
  }

  /**
   * `searchParams.set(k, v)`: the first pair named `k` gets the value `v` and the other
   * pairs named `k` are removed; with no pair named `k`, `(k, v)` is appended.
   * Afterwards `k` maps to `v`, exactly one pair is named `k`, and every other pair is
   * kept in its order.
   */
  function SetParam(q: Query, k: string, v: string): (r: Query)
    ensures Get(r, k) == Some(v)
    ensures Count(r, k) == 1
    ensures Without(r, k) == Without(q, k)
  {
    if q == [] then [(k, v)]
    else if q[0].0 == k then
      WithoutTwice(q[1..], k);
      assert ([(k, v)] + Without(q[1..], k))[1..] == Without(q[1..], k);
      [(k, v)] + Without(q[1..], k)
    else
      var rest := SetParam(q[1..], k, v);
      assert ([q[0]] + rest)[1..] == rest;
      [q[0]] + rest
  }

  /** Other keys read the same after `set`. */
  lemma SetParamKeepsOthers(q: Query, k: string, v: string, k': string)
    requires k' != k
    ensures Get(SetParam(q, k, v), k') == Get(q, k')
  {
    GetWithout(SetParam(q, k, v), k, k');
    GetWithout(q, k, k');
  }

  /** `if (value) searchParams.set(k, value)`. */
  function SetIfPresent(q: Query, k: string, v: Option<string>): Query {
    if v.Some? then SetParam(q, k, v.value) else q
  }

  lemma SetIfPresentGet(q: Query, k: string, v: Option<string>, k': string)
    ensures Get(SetIfPresent(q, k, v), k') == if k' == k && v.Some? then v else Get(q, k')
  {
    if v.Some? && k' != k {
      SetParamKeepsOthers(q, k, v.value, k');
    }
  }

  // ---------------------------------------------------------------------------
  // Render URL

  function WidthParam(t: Transform): Option<string> {
    if NumTruthy(t.width) then Some(NumToString(t.width.value)) else None
  }

  function HeightParam(t: Transform): Option<string> {
    if IntTruthy(t.height) then Some(IntToString(t.height.value)) else None
  }

  function QualityParam(t: Transform): Option<string> {
    if IntTruthy(t.quality) then Some(IntToString(t.quality.value)) else None
  }

  function ResizeParam(t: Transform): Option<string> {
    if t.resize.Some? then Some(ResizeName(t.resize.value)) else None
  }

  function FormatParam(t: Transform): Option<string> {
    if t.format.Some? && t.format.value != Origin then Some(FormatName(t.format.value)) else None
  }

  /** The value the render URL carries for key `k`, if the transform sets it. */
  function ParamFor(t: Transform, k: string): Option<string> {
    if k == "width" then WidthParam(t)
    else if k == "height" then HeightParam(t)
    else if k == "quality" then QualityParam(t)
    else if k == "resize" then ResizeParam(t)
    else if k == "format" then FormatParam(t)
    else None
  }

  /** The query after the five conditional `set` calls, in the source's order. */
  function RenderQuery(q: Query, t: Transform): Query {
    var q1 := SetIfPresent(q, "width", WidthParam(t));
    var q2 := SetIfPresent(q1, "height", HeightParam(t));
    var q3 := SetIfPresent(q2, "quality", QualityParam(t));
    var q4 := SetIfPresent(q3, "resize", ResizeParam(t));
    SetIfPresent(q4, "format", FormatParam(t))
  }

  /**
   * Every key reads as the transform sets it when it sets it, and as before otherwise:
   * each set option overwrites its key and every other query key is kept.
   */
  lemma RenderQueryGet(q: Query, t: Transform, k: string)
    ensures Get(RenderQuery(q, t), k) == if ParamFor(t, k).Some? then ParamFor(t, k) else Get(q, k)
  {
    var q1 := SetIfPresent(q, "width", WidthParam(t));
    var q2 := SetIfPresent(q1, "height", HeightParam(t));
    var q3 := SetIfPresent(q2, "quality", QualityParam(t));
    var q4 := SetIfPresent(q3, "resize", ResizeParam(t));
    SetIfPresentGet(q, "width", WidthParam(t), k);
    SetIfPresentGet(q1, "height", HeightParam(t), k);
    SetIfPresentGet(q2, "quality", QualityParam(t), k);
    SetIfPresentGet(q3, "resize", ResizeParam(t), k);
    SetIfPresentGet(q4, "format", FormatParam(t), k);
  }

  /** `pathname.replace(ObjectMarker, RenderMarker)`: only the first occurrence is replaced. */
  function ToRenderPathname(p: string): string {
    match IndexOf(p, ObjectMarker)
    case None => p
    case Some(i) => p[..i] + RenderMarker + p[i + |ObjectMarker|..]
  }

  /** Whatever precedes the first object marker and whatever follows it are kept. */
  lemma {:induction false} RenderPathnameReplacesFirst(pre: string, post: string)
    requires forall j :: 0 <= j < |pre| ==> !OccursAt(pre + ObjectMarker + post, ObjectMarker, j)
    ensures ToRenderPathname(pre + ObjectMarker + post) == pre + RenderMarker + post
  {
    var p := pre + ObjectMarker + post;
    assert p[|pre|..|pre| + |ObjectMarker|] == ObjectMarker;
    assert OccursAt(p, ObjectMarker, |pre|);
    var i := IndexOf(p, ObjectMarker).value;
    assert i == |pre|;
    assert p[..i] == pre;
    assert p[i + |ObjectMarker|..] == post;
  }

  predicate IsStorageObjectPath(pathname: string) {
    Contains(pathname, ObjectMarker)
  }

  /** The render-endpoint URL for a parsed storage URL: same origin and fragment. */
  function RenderTarget(u: Url, t: Transform): (r: Url)
    ensures r.origin == u.origin && r.hash == u.hash
    ensures forall k :: Get(r.query, k) == if ParamFor(t, k).Some? then ParamFor(t, k) else Get(u.query, k)
  {
    forall k ensures Get(RenderQuery(u.query, t), k) == if ParamFor(t, k).Some? then ParamFor(t, k) else Get(u.query, k) {
      RenderQueryGet(u.query, t, k);
    }
    Url(u.origin, ToRenderPathname(u.pathname), RenderQuery(u.query, t), u.hash)
  }

  /**
   * The render target's pathname: the text before the first object marker, the render
   * marker, then everything after that marker (later markers stay as they are).
   */
  lemma RenderTargetPathname(u: Url, t: Transform, pre: string, post: string)
    requires u.pathname == pre + ObjectMarker + post
    requires forall j :: 0 <= j < |pre| ==> !OccursAt(u.pathname, ObjectMarker, j)
    ensures RenderTarget(u, t).pathname == pre + RenderMarker + post
  {
    RenderPathnameReplacesFirst(pre, post);
  }

  function QueryString(q: Query): string {
    Join(seq(|q|, i requires 0 <= i < |q| => q[i].0 + "=" + q[i].1), "&")
  }

  /** `url.toString()`; an empty query prints no `?`. */
  function Serialize(u: Url): string {
    u.origin + u.pathname + (if u.query == [] then "" else "?" + QueryString(u.query)) + u.hash
  }

  /** The input is non-empty, parses, and its pathname contains the object marker. */
  predicate IsStorageUrl(input: string, parse: Parser) {
    input != "" && parse(input).Some? && IsStorageObjectPath(parse(input).value.pathname)
  }

  /** `getSupabaseRenderUrl`: null exactly for an empty, unparseable or non-storage input. */
  function RenderUrl(input: string, parse: Parser, t: Transform): (r: Option<string>)
    ensures r.None? <==> input == "" || parse(input).None? || !IsStorageObjectPath(parse(input).value.pathname)
    ensures r.Some? ==> r.value == Serialize(RenderTarget(parse(input).value, t))
  {
    if input == "" then None
    else match parse(input)
      case None => None
      case Some(u) =>
        if !IsStorageObjectPath(u.pathname) then None
        else Some(Serialize(RenderTarget(u, t)))
  }

  // ---------------------------------------------------------------------------
  // Variant URL

  /**
   * `withVariantSuffix`: the directory up to and including the last `/`, the file name
   * without its last `.ext`, then `-<suffix>.webp`. Null when the path has no `/` or
   * ends in one (an empty file name).
   */
  function WithVariantSuffix(pathname: string, suffix: string): (r: Option<string>)
    ensures r.Some? <==> '/' in pathname && pathname[|pathname| - 1] != '/'
  {
    match LastIndexOf(pathname, '/')
    case None => None
    case Some(slash) =>
      var dir := pathname[..slash + 1];
      var file := pathname[slash + 1..];
      if file == "" then None
      else
        var base := match LastIndexOf(file, '.') case None => file case Some(dot) => file[..dot];
        Some(dir + base + "-" + suffix + ".webp")
  }

  lemma LastSlashOf(dir: string, file: string)
    requires |dir| > 0 && dir[|dir| - 1] == '/' && '/' !in file
    ensures LastIndexOf(dir + file, '/') == Some(|dir| - 1)
  {
    var s := dir + file;
    forall j | |dir| <= j < |s| ensures s[j] != '/' {
      assert s[j] == file[j - |dir|];
    }
    LastIndexOfIs(s, '/', |dir| - 1);
  }

  /** A file name with an extension: the directory is kept, the last `.ext` is replaced. */
  lemma VariantOfDottedName(dir: string, base: string, ext: string, suffix: string)
    requires |dir| > 0 && dir[|dir| - 1] == '/'
    requires '/' !in base && '/' !in ext && '.' !in ext
    ensures WithVariantSuffix(dir + base + "." + ext, suffix) == Some(dir + base + "-" + suffix + ".webp")
  {
    var file := base + "." + ext;
    assert '/' !in file by {
      forall i | 0 <= i < |file| ensures file[i] != '/' {
        if i < |base| { assert file[i] == base[i]; }
        else if i > |base| { assert file[i] == ext[i - |base| - 1]; }
      }
    }
    assert dir + base + "." + ext == dir + file;
    LastSlashOf(dir, file);
    var p := dir + file;
    assert p[..|dir|] == dir && p[|dir|..] == file;
    LastDotOf(base, ext);
    assert file[..|base|] == base;
  }

  /** A file name with no dot is kept whole. */
  lemma VariantOfUndottedName(dir: string, name: string, suffix: string)
    requires |dir| > 0 && dir[|dir| - 1] == '/'
    requires name != "" && '/' !in name && '.' !in name
    ensures WithVariantSuffix(dir + name, suffix) == Some(dir + name + "-" + suffix + ".webp")
  {
    LastSlashOf(dir, name);
    var p := dir + name;
    assert p[..|dir|] == dir && p[|dir|..] == name;
  }

  /** The variant URL for a parsed URL: same origin and fragment, no query at all. */
  function VariantTarget(u: Url, suffix: string): (r: Option<Url>)
    ensures r.Some? <==> WithVariantSuffix(u.pathname, suffix).Some?
    ensures r.Some? ==> r.value.origin == u.origin && r.value.hash == u.hash && r.value.query == []
    ensures r.Some? ==> r.value.pathname == WithVariantSuffix(u.pathname, suffix).value
  {
    match WithVariantSuffix(u.pathname, suffix)
    case None => None
    case Some(p) => Some(Url(u.origin, p, [], u.hash))
  }

  lemma StoragePathHasSlash(p: string)
    requires IsStorageObjectPath(p)
    ensures '/' in p
  {
    var i := IndexOf(p, ObjectMarker).value;
    assert p[i..i + |ObjectMarker|][0] == '/';
  }

  /**
   * `getSupabasePublicVariantUrl`: null for an empty, unparseable or non-storage input,
   * and for a pathname ending in `/`; otherwise the variant target, serialised.
   */
  function VariantUrl(input: string, parse: Parser, suffix: string): (r: Option<string>)
    ensures r.None? <==> !IsStorageUrl(input, parse) || EndsInSlash(parse(input).value.pathname)
    ensures r.Some? ==> parse(input).Some? && VariantTarget(parse(input).value, suffix).Some?
    ensures r.Some? ==> r.value == Serialize(VariantTarget(parse(input).value, suffix).value)
  {
    if input == "" then None
    else match parse(input)
      case None => None
      case Some(u) =>
        if !IsStorageObjectPath(u.pathname) then None
        else
          StoragePathHasSlash(u.pathname);
          match VariantTarget(u, suffix)
          case None => None
          case Some(v) => Some(Serialize(v))
  }

  predicate EndsInSlash(p: string) {
    |p| > 0 && p[|p| - 1] == '/'
  }

  // ---------------------------------------------------------------------------
  // Responsive candidates

  /** One `srcset` entry: `"<url> <w>w"`. */
  function Entry(url: string, w: int): string {
    url + " " + IntToString(w) + "w"
  }

  /**
   * The entries that build, in the order of `widths`. Whether a render URL builds does
   * not depend on the width, so either every width gives its entry or none does.
   */
  function Candidates(input: string, parse: Parser, widths: seq<int>, base: Transform): (c: seq<string>)
    ensures |c| == if IsStorageUrl(input, parse) then |widths| else 0
    ensures forall k :: 0 <= k < |c| ==>
      c[k] == Entry(RenderUrl(input, parse, base.(width := Some(Int(widths[k])))).value, widths[k])
  {
    if widths == [] then []
    else
      var first := match RenderUrl(input, parse, base.(width := Some(Int(widths[0]))))
        case Some(url) => [Entry(url, widths[0])]
        case None => [];
      first + Candidates(input, parse, widths[1..], base)
  }

  lemma JoinNonEmpty(parts: seq<string>, sep: string)
    requires |parts| > 0
    ensures |Join(parts, sep)| >= |parts[0]|
  {
  }

  /**
   * `getSupabaseSrcSet`: the entries joined by `", "`; null when no entry builds, that is
   * when `widths` is empty or the input is not a storage URL.
   */
  function SrcSet(input: string, parse: Parser, widths: seq<int>, base: Transform): (r: Option<string>)
    ensures r.None? <==> widths == [] || !IsStorageUrl(input, parse)
    ensures r.Some? ==> r.value == Join(Candidates(input, parse, widths, base), ", ")
    ensures r.Some? ==> |r.value| > 0
  {
    var c := Candidates(input, parse, widths, base);
    if |c| == 0 then None
    else
      JoinNonEmpty(c, ", ");
      Some(Join(c, ", "))
  }
}
