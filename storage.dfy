/**
 * The storage helpers: the object name an uploaded file gets in the `portfolio-images`
 * bucket, the upload outcome, and the object path a public URL is deleted by. The storage
 * client is an oracle: its answers are parameters.
 */
module Storage {
  import opened Wrappers
  import opened Strings

  const Bucket := "portfolio-images"
  /** What separates the bucket's public base from an object path inside a public URL. */
  const BucketMarker := "/portfolio-images/"
  const DefaultFolder := "images"
  const CacheControl := "3600"

  /**
   * The file name's extension as the source takes it: the text after the last `.`, the
   * whole name when there is no `.`.
   */
  function FileExtension(name: string): (r: string)
    ensures '.' !in r
    ensures '.' in name ==> |r| < |name| && name == name[..|name| - |r|] + r && name[|name| - |r| - 1] == '.'
    ensures '.' !in name ==> r == name
  {
    match LastIndexOf(name, '.')
    case None => name
    case Some(i) =>
      assert name == name[..i + 1] + name[i + 1..];
      name[i + 1..]
  }

  /** A name ending in `.` has the empty extension. */
  lemma TrailingDotExtension(stem: string)
    ensures FileExtension(stem + ".") == ""
  {
  }

  /** Appending `.ext` to any stem gives back `ext`, when `ext` has no dot. */
  lemma ExtensionOfDotted(stem: string, ext: string)
    requires '.' !in ext
    ensures FileExtension(stem + "." + ext) == ext
  {
    LastDotOf(stem, ext);
    assert (stem + "." + ext)[|stem| + 1..] == ext;
  }

  /**
   * `uploadImage`'s object name: `folder/<timestamp>-<random>.<ext>`, with the folder
   * `images` when none is given. The clock and the random token are inputs.
   */
  function ObjectPath(folder: Option<string>, fileName: string, timestamp: nat, random: string): string
  {
    folder.GetOr(DefaultFolder) + "/" + NatToString(timestamp) + "-" + random + "." + FileExtension(fileName)
  }

  /** The object name lies in the folder and keeps the uploaded file's extension. */
  lemma ObjectPathShape(folder: Option<string>, fileName: string, timestamp: nat, random: string)
    ensures var p := ObjectPath(folder, fileName, timestamp, random);
      var f := if folder.Some? then folder.value else DefaultFolder;
      && p[..|f| + 1] == f + "/"
      && FileExtension(p) == FileExtension(fileName)
  {
    var f := folder.GetOr(DefaultFolder);
    var stem := f + "/" + NatToString(timestamp) + "-" + random;
    ExtensionOfDotted(stem, FileExtension(fileName));
    assert ObjectPath(folder, fileName, timestamp, random) == (f + "/") + (NatToString(timestamp) + "-" + random + "." + FileExtension(fileName));
  }

  /** The upload sent to the store: never overwriting, cached for an hour. */
  datatype UploadRequest = UploadRequest(bucket: string, path: string, cacheControl: string, upsert: bool)

  function Upload(folder: Option<string>, fileName: string, timestamp: nat, random: string): (u: UploadRequest)
    ensures u.bucket == Bucket && u.cacheControl == CacheControl && !u.upsert
    ensures u.path == ObjectPath(folder, fileName, timestamp, random)
  {
    UploadRequest(Bucket, ObjectPath(folder, fileName, timestamp, random), CacheControl, false)
  }

  /**
   * The upload's outcome from the store's answer (the stored path or an error message):
   * an error becomes `Upload failed: <message>`; a stored path becomes its public URL,
   * which the store computes.
   */
  function FinishUpload(answer: Result<string>, publicUrl: string -> string): (r: Result<string>)
    ensures answer.Err? <==> r.Err?
    ensures answer.Err? ==> r.message == "Upload failed: " + answer.message
    ensures answer.Ok? ==> r.value == publicUrl(answer.value)
  {
    match answer
    case Err(m) => Err("Upload failed: " + m)
    case Ok(path) => Ok(publicUrl(path))
  }

  /**
   * The object path `deleteImage` removes: the text after the first bucket marker up to
   * the first marker that starts at or after it, or to the end of the URL when there is
   * none (the second piece of `split`); nothing when the URL has no marker.
   */
  function DeletePath(url: string): (r: Option<string>)
    ensures r.None? <==> !Contains(url, BucketMarker)
    ensures r.Some? ==> IndexOf(url, BucketMarker).Some?
    ensures r.Some? ==> r.value <= url[IndexOf(url, BucketMarker).value + |BucketMarker|..]
    ensures r.Some? ==> !Contains(r.value, BucketMarker)
    ensures r.Some? ==>
      var s := IndexOf(url, BucketMarker).value + |BucketMarker|;
      (s + |r.value| == |url| || OccursAt(url, BucketMarker, s + |r.value|)) &&
      forall k :: s <= k < s + |r.value| ==> !OccursAt(url, BucketMarker, k)
  {
    match IndexOf(url, BucketMarker)
    case None => None
    case Some(i) =>
      var start := i + |BucketMarker|;
      match IndexOfFrom(url, BucketMarker, start)
      case None =>
        NoOccurrenceInSlice(url, BucketMarker, start, |url|);
        assert url[start..] == url[start..|url|];
        Some(url[start..])
      case Some(j) =>
        NoOccurrenceInSlice(url, BucketMarker, start, j);
        Some(url[start..j])
  }

  /** The marker's only character equal to its first is its last. */
  lemma MarkerSlashes()
    ensures forall k :: 0 < k < |BucketMarker| - 1 ==> BucketMarker[k] != '/'
    ensures BucketMarker[0] == '/' && BucketMarker[|BucketMarker| - 1] == '/'
  {
  }

  /**
   * The first marker of `base + marker + path` is the written one, provided `base`
   * followed by a slash holds no marker (so `base` does not end in `/portfolio-images`).
   */
  lemma FirstMarkerAfterBase(base: string, path: string)
    requires !Contains(base + "/", BucketMarker)
    ensures IndexOf(base + BucketMarker + path, BucketMarker) == Some(|base|)
  {
    var url := base + BucketMarker + path;
    var m := BucketMarker;
    MarkerSlashes();
    assert OccursAt(url, m, |base|) by {
      assert url[|base|..|base| + |m|] == m;
    }
    var w := base + "/";
    forall j | 0 <= j < |base|
      ensures !OccursAt(url, m, j)
    {
      var k := |base| - j;
      if k < |m| - 1 {
        assert url[j..j + |m|][k] == url[|base|] == '/' != m[k];
      } else {
        assert url[j..j + |m|] == w[j..j + |m|];
        assert !OccursAt(w, m, j);
      }
    }
  }

  /**
   * A public URL `base + marker + path` is deleted by `path`, when `path` holds no
   * marker and `base` followed by a slash holds none.
   */
  lemma DeletePathOfPublicUrl(base: string, path: string)
    requires !Contains(base + "/", BucketMarker)
    requires !Contains(path, BucketMarker)
    ensures DeletePath(base + BucketMarker + path) == Some(path)
  {
    var url := base + BucketMarker + path;
    var m := BucketMarker;
    FirstMarkerAfterBase(base, path);
    var start := |base| + |m|;
    assert url[start..] == path;
    forall j | start <= j
      ensures !OccursAt(url, m, j)
    {
      if j + |m| <= |url| {
        assert path[j - start..j - start + |m|] == url[j..j + |m|];
        assert !OccursAt(path, m, j - start);
      }
    }
  }

  /** What a delete does: nothing, a removal, or a removal whose failure is only logged. */
  datatype DeleteOutcome = Skipped | Removed(path: string) | RemovalFailedLogged(path: string, error: string)

  /**
   * `deleteImage`: removes the single object `DeletePath` names; a store error is logged
   * and the call still completes, so no outcome is an error.
   */
  function DeleteImage(url: string, removeError: Option<string>): (r: DeleteOutcome)
    ensures r.Skipped? <==> !Contains(url, BucketMarker)
    ensures !r.Skipped? ==> r.path == DeletePath(url).value
    ensures r.RemovalFailedLogged? <==> Contains(url, BucketMarker) && removeError.Some?
  {
    match DeletePath(url)
    case None => Skipped
    case Some(p) =>
      match removeError
      case None => Removed(p)
      case Some(e) => RemovalFailedLogged(p, e)
  }
}
