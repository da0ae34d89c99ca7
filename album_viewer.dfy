/**
 * The album pager and its lightbox cursor. Photos are fetched in pages of rows ordered
 * by `order_index`; every fetch is split into a begin step, which captures the album id
 * (and, for "load more", the photo list) at call time, and a complete step, which
 * receives the store's answer. A completion whose captured album id is no longer the
 * latest one changes nothing.
 */
module AlbumViewer {
  import opened Wrappers

  datatype Photo = Photo(id: string, photoUrl: string, orderIndex: int)

  const DesktopPageSize: nat := 12
  const MobilePageSize: nat := 6

  /** The page size for the viewport: small when `(max-width: 640px)` matches. */
  function PageSizeFor(narrowViewport: bool): nat {
    if narrowViewport then MobilePageSize else DesktopPageSize
  }

  /** The store's answer to the counted first-page query: rows and, when reported, the exact count. */
  datatype FirstPageResponse = FirstPageRows(rows: seq<Photo>, count: Option<nat>) | FirstPageFailed

  /** The store's answer to a "load more" query. */
  datatype MoreResponse = MoreRows(rows: seq<Photo>) | MoreFailed

  /** An in-flight first-page fetch of rows `from..to` (inclusive) for `albumId`. */
  datatype FirstPageRequest = FirstPageRequest(albumId: string, pageSize: nat, from: nat, to: int)

  /** An in-flight "load more" fetch, with the state it captured at call time. */
  datatype MoreRequest = MoreRequest(
    albumId: string,
    photosAtCall: seq<Photo>,
    pageSize: nat,
    totalAtCall: Option<nat>,
    from: nat,
    to: int)

  /** `hasMore` after the first page: below the count when it is known, else a full page. */
  function FirstPageHasMore(loaded: nat, count: Option<nat>, pageSize: nat): bool {
    match count
    case Some(c) => loaded < c
    case None => loaded == pageSize
  }

  /** `hasMore` after a non-empty "load more": a full page, and below the total if known. */
  function MoreHasMore(got: nat, newLength: nat, total: Option<nat>, pageSize: nat): bool {
    got == pageSize && (total.None? || newLength < total.value)
  }

  datatype Key = ArrowLeft | ArrowRight | Escape | OtherKey

  class Viewer {
    /** The `albumId` prop. */
    var albumId: string
    /** `latestAlbumIdRef.current`. */
    var latestAlbumId: string
    var pageSize: nat
    var photos: seq<Photo>
    var totalCount: Option<nat>
    var loading: bool
    var loadingMore: bool
    var hasMore: bool
    var currentIndex: nat
    var lightboxOpen: bool

    ghost predicate Valid()
      reads this
    {
      pageSize == DesktopPageSize || pageSize == MobilePageSize
    }

    /** The initial state, before any effect has run. */
    constructor(albumId: string)
      ensures Valid()
      ensures this.albumId == albumId && latestAlbumId == albumId && pageSize == DesktopPageSize
      ensures photos == [] && totalCount == None && loading && !loadingMore && !hasMore
      ensures currentIndex == 0 && !lightboxOpen
    {
      this.albumId := albumId;
      latestAlbumId := albumId;
      pageSize := DesktopPageSize;
      photos := [];
      totalCount := None;
      loading := true;
      loadingMore := false;
      hasMore := false;
      currentIndex := 0;
      lightboxOpen := false;
    }

    /** The state `loadFirstPage` leaves behind before its query: nothing loaded, loading. */
    ghost predicate Cleared()
      reads this
    {
      photos == [] && totalCount == None && !hasMore && !loadingMore &&
      currentIndex == 0 && !lightboxOpen && loading
    }

    /**
     * A new `albumId` prop. A different id moves the latest-album cell to it and, because
     * `loadFirstPage` depends on the album id, its effect loads the new album's first page;
     * the same id re-runs no effect.
     */
    method ChangeAlbum(id: string) returns (req: Option<FirstPageRequest>)
      requires Valid()
      modifies this
      ensures Valid()
      ensures id == old(albumId) ==> unchanged(this) && req.None?
      ensures id != old(albumId) ==>
        albumId == id && latestAlbumId == id && pageSize == old(pageSize) && Cleared() &&
        req == Some(FirstPageRequest(id, pageSize, 0, pageSize - 1))
    {
      if id == albumId {
        return None;
      }
      albumId := id;
      latestAlbumId := id;
      var r := BeginFirstPage();
      req := Some(r);
    }

    /**
     * The media-query listener: 6 rows per page on a narrow viewport, 12 otherwise. A
     * changed page size re-runs the first-page effect (`loadFirstPage` depends on it), so
     * the pager is cleared and the first page of the same album is requested again at the
     * new size; an unchanged size re-renders nothing.
     */
    method ApplyViewport(narrowViewport: bool) returns (req: Option<FirstPageRequest>)
      requires Valid()
      modifies this`pageSize, this`photos, this`totalCount, this`loading, this`loadingMore,
        this`hasMore, this`currentIndex, this`lightboxOpen
      ensures Valid()
      ensures pageSize == (if narrowViewport then 6 else 12)
      ensures pageSize == old(pageSize) ==> unchanged(this) && req.None?
      ensures pageSize != old(pageSize) ==>
        Cleared() && req == Some(FirstPageRequest(albumId, pageSize, 0, pageSize - 1))
    {
      var size := PageSizeFor(narrowViewport);
      if size == pageSize {
        return None;
      }
      pageSize := size;
      var r := BeginFirstPage();
      req := Some(r);
    }

    /**
     * `loadFirstPage` up to its query: the state is reset and rows `0..pageSize-1` of the
     * current album are requested.
     */
    method BeginFirstPage() returns (req: FirstPageRequest)
      requires Valid()
      modifies this`photos, this`totalCount, this`loading, this`loadingMore, this`hasMore,
        this`currentIndex, this`lightboxOpen
      ensures Valid() && Cleared()
      ensures req == FirstPageRequest(albumId, pageSize, 0, pageSize - 1)
    {
      req := FirstPageRequest(albumId, pageSize, 0, pageSize - 1);
      loading := true;
      loadingMore := false;
      hasMore := false;
      totalCount := None;
      photos := [];
      currentIndex := 0;
      lightboxOpen := false;
    }

    /**
     * `loadFirstPage` after its query. A stale answer (the latest album id is no longer
     * the captured one) changes nothing, so `loading` stays set. Otherwise a success
     * replaces the photos and count and recomputes `hasMore`; an error keeps them; both
     * clear `loading`.
     */
    method CompleteFirstPage(req: FirstPageRequest, resp: FirstPageResponse)
      requires Valid()
      modifies this`photos, this`totalCount, this`hasMore, this`loading
      ensures Valid()
      ensures latestAlbumId != req.albumId ==> unchanged(this)
      ensures latestAlbumId == req.albumId ==> !loading
      ensures latestAlbumId == req.albumId && resp.FirstPageRows? ==>
        photos == resp.rows && totalCount == resp.count &&
        hasMore == FirstPageHasMore(|resp.rows|, resp.count, req.pageSize)
      ensures resp.FirstPageFailed? ==>
        photos == old(photos) && totalCount == old(totalCount) && hasMore == old(hasMore)
    {
      if latestAlbumId != req.albumId {
        return;
      }
      if resp.FirstPageRows? {
        photos := resp.rows;
        totalCount := resp.count;
        hasMore := FirstPageHasMore(|resp.rows|, resp.count, req.pageSize);
      }
      loading := false;
    }

    /**
     * `loadMore` up to its query. Nothing happens while a load is running or when there
     * is no more; otherwise `loadingMore` is set and the next `pageSize` rows after the
     * loaded ones are requested.
     */
    method BeginLoadMore() returns (req: Option<MoreRequest>)
      requires Valid()
      modifies this`loadingMore
      ensures Valid()
      ensures old(loading) || old(loadingMore) || !hasMore ==> req.None? && loadingMore == old(loadingMore)
      ensures !(old(loading) || old(loadingMore) || !hasMore) ==>
        loadingMore &&
        req == Some(MoreRequest(albumId, photos, pageSize, totalCount, |photos|, |photos| + pageSize - 1))
    {
      if loading || loadingMore || !hasMore {
        return None;
      }
      loadingMore := true;
      var from := |photos|;
      req := Some(MoreRequest(albumId, photos, pageSize, totalCount, from, from + pageSize - 1));
    }

    /**
     * `loadMore` after its query. A stale answer changes nothing (`loadingMore` stays
     * set). A non-empty answer makes the photos the call-time list followed by the new
     * rows; an empty or failed one ends paging. `loadingMore` is cleared.
     */
    method CompleteLoadMore(req: MoreRequest, resp: MoreResponse)
      requires Valid()
      modifies this`photos, this`hasMore, this`loadingMore
      ensures Valid()
      ensures latestAlbumId != req.albumId ==> unchanged(this)
      ensures latestAlbumId == req.albumId ==> !loadingMore
      ensures latestAlbumId == req.albumId && resp.MoreRows? && |resp.rows| > 0 ==>
        photos == req.photosAtCall + resp.rows &&
        hasMore == MoreHasMore(|resp.rows|, |photos|, req.totalAtCall, req.pageSize)
      ensures latestAlbumId == req.albumId && !(resp.MoreRows? && |resp.rows| > 0) ==>
        photos == old(photos) && !hasMore
    {
      if latestAlbumId != req.albumId {
        return;
      }
      if resp.MoreRows? && |resp.rows| > 0 {
        var next := req.photosAtCall + resp.rows;
        photos := next;
        hasMore := MoreHasMore(|resp.rows|, |next|, req.totalAtCall, req.pageSize);
      } else {
        hasMore := false;
      }
      loadingMore := false;
    }

    /** A click on grid photo `index`. */
    method OpenLightbox(index: nat)
      modifies this`currentIndex, this`lightboxOpen
      ensures currentIndex == index && lightboxOpen
    {
      currentIndex := index;
      lightboxOpen := true;
    }

    method CloseLightbox()
      modifies this`lightboxOpen
      ensures !lightboxOpen
    {
      lightboxOpen := false;
    }

    /**
     * Next: advance when a successor is loaded; otherwise ask for more (when there is
     * more and no "load more" is running) and leave the cursor where it is.
     */
    method NextPhoto() returns (req: Option<MoreRequest>)
      requires Valid()
      modifies this`currentIndex, this`loadingMore
      ensures Valid()
      ensures old(currentIndex) + 1 < |photos| ==>
        currentIndex == old(currentIndex) + 1 && req.None? && loadingMore == old(loadingMore)
      ensures old(currentIndex) + 1 >= |photos| ==> currentIndex == old(currentIndex)
      ensures old(currentIndex) + 1 >= |photos| ==>
        (req.Some? <==> hasMore && !old(loadingMore) && !loading)
      ensures req.Some? ==>
        loadingMore &&
        req == Some(MoreRequest(albumId, photos, pageSize, totalCount, |photos|, |photos| + pageSize - 1))
      ensures req.None? ==> loadingMore == old(loadingMore)
    {
      req := None;
      if currentIndex + 1 < |photos| {
        currentIndex := currentIndex + 1;
      } else if hasMore && !loadingMore {
        req := BeginLoadMore();
      }
    }

    /** Previous: step back unless at the first photo; no wraparound. */
    method PreviousPhoto()
      modifies this`currentIndex
      ensures currentIndex == if old(currentIndex) > 0 then old(currentIndex) - 1 else old(currentIndex)
    {
      if currentIndex > 0 {
        currentIndex := currentIndex - 1;
      }
    }

    /**
     * A key press. The handler is registered only while the lightbox is open: left is
     * previous, right is next, Escape closes.
     */
    method KeyDown(key: Key) returns (req: Option<MoreRequest>)
      requires Valid()
      modifies this`currentIndex, this`loadingMore, this`lightboxOpen
      ensures Valid()
      ensures !old(lightboxOpen) || key == OtherKey ==> unchanged(this) && req.None?
      ensures old(lightboxOpen) && key == ArrowLeft ==>
        req.None? && lightboxOpen &&
        currentIndex == (if old(currentIndex) > 0 then old(currentIndex) - 1 else old(currentIndex))
      ensures old(lightboxOpen) && key == Escape ==>
        req.None? && !lightboxOpen &&
        currentIndex == old(currentIndex)
      ensures old(lightboxOpen) && key == ArrowRight && old(currentIndex) + 1 < |photos| ==>
        currentIndex == old(currentIndex) + 1 && req.None?
      ensures old(lightboxOpen) && key == ArrowRight && old(currentIndex) + 1 >= |photos| ==>
        currentIndex == old(currentIndex) && (req.Some? <==> hasMore && !old(loadingMore) && !loading)
      ensures req.None? ==> loadingMore == old(loadingMore)
      ensures old(lightboxOpen) && key == ArrowRight ==> lightboxOpen
      ensures req.Some? ==>
        loadingMore &&
        req == Some(MoreRequest(albumId, photos, pageSize, totalCount, |photos|, |photos| + pageSize - 1))
    {
      req := None;
      if !lightboxOpen {
        return;
      }
      match key {
        case ArrowLeft => PreviousPhoto();
        case ArrowRight => req := NextPhoto();
        case Escape => CloseLightbox();
        case OtherKey =>
      }
    }

    /** The counter's denominator: the known count, else the number loaded. */
    function CounterTotal(): (n: nat)
      reads this
      ensures totalCount.Some? ==> n == totalCount.value
      ensures totalCount.None? ==> n == |photos|
    {
      totalCount.GetOr(|photos|)
    }

    /** The lightbox is drawn only while open and on a loaded photo. */
    predicate LightboxShown()
      reads this
    {
      lightboxOpen && currentIndex < |photos|
    }
  }

  // ---------------------------------------------------------------------------
  // Paging against an honest store

  function Min(a: int, b: int): int { if a < b then a else b }

  /** The rows `range(from, to)` returns from the album's photos in `order_index` order. */
  function Range(all: seq<Photo>, from: nat, to: int): seq<Photo> {
    if from >= |all| || to < from then [] else all[from..Min(to + 1, |all|)]
  }

  /**
   * Appending an honest page to a prefix of the album gives a longer prefix: the loaded
   * photos never have gaps or repeats relative to the album's order.
   */
  lemma {:induction false} AppendKeepsPrefix(all: seq<Photo>, loaded: seq<Photo>, pageSize: nat)
    requires pageSize > 0 && |loaded| <= |all| && loaded == all[..|loaded|]
    ensures |loaded| + |Range(all, |loaded|, |loaded| + pageSize - 1)| <= |all|
    ensures loaded + Range(all, |loaded|, |loaded| + pageSize - 1) ==
      all[..|loaded| + |Range(all, |loaded|, |loaded| + pageSize - 1)|]
  {
    var rows := Range(all, |loaded|, |loaded| + pageSize - 1);
    if |loaded| < |all| {
      var end := Min(|loaded| + pageSize, |all|);
      assert rows == all[|loaded|..end];
      assert all[..end] == all[..|loaded|] + all[|loaded|..end];
    } else {
      assert rows == [];
      assert loaded + rows == loaded;
    }
  }

  /**
   * With the exact count known, `hasMore` after a "load more" is exact: it is true
   * precisely when photos remain beyond the loaded ones.
   */
  lemma {:induction false} MoreHasMoreExactWithCount(all: seq<Photo>, loaded: seq<Photo>, pageSize: nat)
    requires pageSize > 0 && |loaded| <= |all|
    requires |Range(all, |loaded|, |loaded| + pageSize - 1)| > 0
    ensures var rows := Range(all, |loaded|, |loaded| + pageSize - 1);
      MoreHasMore(|rows|, |loaded| + |rows|, Some(|all|), pageSize) <==> |loaded| + |rows| < |all|
  {
    var rows := Range(all, |loaded|, |loaded| + pageSize - 1);
    if |loaded| + |rows| < |all| {
      assert |rows| == Min(|loaded| + pageSize, |all|) - |loaded|;
    }
  }

  /** With the exact count known, `hasMore` after the first page is exact as well. */
  lemma {:induction false} FirstPageHasMoreExactWithCount(all: seq<Photo>, pageSize: nat)
    requires pageSize > 0
    ensures FirstPageHasMore(|Range(all, 0, pageSize - 1)|, Some(|all|), pageSize) <==>
      |Range(all, 0, pageSize - 1)| < |all|
  {
  }

  /**
   * Without a count the rule never stops early: while photos remain beyond an honest
   * page, `hasMore` stays true.
   */
  lemma {:induction false} UnknownCountNeverStopsEarly(all: seq<Photo>, loaded: seq<Photo>, pageSize: nat)
    requires pageSize > 0 && |loaded| <= |all|
    requires |loaded| + |Range(all, |loaded|, |loaded| + pageSize - 1)| < |all|
    ensures var rows := Range(all, |loaded|, |loaded| + pageSize - 1);
      MoreHasMore(|rows|, |loaded| + |rows|, None, pageSize) &&
      (|loaded| == 0 ==> FirstPageHasMore(|rows|, None, pageSize))
  {
    var rows := Range(all, |loaded|, |loaded| + pageSize - 1);
    assert |loaded| < |all|;
    assert |rows| == Min(|loaded| + pageSize, |all|) - |loaded|;
  }

  /**
   * Without a count the rule can claim more than there is: an album of exactly one page
   * reports `hasMore` after the first page, and the next "load more" returns no rows.
   */
  lemma UnknownCountOverReportsOnExactPage(all: seq<Photo>, pageSize: nat)
    requires pageSize > 0 && |all| == pageSize
    ensures FirstPageHasMore(|Range(all, 0, pageSize - 1)|, None, pageSize)
    ensures Range(all, pageSize, 2 * pageSize - 1) == []
  {
    assert Range(all, 0, pageSize - 1) == all[0..pageSize];
  }

  // ---------------------------------------------------------------------------
  // Two runs of the viewer against the store

  function Photos(n: nat): (s: seq<Photo>)
    ensures |s| == n
  {
    seq(n, i => Photo("p", "u", i))
  }

  /** An album of 14 photos on a wide viewport: 12, then 14 with no more, then a no-op. */
  method FourteenPhotoAlbum()
  {
    var all := Photos(14);
    var v := new Viewer("a");
    var first := v.BeginFirstPage();
    assert first.to == 11;
    v.CompleteFirstPage(first, FirstPageRows(all[0..12], Some(14)));
    assert |v.photos| == 12 && v.hasMore && !v.loading;
    var more := v.BeginLoadMore();
    assert more.Some? && more.value.from == 12 && more.value.to == 23;
    v.CompleteLoadMore(more.value, MoreRows(all[12..14]));
    assert v.photos == all[0..12] + all[12..14];
    assert |v.photos| == 14 && !v.hasMore;
    var again := v.BeginLoadMore();
    assert again.None?;
  }

  /** A first page for album A answered after the switch to B leaves B's state alone. */
  method StaleAnswerIsDiscarded(rowsA: seq<Photo>, rowsB: seq<Photo>)
  {
    var v := new Viewer("A");
    var reqA := v.BeginFirstPage();
    var reqB := v.ChangeAlbum("B");
    v.CompleteFirstPage(reqB.value, FirstPageRows(rowsB, None));
    assert v.photos == rowsB && !v.loading;
    v.CompleteFirstPage(reqA, FirstPageRows(rowsA, None));
    assert v.photos == rowsB;
  }

  /**
   * Opening an album on a narrow viewport loads its first page twice: 12 rows on mount,
   * then 6 once the media query has lowered the page size. Both requests carry the same
   * album id, so the guard keeps whichever answer arrives last, here the 12-row one.
   */
  method NarrowOpenLoadsFirstPageTwice()
  {
    var all := Photos(20);
    var v := new Viewer("a");
    var wide := v.BeginFirstPage();
    var narrow := v.ApplyViewport(true);
    assert narrow.Some? && narrow.value.albumId == wide.albumId;
    assert wide.to == 11 && narrow.value.to == 5;
    v.CompleteFirstPage(narrow.value, FirstPageRows(all[..6], Some(20)));
    v.CompleteFirstPage(wide, FirstPageRows(all[..12], Some(20)));
    assert v.photos == all[..12] && v.pageSize == 6 && !v.loading;
  }

  // ---------------------------------------------------------------------------
  // The pager invariant: against an honest store, for any interleaving of begins and
  // completions on one album, the loaded photos are a prefix of the album.

  /** `loaded` is the album's first `|loaded|` photos: no gap, no repeat, no reordering. */
  ghost predicate LoadedPrefix(loaded: seq<Photo>, all: seq<Photo>) {
    |loaded| <= |all| && loaded == all[..|loaded|]
  }

  /** A pending "load more" issued while the photos were a prefix of the album. */
  ghost predicate PrefixRequest(req: MoreRequest, all: seq<Photo>) {
    LoadedPrefix(req.photosAtCall, all) && req.pageSize > 0 &&
    req.from == |req.photosAtCall| && req.to == req.from + req.pageSize - 1
  }

  /** Beginning a "load more" on a prefix issues a request for the rows right after it. */
  method BeginLoadMoreKeepsPrefix(v: Viewer, all: seq<Photo>) returns (req: Option<MoreRequest>)
    requires v.Valid() && LoadedPrefix(v.photos, all)
    modifies v
    ensures v.Valid() && LoadedPrefix(v.photos, all)
    ensures req.Some? ==> PrefixRequest(req.value, all)
  {
    req := v.BeginLoadMore();
  }

  /** An honest first page, current or stale, leaves a prefix of the album. */
  method CompleteFirstPageKeepsPrefix(v: Viewer, all: seq<Photo>, req: FirstPageRequest, resp: FirstPageResponse)
    requires v.Valid() && LoadedPrefix(v.photos, all)
    requires req.pageSize > 0 && req.from == 0 && req.to == req.pageSize - 1
    requires resp.FirstPageRows? ==> resp.rows == Range(all, 0, req.to)
    modifies v
    ensures v.Valid() && LoadedPrefix(v.photos, all)
  {
    AppendKeepsPrefix(all, [], req.pageSize);
    assert [] + Range(all, 0, req.to) == Range(all, 0, req.to);
    v.CompleteFirstPage(req, resp);
  }

  /**
   * An honest "load more", current or stale, leaves a prefix of the album, whatever
   * happened between its begin and its completion.
   */
  method CompleteLoadMoreKeepsPrefix(v: Viewer, all: seq<Photo>, req: MoreRequest, resp: MoreResponse)
    requires v.Valid() && LoadedPrefix(v.photos, all) && PrefixRequest(req, all)
    requires resp.MoreRows? ==> resp.rows == Range(all, req.from, req.to)
    modifies v
    ensures v.Valid() && LoadedPrefix(v.photos, all)
  {
    AppendKeepsPrefix(all, req.photosAtCall, req.pageSize);
    v.CompleteLoadMore(req, resp);
  }
}
