// Cursor pagination over a listing, as both providers' List do it: the
// cursor is the ID of the last photo of the previous page.

module Paging {
  import opened Wrappers
  import opened Photos
  import opened Strings

  /** The first index whose photo has ID `id`, if any. */
  function IndexOfId(ps: seq<Photo>, id: string): (r: Option<nat>)
    ensures r.Some? ==> r.value < |ps| && ps[r.value].id == id
    ensures r.Some? ==> forall k :: 0 <= k < r.value ==> ps[k].id != id
    ensures r.None? ==> forall k :: 0 <= k < |ps| ==> ps[k].id != id
  {
    if ps == [] then None
    else if ps[0].id == id then Some(0)
    else match IndexOfId(ps[1..], id)
      case None => None
      case Some(k) => Some(k + 1)
  }

  /** Where a page starts: 0 for the empty cursor or one no photo has,
      otherwise one past the first photo whose ID is the cursor. */
  function StartIndex(ps: seq<Photo>, cursor: string): (s: nat)
    ensures s <= |ps|
    ensures cursor == "" ==> s == 0
    ensures (forall k :: 0 <= k < |ps| ==> ps[k].id != cursor) ==> s == 0
    ensures s > 0 ==> ps[s - 1].id == cursor && forall k :: 0 <= k < s - 1 ==> ps[k].id != cursor
  {
    if cursor == "" then 0
    else match IndexOfId(ps, cursor)
      case None => 0
      case Some(i) => i + 1
  }

  /** Where a page ends: `limit` photos after its start, or the end of the list. */
  function EndIndex(ps: seq<Photo>, start: nat, limit: int): (e: nat)
    requires start <= |ps| && limit > 0
    ensures start < e <= |ps| || e == start == |ps|
    ensures e - start <= limit
    ensures e < |ps| ==> e - start == limit
  {
    if start + limit > |ps| then |ps| else start + limit
  }

  /** One page of photos and the cursor for the next page ("" when there is none). */
  datatype Page = Page(photos: seq<Photo>, nextCursor: string)

  /** The page a provider returns for `cursor` and `limit` over the sorted listing `ps`. */
  function PageOf(ps: seq<Photo>, cursor: string, limit: int): (p: Page)
    requires limit > 0
  {
    var s := StartIndex(ps, cursor);
    var e := EndIndex(ps, s, limit);
    Page(ps[s..e], if e < |ps| then ps[e - 1].id else "")
  }

  /** Go's `+` on two `int`s: the sum wrapped into 64-bit two's complement. */
  function AddInt64(a: int, b: int): (r: int)
    requires MinInt64 <= a <= MaxInt64 && MinInt64 <= b <= MaxInt64
    ensures MinInt64 <= r <= MaxInt64
    ensures MinInt64 <= a + b <= MaxInt64 ==> r == a + b
    ensures a + b > MaxInt64 ==> r == a + b - 0x1_0000_0000_0000_0000
    ensures a + b < MinInt64 ==> r == a + b + 0x1_0000_0000_0000_0000
  {
    (a + b - MinInt64) % 0x1_0000_0000_0000_0000 + MinInt64
  }

  /** The page both providers cut with `end := start + limit` in Go's 64-bit
      arithmetic; None when the wrapped end falls before the start, where
      the slice expression (or `make` with a negative length) panics. */
  function PageAsWritten(ps: seq<Photo>, cursor: string, limit: int): (r: Option<Page>)
    requires 0 < limit <= MaxInt64 && |ps| <= MaxInt64
    ensures r.None? <==> StartIndex(ps, cursor) + limit > MaxInt64
    ensures r.Some? ==> r.value == PageOf(ps, cursor, limit)
  {
    var s := StartIndex(ps, cursor);
    var e0 := AddInt64(s, limit);
    var e := if e0 > |ps| then |ps| else e0;
    if e < s then None
    else Some(Page(ps[s..e], if e < |ps| then ps[e - 1].id else ""))
  }

  /** The largest limit the handler accepts, after a cursor naming the first
      photo, makes the source panic where the rest of the listing (here
      nothing) is the page meant. */
  lemma HugeLimitAfterCursorPanics()
    ensures var ps := [Photo("a.jpg", "a.jpg", "a.jpg", "", "", 1, 1, false)];
      PageAsWritten(ps, "a.jpg", MaxInt64).None? && PageOf(ps, "a.jpg", MaxInt64) == Page([], "")
  {
    var ps := [Photo("a.jpg", "a.jpg", "a.jpg", "", "", 1, 1, false)];
    assert ps[0].id == "a.jpg";
    assert StartIndex(ps, "a.jpg") == 1;
  }

  /** No photo has an empty ID (true of file names and object keys that pass the filters). */
  predicate NonEmptyIds(ps: seq<Photo>) {
    forall k :: 0 <= k < |ps| ==> ps[k].id != ""
  }

  /** A page is the longest run of at most `limit` photos right after the
      cursor's photo, and it holds at most `limit` photos. */
  lemma PageIsMaximalSlice(ps: seq<Photo>, cursor: string, limit: int)
    requires limit > 0
    ensures var p := PageOf(ps, cursor, limit);
            var s := StartIndex(ps, cursor);
            && |p.photos| <= limit
            && s + |p.photos| <= |ps|
            && p.photos == ps[s..s + |p.photos|]
            && (|p.photos| == limit || s + |p.photos| == |ps|)
  {
  }

  /** The next cursor is set exactly when photos remain after the page, and
      it is then the ID of the page's last photo. */
  lemma NextCursorMeansMore(ps: seq<Photo>, cursor: string, limit: int)
    requires limit > 0 && NonEmptyIds(ps)
    ensures var p := PageOf(ps, cursor, limit);
            && (p.nextCursor != "" <==> StartIndex(ps, cursor) + |p.photos| < |ps|)
            && (p.nextCursor != "" ==> p.photos != [] && p.nextCursor == p.photos[|p.photos| - 1].id)
  {
  }

  /** Following the next cursor gives the page that starts right where the
      previous page ended: no photo is repeated and none is skipped. */
  lemma FollowingCursorIsAdjacent(ps: seq<Photo>, cursor: string, limit: int)
    requires limit > 0
    requires DistinctIds(ps) && NonEmptyIds(ps)
    requires PageOf(ps, cursor, limit).nextCursor != ""
    ensures var p := PageOf(ps, cursor, limit);
            StartIndex(ps, p.nextCursor) == StartIndex(ps, cursor) + |p.photos|
  {
    var p := PageOf(ps, cursor, limit);
    var s := StartIndex(ps, cursor);
    var e := EndIndex(ps, s, limit);
    var s2 := StartIndex(ps, p.nextCursor);
    assert ps[e - 1].id == p.nextCursor;
    assert s2 > 0;
  }

  /** The photos a client collects by starting at `cursor` and following
      next cursors until one is empty (the client stops on an empty cursor). */
  function FollowPages(ps: seq<Photo>, cursor: string, limit: int): seq<Photo>
    requires limit > 0 && DistinctIds(ps) && NonEmptyIds(ps)
    decreases |ps| - StartIndex(ps, cursor)
  {
    var p := PageOf(ps, cursor, limit);
    if p.nextCursor == "" then p.photos
    else
      FollowingCursorIsAdjacent(ps, cursor, limit);
      p.photos + FollowPages(ps, p.nextCursor, limit)
  }

  /** The page that sets no next cursor holds all the rest of the listing. */
  lemma LastPageHoldsTheRest(ps: seq<Photo>, cursor: string, limit: int)
    requires limit > 0 && NonEmptyIds(ps)
    requires PageOf(ps, cursor, limit).nextCursor == ""
    ensures PageOf(ps, cursor, limit).photos == ps[StartIndex(ps, cursor)..]
  {
  }

  /** Two adjacent slices make up the slice that spans both. */
  lemma JoinSlices<T>(xs: seq<T>, s: nat, m: nat, a: seq<T>, b: seq<T>)
    requires s <= m <= |xs| && a == xs[s..m] && b == xs[m..]
    ensures a + b == xs[s..]
  {
    assert xs[s..] == xs[s..m] + xs[m..];
  }

  /** Paging from any cursor yields exactly the rest of the listing after it. */
  lemma {:induction false} FollowPagesFromCursor(ps: seq<Photo>, cursor: string, limit: int)
    requires limit > 0 && DistinctIds(ps) && NonEmptyIds(ps)
    ensures FollowPages(ps, cursor, limit) == ps[StartIndex(ps, cursor)..]
    decreases |ps| - StartIndex(ps, cursor)
  {
    var p := PageOf(ps, cursor, limit);
    var s := StartIndex(ps, cursor);
    if p.nextCursor == "" {
      LastPageHoldsTheRest(ps, cursor, limit);
    } else {
      var rest := FollowPages(ps, p.nextCursor, limit);
      assert FollowPages(ps, cursor, limit) == p.photos + rest;
      PageIsMaximalSlice(ps, cursor, limit);
      FollowingCursorIsAdjacent(ps, cursor, limit);
      FollowPagesFromCursor(ps, p.nextCursor, limit);
      JoinSlices(ps, s, s + |p.photos|, p.photos, rest);
    }
  }

  /** Paging from the empty cursor yields the whole listing, each photo once, in order. */
  lemma FollowPagesCoversListing(ps: seq<Photo>, limit: int)
    requires limit > 0 && DistinctIds(ps) && NonEmptyIds(ps)
    ensures FollowPages(ps, "", limit) == ps
  {
    FollowPagesFromCursor(ps, "", limit);
  }
}
