// The gallery page: the photos of all fetched pages as one list, the index
// of the photo open in the lightbox and its next/previous navigation, and
// the column counts of the masonry layout. Its drag-and-drop upload repeats
// the handlers of the upload hook and is modelled by Uploads.Uploader.

module Gallery {
  import opened Wrappers
  import opened Photos

  /** The photos of one fetched page; None when the response had no list. */
  function PagePhotos(page: Option<seq<Photo>>): seq<Photo> {
    if page.None? then [] else page.value
  }

  /** `pages.flatMap(page => page.photos ?? [])`. */
  function Flatten(pages: seq<Option<seq<Photo>>>): (r: seq<Photo>)
  {
    if pages == [] then []
    else Flatten(pages[..|pages| - 1]) + PagePhotos(pages[|pages| - 1])
  }

  /** `data?.pages?.flatMap(...) ?? []`: nothing before the first page arrives. */
  function AllPhotos(data: Option<seq<Option<seq<Photo>>>>): (r: seq<Photo>)
    ensures data.None? ==> r == []
  {
    if data.None? then [] else Flatten(data.value)
  }

  /** Fetching the next page appends its photos, so the index of a photo
      already shown stays valid. */
  lemma FlattenOfAppend(pages: seq<Option<seq<Photo>>>, page: Option<seq<Photo>>)
    ensures Flatten(pages + [page]) == Flatten(pages) + PagePhotos(page)
  {
    assert (pages + [page])[..|pages|] == pages;
  }

  /** The length of the list is the sum of the pages' lengths. */
  function PhotoCount(pages: seq<Option<seq<Photo>>>): nat {
    if pages == [] then 0
    else PhotoCount(pages[..|pages| - 1]) + |PagePhotos(pages[|pages| - 1])|
  }

  lemma {:induction false} FlattenLength(pages: seq<Option<seq<Photo>>>)
    ensures |Flatten(pages)| == PhotoCount(pages)
  {
    if pages != [] {
      FlattenLength(pages[..|pages| - 1]);
    }
  }

  /** A photo is in the list exactly when one of the pages holds it. */
  lemma {:induction false} FlattenMembers(pages: seq<Option<seq<Photo>>>, p: Photo)
    ensures p in Flatten(pages) <==> exists i :: 0 <= i < |pages| && p in PagePhotos(pages[i])
  {
    if pages != [] {
      var init := pages[..|pages| - 1];
      FlattenMembers(init, p);
      if exists i :: 0 <= i < |pages| && p in PagePhotos(pages[i]) {
        var i :| 0 <= i < |pages| && p in PagePhotos(pages[i]);
        if i < |pages| - 1 {
          assert pages[i] == init[i];
        }
      }
      if p in Flatten(init) {
        var i :| 0 <= i < |init| && p in PagePhotos(init[i]);
        assert pages[i] == init[i];
      }
    }
  }

  /** The layout's breakpoints and their unscaled column counts, which the
      density multiplier scales (and the layout's initial columns). */
  const BaseBreakpoints: map<string, int> :=
    map["default" := 5, "1920" := 5, "1536" := 4, "1280" := 3, "1024" := 3, "768" := 2, "640" := 1]

  /** `Math.max(1, n)` for a rounded, density-scaled column count `n`. */
  function Columns(n: int): (c: int)
    ensures c >= 1
    ensures n >= 1 ==> c == n
    ensures n < 1 ==> c == 1
  {
    if n < 1 then 1 else n
  }

  /** The breakpoints after scaling: the same breakpoints, none of them
      with fewer than one column. */
  function ScaledBreakpoints(rounded: map<string, int>): (m: map<string, int>)
    ensures m.Keys == rounded.Keys
    ensures forall k :: k in m ==> m[k] >= 1 && (rounded[k] >= 1 ==> m[k] == rounded[k])
  {
    map k | k in rounded :: Columns(rounded[k])
  }

  /** handleNext on the index `i` of a list of `n` photos. */
  function NextIndex(i: int, n: int): (j: int)
    ensures j == i || j == i + 1
    ensures j == i + 1 <==> i + 1 < n
  {
    if i + 1 < n then i + 1 else i
  }

  /** handlePrev on the index `i`. */
  function PrevIndex(i: int): (j: int)
    ensures j == i || j == i - 1
    ensures j == i - 1 <==> i - 1 >= 0
  {
    if i - 1 >= 0 then i - 1 else i
  }

  /** The index after a run of arrow presses: true for next. */
  function Navigated(i: int, n: int, presses: seq<bool>): int
    decreases |presses|
  {
    if presses == [] then i
    else Navigated(if presses[0] then NextIndex(i, n) else PrevIndex(i), n, presses[1..])
  }

  /** An index that starts on a photo stays on a photo, whatever the presses. */
  lemma {:induction false} NavigationStaysInRange(i: int, n: int, presses: seq<bool>)
    requires 0 <= i < n
    ensures 0 <= Navigated(i, n, presses) < n
    decreases |presses|
  {
    if presses != [] {
      NavigationStaysInRange(if presses[0] then NextIndex(i, n) else PrevIndex(i), n, presses[1..]);
    }
  }

  /** Next then previous returns to the photo left, unless it was the last. */
  lemma NextThenPrev(i: int, n: int)
    requires 0 <= i && i + 1 < n
    ensures PrevIndex(NextIndex(i, n)) == i
  {
  }

  /** The lightbox state of the gallery: the index of the open photo. */
  class Navigator {
    var selected: Option<int>

    constructor()
      ensures selected == None
    {
      selected := None;
    }

    /** A click on the photo card at `index` opens it. */
    method Open(index: int)
      modifies this
      ensures selected == Some(index)
    {
      selected := Some(index);
    }

    /** handleNext, on the list as it is rendered with `count` photos. It is
        only reachable from the lightbox, which shows only while a photo is open. */
    method Next(count: int)
      requires selected.Some?
      modifies this
      ensures selected == Some(NextIndex(old(selected.value), count))
      ensures 0 <= old(selected.value) < count ==> 0 <= selected.value < count
    {
      var prev := selected.value;
      selected := Some(if prev + 1 < count then prev + 1 else prev);
    }

    /** handlePrev. */
    method Prev(count: int)
      requires selected.Some?
      modifies this
      ensures selected == Some(PrevIndex(old(selected.value)))
      ensures 0 <= old(selected.value) < count ==> 0 <= selected.value < count
    {
      var prev := selected.value;
      selected := Some(if prev - 1 >= 0 then prev - 1 else prev);
    }

    /** handleClose. */
    method Close()
      modifies this
      ensures selected == None
    {
      selected := None;
    }
  }
}
