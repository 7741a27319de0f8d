// The local-disk provider: listing a directory's images newest-first with
// cursor pagination, and uploading under a conflict-free name.

module Local {
  import opened Wrappers
  import opened Strings
  import opened Photos
  import opened Paging
  import opened Naming

  /** One entry of os.ReadDir(root) together with its Info(). */
  datatype DirEntry = DirEntry(name: string, isDir: bool, size: int, modTime: int)

  /** What os.Stat reports for a name under the root. */
  datatype FileInfo = FileInfo(isDir: bool, size: int, modTime: int)

  /** The listing keeps regular entries that are not hidden and have an image extension. */
  predicate Listable(e: DirEntry) {
    !e.isDir && !HasPrefix(e.name, ".") && IsImageName(e.name)
  }

  /** The photo record List builds for an entry: its name is ID, name and path. */
  function EntryPhoto(e: DirEntry): Photo {
    Photo(e.name, e.name, e.name, "", "", e.size, e.modTime, false)
  }

  predicate DistinctNames(entries: seq<DirEntry>) {
    forall i, j :: 0 <= i < j < |entries| ==> entries[i].name != entries[j].name
  }

  /** The photos of the listable entries, in directory order. */
  function Candidates(entries: seq<DirEntry>): (ps: seq<Photo>)
    ensures |ps| <= |entries|
  {
    if entries == [] then []
    else
      var last := entries[|entries| - 1];
      var ps := Candidates(entries[..|entries| - 1]);
      if Listable(last) then ps + [EntryPhoto(last)] else ps
  }

  /** Candidates grows by one entry at a time. */
  lemma CandidatesOfPrefix(entries: seq<DirEntry>, i: nat)
    requires i < |entries|
    ensures Candidates(entries[..i + 1]) ==
      if Listable(entries[i]) then Candidates(entries[..i]) + [EntryPhoto(entries[i])] else Candidates(entries[..i])
  {
    assert entries[..i + 1][..i] == entries[..i];
  }

  /** A photo is a candidate exactly when it is the photo of a listable entry. */
  lemma {:induction false} CandidatesAreListableEntries(entries: seq<DirEntry>, p: Photo)
    ensures p in Candidates(entries) <==> exists e :: e in entries && Listable(e) && p == EntryPhoto(e)
  {
    if entries != [] {
      var init := entries[..|entries| - 1];
      var last := entries[|entries| - 1];
      assert entries == init + [last];
      CandidatesAreListableEntries(init, p);
      if p in Candidates(entries) && !(p in Candidates(init)) {
        assert last in entries;
      }
      if exists e :: e in entries && Listable(e) && p == EntryPhoto(e) {
        var e :| e in entries && Listable(e) && p == EntryPhoto(e);
        if e != last {
          assert e in init;
        }
      }
    }
  }

  /** Entries with distinct names give photos with distinct IDs. */
  lemma {:induction false} CandidatesDistinct(entries: seq<DirEntry>)
    requires DistinctNames(entries)
    ensures DistinctIds(Candidates(entries))
  {
    if entries != [] {
      var init := entries[..|entries| - 1];
      var last := entries[|entries| - 1];
      var ps := Candidates(init);
      CandidatesDistinct(init);
      if Listable(last) {
        forall k | 0 <= k < |ps| ensures ps[k].id != last.name {
          CandidatesAreListableEntries(init, ps[k]);
          var e :| e in init && Listable(e) && ps[k] == EntryPhoto(e);
          var i :| 0 <= i < |init| && init[i] == e;
          assert entries[i] == e;
        }
        var r := ps + [EntryPhoto(last)];
        forall i, j | 0 <= i < j < |r| ensures r[i].id != r[j].id {
          if j == |r| - 1 {
            assert r[i] == ps[i];
          } else {
            assert r[i] == ps[i] && r[j] == ps[j];
          }
        }
      }
    }
  }

  /** The whole sorted listing of a directory, before pagination. */
  function Listing(entries: seq<DirEntry>): seq<Photo> {
    SortNewestFirst(Candidates(entries))
  }

  /** The listing is newest-first and holds exactly the photos of the
      listable entries; with distinct entry names its IDs are distinct, and
      none is empty (what the cursor needs). */
  lemma ListingIsFilteredAndSorted(entries: seq<DirEntry>)
    ensures NewestFirst(Listing(entries))
    ensures NonEmptyIds(Listing(entries))
    ensures forall p :: p in Listing(entries) <==> exists e :: e in entries && Listable(e) && p == EntryPhoto(e)
    ensures DistinctNames(entries) ==> DistinctIds(Listing(entries))
  {
    var cs := Candidates(entries);
    var ps := Listing(entries);
    forall k | 0 <= k < |ps| ensures ps[k].id != "" {
      SortKeepsMembers(cs, ps[k]);
      CandidatesAreListableEntries(entries, ps[k]);
      var e :| e in entries && Listable(e) && ps[k] == EntryPhoto(e);
      ImageNameNonEmpty(e.name);
    }
    forall p ensures p in ps <==> exists e :: e in entries && Listable(e) && p == EntryPhoto(e) {
      SortKeepsMembers(cs, p);
      CandidatesAreListableEntries(entries, p);
    }
    if DistinctNames(entries) {
      CandidatesDistinct(entries);
      SortKeepsIdsDistinct(cs);
    }
  }

  /** The filtering loop of LocalProvider.List: keeps the regular, visible
      image files, in directory order. */
  method FilterImages(entries: seq<DirEntry>) returns (allPhotos: seq<Photo>)
    ensures allPhotos == Candidates(entries)
  {
    allPhotos := [];
    var i := 0;
    while i < |entries|
      invariant 0 <= i <= |entries|
      invariant allPhotos == Candidates(entries[..i])
    {
      var entry := entries[i];
      CandidatesOfPrefix(entries, i);
      if entry.isDir || HasPrefix(entry.name, ".") {
        i := i + 1;
        continue;
      }
      var ext := ToLower(Ext(entry.name));
      if ext !in ImageExtensions {
        i := i + 1;
        continue;
      }
      allPhotos := allPhotos + [Photo(entry.name, entry.name, entry.name, "", "", entry.size, entry.modTime, false)];
      i := i + 1;
    }
    assert entries[..i] == entries;
  }

  /** The pagination step of LocalProvider.List: the page starts after the
      first photo whose ID is the cursor (at 0 when no photo has it) and the
      next cursor is set only when photos remain. */
  method CutPage(allPhotos: seq<Photo>, cursor: string, limit: int) returns (p: Page)
    requires limit > 0
    ensures p == PageOf(allPhotos, cursor, limit)
  {
    var start := 0;
    if cursor != "" {
      var j := 0;
      while j < |allPhotos|
        invariant 0 <= j <= |allPhotos|
        invariant forall k :: 0 <= k < j ==> allPhotos[k].id != cursor
      {
        if allPhotos[j].id == cursor {
          start := j + 1;
          break;
        }
        j := j + 1;
      }
    }
    assert start == StartIndex(allPhotos, cursor);
    var end := start + limit;
    if end > |allPhotos| {
      end := |allPhotos|;
    }
    var result := allPhotos[start..end];
    var nextCursor := "";
    if end < |allPhotos| {
      nextCursor := result[|result| - 1].id;
    }
    return Page(result, nextCursor);
  }

  /** LocalProvider.List over the entries os.ReadDir returned (None when it
      failed): filter, sort newest-first, then cut the page after the cursor. */
  method List(readDir: Option<seq<DirEntry>>, cursor: string, limit: int) returns (r: Option<Page>)
    requires limit > 0
    ensures readDir.None? ==> r.None?
    ensures readDir.Some? ==> r == Some(PageOf(Listing(readDir.value), cursor, limit))
  {
    if readDir.None? {
      return None;
    }
    var allPhotos := FilterImages(readDir.value);
    allPhotos := SortNewestFirst(allPhotos);
    var page := CutPage(allPhotos, cursor, limit);
    return Some(page);
  }

  /** How the write after the name is chosen ends: os.Create failing leaves
      nothing behind, io.Copy failing leaves a partial file. */
  datatype WriteOutcome = Written | CreateFailed | CopyFailed(partialSize: int)

  /** The names present in a directory. */
  ghost function Names(dir: map<string, FileInfo>): iset<string> {
    iset n | n in dir
  }

  /** The conflict loop of LocalProvider.Upload: stats the plain name, then
      `stem_1.ext`, `stem_2.ext`, ... and stops at the first that does not exist. */
  method FreeName(dir: map<string, FileInfo>, filename: string) returns (finalName: string)
    ensures finalName !in dir
    ensures FirstFree(filename, Names(dir), finalName)
    ensures Ext(finalName) == Ext(filename)
  {
    CandidateAtInjective(filename);
    var i := FirstUntried(CandidateAt(filename), dir.Keys);
    finalName := Candidate(filename, i);
    forall j: nat | j < i ensures Candidate(filename, j) in Names(dir) {
      assert CandidateAt(filename)(j) in dir.Keys;
    }
    assert Candidate(filename, i) !in Names(dir);
    if i > 0 {
      NumberedKeepsExtension(filename, i);
    }
  }

  /** LocalProvider.Upload against the directory `dir`: writes to the first
      free candidate name. Returns the saved name and the new directory. */
  method Upload(dir: map<string, FileInfo>, filename: string, size: int, now: int, outcome: WriteOutcome)
    returns (saved: Option<string>, dir': map<string, FileInfo>)
    ensures saved.Some? <==> outcome.Written?
    ensures saved.Some? ==> saved.value !in dir
    ensures saved.Some? ==> FirstFree(filename, Names(dir), saved.value)
    ensures saved.Some? ==> Ext(saved.value) == Ext(filename)
    ensures outcome.Written? ==> dir' == dir[saved.value := FileInfo(false, size, now)]
    ensures outcome.CreateFailed? ==> dir' == dir
    ensures outcome.CopyFailed? ==> exists n ::
      && FirstFree(filename, Names(dir), n)
      && n !in dir
      && dir' == dir[n := FileInfo(false, outcome.partialSize, now)]
  {
    var finalName := FreeName(dir, filename);
    match outcome
    case CreateFailed =>
      return None, dir;
    case CopyFailed(partial) =>
      return None, dir[finalName := FileInfo(false, partial, now)];
    case Written =>
      return Some(finalName), dir[finalName := FileInfo(false, size, now)];
  }
}
