// The S3 provider: bucket keys under an optional prefix, the scan that turns
// a bucket listing into the cached photo list, paging over that cache, and
// uploading under a conflict-free key.

module S3 {
  import opened Wrappers
  import opened Strings
  import opened Photos
  import opened Paging
  import opened Naming

  /** The configured prefix with a '/' appended when it lacks one; "" stays "". */
  function NormalizedPrefix(prefix: string): (np: string)
    ensures prefix == "" ==> np == ""
    ensures prefix != "" ==> HasPrefix(np, prefix) && HasSuffix(np, "/") && |np| <= |prefix| + 1
  {
    if prefix != "" && !HasSuffix(prefix, "/") then prefix + "/" else prefix
  }

  /** buildKey: the object key of a path relative to the prefix. */
  function BuildKey(prefix: string, path: string): (key: string)
    ensures HasSuffix(key, path)
    ensures prefix == "" ==> key == path
    ensures prefix != "" ==> |key| > |path| && HasPrefix(key, prefix) && key[|key| - |path| - 1] == '/'
  {
    if prefix == "" then path else NormalizedPrefix(prefix) + path
  }

  /** The relative path scan stores for a key: the key without the
      normalised prefix when it starts with it, the key itself otherwise. */
  function RelativePath(prefix: string, key: string): (path: string)
    ensures HasSuffix(key, path)
  {
    var np := NormalizedPrefix(prefix);
    if prefix != "" && HasPrefix(key, np) then TrimPrefix(key, np) else key
  }

  /** Every key under the normalised prefix comes back from its relative path. */
  lemma BuildKeyOfRelativePath(prefix: string, key: string)
    requires HasPrefix(key, NormalizedPrefix(prefix))
    ensures BuildKey(prefix, RelativePath(prefix, key)) == key
  {
    var np := NormalizedPrefix(prefix);
    if prefix != "" {
      assert key == np + key[|np|..];
    }
  }

  /** Every relative path comes back from its key. */
  lemma RelativePathOfBuildKey(prefix: string, path: string)
    ensures RelativePath(prefix, BuildKey(prefix, path)) == path
  {
    var np := NormalizedPrefix(prefix);
    if prefix != "" {
      var key := np + path;
      assert key[..|np|] == np;
      assert key[|np|..] == path;
    }
  }

  /** Distinct relative paths have distinct keys. */
  lemma BuildKeyInjective(prefix: string, a: string, b: string)
    ensures BuildKey(prefix, a) == BuildKey(prefix, b) ==> a == b
  {
    RelativePathOfBuildKey(prefix, a);
    RelativePathOfBuildKey(prefix, b);
  }

  /** One item of the ListObjects stream: an object or an error. */
  datatype Listed = Object(key: string, size: int, lastModified: int) | ListError

  /** scan keeps keys that do not end in '/' and whose base name is visible
      and has an image extension. */
  predicate KeyListable(key: string) {
    !HasSuffix(key, "/") && !HasPrefix(Base(key), ".") && IsImageName(Base(key))
  }

  /** The photo scan builds for an object: ID is the key, name its base
      name, path the relative path. */
  function ObjectPhoto(prefix: string, o: Listed): Photo
    requires o.Object?
  {
    Photo(o.key, Base(o.key), RelativePath(prefix, o.key), "", "", o.size, o.lastModified, false)
  }

  /** The photos of the listable objects, in listing order (errors contribute nothing). */
  function ScanCandidates(prefix: string, objects: seq<Listed>): (ps: seq<Photo>)
    ensures |ps| <= |objects|
  {
    if objects == [] then []
    else
      var last := objects[|objects| - 1];
      var ps := ScanCandidates(prefix, objects[..|objects| - 1]);
      if last.Object? && KeyListable(last.key) then ps + [ObjectPhoto(prefix, last)] else ps
  }

  /** ScanCandidates grows by one listed item at a time. */
  lemma ScanCandidatesOfPrefix(prefix: string, objects: seq<Listed>, i: nat)
    requires i < |objects|
    ensures ScanCandidates(prefix, objects[..i + 1]) ==
      if objects[i].Object? && KeyListable(objects[i].key)
      then ScanCandidates(prefix, objects[..i]) + [ObjectPhoto(prefix, objects[i])]
      else ScanCandidates(prefix, objects[..i])
  {
    assert objects[..i + 1][..i] == objects[..i];
  }

  /** A photo is scanned exactly when it is the photo of a listable object. */
  lemma {:induction false} ScanCandidatesAreListableObjects(prefix: string, objects: seq<Listed>, p: Photo)
    ensures p in ScanCandidates(prefix, objects) <==>
            exists o :: o in objects && o.Object? && KeyListable(o.key) && p == ObjectPhoto(prefix, o)
  {
    if objects != [] {
      var init := objects[..|objects| - 1];
      var last := objects[|objects| - 1];
      assert objects == init + [last];
      ScanCandidatesAreListableObjects(prefix, init, p);
      if p in ScanCandidates(prefix, objects) && !(p in ScanCandidates(prefix, init)) {
        assert last in objects;
      }
      if exists o :: o in objects && o.Object? && KeyListable(o.key) && p == ObjectPhoto(prefix, o) {
        var o :| o in objects && o.Object? && KeyListable(o.key) && p == ObjectPhoto(prefix, o);
        if o != last {
          assert o in init;
        }
      }
    }
  }

  /** The keys of the listed objects. */
  function Keys(objects: seq<Listed>): set<string> {
    if objects == [] then {}
    else
      var last := objects[|objects| - 1];
      Keys(objects[..|objects| - 1]) + (if last.Object? then {last.key} else {})
  }

  /** No object's key was listed before it, as in one bucket listing. */
  predicate DistinctKeys(objects: seq<Listed>) {
    objects == [] ||
    (var last := objects[|objects| - 1];
     DistinctKeys(objects[..|objects| - 1]) && (last.Object? ==> last.key !in Keys(objects[..|objects| - 1])))
  }

  /** Every scanned photo's ID is the key of a listed object. */
  lemma {:induction false} ScannedIdsAreKeys(prefix: string, objects: seq<Listed>)
    ensures forall k :: 0 <= k < |ScanCandidates(prefix, objects)| ==> ScanCandidates(prefix, objects)[k].id in Keys(objects)
  {
    if objects != [] {
      var init := objects[..|objects| - 1];
      ScannedIdsAreKeys(prefix, init);
    }
  }

  /** Objects with distinct keys give photos with distinct IDs, since the key is the ID. */
  lemma {:induction false} ScanCandidatesDistinct(prefix: string, objects: seq<Listed>)
    requires DistinctKeys(objects)
    ensures DistinctIds(ScanCandidates(prefix, objects))
  {
    if objects != [] {
      var init := objects[..|objects| - 1];
      var last := objects[|objects| - 1];
      var ps := ScanCandidates(prefix, init);
      ScanCandidatesDistinct(prefix, init);
      if last.Object? && KeyListable(last.key) {
        ScannedIdsAreKeys(prefix, init);
        AppendKeepsIdsDistinct(ps, ObjectPhoto(prefix, last));
      }
    }
  }

  /** The listing has an error somewhere. */
  predicate HasError(objects: seq<Listed>) {
    exists k :: 0 <= k < |objects| && objects[k].ListError?
  }

  /** What a successful scan caches: the listable photos, newest first. */
  function ScanResult(prefix: string, objects: seq<Listed>): seq<Photo> {
    SortNewestFirst(ScanCandidates(prefix, objects))
  }

  /** The scanned list is newest-first, holds exactly the photos of the
      listable objects, every ID is non-empty and every photo's path maps
      back to its key when the key lies under the prefix. */
  lemma ScanResultIsFilteredAndSorted(prefix: string, objects: seq<Listed>)
    ensures NewestFirst(ScanResult(prefix, objects))
    ensures NonEmptyIds(ScanResult(prefix, objects))
    ensures forall p :: p in ScanResult(prefix, objects) <==>
              exists o :: o in objects && o.Object? && KeyListable(o.key) && p == ObjectPhoto(prefix, o)
    ensures forall p :: p in ScanResult(prefix, objects) && HasPrefix(p.id, NormalizedPrefix(prefix)) ==>
              BuildKey(prefix, p.path) == p.id
    ensures DistinctKeys(objects) ==> DistinctIds(ScanResult(prefix, objects))
  {
    var cs := ScanCandidates(prefix, objects);
    var ps := ScanResult(prefix, objects);
    forall p ensures p in ps <==> exists o :: o in objects && o.Object? && KeyListable(o.key) && p == ObjectPhoto(prefix, o) {
      SortKeepsMembers(cs, p);
      ScanCandidatesAreListableObjects(prefix, objects, p);
    }
    forall k | 0 <= k < |ps| ensures ps[k].id != "" {
      assert ps[k] in ps;
      var o :| o in objects && o.Object? && KeyListable(o.key) && ps[k] == ObjectPhoto(prefix, o);
      ImageNameNonEmpty(Base(o.key));
    }
    forall p | p in ps && HasPrefix(p.id, NormalizedPrefix(prefix)) ensures BuildKey(prefix, p.path) == p.id {
      var o :| o in objects && o.Object? && KeyListable(o.key) && p == ObjectPhoto(prefix, o);
      BuildKeyOfRelativePath(prefix, o.key);
    }
    if DistinctKeys(objects) {
      ScanCandidatesDistinct(prefix, objects);
      SortKeepsIdsDistinct(cs);
    }
  }

  /** Following the S3 provider's next cursors over its cache from the empty
      cursor yields every cached photo once, newest first. */
  lemma PagingCoversScan(prefix: string, objects: seq<Listed>, limit: int)
    requires limit > 0 && DistinctKeys(objects)
    ensures DistinctIds(ScanResult(prefix, objects)) && NonEmptyIds(ScanResult(prefix, objects))
    ensures FollowPages(ScanResult(prefix, objects), "", limit) == ScanResult(prefix, objects)
  {
    var ps := ScanResult(prefix, objects);
    ScanResultIsPageable(prefix, objects);
    FollowPagesCoversListing(ps, limit);
  }

  /** The cache meets what cursor paging needs: distinct, non-empty IDs. */
  lemma ScanResultIsPageable(prefix: string, objects: seq<Listed>)
    requires DistinctKeys(objects)
    ensures DistinctIds(ScanResult(prefix, objects)) && NonEmptyIds(ScanResult(prefix, objects))
  {
    ScanResultIsFilteredAndSorted(prefix, objects);
  }

  /** The Content-Type Upload sends, chosen by the lower-cased extension. */
  function ContentType(ext: string): (ct: string)
    ensures IsImageExt(ext) <==> HasPrefix(ct, "image/")
    ensures !IsImageExt(ext) ==> ct == "application/octet-stream"
  {
    var e := ToLower(ext);
    if e == ".jpg" || e == ".jpeg" then "image/jpeg"
    else if e == ".png" then "image/png"
    else if e == ".gif" then "image/gif"
    else if e == ".webp" then "image/webp"
    else if e == ".svg" then "image/svg+xml"
    else if e == ".bmp" then "image/bmp"
    else
      assert "application/octet-stream"[0] != "image/"[0];
      "application/octet-stream"
  }

  lemma ToLowerIdempotent(s: string)
    ensures ToLower(ToLower(s)) == ToLower(s)
  {
  }

  /** The content type does not depend on the extension's letter case. */
  lemma ContentTypeIgnoresCase(ext: string)
    ensures ContentType(ToLower(ext)) == ContentType(ext)
  {
    ToLowerIdempotent(ext);
  }

  /** What the bucket holds under a key: its size and content type. */
  datatype Stored = Stored(size: int, contentType: string)

  /** The names whose key is already in the bucket. */
  ghost function TakenNames(prefix: string, bucket: map<string, Stored>): iset<string> {
    iset n | BuildKey(prefix, n) in bucket
  }

  /** The keys of the rounds of Upload's loop, as a function of the round. */
  function KeyAt(prefix: string, filename: string): nat -> string {
    (k: nat) => BuildKey(prefix, Candidate(filename, k))
  }

  /** Each round of the loop stats a key of its own. */
  lemma KeyAtInjective(prefix: string, filename: string)
    ensures Injective(KeyAt(prefix, filename))
  {
    forall a: nat, b: nat | KeyAt(prefix, filename)(a) == KeyAt(prefix, filename)(b) ensures a == b {
      BuildKeyInjective(prefix, Candidate(filename, a), Candidate(filename, b));
      CandidateInjective(filename, a, b);
    }
  }

  /** A name whose key is free while the keys of all earlier candidates are
      taken is the first free name, and it keeps the extension. */
  lemma FirstFreeKey(prefix: string, filename: string, bucket: map<string, Stored>, n: nat, name: string)
    requires name == Candidate(filename, n)
    requires forall j: nat :: j < n ==> KeyAt(prefix, filename)(j) in bucket
    requires BuildKey(prefix, name) !in bucket
    ensures FirstFree(filename, TakenNames(prefix, bucket), name)
    ensures Ext(name) == Ext(filename)
  {
    forall j: nat | j < n ensures Candidate(filename, j) in TakenNames(prefix, bucket) {
      assert KeyAt(prefix, filename)(j) in bucket;
    }
    assert Candidate(filename, n) !in TakenNames(prefix, bucket);
    if n > 0 {
      NumberedKeepsExtension(filename, n);
    }
  }

  /** The conflict loop of S3Provider.Upload: stats the key of the plain
      name, then of `stem_1.ext`, `stem_2.ext`, ... until one is not in the bucket. */
  method FreeKey(prefix: string, bucket: map<string, Stored>, filename: string) returns (finalName: string, key: string)
    ensures key == BuildKey(prefix, finalName) && key !in bucket
    ensures FirstFree(filename, TakenNames(prefix, bucket), finalName)
    ensures Ext(finalName) == Ext(filename)
  {
    KeyAtInjective(prefix, filename);
    var i := FirstUntried(KeyAt(prefix, filename), bucket.Keys);
    finalName := Candidate(filename, i);
    key := BuildKey(prefix, finalName);
    FirstFreeKey(prefix, filename, bucket, i, finalName);
  }

  /** How Upload's transfer ends once the key is chosen. */
  datatype PutOutcome = Put | ReadFailed | PutFailed

  class S3Provider {
    const prefix: string
    /** The cached, sorted photo list of the last successful scan. */
    var cache: seq<Photo>
    /** Whether a scan has succeeded since creation or the last invalidation. */
    var scanned: bool

    /** The cache is empty until a scan succeeds. */
    ghost predicate Valid()
      reads this
    {
      !scanned ==> cache == []
    }

    /** NewS3Provider: an empty, unscanned cache (the initial scan it starts
        in the background is a separate RefreshCache call here). */
    constructor(prefix: string)
      ensures this.prefix == prefix
      ensures cache == [] && !scanned
      ensures Valid()
    {
      this.prefix := prefix;
      cache := [];
      scanned := false;
    }

    /** The body of scan's loop for one object: it skips "directory" keys,
        hidden base names and non-image extensions, and otherwise builds the
        photo with the key as ID and the path relative to the prefix. */
    method ScanOne(key: string, size: int, lastModified: int) returns (p: Option<Photo>)
      ensures p.Some? <==> KeyListable(key)
      ensures p.Some? ==> p.value == ObjectPhoto(prefix, Object(key, size, lastModified))
    {
      var np := prefix;
      if np != "" && !HasSuffix(np, "/") {
        np := np + "/";
      }
      assert np == NormalizedPrefix(prefix);
      if HasSuffix(key, "/") {
        return None;
      }
      var name := Base(key);
      if HasPrefix(name, ".") {
        return None;
      }
      var ext := ToLower(Ext(name));
      if ext !in ImageExtensions {
        return None;
      }
      var relativePath := key;
      if prefix != "" && HasPrefix(relativePath, np) {
        relativePath := TrimPrefix(relativePath, np);
      }
      return Some(Photo(key, name, relativePath, "", "", size, lastModified, false));
    }

    /** The loop of scan over the ListObjects stream: the first error
        aborts it, otherwise it keeps the listable objects in listing order. */
    method ScanObjects(objects: seq<Listed>) returns (r: Option<seq<Photo>>)
      ensures r.None? <==> HasError(objects)
      ensures r.Some? ==> r.value == ScanCandidates(prefix, objects)
    {
      var allPhotos: seq<Photo> := [];
      var i := 0;
      while i < |objects|
        invariant 0 <= i <= |objects|
        invariant forall k :: 0 <= k < i ==> objects[k].Object?
        invariant allPhotos == ScanCandidates(prefix, objects[..i])
      {
        var obj := objects[i];
        if obj.ListError? {
          assert HasError(objects);
          return None;
        }
        assert forall k :: 0 <= k < i + 1 ==> objects[k].Object?;
        ScanCandidatesOfPrefix(prefix, objects, i);
        var photo := ScanOne(obj.key, obj.size, obj.lastModified);
        if photo.Some? {
          allPhotos := allPhotos + [photo.value];
        }
        i := i + 1;
      }
      assert objects[..i] == objects;
      return Some(allPhotos);
    }

    /** scan: the listable objects, newest first, or None on a listing error. */
    method Scan(objects: seq<Listed>) returns (r: Option<seq<Photo>>)
      ensures r.None? <==> HasError(objects)
      ensures r.Some? ==> r.value == ScanResult(prefix, objects)
    {
      var allPhotos := ScanObjects(objects);
      if allPhotos.None? {
        return None;
      }
      return Some(SortNewestFirst(allPhotos.value));
    }

    /** refreshCache: a successful scan replaces the cache and marks it
        scanned; a failed one leaves the state as it was. */
    method RefreshCache(objects: seq<Listed>)
      requires Valid()
      modifies this
      ensures Valid()
      ensures HasError(objects) ==> cache == old(cache) && scanned == old(scanned)
      ensures !HasError(objects) ==> cache == ScanResult(prefix, objects) && scanned
    {
      var photos := Scan(objects);
      if photos.None? {
        return;
      }
      cache := photos.value;
      scanned := true;
    }

    /** invalidateCache: back to the unscanned state. */
    method InvalidateCache()
      modifies this
      ensures cache == [] && !scanned
      ensures Valid()
    {
      cache := [];
      scanned := false;
    }

    /** TotalCount: -1 while unscanned, else the number of cached photos. */
    function TotalCount(): (n: int)
      reads this
      ensures n == -1 <==> !scanned
      ensures scanned ==> n == |cache|
    {
      if !scanned then -1 else |cache|
    }

    /** List on the cache: nothing before the first scan; otherwise the
        page after the cursor. The next cursor is only set when photos
        remain and the page is not empty. */
    method List(cursor: string, limit: int) returns (result: seq<Photo>, nextCursor: string)
      requires Valid()
      requires limit >= 0
      ensures !scanned ==> result == [] && nextCursor == ""
      ensures scanned && limit > 0 ==> Page(result, nextCursor) == PageOf(cache, cursor, limit)
      ensures limit == 0 ==> result == [] && nextCursor == ""
    {
      if !scanned && cache == [] {
        return [], "";
      }
      var allPhotos := cache;
      var start := 0;
      if cursor != "" {
        var i := 0;
        while i < |allPhotos|
          invariant 0 <= i <= |allPhotos|
          invariant forall k :: 0 <= k < i ==> allPhotos[k].id != cursor
        {
          if allPhotos[i].id == cursor {
            start := i + 1;
            break;
          }
          i := i + 1;
        }
      }
      assert start == StartIndex(allPhotos, cursor);
      var end := start + limit;
      if end > |allPhotos| {
        end := |allPhotos|;
      }
      result := allPhotos[start..end];
      nextCursor := "";
      if end < |allPhotos| && |result| > 0 {
        nextCursor := result[|result| - 1].id;
      }
    }

    /** Upload: picks the first candidate name whose key is not in the
        bucket, stores the object under that key with the content type of
        the extension, and always invalidates the cache. */
    method Upload(bucket: map<string, Stored>, filename: string, size: int, outcome: PutOutcome)
      returns (saved: Option<string>, bucket': map<string, Stored>)
      modifies this
      ensures saved.Some? <==> outcome.Put?
      ensures saved.Some? ==> BuildKey(prefix, saved.value) !in bucket
      ensures saved.Some? ==> FirstFree(filename, TakenNames(prefix, bucket), saved.value)
      ensures saved.Some? ==> Ext(saved.value) == Ext(filename)
      ensures saved.Some? ==> bucket' == bucket[BuildKey(prefix, saved.value) := Stored(size, ContentType(Ext(filename)))]
      ensures saved.None? ==> bucket' == bucket
      ensures cache == [] && !scanned
    {
      var finalName, key := FreeKey(prefix, bucket, filename);
      var contentType := ContentType(Ext(filename));
      InvalidateCache();
      if !outcome.Put? {
        return None, bucket;
      }
      return Some(finalName), bucket[key := Stored(size, contentType)];
    }
  }
}
