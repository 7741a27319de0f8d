// The photo record the storage providers return, the image-extension filter
// both providers apply, and the newest-first order they sort by.

module Photos {
  import opened Strings

  /** One listed photo. `modTime` is the modification time as an integer
      count of time units; only its order matters. */
  datatype Photo = Photo(
    id: string,
    name: string,
    path: string,
    url: string,
    thumbnailUrl: string,
    size: int,
    modTime: int,
    isDir: bool)

  /** The extensions, lower-cased, that both providers list as images. */
  const ImageExtensions: set<string> := {".jpg", ".jpeg", ".png", ".webp", ".gif", ".svg", ".bmp"}

  predicate IsImageExt(ext: string) {
    ToLower(ext) in ImageExtensions
  }

  /** A file name the providers list: its lower-cased extension is an image extension. */
  predicate IsImageName(name: string) {
    IsImageExt(Ext(name))
  }

  /** Every name with an image extension is non-empty and has a '.'. */
  lemma ImageNameNonEmpty(name: string)
    requires IsImageName(name)
    ensures name != "" && |Ext(name)| >= 4
  {
  }

  /** Newest first: no photo is strictly newer than one before it. */
  predicate NewestFirst(ps: seq<Photo>) {
    forall i, j :: 0 <= i < j < |ps| ==> ps[i].modTime >= ps[j].modTime
  }

  /** No two photos share an ID. */
  predicate DistinctIds(ps: seq<Photo>) {
    forall i, j :: 0 <= i < j < |ps| ==> ps[i].id != ps[j].id
  }

  /** Appending a photo whose ID is new keeps the IDs distinct. */
  lemma AppendKeepsIdsDistinct(ps: seq<Photo>, p: Photo)
    requires DistinctIds(ps)
    requires forall k :: 0 <= k < |ps| ==> ps[k].id != p.id
    ensures DistinctIds(ps + [p])
  {
    var r := ps + [p];
    forall i, j | 0 <= i < j < |r| ensures r[i].id != r[j].id {
      assert r[i] == ps[i];
    }
  }

  /** Inserts `p` into a newest-first list in front of every photo that is not newer. */
  function Insert(p: Photo, ps: seq<Photo>): (r: seq<Photo>)
    ensures |r| == |ps| + 1
    ensures multiset(r) == multiset(ps) + multiset{p}
  {
    if ps == [] then [p]
    else if p.modTime >= ps[0].modTime then [p] + ps
    else
      assert ps == [ps[0]] + ps[1..];
      [ps[0]] + Insert(p, ps[1..])
  }

  /** Every member of `r` is `p` or a member of `ps` when `r` holds exactly those. */
  lemma MembersOf(p: Photo, ps: seq<Photo>, r: seq<Photo>)
    requires multiset(r) == multiset(ps) + multiset{p}
    ensures forall q :: q in r ==> q == p || q in ps
  {
    forall q | q in r ensures q == p || q in ps {
      assert q in multiset(r);
    }
  }

  lemma {:induction false} InsertKeepsOrder(p: Photo, ps: seq<Photo>)
    requires NewestFirst(ps)
    ensures NewestFirst(Insert(p, ps))
  {
    if ps != [] && p.modTime < ps[0].modTime {
      var rest := Insert(p, ps[1..]);
      InsertKeepsOrder(p, ps[1..]);
      MembersOf(p, ps[1..], rest);
      var r := [ps[0]] + rest;
      forall i, j | 0 <= i < j < |r| ensures r[i].modTime >= r[j].modTime {
        if i == 0 {
          assert r[j] in rest;
        } else {
          assert r[i] == rest[i - 1] && r[j] == rest[j - 1];
        }
      }
    }
  }

  lemma {:induction false} InsertKeepsIdsDistinct(p: Photo, ps: seq<Photo>)
    requires DistinctIds(ps)
    requires forall q :: q in ps ==> q.id != p.id
    ensures DistinctIds(Insert(p, ps))
  {
    if ps == [] {
    } else if p.modTime >= ps[0].modTime {
      var r := [p] + ps;
      forall i, j | 0 <= i < j < |r| ensures r[i].id != r[j].id {
        if i == 0 {
          assert r[j] in ps;
        } else {
          assert r[i] == ps[i - 1] && r[j] == ps[j - 1];
        }
      }
    } else {
      var rest := Insert(p, ps[1..]);
      InsertKeepsIdsDistinct(p, ps[1..]);
      MembersOf(p, ps[1..], rest);
      var r := [ps[0]] + rest;
      forall i, j | 0 <= i < j < |r| ensures r[i].id != r[j].id {
        if i == 0 {
          assert r[j] in rest;
          assert r[j] == p || r[j] in ps[1..];
          if r[j] != p {
            var k :| 0 <= k < |ps[1..]| && ps[1..][k] == r[j];
            assert ps[k + 1] == r[j];
          }
        } else {
          assert r[i] == rest[i - 1] && r[j] == rest[j - 1];
        }
      }
    }
  }

  /** sort.Slice by "ModTime after": the result is newest-first and a
      permutation of the input. Go's sort is not stable, so the order of
      photos with equal times is unspecified there; this insertion sort
      fixes one admissible order. */
  function SortNewestFirst(ps: seq<Photo>): (r: seq<Photo>)
    ensures |r| == |ps|
    ensures multiset(r) == multiset(ps)
    ensures NewestFirst(r)
  {
    if ps == [] then []
    else
      var rest := SortNewestFirst(ps[1..]);
      assert ps == [ps[0]] + ps[1..];
      InsertKeepsOrder(ps[0], rest);
      Insert(ps[0], rest)
  }

  /** Sorting a list without repeated IDs repeats none. */
  lemma {:induction false} SortKeepsIdsDistinct(ps: seq<Photo>)
    requires DistinctIds(ps)
    ensures DistinctIds(SortNewestFirst(ps))
  {
    if ps != [] {
      var rest := SortNewestFirst(ps[1..]);
      SortKeepsIdsDistinct(ps[1..]);
      forall q | q in rest ensures q.id != ps[0].id {
        assert q in multiset(rest);
        assert q in multiset(ps[1..]);
        var k :| 0 <= k < |ps[1..]| && ps[1..][k] == q;
        assert ps[k + 1] == q;
      }
      InsertKeepsIdsDistinct(ps[0], rest);
    }
  }

  /** A photo is in the sorted list exactly when it is in the input. */
  lemma SortKeepsMembers(ps: seq<Photo>, p: Photo)
    ensures p in SortNewestFirst(ps) <==> p in ps
  {
    var r := SortNewestFirst(ps);
    assert p in r <==> p in multiset(r);
    assert p in ps <==> p in multiset(ps);
  }
}
