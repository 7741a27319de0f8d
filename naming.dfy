// Conflict-free upload names, shared by both providers' Upload: the plain
// file name first, then `stem_1.ext`, `stem_2.ext`, ... until one is free.

module Naming {
  import opened Strings

  /** The file name without its extension (strings.TrimSuffix(name, filepath.Ext(name))). */
  function Stem(filename: string): (s: string)
    ensures s + Ext(filename) == filename
  {
    TrimSuffix(filename, Ext(filename))
  }

  /** fmt.Sprintf("%s_%d%s", stem, k, ext). */
  function Numbered(filename: string, k: nat): string {
    Stem(filename) + "_" + NatToString(k) + Ext(filename)
  }

  /** The name tried on the k-th round of the loop: the plain name first. */
  function Candidate(filename: string, k: nat): string {
    if k == 0 then filename else Numbered(filename, k)
  }

  /** Appending a proper extension to anything makes it the extension. */
  lemma {:induction false} ExtOfAppended(x: string, e: string)
    requires e != "" && e[0] == '.'
    requires forall k :: 1 <= k < |e| ==> e[k] != '.' && e[k] != '/'
    ensures Ext(x + e) == e
    decreases |e|
  {
    if |e| > 1 {
      var y := x + e;
      assert y[..|y| - 1] == x + e[..|e| - 1];
      ExtOfAppended(x, e[..|e| - 1]);
      assert e == e[..|e| - 1] + [e[|e| - 1]];
    }
  }

  /** Appending characters other than '.' and '/' to a name without
      extension leaves it without extension. */
  lemma {:induction false} ExtOfAppendedPlain(x: string, t: string)
    requires Ext(x) == ""
    requires forall k :: 0 <= k < |t| ==> t[k] != '.' && t[k] != '/'
    ensures Ext(x + t) == ""
    decreases |t|
  {
    if t == [] {
      assert x + t == x;
    } else {
      var y := x + t;
      assert y[..|y| - 1] == x + t[..|t| - 1];
      ExtOfAppendedPlain(x, t[..|t| - 1]);
    }
  }

  /** Every generated name keeps the uploaded file's extension. */
  lemma NumberedKeepsExtension(filename: string, k: nat)
    ensures Ext(Numbered(filename, k)) == Ext(filename)
  {
    var ext := Ext(filename);
    var stem := Stem(filename);
    var digits := NatToString(k);
    var t := "_" + digits;
    assert forall i :: 0 <= i < |t| ==> t[i] != '.' && t[i] != '/' by {
      forall i | 0 <= i < |t| ensures t[i] != '.' && t[i] != '/' {
        if i > 0 {
          assert t[i] == digits[i - 1];
          assert IsDigit(digits[i - 1]);
        }
      }
    }
    assert Numbered(filename, k) == (stem + t) + ext;
    if ext == "" {
      assert stem == filename;
      ExtOfAppendedPlain(stem, t);
      assert (stem + t) + ext == stem + t;
    } else {
      ExtOfAppended(stem + t, ext);
    }
  }

  /** Different counters give different names, and none of them is the plain name. */
  lemma CandidateInjective(filename: string, a: nat, b: nat)
    ensures Candidate(filename, a) == Candidate(filename, b) ==> a == b
  {
    var stem, ext := Stem(filename), Ext(filename);
    if a != 0 && b != 0 && Candidate(filename, a) == Candidate(filename, b) {
      var na, nb := Numbered(filename, a), Numbered(filename, b);
      var da, db := NatToString(a), NatToString(b);
      assert |da| == |db|;
      assert na[|stem| + 1..|na| - |ext|] == da;
      assert nb[|stem| + 1..|nb| - |ext|] == db;
      NatToStringInjective(a, b);
    }
  }

  /** The values `f` takes on the rounds before `n`: what a naming loop
      has tried when it starts round `n`. */
  ghost function Tried<T>(f: nat -> T, n: nat): set<T> {
    if n == 0 then {} else Tried(f, n - 1) + {f(n - 1)}
  }

  ghost predicate Injective<T>(f: nat -> T) {
    forall a: nat, b: nat :: f(a) == f(b) ==> a == b
  }

  /** Every round before `n` has been tried. */
  lemma {:induction false} TriedEarlier<T>(f: nat -> T, n: nat, j: nat)
    requires j < n
    ensures f(j) in Tried(f, n)
  {
    if j < n - 1 {
      TriedEarlier(f, n - 1, j);
    }
  }

  /** With different values on different rounds, no round from `n` on has
      been tried before round `n`. */
  lemma {:induction false} TriedIsNew<T>(f: nat -> T, n: nat, m: nat)
    requires Injective(f)
    requires n <= m
    ensures f(m) !in Tried(f, n)
  {
    if n > 0 {
      TriedIsNew(f, n - 1, m);
      assert f(m) != f(n - 1);
    }
  }

  /** The names of the rounds of the loop, as a function of the round. */
  function CandidateAt(filename: string): nat -> string {
    (k: nat) => Candidate(filename, k)
  }

  /** Each round of the loop tests a name of its own. */
  lemma CandidateAtInjective(filename: string)
    ensures Injective(CandidateAt(filename))
  {
    forall a: nat, b: nat | CandidateAt(filename)(a) == CandidateAt(filename)(b) ensures a == b {
      CandidateInjective(filename, a, b);
    }
  }

  /** A round whose value is in the finite set `all` leaves fewer of its
      elements untried: the measure that ends both naming loops. */
  lemma FewerUntried<T>(all: set<T>, f: nat -> T, n: nat)
    requires Injective(f)
    requires Tried(f, n) <= all && f(n) in all
    ensures Tried(f, n + 1) <= all
    ensures |all - Tried(f, n + 1)| < |all - Tried(f, n)|
  {
    TriedIsNew(f, n, n);
    assert all - Tried(f, n + 1) == (all - Tried(f, n)) - {f(n)};
  }

  /** The search both Upload loops make: rounds 0, 1, 2, ... until the
      value of a round is not taken. It ends because the rounds' values are
      all different and `taken` is finite. */
  method FirstUntried<T>(f: nat -> T, taken: set<T>) returns (n: nat)
    requires Injective(f)
    ensures f(n) !in taken
    ensures forall j: nat :: j < n ==> f(j) in taken
  {
    n := 0;
    while f(n) in taken
      invariant Tried(f, n) <= taken
      decreases |taken - Tried(f, n)|
    {
      FewerUntried(taken, f, n);
      n := n + 1;
    }
    forall j: nat | j < n ensures f(j) in taken {
      TriedEarlier(f, n, j);
    }
  }

  /** `name` is the first candidate that is not in `taken`: what both Upload
      loops pick. */
  ghost predicate FirstFree(filename: string, taken: iset<string>, name: string) {
    exists k: nat ::
      && name == Candidate(filename, k)
      && Candidate(filename, k) !in taken
      && forall j: nat :: j < k ==> Candidate(filename, j) in taken
  }

  /** The name the loops pick is determined by the taken names. */
  lemma FirstFreeUnique(filename: string, taken: iset<string>, n1: string, n2: string)
    requires FirstFree(filename, taken, n1) && FirstFree(filename, taken, n2)
    ensures n1 == n2
  {
    var k1: nat :| n1 == Candidate(filename, k1) && Candidate(filename, k1) !in taken
                   && forall j: nat :: j < k1 ==> Candidate(filename, j) in taken;
    var k2: nat :| n2 == Candidate(filename, k2) && Candidate(filename, k2) !in taken
                   && forall j: nat :: j < k2 ==> Candidate(filename, j) in taken;
  }
}
