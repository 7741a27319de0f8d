// The string helpers of Go's `strings`, `strconv` and `path/filepath`
// packages and of JavaScript's String methods that the backend and the
// client rely on, over `string` = `seq<char>`.

module Wrappers {
  datatype Option<+T> = None | Some(value: T)
}

module Strings {
  import opened Wrappers

  predicate HasPrefix(s: string, p: string) {
    |p| <= |s| && s[..|p|] == p
  }

  predicate HasSuffix(s: string, p: string) {
    |p| <= |s| && s[|s| - |p|..] == p
  }

  /** Go's strings.TrimPrefix: drops `p` from the front of `s` when it is there. */
  function TrimPrefix(s: string, p: string): (r: string)
    ensures HasPrefix(s, p) ==> p + r == s
    ensures !HasPrefix(s, p) ==> r == s
  {
    if HasPrefix(s, p) then
      assert s == s[..|p|] + s[|p|..];
      s[|p|..]
    else s
  }

  /** Go's strings.TrimSuffix: drops `p` from the end of `s` when it is there. */
  function TrimSuffix(s: string, p: string): (r: string)
    ensures HasSuffix(s, p) ==> r + p == s
    ensures !HasSuffix(s, p) ==> r == s
  {
    if HasSuffix(s, p) then
      assert s == s[..|s| - |p|] + s[|s| - |p|..];
      s[..|s| - |p|]
    else s
  }

  /** Lower-casing of one character; only the ASCII letters are mapped. */
  function LowerChar(c: char): (d: char)
    ensures 'A' <= c <= 'Z' ==> d as int == c as int + 32
    ensures !('A' <= c <= 'Z') ==> d == c
  {
    if 'A' <= c <= 'Z' then (c as int + 32) as char else c
  }

  /** Go's strings.ToLower and JavaScript's toLowerCase, restricted to ASCII. */
  function ToLower(s: string): (r: string)
    ensures |r| == |s|
    ensures forall i :: 0 <= i < |s| ==> r[i] == LowerChar(s[i])
  {
    seq(|s|, i requires 0 <= i < |s| => LowerChar(s[i]))
  }

  /** `sub` occurs in `s` starting at index `i`. */
  predicate OccursAt(s: string, sub: string, i: int) {
    0 <= i <= |s| - |sub| && s[i..i + |sub|] == sub
  }

  /** JavaScript's String.prototype.includes: `sub` occurs somewhere in `s`. */
  predicate Contains(s: string, sub: string) {
    exists i | 0 <= i <= |s| - |sub| :: OccursAt(s, sub, i)
  }

  // ---------------------------------------------------------------------------
  // path/filepath on a Unix host ('/' is the only separator)

  /** filepath.Ext: the suffix of the last path element from its last '.',
      or "" when that element has no '.'. */
  function Ext(path: string): (e: string)
    ensures HasSuffix(path, e)
    ensures e != "" ==> e[0] == '.' && forall k :: 1 <= k < |e| ==> e[k] != '.' && e[k] != '/'
    decreases |path|
  {
    if |path| == 0 then ""
    else
      var c := path[|path| - 1];
      if c == '/' then ""
      else if c == '.' then "."
      else
        var e := Ext(path[..|path| - 1]);
        if e == "" then "" else e + [c]
  }

  /** An empty extension means the last path element has no '.': every '.'
      is followed by a later '/'. */
  lemma {:induction false} NoExtMeansNoDot(path: string)
    ensures Ext(path) == "" ==>
      forall k :: 0 <= k < |path| && path[k] == '.' ==> exists j :: k < j < |path| && path[j] == '/'
  {
    if |path| > 0 && Ext(path) == "" {
      var init := path[..|path| - 1];
      var c := path[|path| - 1];
      if c != '/' {
        NoExtMeansNoDot(init);
        forall k | 0 <= k < |path| && path[k] == '.' ensures exists j :: k < j < |path| && path[j] == '/' {
          assert k < |path| - 1 && init[k] == '.';
          var j :| k < j < |init| && init[j] == '/';
          assert path[j] == '/';
        }
      }
    }
  }

  /** Drops every '/' from the end of `s`. */
  function StripTrailingSlashes(s: string): (r: string)
    ensures HasPrefix(s, r)
    ensures r == "" || r[|r| - 1] != '/'
    ensures forall k :: |r| <= k < |s| ==> s[k] == '/'
  {
    if |s| > 0 && s[|s| - 1] == '/' then StripTrailingSlashes(s[..|s| - 1]) else s
  }

  /** The part of `s` after its last '/', or `s` itself when it has none. */
  function AfterLastSlash(s: string): (r: string)
    ensures HasSuffix(s, r)
    ensures forall k :: 0 <= k < |r| ==> r[k] != '/'
    ensures r == s || s[|s| - |r| - 1] == '/'
  {
    if |s| == 0 || s[|s| - 1] == '/' then ""
    else AfterLastSlash(s[..|s| - 1]) + [s[|s| - 1]]
  }

  /** filepath.Base: the last element of a path, trailing slashes removed;
      "." for the empty path and "/" for a path of slashes only. */
  function Base(path: string): (b: string)
    ensures b != ""
  {
    if path == "" then "."
    else
      var t := StripTrailingSlashes(path);
      if t == "" then "/" else AfterLastSlash(t)
  }

  /** filepath.Join of a non-empty directory and one element: the
      directory's trailing slashes give way to a single '/' separator ("/"
      alone for a directory of slashes only). The clean-up of "." and ".."
      segments and of repeated slashes inside the directory is left out. */
  function Join(dir: string, elem: string): (r: string)
    requires dir != ""
    ensures HasPrefix(r, StripTrailingSlashes(dir)) && HasSuffix(r, elem)
    ensures elem != "" ==>
      var t := StripTrailingSlashes(dir);
      |r| == |t| + 1 + |elem| && r[|t|] == '/'
    ensures elem == "" ==> r == StripTrailingSlashes(dir) || r == "/"
  {
    var t := StripTrailingSlashes(dir);
    if elem == "" then (if t == "" then "/" else t)
    else t + "/" + elem
  }

  // ---------------------------------------------------------------------------
  // decimal numerals (fmt's %d and strconv.Atoi)

  predicate IsDigit(c: char) {
    '0' <= c <= '9'
  }

  predicate AllDigits(s: string) {
    forall k :: 0 <= k < |s| ==> IsDigit(s[k])
  }

  function DigitChar(d: nat): (c: char)
    requires d < 10
    ensures IsDigit(c)
  {
    ('0' as int + d) as char
  }

  /** The decimal numeral of `n`, as fmt.Sprintf("%d", n) writes it. */
  function NatToString(n: nat): (s: string)
    ensures |s| >= 1 && AllDigits(s)
  {
    if n < 10 then [DigitChar(n)] else NatToString(n / 10) + [DigitChar(n % 10)]
  }

  /** The value of a string of decimal digits. */
  function DigitsValue(s: string): nat
    requires AllDigits(s)
  {
    if s == [] then 0
    else DigitsValue(s[..|s| - 1]) * 10 + (s[|s| - 1] as int - '0' as int)
  }

  lemma {:induction false} DigitsValueOfNatToString(n: nat)
    ensures DigitsValue(NatToString(n)) == n
  {
    if n >= 10 {
      var s := NatToString(n);
      assert s[..|s| - 1] == NatToString(n / 10);
      DigitsValueOfNatToString(n / 10);
    }
  }

  /** Distinct counters give distinct numerals. */
  lemma NatToStringInjective(a: nat, b: nat)
    requires NatToString(a) == NatToString(b)
    ensures a == b
  {
    DigitsValueOfNatToString(a);
    DigitsValueOfNatToString(b);
  }

  const MinInt64: int := -0x8000_0000_0000_0000
  const MaxInt64: int := 0x7FFF_FFFF_FFFF_FFFF

  /** What follows an optional leading '+' or '-'. */
  function AfterSign(s: string): (d: string)
    ensures HasSuffix(s, d) && |s| - 1 <= |d|
  {
    if |s| > 0 && (s[0] == '-' || s[0] == '+') then s[1..] else s
  }

  /** strconv.Atoi on a 64-bit platform: an optional sign, then one or more
      decimal digits whose value fits in an int; anything else is an error. */
  function Atoi(s: string): (r: Option<int>)
    ensures r.Some? ==> MinInt64 <= r.value <= MaxInt64
    ensures r.Some? ==> s != ""
  {
    var neg := |s| > 0 && s[0] == '-';
    var digits := AfterSign(s);
    if digits == [] || !AllDigits(digits) then None
    else
      var v: int := if neg then -(DigitsValue(digits) as int) else DigitsValue(digits);
      if MinInt64 <= v <= MaxInt64 then Some(v) else None
  }

  lemma AtoiOfNatToString(n: nat)
    requires n <= MaxInt64
    ensures Atoi(NatToString(n)) == Some(n)
  {
    var s := NatToString(n);
    DigitsValueOfNatToString(n);
    assert IsDigit(s[0]);
  }

  /** Atoi rejects a string whose part after the optional sign is empty or
      holds a non-digit: "", "+", "-", "5a", "abc". */
  lemma AtoiRejectsNonNumerals(s: string)
    requires AfterSign(s) == [] || exists k :: 0 <= k < |AfterSign(s)| && !IsDigit(AfterSign(s)[k])
    ensures Atoi(s) == None
  {
  }

  /** A numeral beyond the int range is rejected. */
  lemma AtoiRejectsOutOfRange(n: nat)
    requires n > MaxInt64
    ensures Atoi(NatToString(n)) == None
  {
    DigitsValueOfNatToString(n);
    assert IsDigit(NatToString(n)[0]);
  }

  /** "+" followed by a numeral in range parses to its value. */
  lemma AtoiOfPlusNumeral(n: nat)
    requires n <= MaxInt64
    ensures Atoi("+" + NatToString(n)) == Some(n)
  {
    var s := "+" + NatToString(n);
    assert AfterSign(s) == NatToString(n);
    DigitsValueOfNatToString(n);
  }

  /** "-" followed by a numeral parses to its negation, down to the smallest int. */
  lemma AtoiOfMinusNumeral(n: nat)
    requires n <= -MinInt64
    ensures Atoi("-" + NatToString(n)) == Some(-(n as int))
  {
    var s := "-" + NatToString(n);
    assert AfterSign(s) == NatToString(n);
    DigitsValueOfNatToString(n);
  }

  /** Trailing slashes of the directory do not double the separator. */
  lemma JoinDropsTrailingSlashes()
    ensures Join("photos//", "a.jpg") == "photos/a.jpg"
    ensures Join("/", "a.jpg") == "/a.jpg"
  {
    assert StripTrailingSlashes("photos//") == StripTrailingSlashes("photos/") == "photos";
    assert StripTrailingSlashes("/") == StripTrailingSlashes("") == "";
  }
}
