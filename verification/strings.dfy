/**
 * The handful of Python `str` operations the scripts rely on, written out on
 * `seq<char>`: `find`, `replace(old, new, 1)`, `replace(old, new)`,
 * `split(sep)`, `lower()` (ASCII letters only) and `str(int)`.
 */
module Strings {
  import opened Wrappers

  /** `pat` occurs in `s` starting at index `i`. */
  predicate OccursAt(s: string, pat: string, i: nat) {
    i + |pat| <= |s| && s[i..i + |pat|] == pat
  }

  ghost predicate Contains(s: string, pat: string) {
    exists i: nat :: OccursAt(s, pat, i)
  }

  /** Leftmost occurrence of `pat` in `s` at or after `from`. */
  function FindFrom(s: string, pat: string, from: nat): (r: Option<nat>)
    requires from <= |s|
    decreases |s| - from
    ensures r.Some? ==> from <= r.value <= |s| && OccursAt(s, pat, r.value)
    ensures forall j: nat :: from <= j && (r.None? || j < r.value) ==> !OccursAt(s, pat, j)
  {
    if OccursAt(s, pat, from) then Some(from)
    else if from == |s| then None
    else FindFrom(s, pat, from + 1)
  }

  /** Python's `s.find(pat)`, with `None` for -1. */
  function Find(s: string, pat: string): (r: Option<nat>)
    ensures r.None? <==> !Contains(s, pat)
    ensures r.Some? ==> r.value <= |s| && OccursAt(s, pat, r.value)
    ensures r.Some? ==> forall j: nat :: j < r.value ==> !OccursAt(s, pat, j)
  {
    FindFrom(s, pat, 0)
  }

  /** `Find` returns `k` when `pat` occurs at `k` and nowhere before. */
  lemma FindAt(s: string, pat: string, k: nat)
    requires OccursAt(s, pat, k)
    requires forall j: nat :: j < k ==> !OccursAt(s, pat, j)
    ensures Find(s, pat) == Some(k)
  {
    assert Contains(s, pat);
  }

  /** Python's `s.replace(pat, rep, 1)`: only the leftmost occurrence is replaced. */
  function ReplaceFirst(s: string, pat: string, rep: string): string {
    match Find(s, pat)
    case None => s
    case Some(i) => s[..i] + rep + s[i + |pat|..]
  }

  /**
   * Without an occurrence the string is unchanged; otherwise the occurrence that no other precedes
   * is the one cut out and replaced.
   */
  lemma ReplaceFirstSpec(s: string, pat: string, rep: string)
    ensures !Contains(s, pat) ==> ReplaceFirst(s, pat, rep) == s
    ensures Contains(s, pat) ==>
      exists i: nat :: OccursAt(s, pat, i) && (forall j: nat :: j < i ==> !OccursAt(s, pat, j))
                       && ReplaceFirst(s, pat, rep) == s[..i] + rep + s[i + |pat|..]
  {
    var f := Find(s, pat);
    if f.Some? {
      var i := f.value;
      assert OccursAt(s, pat, i) && (forall j: nat :: j < i ==> !OccursAt(s, pat, j));
    }
  }

  /** Python's `s.replace(pat, rep)`: every occurrence, scanning left to right without overlap. */
  function ReplaceAll(s: string, pat: string, rep: string): string
    requires pat != []
    decreases |s|
  {
    match Find(s, pat)
    case None => s
    case Some(i) => s[..i] + rep + ReplaceAll(s[i + |pat|..], pat, rep)
  }

  /** Python's `s.split(sep)` for a non-empty separator. */
  function Split(s: string, sep: string): (parts: seq<string>)
    requires sep != []
    ensures |parts| >= 1
    decreases |s|
  {
    match Find(s, sep)
    case None => [s]
    case Some(i) => [s[..i]] + Split(s[i + |sep|..], sep)
  }

  /** Python's `sep.join(parts)`. */
  function Join(parts: seq<string>, sep: string): string
  {
    if |parts| == 0 then ""
    else if |parts| == 1 then parts[0]
    else parts[0] + sep + Join(parts[1..], sep)
  }

  /** Every piece of a split glued back with the separator gives the original string. */
  lemma {:induction false} JoinSplit(s: string, sep: string)
    requires sep != []
    ensures Join(Split(s, sep), sep) == s
    decreases |s|
  {
    match Find(s, sep)
    case None =>
    case Some(i) =>
      var rest := Split(s[i + |sep|..], sep);
      JoinSplit(s[i + |sep|..], sep);
      assert Split(s, sep) == [s[..i]] + rest;
      assert ([s[..i]] + rest)[1..] == rest;
      calc {
        Join(Split(s, sep), sep);
        s[..i] + sep + Join(rest, sep);
        s[..i] + s[i..i + |sep|] + s[i + |sep|..];
        s;
      }
  }

  /** No piece of a split contains the separator, and every character of a piece comes from `s`. */
  lemma {:induction false} SplitPieces(s: string, sep: string)
    requires sep != []
    ensures forall p :: p in Split(s, sep) ==> !Contains(p, sep)
    ensures forall p, c :: p in Split(s, sep) && c in p ==> c in s
    decreases |s|
  {
    match Find(s, sep)
    case None =>
    case Some(i) =>
      var tail := s[i + |sep|..];
      SplitPieces(tail, sep);
      forall j: nat | OccursAt(s[..i], sep, j)
        ensures false
      {
        assert s[..i][j..j + |sep|] == s[j..j + |sep|];
        assert OccursAt(s, sep, j);
      }
      forall p, c | p in Split(s, sep) && c in p
        ensures c in s
      {
        if p == s[..i] {
          var k :| 0 <= k < |p| && p[k] == c;
          assert s[k] == c;
        } else {
          assert p in Split(tail, sep);
          var k :| 0 <= k < |tail| && tail[k] == c;
          assert s[i + |sep| + k] == c;
        }
      }
  }

  /** A character can only appear in `ReplaceAll(s, pat, rep)` if it appears in `s` or in `rep`. */
  lemma {:induction false} ReplaceAllChars(s: string, pat: string, rep: string, c: char)
    requires pat != []
    requires c in ReplaceAll(s, pat, rep)
    ensures c in s || c in rep
    decreases |s|
  {
    match Find(s, pat)
    case None =>
    case Some(i) =>
      var tail := s[i + |pat|..];
      var r := ReplaceAll(tail, pat, rep);
      assert ReplaceAll(s, pat, rep) == s[..i] + rep + r;
      if c in s[..i] {
        var k :| 0 <= k < i && s[..i][k] == c;
        assert s[k] == c;
      } else if c !in rep {
        assert c in r;
        ReplaceAllChars(tail, pat, rep, c);
        var k :| 0 <= k < |tail| && tail[k] == c;
        assert s[i + |pat| + k] == c;
      }
  }

  /** Removing every occurrence of a one-character pattern leaves no such character. */
  lemma {:induction false} ReplaceAllRemovesChar(s: string, c: char)
    ensures c !in ReplaceAll(s, [c], "")
    decreases |s|
  {
    match Find(s, [c])
    case None =>
      forall k | 0 <= k < |s| ensures s[k] != c {
        assert !OccursAt(s, [c], k) && s[k..k + 1] == [s[k]];
      }
    case Some(i) =>
      var tail := s[i + 1..];
      ReplaceAllRemovesChar(tail, c);
      forall k | 0 <= k < i ensures s[k] != c {
        assert !OccursAt(s, [c], k) && s[k..k + 1] == [s[k]];
      }
      assert ReplaceAll(s, [c], "") == s[..i] + ReplaceAll(tail, [c], "");
  }

  /** Replacing one character by another changes exactly the positions holding it, and nothing else. */
  lemma {:induction false} ReplaceAllCharByChar(s: string, a: char, b: char)
    ensures |ReplaceAll(s, [a], [b])| == |s|
    ensures forall k :: 0 <= k < |s| ==> ReplaceAll(s, [a], [b])[k] == (if s[k] == a then b else s[k])
    decreases |s|
  {
    match Find(s, [a])
    case None =>
      forall k | 0 <= k < |s| ensures s[k] != a {
        assert !OccursAt(s, [a], k) && s[k..k + 1] == [s[k]];
      }
    case Some(i) =>
      var tail := s[i + 1..];
      ReplaceAllCharByChar(tail, a, b);
      var r := ReplaceAll(s, [a], [b]);
      assert r == s[..i] + [b] + ReplaceAll(tail, [a], [b]);
      assert s[i] == a by { assert s[i..i + 1] == [a]; }
      forall k | 0 <= k < |s| ensures r[k] == (if s[k] == a then b else s[k]) {
        if k < i {
          assert !OccursAt(s, [a], k) && s[k..k + 1] == [s[k]];
        } else if k > i {
          assert r[k] == ReplaceAll(tail, [a], [b])[k - i - 1];
        }
      }
  }

  // ---------------------------------------------------------------------------
  // Lower-casing

  predicate IsUpper(c: char) {
    'A' <= c <= 'Z'
  }

  function LowerChar(c: char): char {
    if IsUpper(c) then (c as int + 32) as char else c
  }

  /** Python's `s.lower()` on the ASCII letters. */
  function Lower(s: string): string {
    seq(|s|, i requires 0 <= i < |s| => LowerChar(s[i]))
  }

  ghost predicate NoUpper(s: string) {
    forall c :: c in s ==> !IsUpper(c)
  }

  /** A lowered string holds no upper-case letter, and lowering keeps every non-letter. */
  lemma LowerProperties(s: string, c: char)
    ensures NoUpper(Lower(s))
    ensures !IsUpper(c) && !('a' <= c <= 'z') ==> (c in Lower(s) <==> c in s)
  {
    if !IsUpper(c) && !('a' <= c <= 'z') {
      if c in s {
        var k :| 0 <= k < |s| && s[k] == c;
        assert Lower(s)[k] == c;
      }
      if c in Lower(s) {
        var k :| 0 <= k < |s| && Lower(s)[k] == c;
        assert s[k] == c;
      }
    }
  }

  // ---------------------------------------------------------------------------
  // Decimal rendering of integers, Python's `str(int)`

  predicate IsDigit(c: char) {
    '0' <= c <= '9'
  }

  ghost predicate AllDigits(s: string) {
    forall c :: c in s ==> IsDigit(c)
  }

  function DigitChar(d: nat): char
    requires d < 10
  {
    ('0' as int + d) as char
  }

  function DigitValue(c: char): nat
    requires IsDigit(c)
  {
    c as int - '0' as int
  }

  function NatToString(n: nat): (r: string)
    ensures |r| >= 1 && AllDigits(r)
    decreases n
  {
    if n < 10 then [DigitChar(n)] else NatToString(n / 10) + [DigitChar(n % 10)]
  }

  function IntToString(i: int): string {
    if i < 0 then "-" + NatToString(-i) else NatToString(i)
  }

  function ParseNat(s: string): nat
    requires |s| >= 1 && AllDigits(s)
    decreases |s|
  {
    if |s| == 1 then DigitValue(s[0])
    else 10 * ParseNat(s[..|s| - 1]) + DigitValue(s[|s| - 1])
  }

  ghost predicate IsIntLiteral(s: string) {
    (|s| >= 2 && s[0] == '-' && AllDigits(s[1..])) || (|s| >= 1 && AllDigits(s))
  }

  function ParseInt(s: string): (r: int)
    requires IsIntLiteral(s)
  {
    if s[0] == '-' then
      assert !IsDigit(s[0]);
      0 - ParseNat(s[1..]) as int
    else ParseNat(s)
  }

  lemma {:induction false} NatToStringRoundTrip(n: nat)
    ensures ParseNat(NatToString(n)) == n
    decreases n
  {
    if n >= 10 {
      NatToStringRoundTrip(n / 10);
      var r := NatToString(n);
      assert r[..|r| - 1] == NatToString(n / 10);
    }
  }

  /** The decimal rendering of an integer reads back as that integer. */
  lemma IntToStringRoundTrip(i: int)
    ensures IsIntLiteral(IntToString(i))
    ensures ParseInt(IntToString(i)) == i
  {
    if i < 0 {
      var d := NatToString(-i);
      assert ("-" + d)[1..] == d;
      NatToStringRoundTrip(-i);
    } else {
      assert IsDigit(NatToString(i)[0]);
      NatToStringRoundTrip(i);
    }
  }
}
