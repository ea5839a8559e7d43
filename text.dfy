/**
 * The handful of Python string operations the modelled code relies on:
 * `str.isspace`, `str.strip`, `str.isdigit`, `in`, `startswith`/`endswith`,
 * `find`/`rfind`, slicing, `replace(c, "")` and `join`.
 */
module Text {

  /** The characters for which Python's `str.isspace()` holds. */
  predicate IsSpace(c: char) {
    || c == ' '
    || ('\t' <= c <= '\r')
    || ('\U{1C}' <= c <= '\U{1F}')
    || c == '\U{85}' || c == '\U{A0}' || c == '\U{1680}'
    || ('\U{2000}' <= c <= '\U{200A}')
    || c == '\U{2028}' || c == '\U{2029}' || c == '\U{202F}' || c == '\U{205F}'
    || c == '\U{3000}'
  }

  /** An ASCII decimal digit (what `\d` and `isdigit` are taken to accept). */
  predicate IsDigitChar(c: char) {
    '0' <= c <= '9'
  }

  predicate AllDigits(s: string) {
    forall i :: 0 <= i < |s| ==> IsDigitChar(s[i])
  }

  /** Python's `s.isdigit()`: non-empty and made of digits only. */
  predicate IsDigits(s: string) {
    |s| > 0 && AllDigits(s)
  }

  /** `s.lstrip()` */
  function StripLeft(s: string): (r: string)
    ensures |r| <= |s| && r == s[|s| - |r|..]
    ensures forall i :: 0 <= i < |s| - |r| ==> IsSpace(s[i])
    ensures r == [] || !IsSpace(r[0])
  {
    if |s| > 0 && IsSpace(s[0]) then StripLeft(s[1..]) else s
  }

  /** `s.rstrip()` */
  function StripRight(s: string): (r: string)
    ensures |r| <= |s| && r == s[..|r|]
    ensures forall i :: |r| <= i < |s| ==> IsSpace(s[i])
    ensures r == [] || !IsSpace(r[|r| - 1])
  {
    if |s| > 0 && IsSpace(s[|s| - 1]) then StripRight(s[..|s| - 1]) else s
  }

  /** `s.strip()` */
  function Strip(s: string): (r: string)
    ensures |r| <= |s|
    ensures r == [] || (!IsSpace(r[0]) && !IsSpace(r[|r| - 1]))
    ensures (forall i :: 0 <= i < |s| ==> IsSpace(s[i])) <==> r == []
  {
    var l := StripLeft(s);
    var r := StripRight(l);
    StripParts(s, l, r);
    r
  }

  lemma StripParts(s: string, l: string, r: string)
    requires |l| <= |s| && l == s[|s| - |l|..] && (l == [] || !IsSpace(l[0]))
    requires forall i :: 0 <= i < |s| - |l| ==> IsSpace(s[i])
    requires |r| <= |l| && r == l[..|r|] && (r == [] || !IsSpace(r[|r| - 1]))
    requires forall i :: |r| <= i < |l| ==> IsSpace(l[i])
    ensures r == [] || (!IsSpace(r[0]) && !IsSpace(r[|r| - 1]))
    ensures (forall i :: 0 <= i < |s| ==> IsSpace(s[i])) <==> r == []
  {
    if r != [] {
      assert r[0] == l[0];
      assert s[|s| - |l|] == l[0];
    } else if l != [] {
      assert false;
    }
  }

  /** Text that neither starts nor ends with a space is its own strip; so stripping twice is stripping once. */
  lemma StripStripped(s: string)
    requires s == [] || (!IsSpace(s[0]) && !IsSpace(s[|s| - 1]))
    ensures Strip(s) == s
  {
  }

  /** Stripping keeps a suffix that neither starts nor ends with a space. */
  lemma StripEndsWith(s: string, suffix: string)
    requires |suffix| > 0 && EndsWith(s, suffix)
    requires !IsSpace(suffix[0]) && !IsSpace(suffix[|suffix| - 1])
    ensures EndsWith(Strip(s), suffix)
  {
    var l := StripLeft(s);
    assert s[|s| - |suffix|] == suffix[0];
    assert |l| >= |suffix|;
    assert l[|l| - |suffix|..] == suffix;
    assert StripRight(l) == l;
  }

  predicate StartsWith(s: string, prefix: string) {
    |prefix| <= |s| && s[..|prefix|] == prefix
  }

  /** `s.endswith(suffix)` */
  predicate EndsWith(s: string, suffix: string) {
    |suffix| <= |s| && s[|s| - |suffix|..] == suffix
  }

  /** `sub in s` for strings. */
  predicate Contains(s: string, sub: string)
    decreases |s|
  {
    StartsWith(s, sub) || (|s| > 0 && Contains(s[1..], sub))
  }

  /** `s.find(c)`: the first index of `c`, or -1. */
  function Find(s: string, c: char): (r: int)
    ensures -1 <= r < |s|
    ensures r >= 0 ==> s[r] == c && forall i :: 0 <= i < r ==> s[i] != c
    ensures r == -1 <==> c !in s
  {
    if |s| == 0 then -1
    else if s[0] == c then 0
    else var k := Find(s[1..], c); if k == -1 then -1 else k + 1
  }

  /** `s.rfind(c)`: the last index of `c`, or -1. */
  function RFind(s: string, c: char): (r: int)
    ensures -1 <= r < |s|
    ensures r >= 0 ==> s[r] == c && forall i :: r < i < |s| ==> s[i] != c
    ensures r == -1 <==> c !in s
  {
    if |s| == 0 then -1
    else if s[|s| - 1] == c then |s| - 1
    else RFind(s[..|s| - 1], c)
  }

  /** An occurrence with none after it is the one `rfind` reports. */
  lemma {:induction false} RFindAt(s: string, c: char, p: nat)
    requires p < |s| && s[p] == c && forall i :: p < i < |s| ==> s[i] != c
    ensures RFind(s, c) == p
  {
    if p < |s| - 1 {
      RFindAt(s[..|s| - 1], c, p);
    }
  }

  /** Python's `s[i:j]` for non-negative bounds: clipped to the string, empty when `j <= i`. */
  function Slice(s: string, i: nat, j: nat): (r: string)
    ensures i <= j <= |s| ==> r == s[i..j]
    ensures j <= i ==> r == []
  {
    var hi := if j < |s| then j else |s|;
    if i < hi then s[i..hi] else []
  }

  /** `s.replace(c, "")` for a one-character `c`. */
  function Remove(s: string, c: char): (r: string)
    ensures c !in r
    ensures |r| <= |s|
    ensures c !in s ==> r == s
  {
    if |s| == 0 then []
    else (if s[0] == c then [] else [s[0]]) + Remove(s[1..], c)
  }

  /** Deleting `c` does not create any other character. */
  lemma {:induction false} RemoveKeeps(s: string, c: char, d: char)
    requires d !in s
    ensures d !in Remove(s, c)
  {
    if |s| > 0 {
      RemoveKeeps(s[1..], c, d);
    }
  }

  lemma {:induction false} RemoveAppend(a: string, b: string, c: char)
    ensures Remove(a + b, c) == Remove(a, c) + Remove(b, c)
  {
    if |a| == 0 {
      assert a + b == b;
    } else {
      assert (a + b)[1..] == a[1..] + b;
      RemoveAppend(a[1..], b, c);
    }
  }

  /** Deleting `c` removes an occurrence of `c` between two parts. */
  lemma RemoveSkip(a: string, b: string, c: char)
    ensures Remove(a + [c] + b, c) == Remove(a + b, c)
  {
    var x, y := Remove(a, c), Remove(b, c);
    RemoveOne(c);
    RemoveAppend(a, [c], c);
    assert Remove(a + [c], c) == x + [];
    assert x + [] == x;
    RemoveAppend(a + [c], b, c);
    RemoveAppend(a, b, c);
  }

  lemma RemoveOne(c: char)
    ensures Remove([c], c) == []
  {
    assert [c][1..] == [];
  }

  /** Deleting `c` keeps any other character between two parts. */
  lemma RemoveOther(a: string, b: string, c: char, d: char)
    requires c != d
    ensures Remove(a + [d] + b, c) == Remove(a, c) + [d] + Remove(b, c)
  {
    RemoveAppend(a + [d], b, c);
    RemoveAppend(a, [d], c);
    assert [d][1..] == [];
  }

  /** The length of the longest all-digit prefix of `s`. */
  function DigitRun(s: string): (n: nat)
    ensures n <= |s| && AllDigits(s[..n])
    ensures n < |s| ==> !IsDigitChar(s[n])
  {
    if |s| > 0 && IsDigitChar(s[0]) then
      var k := DigitRun(s[1..]);
      assert s[..k + 1] == [s[0]] + s[1..][..k];
      k + 1
    else 0
  }

  /** The digit run of a digit string followed by a non-digit is that string. */
  lemma {:induction false} DigitRunOf(d: string, tail: string)
    requires AllDigits(d) && (tail == [] || !IsDigitChar(tail[0]))
    ensures DigitRun(d + tail) == |d|
  {
    if |d| == 0 {
      assert d + tail == tail;
    } else {
      assert (d + tail)[1..] == d[1..] + tail;
      DigitRunOf(d[1..], tail);
    }
  }

  /** `sep.join(parts)` */
  function Join(sep: string, parts: seq<string>): (r: string)
    ensures parts == [] ==> r == []
    ensures |parts| == 1 ==> r == parts[0]
  {
    if |parts| == 0 then []
    else if |parts| == 1 then parts[0]
    else parts[0] + sep + Join(sep, parts[1..])
  }
}
