/**
 * Region resolution for the listing dashboard: a typed place name is sent to
 * the mobile search page, and the region code and centre coordinates are read
 * from the query of the URL the search redirects to or, failing that, from the
 * page text.
 *
 * The request is a function from URL to reply. The reply carries the final URL,
 * the query of that URL already split and decoded into a map from name to
 * values (as `urllib.parse.parse_qs` returns it), and the page text.
 */
module RegionSearch {
  import opened Wrappers
  import opened Text
  import opened Decimal
  import PercentEncoding

  const SearchBase: string := "https://m.land.naver.com/search/result/"

  /** What the search request returns after following redirects. */
  datatype Reply = Reply(finalUrl: string, query: map<string, seq<string>>, body: string)

  /** The resolved region: code, centre, and the URL it was read from. */
  datatype Region = Region(cortarNo: string, lat: real, lon: real, url: string)

  datatype RegionError =
    | EmptyKeyword   // the `ValueError` for a blank keyword
    | RequestFailed  // the request raised or returned an error status
    | NotANumber     // the `ValueError` of `float()` on a coordinate text
    | NotFound       // the `RuntimeError` when neither the query nor the page holds all three values

  /** The search URL for a keyword. */
  function SearchUrl(keyword: string): (u: string)
    ensures StartsWith(u, SearchBase)
  {
    SearchBase + PercentEncoding.Quote(keyword)
  }

  /** `pick(name)`: the first value of a query parameter, if it has one. */
  function Pick(q: map<string, seq<string>>, name: string): (r: Option<string>)
    ensures name in q && |q[name]| > 0 ==> r == Some(q[name][0])
    ensures name !in q || q[name] == [] ==> r == None
  {
    if name in q && |q[name]| > 0 then Some(q[name][0]) else None
  }

  /** A picked value that is present and not empty. */
  predicate Given(v: Option<string>) {
    v.Some? && v.value != []
  }

  /** The query names all three values. */
  predicate QueryComplete(q: map<string, seq<string>>) {
    Given(Pick(q, "cortarNo")) && Given(Pick(q, "lat")) && Given(Pick(q, "lon"))
  }

  predicate IsQuote(c: char) {
    c == '"' || c == '\''
  }

  /** A character of the captured group: `\d`, or `[0-9.]` when `dots` holds. */
  predicate InGroup(c: char, dots: bool) {
    IsDigitChar(c) || (dots && c == '.')
  }

  /** Position after an optional quote at `j`. */
  function SkipQuote(s: string, j: nat): (r: nat)
    requires j <= |s|
    ensures j <= r <= |s|
  {
    if j < |s| && IsQuote(s[j]) then j + 1 else j
  }

  /** Position after the run of `\s` starting at `j`. */
  function SkipSpaces(s: string, j: nat): (r: nat)
    requires j <= |s|
    ensures j <= r <= |s|
    ensures forall k :: j <= k < r ==> IsSpace(s[k])
    ensures r == |s| || !IsSpace(s[r])
    decreases |s| - j
  {
    if j < |s| && IsSpace(s[j]) then SkipSpaces(s, j + 1) else j
  }

  /** Length of the run of group characters starting at `j`. */
  function GroupRun(s: string, j: nat, dots: bool): (n: nat)
    requires j <= |s|
    ensures j + n <= |s|
    ensures forall k :: j <= k < j + n ==> InGroup(s[k], dots)
    ensures j + n == |s| || !InGroup(s[j + n], dots)
    decreases |s| - j
  {
    if j < |s| && InGroup(s[j], dots) then 1 + GroupRun(s, j + 1, dots) else 0
  }

  /** The match of `key["']?\s*[:=]\s*["']?(group+)` starting exactly at `i`, as the
      captured group. Every optional part and every repetition is taken greedily:
      giving one back can never let the next part match, so there is no other way
      to match at `i`. */
  function MatchAt(s: string, i: nat, key: string, dots: bool): (r: Option<string>)
    requires i <= |s|
    ensures r.Some? ==> |r.value| > 0 && forall k :: 0 <= k < |r.value| ==> InGroup(r.value[k], dots)
    ensures r.Some? ==> KeyAt(s, i, key)
  {
    if KeyAt(s, i, key) then ValueAfter(s, i + |key|, dots) else None
  }

  /** `key` occurs in `s` at `i`. */
  predicate KeyAt(s: string, i: nat, key: string) {
    i + |key| <= |s| && s[i..i + |key|] == key
  }

  /** `["']?\s*[:=]\s*["']?(group+)` from position `p`, as the captured group. */
  function ValueAfter(s: string, p: nat, dots: bool): (r: Option<string>)
    requires p <= |s|
    ensures r.Some? ==> |r.value| > 0 && forall k :: 0 <= k < |r.value| ==> InGroup(r.value[k], dots)
  {
    match SepAfter(s, p)
    case Some(q) => GroupAfter(s, q, dots)
    case None => None
  }

  /** The position after `["']?\s*[:=]` read from `p`, if there is a separator. */
  function SepAfter(s: string, p: nat): (r: Option<nat>)
    requires p <= |s|
    ensures r.Some? ==> p < r.value <= |s|
  {
    var j := SkipSpaces(s, SkipQuote(s, p));
    if j < |s| && (s[j] == ':' || s[j] == '=') then Some(j + 1) else None
  }

  /** `\s*["']?(group+)` from position `p`, as the captured group. */
  function GroupAfter(s: string, p: nat, dots: bool): (r: Option<string>)
    requires p <= |s|
    ensures r.Some? ==> |r.value| > 0 && forall k :: 0 <= k < |r.value| ==> InGroup(r.value[k], dots)
  {
    var g := SkipQuote(s, SkipSpaces(s, p));
    var n := GroupRun(s, g, dots);
    if n > 0 then Some(s[g..g + n]) else None
  }

  /** `re.search`: the leftmost position at or after `from` where the pattern matches. */
  function SearchFrom(s: string, key: string, dots: bool, from: nat): (r: Option<nat>)
    requires from <= |s|
    ensures r.Some? ==> from <= r.value <= |s| && MatchAt(s, r.value, key, dots).Some?
    decreases |s| - from
  {
    if MatchAt(s, from, key, dots).Some? then Some(from)
    else if from == |s| then None
    else SearchFrom(s, key, dots, from + 1)
  }

  /** No position before the one found matches, and none at all when nothing is found. */
  lemma {:induction false} SearchFromLeftmost(s: string, key: string, dots: bool, from: nat, k: nat)
    requires from <= k <= |s|
    requires SearchFrom(s, key, dots, from).None? || k < SearchFrom(s, key, dots, from).value
    ensures MatchAt(s, k, key, dots).None?
    decreases k - from
  {
    SearchFromHere(s, key, dots, from);
    if k > from {
      SearchFromStep(s, key, dots, from);
      SearchFromLeftmost(s, key, dots, from + 1, k);
    }
  }

  /** A search that finds nothing at `from` saw no match there. */
  lemma SearchFromHere(s: string, key: string, dots: bool, from: nat)
    requires from <= |s|
    requires SearchFrom(s, key, dots, from).None? || from < SearchFrom(s, key, dots, from).value
    ensures MatchAt(s, from, key, dots).None?
  {
  }

  /** Past a position that does not match, the search goes on at the next one. */
  lemma SearchFromStep(s: string, key: string, dots: bool, from: nat)
    requires from < |s| && MatchAt(s, from, key, dots).None?
    ensures SearchFrom(s, key, dots, from) == SearchFrom(s, key, dots, from + 1)
  {
  }

  /** `m.group(1)` of `re.search(pattern, s)`, if the search finds a match. */
  function Search(s: string, key: string, dots: bool): (r: Option<string>)
    ensures r.Some? <==> exists k :: 0 <= k <= |s| && MatchAt(s, k, key, dots).Some?
  {
    assert SearchFrom(s, key, dots, 0).None? ==> forall k :: 0 <= k <= |s| ==> MatchAt(s, k, key, dots).None? by {
      if SearchFrom(s, key, dots, 0).None? {
        forall k | 0 <= k <= |s| ensures MatchAt(s, k, key, dots).None? {
          SearchFromLeftmost(s, key, dots, 0, k);
        }
      }
    }
    match SearchFrom(s, key, dots, 0)
    case Some(k) => MatchAt(s, k, key, dots)
    case None => None
  }

  /** `key=digits` at the start of the text is found, and the group is exactly those digits. */
  lemma SearchLeading(key: string, sep: char, digits: string, tail: string)
    requires sep == ':' || sep == '='
    requires IsDigits(digits)
    requires tail == [] || !IsDigitChar(tail[0])
    ensures Search(key + [sep] + digits + tail, key, false) == Some(digits)
  {
    var s := key + [sep] + digits + tail;
    MatchLeading(s, key, sep, digits, tail);
    assert SearchFrom(s, key, false, 0) == Some(0);
  }

  lemma MatchLeading(s: string, key: string, sep: char, digits: string, tail: string)
    requires s == key + [sep] + digits + tail
    requires sep == ':' || sep == '='
    requires IsDigits(digits)
    requires tail == [] || !IsDigitChar(tail[0])
    ensures MatchAt(s, 0, key, false) == Some(digits)
  {
    var k := |key|;
    assert s[0..k] == key;
    assert s[k] == sep;
    assert s[k + 1..] == digits + tail;
    GroupLeading(s, k + 1, digits, tail);
    SeparatorAt(s, k, false);
  }

  /** A separator at `p` is followed by what `GroupAfter` reads after it. */
  lemma SeparatorAt(s: string, p: nat, dots: bool)
    requires p < |s| && (s[p] == ':' || s[p] == '=')
    ensures ValueAfter(s, p, dots) == GroupAfter(s, p + 1, dots)
  {
    SepAt(s, p);
  }

  lemma SepAt(s: string, p: nat)
    requires p < |s| && (s[p] == ':' || s[p] == '=')
    ensures SepAfter(s, p) == Some(p + 1)
  {
    SkipQuoteAt(s, p);
    SkipSpacesAt(s, p);
  }

  lemma SkipQuoteAt(s: string, p: nat)
    requires p < |s| && !IsQuote(s[p])
    ensures SkipQuote(s, p) == p
  {
  }

  lemma SkipSpacesAt(s: string, p: nat)
    requires p < |s| && !IsSpace(s[p])
    ensures SkipSpaces(s, p) == p
  {
  }

  /** Digits at `p` followed by a non-digit are the group read at `p`. */
  lemma GroupLeading(s: string, p: nat, digits: string, tail: string)
    requires p + |digits| + |tail| == |s| && s[p..] == digits + tail
    requires IsDigits(digits) && (tail == [] || !IsDigitChar(tail[0]))
    ensures GroupAfter(s, p, false) == Some(digits)
  {
    assert s[p] == digits[0] by { assert s[p..][0] == (digits + tail)[0]; }
    SkipSpacesAt(s, p);
    SkipQuoteAt(s, p);
    RunLength(s, p, digits, tail);
    assert s[p..p + |digits|] == digits;
  }

  lemma RunLength(s: string, j: nat, digits: string, tail: string)
    requires j + |digits| + |tail| == |s| && s[j..] == digits + tail
    requires AllDigits(digits) && (tail == [] || !IsDigitChar(tail[0]))
    ensures GroupRun(s, j, false) == |digits|
  {
    var n := GroupRun(s, j, false);
    assert forall k :: 0 <= k < |digits| ==> s[j + k] == digits[k] by {
      forall k | 0 <= k < |digits| ensures s[j + k] == digits[k] {
        assert s[j..][k] == (digits + tail)[k];
      }
    }
    assert tail != [] ==> s[j + |digits|] == tail[0] by {
      if tail != [] {
        assert s[j..][|digits|] == (digits + tail)[|digits|];
      }
    }
  }

  /** An optional quote: nothing, or one quote character. */
  predicate OptionalQuote(q: string) {
    q == [] || (|q| == 1 && IsQuote(q[0]))
  }

  predicate AllSpaces(t: string) {
    forall k :: 0 <= k < |t| ==> IsSpace(t[k])
  }

  /** A non-empty run of group characters. */
  predicate GroupText(g: string, dots: bool) {
    |g| > 0 && forall k :: 0 <= k < |g| ==> InGroup(g[k], dots)
  }

  /** The text from `i` on reads `key`, an optional quote, spaces, `:` or `=`, spaces, an
      optional quote, the group `g`, and a tail that does not continue the group. */
  predicate MatchShape(s: string, i: nat, key: string, dots: bool, q1: string, sp1: string, sep: char,
                       sp2: string, q2: string, g: string, tail: string) {
    && i <= |s|
    && OptionalQuote(q1) && AllSpaces(sp1) && (sep == ':' || sep == '=')
    && AllSpaces(sp2) && OptionalQuote(q2) && GroupText(g, dots)
    && (tail == [] || !InGroup(tail[0], dots))
    && s[i..] == key + (q1 + (sp1 + ([sep] + (sp2 + (q2 + (g + tail))))))
  }

  /** The pattern matches at `i` with group `g` exactly when the text from `i` has that shape. */
  lemma MatchAtShape(s: string, i: nat, key: string, dots: bool, g: string)
    requires i <= |s|
    ensures MatchAt(s, i, key, dots) == Some(g) <==>
              exists q1, sp1, sep, sp2, q2, tail :: MatchShape(s, i, key, dots, q1, sp1, sep, sp2, q2, g, tail)
  {
    if MatchAt(s, i, key, dots) == Some(g) {
      MatchAtGivesShape(s, i, key, dots, g);
    }
    if exists q1, sp1, sep, sp2, q2, tail :: MatchShape(s, i, key, dots, q1, sp1, sep, sp2, q2, g, tail) {
      var q1, sp1, sep, sp2, q2, tail :| MatchShape(s, i, key, dots, q1, sp1, sep, sp2, q2, g, tail);
      ShapeGivesMatchAt(s, i, key, dots, q1, sp1, sep, sp2, q2, g, tail);
    }
  }

  /** The parts a match at `i` reads, as slices of the text. */
  lemma MatchAtGivesShape(s: string, i: nat, key: string, dots: bool, g: string)
    requires i <= |s| && MatchAt(s, i, key, dots) == Some(g)
    ensures exists q1, sp1, sep, sp2, q2, tail :: MatchShape(s, i, key, dots, q1, sp1, sep, sp2, q2, g, tail)
  {
    KeyThenValue(s, i, key, dots, g);
    var q1, sp1, sep, sp2, q2, tail := PartsAfterKey(s, i, key, dots, g);
    ShapeOfParts(s, i, key, dots, q1, sp1, sep, sp2, q2, g, tail);
  }

  /** The key at `i` followed by text in the shape of the rest of the pattern has that shape. */
  lemma ShapeOfParts(s: string, i: nat, key: string, dots: bool, q1: string, sp1: string, sep: char,
                     sp2: string, q2: string, g: string, tail: string)
    requires KeyAt(s, i, key) && s[i + |key|..] == q1 + (sp1 + ([sep] + (sp2 + (q2 + (g + tail)))))
    requires OptionalQuote(q1) && AllSpaces(sp1) && (sep == ':' || sep == '=')
    requires AllSpaces(sp2) && OptionalQuote(q2) && GroupText(g, dots)
    requires tail == [] || !InGroup(tail[0], dots)
    ensures MatchShape(s, i, key, dots, q1, sp1, sep, sp2, q2, g, tail)
  {
    SplitAt(s, i, i + |key|);
  }

  /** A match at `i` is the key followed by the text `ValueAfter` reads. */
  lemma KeyThenValue(s: string, i: nat, key: string, dots: bool, g: string)
    requires i <= |s| && MatchAt(s, i, key, dots) == Some(g)
    ensures KeyAt(s, i, key) && ValueAfter(s, i + |key|, dots) == Some(g)
  {
  }

  /** `ValueParts` at the position just after a key. */
  lemma PartsAfterKey(s: string, i: nat, key: string, dots: bool, g: string)
      returns (q1: string, sp1: string, sep: char, sp2: string, q2: string, tail: string)
    requires i + |key| <= |s| && ValueAfter(s, i + |key|, dots) == Some(g)
    ensures OptionalQuote(q1) && AllSpaces(sp1) && (sep == ':' || sep == '=')
    ensures AllSpaces(sp2) && OptionalQuote(q2) && GroupText(g, dots)
    ensures tail == [] || !InGroup(tail[0], dots)
    ensures s[i + |key|..] == q1 + (sp1 + ([sep] + (sp2 + (q2 + (g + tail)))))
  {
    q1, sp1, sep, sp2, q2, tail := ValueParts(s, i + |key|, dots, g);
  }

  /** The parts of the text from `a` that `ValueAfter` reads as `g`. */
  lemma ValueParts(s: string, a: nat, dots: bool, g: string)
      returns (q1: string, sp1: string, sep: char, sp2: string, q2: string, tail: string)
    requires a <= |s| && ValueAfter(s, a, dots) == Some(g)
    ensures OptionalQuote(q1) && AllSpaces(sp1) && (sep == ':' || sep == '=')
    ensures AllSpaces(sp2) && OptionalQuote(q2) && GroupText(g, dots)
    ensures tail == [] || !InGroup(tail[0], dots)
    ensures s[a..] == q1 + (sp1 + ([sep] + (sp2 + (q2 + (g + tail)))))
  {
    var d := SepAfter(s, a).value;
    assert GroupAfter(s, d, dots) == Some(g);
    q1, sp1, sep := SepParts(s, a);
    sp2, q2, tail := GroupParts(s, d, dots);
  }

  /** The quote, spaces and separator `SepAfter` reads. */
  lemma SepParts(s: string, p: nat) returns (q1: string, sp1: string, sep: char)
    requires p <= |s| && SepAfter(s, p).Some?
    ensures OptionalQuote(q1) && AllSpaces(sp1) && (sep == ':' || sep == '=')
    ensures s[p..] == q1 + (sp1 + ([sep] + s[SepAfter(s, p).value..]))
  {
    var b := SkipQuote(s, p);
    var c := SkipSpaces(s, b);
    q1, sp1, sep := s[p..b], s[b..c], s[c];
    SplitAt(s, c, c + 1);
    assert s[c..c + 1] == [sep];
    SplitAt(s, b, c);
    SplitAt(s, p, b);
  }

  /** The spaces, quote, group and tail `GroupAfter` reads. */
  lemma GroupParts(s: string, p: nat, dots: bool) returns (sp2: string, q2: string, tail: string)
    requires p <= |s| && GroupAfter(s, p, dots).Some?
    ensures AllSpaces(sp2) && OptionalQuote(q2) && GroupText(GroupAfter(s, p, dots).value, dots)
    ensures tail == [] || !InGroup(tail[0], dots)
    ensures s[p..] == sp2 + (q2 + (GroupAfter(s, p, dots).value + tail))
  {
    var f := SkipQuote(s, SkipSpaces(s, p));
    var g := s[f..f + GroupRun(s, f, dots)];
    assert GroupAfter(s, p, dots) == Some(g);
    sp2, q2 := SpacesQuoteParts(s, p);
    tail := RunParts(s, f, dots);
    ReplaceRest(s[p..], sp2, q2, s[f..], g + tail);
  }

  lemma ReplaceRest(x: string, a: string, b: string, m: string, r: string)
    requires x == a + (b + m) && m == r
    ensures x == a + (b + r)
  {
  }

  /** The spaces and the optional quote read from `p`. */
  lemma SpacesQuoteParts(s: string, p: nat) returns (sp: string, q: string)
    requires p <= |s|
    ensures AllSpaces(sp) && OptionalQuote(q)
    ensures s[p..] == sp + (q + s[SkipQuote(s, SkipSpaces(s, p))..])
  {
    var e := SkipSpaces(s, p);
    var f := SkipQuote(s, e);
    sp, q := s[p..e], s[e..f];
    SplitAt(s, e, f);
    SplitAt(s, p, e);
  }

  /** The maximal group run at `f` and what follows it. */
  lemma RunParts(s: string, f: nat, dots: bool) returns (tail: string)
    requires f <= |s|
    ensures tail == [] || !InGroup(tail[0], dots)
    ensures s[f..] == s[f..f + GroupRun(s, f, dots)] + tail
  {
    var n := GroupRun(s, f, dots);
    tail := s[f + n..];
    SplitAt(s, f, f + n);
  }

  lemma SplitAt(s: string, x: nat, y: nat)
    requires x <= y <= |s|
    ensures s[x..] == s[x..y] + s[y..]
  {
  }

  /** A text of that shape matches at `i` with group `g`. */
  lemma ShapeGivesMatchAt(s: string, i: nat, key: string, dots: bool, q1: string, sp1: string, sep: char,
                          sp2: string, q2: string, g: string, tail: string)
    requires MatchShape(s, i, key, dots, q1, sp1, sep, sp2, q2, g, tail)
    ensures MatchAt(s, i, key, dots) == Some(g)
  {
    KeyThenRest(s, i, key, q1 + (sp1 + ([sep] + (sp2 + (q2 + (g + tail))))));
    ShapeAfterKey(s, i, key, dots, q1, sp1, sep, sp2, q2, g, tail);
  }

  /** The key at `i` followed by text in the shape of the rest of the pattern. */
  lemma ShapeAfterKey(s: string, i: nat, key: string, dots: bool, q1: string, sp1: string, sep: char,
                      sp2: string, q2: string, g: string, tail: string)
    requires KeyAt(s, i, key) && s[i + |key|..] == q1 + (sp1 + ([sep] + (sp2 + (q2 + (g + tail)))))
    requires OptionalQuote(q1) && AllSpaces(sp1) && (sep == ':' || sep == '=')
    requires AllSpaces(sp2) && OptionalQuote(q2) && GroupText(g, dots)
    requires tail == [] || !InGroup(tail[0], dots)
    ensures MatchAt(s, i, key, dots) == Some(g)
  {
    ValueAfterKey(s, i, key, dots, q1, sp1, sep, sp2, q2, g, tail);
    MatchAtOf(s, i, key, dots, g);
  }

  /** `ValueStep` at the position just after a key. */
  lemma ValueAfterKey(s: string, i: nat, key: string, dots: bool, q1: string, sp1: string, sep: char,
                      sp2: string, q2: string, g: string, tail: string)
    requires i + |key| <= |s| && s[i + |key|..] == q1 + (sp1 + ([sep] + (sp2 + (q2 + (g + tail)))))
    requires OptionalQuote(q1) && AllSpaces(sp1) && (sep == ':' || sep == '=')
    requires AllSpaces(sp2) && OptionalQuote(q2) && GroupText(g, dots)
    requires tail == [] || !InGroup(tail[0], dots)
    ensures ValueAfter(s, i + |key|, dots) == Some(g)
  {
    ValueStep(s, i + |key|, dots, q1, sp1, sep, sp2, q2, g, tail);
  }

  /** The text after a key, in the shape of the pattern, is what `ValueAfter` reads. */
  lemma ValueStep(s: string, a: nat, dots: bool, q1: string, sp1: string, sep: char,
                  sp2: string, q2: string, g: string, tail: string)
    requires a <= |s| && s[a..] == q1 + (sp1 + ([sep] + (sp2 + (q2 + (g + tail)))))
    requires OptionalQuote(q1) && AllSpaces(sp1) && (sep == ':' || sep == '=')
    requires AllSpaces(sp2) && OptionalQuote(q2) && GroupText(g, dots)
    requires tail == [] || !InGroup(tail[0], dots)
    ensures ValueAfter(s, a, dots) == Some(g)
  {
    var d := SepStep(s, a, q1, sp1, sep, sp2 + (q2 + (g + tail)));
    GroupStep(s, d, dots, sp2, q2, g, tail);
    ValueAfterOf(s, a, dots, d, g);
  }

  lemma MatchAtOf(s: string, i: nat, key: string, dots: bool, g: string)
    requires i <= |s| && KeyAt(s, i, key) && ValueAfter(s, i + |key|, dots) == Some(g)
    ensures MatchAt(s, i, key, dots) == Some(g)
  {
  }

  lemma ValueAfterOf(s: string, a: nat, dots: bool, d: nat, g: string)
    requires a <= |s| && SepAfter(s, a) == Some(d) && d <= |s| && GroupAfter(s, d, dots) == Some(g)
    ensures ValueAfter(s, a, dots) == Some(g)
  {
  }

  /** A quote, spaces and a separator at `p` are what `SepAfter` reads. */
  lemma SepStep(s: string, p: nat, q1: string, sp1: string, sep: char, r: string) returns (d: nat)
    requires p <= |s| && s[p..] == q1 + (sp1 + ([sep] + r))
    requires OptionalQuote(q1) && AllSpaces(sp1) && (sep == ':' || sep == '=')
    ensures d <= |s| && SepAfter(s, p) == Some(d) && s[d..] == r
  {
    HeadNotQuote(sp1, [sep] + r, sep);
    var c := QuoteThenSpaces(s, p, q1, sp1, [sep] + r);
    SepThenRest(s, c, sep, r);
    SepAfterAt(s, p, c);
    d := c + 1;
  }

  /** A separator character at `c`, then `r`. */
  lemma SepThenRest(s: string, c: nat, sep: char, r: string)
    requires c <= |s| && s[c..] == [sep] + r
    ensures c < |s| && s[c] == sep && s[c + 1..] == r
  {
    TakePrefix(s, c, [sep], r);
    assert s[c] == s[c..c + 1][0];
  }

  /** An optional quote and spaces at `p`, followed by a character that is neither. */
  lemma QuoteThenSpaces(s: string, p: nat, q: string, sp: string, r: string) returns (c: nat)
    requires p <= |s| && s[p..] == q + (sp + r)
    requires OptionalQuote(q) && AllSpaces(sp)
    requires |r| > 0 && !IsSpace(r[0])
    requires q == [] ==> !IsQuote((sp + r)[0])
    ensures c <= |s| && SkipSpaces(s, SkipQuote(s, p)) == c && s[c..] == r
  {
    QuoteStep(s, p, q, sp + r);
    var b := p + |q|;
    SpacesStep(s, b, sp, r);
    c := b + |sp|;
  }

  lemma SepAfterAt(s: string, p: nat, c: nat)
    requires p <= |s| && SkipSpaces(s, SkipQuote(s, p)) == c
    requires c < |s| && (s[c] == ':' || s[c] == '=')
    ensures SepAfter(s, p) == Some(c + 1)
  {
  }

  lemma GroupAfterAt(s: string, p: nat, dots: bool, f: nat, g: string)
    requires p <= |s| && SkipQuote(s, SkipSpaces(s, p)) == f
    requires |g| > 0 && GroupRun(s, f, dots) == |g| && s[f..f + |g|] == g
    ensures GroupAfter(s, p, dots) == Some(g)
  {
  }

  /** Spaces, a quote and a maximal group at `p` are what `GroupAfter` reads. */
  lemma GroupStep(s: string, p: nat, dots: bool, sp2: string, q2: string, g: string, tail: string)
    requires p <= |s| && s[p..] == sp2 + (q2 + (g + tail))
    requires AllSpaces(sp2) && OptionalQuote(q2) && GroupText(g, dots)
    requires tail == [] || !InGroup(tail[0], dots)
    ensures GroupAfter(s, p, dots) == Some(g)
  {
    HeadOfGroup(q2, g, tail, dots);
    SpacesStep(s, p, sp2, q2 + (g + tail));
    var e := p + |sp2|;
    assert |g + tail| > 0 && !IsQuote((g + tail)[0]) by { assert (g + tail)[0] == g[0]; }
    QuoteStep(s, e, q2, g + tail);
    var f := e + |q2|;
    RunStep(s, f, g, tail, dots);
    GroupAfterAt(s, p, dots, f, g);
  }

  /** `s[j..] == x + r` splits `s` at `j + |x|`. */
  lemma TakePrefix(s: string, j: nat, x: string, r: string)
    requires j <= |s| && s[j..] == x + r
    ensures j + |x| <= |s| && s[j..j + |x|] == x && s[j + |x|..] == r
  {
    assert s[j..j + |x|] == s[j..][..|x|];
    assert s[j + |x|..] == s[j..][|x|..];
  }

  lemma KeyThenRest(s: string, i: nat, key: string, r: string)
    requires i <= |s| && s[i..] == key + r
    ensures KeyAt(s, i, key) && s[i + |key|..] == r
  {
    TakePrefix(s, i, key, r);
  }

  /** Spaces followed by a separator do not start with a quote. */
  lemma HeadNotQuote(sp: string, r: string, sep: char)
    requires AllSpaces(sp) && |r| > 0 && r[0] == sep && (sep == ':' || sep == '=')
    ensures |sp + r| > 0 && !IsQuote((sp + r)[0]) && (sp + r)[|sp|] == sep
  {
  }

  /** An optional quote and a group start with neither a space nor, without the quote, a quote. */
  lemma HeadOfGroup(q: string, g: string, tail: string, dots: bool)
    requires OptionalQuote(q) && GroupText(g, dots)
    ensures |q + (g + tail)| > 0 && !IsSpace((q + (g + tail))[0])
  {
    if q == [] {
      assert (q + (g + tail))[0] == g[0];
    }
  }

  lemma QuoteStep(s: string, j: nat, q: string, r: string)
    requires j <= |s| && s[j..] == q + r && OptionalQuote(q)
    requires q == [] && |r| > 0 ==> !IsQuote(r[0])
    ensures SkipQuote(s, j) == j + |q| && s[j + |q|..] == r
  {
    TakePrefix(s, j, q, r);
    if q != [] {
      assert s[j] == q[0];
    } else if |r| > 0 {
      assert s[j] == r[0];
    }
  }

  lemma {:induction false} SpacesStep(s: string, j: nat, sp: string, r: string)
    requires j <= |s| && s[j..] == sp + r && AllSpaces(sp)
    requires |r| > 0 && !IsSpace(r[0])
    ensures SkipSpaces(s, j) == j + |sp| && s[j + |sp|..] == r
    decreases |sp|
  {
    TakePrefix(s, j, sp, r);
    if sp == [] {
      assert s[j] == r[0];
    } else {
      assert s[j] == sp[0];
      assert s[j + 1..] == sp[1..] + r by {
        assert s[j + 1..] == s[j..][1..];
        assert (sp + r)[1..] == sp[1..] + r;
      }
      SpacesStep(s, j + 1, sp[1..], r);
    }
  }

  lemma {:induction false} RunStep(s: string, j: nat, g: string, tail: string, dots: bool)
    requires j <= |s| && s[j..] == g + tail
    requires forall k :: 0 <= k < |g| ==> InGroup(g[k], dots)
    requires tail == [] || !InGroup(tail[0], dots)
    ensures GroupRun(s, j, dots) == |g| && s[j..j + |g|] == g
    decreases |g|
  {
    TakePrefix(s, j, g, tail);
    if g == [] {
      if tail != [] {
        assert s[j] == tail[0];
      }
    } else {
      assert s[j] == g[0];
      assert s[j + 1..] == g[1..] + tail by {
        assert s[j + 1..] == s[j..][1..];
        assert (g + tail)[1..] == g[1..] + tail;
      }
      RunStep(s, j + 1, g[1..], tail, dots);
    }
  }

  /** The three texts read from the page, in the order code, latitude, longitude. */
  function BodyValues(body: string): (Option<string>, Option<string>, Option<string>) {
    (Search(body, "cortarNo", false), Search(body, "lat", true), Search(body, "lon", true))
  }

  /** The region for code, coordinate texts and URL, or `NotANumber` if a coordinate
      does not parse. */
  function WithCoordinates(code: string, lat: string, lon: string, url: string): (r: Result<Region, RegionError>)
    ensures r.Ok? <==> ParseFloat(lat).Some? && ParseFloat(lon).Some?
    ensures r.Ok? ==> r.value == Region(code, ParseFloat(lat).value, ParseFloat(lon).value, url)
    ensures r.Err? ==> r.error == NotANumber
  {
    match (ParseFloat(lat), ParseFloat(lon))
    case (Some(a), Some(b)) => Ok(Region(code, a, b, url))
    case _ => Err(NotANumber)
  }

  /** What `resolve_region` makes of the reply: the query when it names all three values,
      otherwise the page text. */
  function FromReply(reply: Reply): (r: Result<Region, RegionError>)
    ensures r.Err? ==> r.error == NotANumber || r.error == NotFound
    ensures QueryComplete(reply.query) ==>
              var q := reply.query;
              r == WithCoordinates(q["cortarNo"][0], q["lat"][0], q["lon"][0], reply.finalUrl)
    ensures !QueryComplete(reply.query) ==>
              var (c, la, lo) := BodyValues(reply.body);
              && (c.Some? && la.Some? && lo.Some? ==> r == WithCoordinates(c.value, la.value, lo.value, reply.finalUrl))
              && (!(c.Some? && la.Some? && lo.Some?) ==> r == Err(NotFound))
  {
    var q := reply.query;
    var c, la, lo := Pick(q, "cortarNo"), Pick(q, "lat"), Pick(q, "lon");
    if Given(c) && Given(la) && Given(lo) then WithCoordinates(c.value, la.value, lo.value, reply.finalUrl)
    else
      var (bc, bla, blo) := BodyValues(reply.body);
      if bc.Some? && bla.Some? && blo.Some? then WithCoordinates(bc.value, bla.value, blo.value, reply.finalUrl)
      else Err(NotFound)
  }

  /** `resolve_region(keyword)` against the search endpoint `server` (`None` for a failed request). */
  function ResolveRegion(keyword: Option<string>, server: string -> Option<Reply>): (r: Result<Region, RegionError>)
    ensures r == Err(EmptyKeyword) <==> Strip(keyword.GetOr("")) == []
    ensures Strip(keyword.GetOr("")) != [] ==>
              var reply := server(SearchUrl(Strip(keyword.GetOr(""))));
              && (reply.None? ==> r == Err(RequestFailed))
              && (reply.Some? ==> r == FromReply(reply.value))
  {
    var k := Strip(keyword.GetOr(""));
    if k == [] then Err(EmptyKeyword)
    else
      match server(SearchUrl(k))
      case None => Err(RequestFailed)
      case Some(reply) => FromReply(reply)
  }

  /** A blank keyword is refused before any request: the server's answers make no difference. */
  lemma BlankKeywordMakesNoRequest(keyword: Option<string>, s1: string -> Option<Reply>, s2: string -> Option<Reply>)
    requires Strip(keyword.GetOr("")) == []
    ensures ResolveRegion(keyword, s1) == ResolveRegion(keyword, s2) == Err(EmptyKeyword)
  {
  }

  /** Only the reply for the quoted, stripped keyword matters. */
  lemma OnlySearchUrlMatters(keyword: Option<string>, s1: string -> Option<Reply>, s2: string -> Option<Reply>)
    requires s1(SearchUrl(Strip(keyword.GetOr("")))) == s2(SearchUrl(Strip(keyword.GetOr(""))))
    ensures ResolveRegion(keyword, s1) == ResolveRegion(keyword, s2)
  {
  }

  /** Coordinates read from the page are digits and dots, so they parse exactly when they
      hold at most one dot and some digit. */
  lemma PageCoordinatesParse(body: string)
    requires Search(body, "lat", true).Some?
    ensures var t := Search(body, "lat", true).value;
            ParseFloat(t).Some? <==> AtMostOneDot(t) && exists i :: 0 <= i < |t| && IsDigitChar(t[i])
  {
    var t := Search(body, "lat", true).value;
    assert DigitsAndDots(t);
    ParseFloatDigitsAndDots(t);
  }
}
