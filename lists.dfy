/**
 * The filter-and-transform loop over a list: each element yields at most one
 * output, outputs keep the element order, and the loop may stop once enough
 * outputs have been collected; and selection of the elements that satisfy a
 * condition, as a sequence of boolean masks does to a table.
 */
module Lists {
  import opened Wrappers

  /** The outputs of all the elements, in element order. */
  function FilterMap<T, U>(s: seq<T>, f: T -> Option<U>): seq<U> {
    if |s| == 0 then []
    else FilterMap(s[..|s| - 1], f) + Yield(f(s[|s| - 1]))
  }

  /** An optional output as a list of zero or one. */
  function Yield<U>(r: Option<U>): seq<U> {
    match r
    case Some(u) => [u]
    case None => []
  }

  /** One more element read. */
  lemma FilterMapStep<T, U>(s: seq<T>, i: nat, f: T -> Option<U>)
    requires i < |s|
    ensures FilterMap(s[..i + 1], f) == FilterMap(s[..i], f) + Yield(f(s[i]))
  {
    assert s[..i + 1][..i] == s[..i];
  }

  /** The outputs of a prefix are a prefix of the outputs. */
  lemma {:induction false} FilterMapPrefix<T, U>(s: seq<T>, k: nat, f: T -> Option<U>)
    requires k <= |s|
    ensures |FilterMap(s[..k], f)| <= |FilterMap(s, f)|
    ensures FilterMap(s[..k], f) == FilterMap(s, f)[..|FilterMap(s[..k], f)|]
    decreases |s| - k
  {
    if k < |s| {
      var init := s[..|s| - 1];
      assert init[..k] == s[..k];
      FilterMapPrefix(init, k, f);
    } else {
      assert s[..k] == s;
    }
  }

  /** Every output is the output of some element, and there are no more outputs than elements. */
  lemma {:induction false} FilterMapSource<T, U>(s: seq<T>, f: T -> Option<U>)
    ensures |FilterMap(s, f)| <= |s|
    ensures forall u :: u in FilterMap(s, f) ==> exists i :: 0 <= i < |s| && f(s[i]) == Some(u)
  {
    if |s| > 0 {
      var init := s[..|s| - 1];
      FilterMapSource(init, f);
      forall u | u in FilterMap(s, f)
        ensures exists i :: 0 <= i < |s| && f(s[i]) == Some(u)
      {
        if u in FilterMap(init, f) {
          var i :| 0 <= i < |init| && f(init[i]) == Some(u);
          assert s[i] == init[i];
        } else {
          assert u in Yield(f(s[|s| - 1]));
        }
      }
    }
  }

  /** Every element with an output contributes it. */
  lemma {:induction false} FilterMapComplete<T, U>(s: seq<T>, i: nat, f: T -> Option<U>)
    requires i < |s| && f(s[i]).Some?
    ensures f(s[i]).value in FilterMap(s, f)
  {
    if i < |s| - 1 {
      var init := s[..|s| - 1];
      FilterMapComplete(init, i, f);
    }
  }

  /** The first `n` elements of a list (all of them if there are fewer). */
  function Take<T>(s: seq<T>, n: nat): (r: seq<T>)
    ensures |r| <= n && |r| <= |s|
    ensures |s| <= n ==> r == s
    ensures n <= |s| ==> r == s[..n]
  {
    if |s| <= n then s else s[..n]
  }

  /** The loop `for x in s: ...; out.append(y); if len(out) >= lim: break`: the first `lim`
      outputs. `examined` is how many elements were read; when the loop stops early, the
      last element read gave the `lim`-th output. */
  method TakeFilterMap<T, U>(s: seq<T>, f: T -> Option<U>, lim: nat)
    returns (out: seq<U>, ghost examined: nat)
    requires lim >= 1
    ensures out == Take(FilterMap(s, f), lim)
    ensures examined <= |s|
    ensures out == FilterMap(s[..examined], f)
    ensures examined < |s| ==> |out| == lim && examined >= 1 && f(s[examined - 1]).Some?
  {
    out := [];
    var i := 0;
    while i < |s|
      invariant 0 <= i <= |s|
      invariant out == FilterMap(s[..i], f)
      invariant |out| < lim
    {
      var r := f(s[i]);
      FilterMapStep(s, i, f);
      if r.Some? {
        out := out + [r.value];
      }
      i := i + 1;
      if |out| >= lim {
        FilterMapPrefix(s, i, f);
        ghost var all := FilterMap(s, f);
        assert out == all[..lim];
        return out, i;
      }
    }
    assert s[..i] == s;
    return out, i;
  }

  /** The elements of `s` that satisfy `p`, in their order in `s` (a boolean-mask selection). */
  function Where<T(!new)>(s: seq<T>, p: T -> bool): (r: seq<T>)
    ensures |r| <= |s|
    ensures forall x :: x in r <==> x in s && p(x)
  {
    if |s| == 0 then []
    else
      var init := s[..|s| - 1];
      var last := s[|s| - 1];
      assert s == init + [last];
      Where(init, p) + (if p(last) then [last] else [])
  }

  /** Selecting twice is selecting once by both conditions. */
  lemma {:induction false} WhereWhere<T(!new)>(s: seq<T>, p: T -> bool, q: T -> bool, pq: T -> bool)
    requires forall x :: pq(x) == (p(x) && q(x))
    ensures Where(Where(s, p), q) == Where(s, pq)
  {
    if |s| > 0 {
      var init, last := s[..|s| - 1], s[|s| - 1];
      WhereWhere(init, p, q, pq);
      var w := Where(init, p);
      if p(last) {
        assert Where(s, p) == w + [last];
        assert (w + [last])[..|w + [last]| - 1] == w;
      } else {
        assert Where(s, p) == w;
      }
    }
  }

  /** A condition every element meets selects them all. */
  lemma {:induction false} WhereAll<T(!new)>(s: seq<T>, p: T -> bool)
    requires forall x :: x in s ==> p(x)
    ensures Where(s, p) == s
  {
    if |s| > 0 {
      var init := s[..|s| - 1];
      assert s == init + [s[|s| - 1]];
      WhereAll(init, p);
    }
  }

  /** Selection depends only on which elements the condition accepts. */
  lemma {:induction false} WhereExt<T(!new)>(s: seq<T>, p: T -> bool, q: T -> bool)
    requires forall x :: p(x) == q(x)
    ensures Where(s, p) == Where(s, q)
  {
    if |s| > 0 {
      WhereExt(s[..|s| - 1], p, q);
    }
  }
}
