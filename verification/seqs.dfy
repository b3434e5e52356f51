/**
 * The array built-ins the mapping code leans on: `Array.prototype.find` and a
 * `filter` followed by a `map`, over immutable sequences.
 */
module Seqs {
  import opened Wrappers

  /** Position of the first element satisfying `p`, or `|s|` when none does. */
  function FirstIndex<T>(s: seq<T>, p: T -> bool): (i: nat)
    ensures i <= |s|
    ensures i < |s| ==> p(s[i])
    ensures forall j :: 0 <= j < i ==> !p(s[j])
  {
    if s == [] then 0
    else if p(s[0]) then 0
    else 1 + FirstIndex(s[1..], p)
  }

  /** `s.find(p)`: the first element satisfying `p`, or nothing. */
  function Find<T>(s: seq<T>, p: T -> bool): (r: Option<T>)
    ensures r.None? <==> forall x :: x in s ==> !p(x)
    ensures r.Some? ==> r.value in s && p(r.value)
  {
    var i := FirstIndex(s, p);
    if i < |s| then Some(s[i]) else None
  }

  /** If `s[k]` is the first element satisfying `p`, `find` returns it. */
  lemma FindFirst<T>(s: seq<T>, p: T -> bool, k: nat)
    requires k <= |s|
    requires forall j :: 0 <= j < k ==> !p(s[j])
    requires k < |s| ==> p(s[k])
    ensures Find(s, p) == if k < |s| then Some(s[k]) else None
  {
  }

  /**
   * `s.filter(x => f(x) is present).map(x => f(x))`: the present results of
   * `f`, in the order of `s`.
   */
  function FilterMap<T, U>(s: seq<T>, f: T -> Option<U>): (r: seq<U>)
    ensures |r| <= |s|
  {
    if s == [] then [] else Kept(s[0], f) + FilterMap(s[1..], f)
  }

  /** What the filter-map keeps of one element. */
  function Kept<T, U>(x: T, f: T -> Option<U>): seq<U> {
    if f(x).Some? then [f(x).value] else []
  }

  /** Filtering a concatenation filters each part and keeps their order. */
  lemma {:induction false} FilterMapAppend<T, U>(a: seq<T>, b: seq<T>, f: T -> Option<U>)
    ensures FilterMap(a + b, f) == FilterMap(a, f) + FilterMap(b, f)
  {
    if a == [] {
      assert a + b == b;
    } else {
      var ab := a + b;
      assert ab[0] == a[0];
      assert ab[1..] == a[1..] + b;
      FilterMapAppend(a[1..], b, f);
      calc {
        FilterMap(ab, f);
        Kept(a[0], f) + FilterMap(a[1..] + b, f);
        Kept(a[0], f) + (FilterMap(a[1..], f) + FilterMap(b, f));
        (Kept(a[0], f) + FilterMap(a[1..], f)) + FilterMap(b, f);
      }
    }
  }

  /** A one-element sequence keeps its element exactly when `f` has a result for it. */
  lemma FilterMapSingleton<T, U>(x: T, f: T -> Option<U>)
    ensures FilterMap([x], f) == if f(x).Some? then [f(x).value] else []
  {
  }

  /** Every result comes from some element of `s`, and every present result of `f` on `s` is kept. */
  lemma {:induction false} FilterMapMembership<T, U>(s: seq<T>, f: T -> Option<U>)
    ensures forall y :: y in FilterMap(s, f) <==> exists x :: x in s && f(x) == Some(y)
  {
    if s != [] {
      FilterMapMembership(s[1..], f);
      forall y
        ensures y in FilterMap(s, f) <==> exists x :: x in s && f(x) == Some(y)
      {
        if y in FilterMap(s, f) {
          if f(s[0]) != Some(y) {
            assert y in FilterMap(s[1..], f);
            var x :| x in s[1..] && f(x) == Some(y);
            assert x in s;
          }
        } else {
          forall x | x in s
            ensures f(x) != Some(y)
          {
            if x != s[0] {
              assert x in s[1..];
            }
          }
        }
      }
    }
  }

  /** When `f` has no result for any element, nothing is kept. */
  lemma {:induction false} FilterMapNoneKept<T, U>(s: seq<T>, f: T -> Option<U>)
    requires forall x :: x in s ==> f(x).None?
    ensures FilterMap(s, f) == []
  {
    if s != [] {
      assert forall x :: x in s[1..] ==> x in s;
      FilterMapNoneKept(s[1..], f);
    }
  }

  /** When `f` has a result for every element, the output is those results position by position. */
  lemma {:induction false} FilterMapAllKept<T, U>(s: seq<T>, f: T -> Option<U>)
    requires forall x :: x in s ==> f(x).Some?
    ensures |FilterMap(s, f)| == |s|
    ensures forall k :: 0 <= k < |s| ==> FilterMap(s, f)[k] == f(s[k]).value
  {
    if s != [] {
      assert forall x :: x in s[1..] ==> x in s;
      FilterMapAllKept(s[1..], f);
      var r := FilterMap(s, f);
      assert r == [f(s[0]).value] + FilterMap(s[1..], f);
      forall k | 0 <= k < |s|
        ensures r[k] == f(s[k]).value
      {
        if k > 0 {
          assert r[k] == FilterMap(s[1..], f)[k - 1];
          assert s[1..][k - 1] == s[k];
        }
      }
    }
  }

  /** Two filter-maps in a row are one filter-map through the composed partial function. */
  lemma {:induction false} FilterMapFuse<T, U, V>(s: seq<T>, f: T -> Option<U>, g: U -> Option<V>, h: T -> Option<V>)
    requires forall x :: h(x) == if f(x).Some? then g(f(x).value) else None
    ensures FilterMap(FilterMap(s, f), g) == FilterMap(s, h)
  {
    if s != [] {
      FilterMapFuse(s[1..], f, g, h);
      FilterMapAppend(Kept(s[0], f), FilterMap(s[1..], f), g);
      if f(s[0]).Some? {
        FilterMapSingleton(f(s[0]).value, g);
      }
    }
  }
}
