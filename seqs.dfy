/** `Array.prototype.filter`, with a predicate that cannot throw (`Filter`)
    and one that can (`TryFilter`), and the subsequence relation that every
    filter result stands in to its input. */
module Seqs {
  import opened JsValues

  /** `s.filter(p)` */
  function Filter<T>(s: seq<T>, p: T -> bool): (r: seq<T>)
    ensures |r| <= |s|
    ensures forall i :: 0 <= i < |r| ==> r[i] in s && p(r[i])
    ensures forall i :: 0 <= i < |s| && p(s[i]) ==> s[i] in r
  {
    if s == [] then [] else (if p(s[0]) then [s[0]] else []) + Filter(s[1..], p)
  }

  /** `a` is obtained from `b` by deleting elements; order is kept. */
  ghost predicate Subseq<T>(a: seq<T>, b: seq<T>)
    decreases |b|
  {
    if b == [] then a == []
    else (a != [] && a[0] == b[0] && Subseq(a[1..], b[1..])) || Subseq(a, b[1..])
  }

  lemma {:induction false} FilterIsSubseq<T>(s: seq<T>, p: T -> bool)
    ensures Subseq(Filter(s, p), s)
  {
    if s != [] {
      FilterIsSubseq(s[1..], p);
      var r := Filter(s, p);
      if p(s[0]) {
        assert r[0] == s[0] && r[1..] == Filter(s[1..], p);
      } else {
        assert r == Filter(s[1..], p);
      }
    }
  }

  lemma {:induction false} FilterIdempotent<T>(s: seq<T>, p: T -> bool)
    ensures Filter(Filter(s, p), p) == Filter(s, p)
  {
    if s != [] {
      FilterIdempotent(s[1..], p);
      var r := Filter(s, p);
      if p(s[0]) {
        assert r[0] == s[0] && r[1..] == Filter(s[1..], p);
        assert Filter(r, p) == [r[0]] + Filter(r[1..], p);
      } else {
        assert r == Filter(s[1..], p);
      }
    }
  }

  lemma {:induction false} FilterKeepsAll<T>(s: seq<T>, p: T -> bool)
    requires forall i :: 0 <= i < |s| ==> p(s[i])
    ensures Filter(s, p) == s
  {
    if s != [] {
      FilterKeepsAll(s[1..], p);
      assert [s[0]] + s[1..] == s;
    }
  }

  lemma {:induction false} FilterAppend<T>(a: seq<T>, b: seq<T>, p: T -> bool)
    ensures Filter(a + b, p) == Filter(a, p) + Filter(b, p)
  {
    if a != [] {
      assert (a + b)[0] == a[0] && (a + b)[1..] == a[1..] + b;
      FilterAppend(a[1..], b, p);
    } else {
      assert a + b == b;
    }
  }

  /** The filter keeps every copy of a value it keeps, so duplicates survive
      with their multiplicity, and drops every copy of a value it drops. */
  lemma {:induction false} FilterCounts<T>(s: seq<T>, p: T -> bool)
    ensures forall x :: multiset(Filter(s, p))[x] == if p(x) then multiset(s)[x] else 0
  {
    if s != [] {
      FilterCounts(s[1..], p);
      assert s == [s[0]] + s[1..];
      assert Filter(s, p) == (if p(s[0]) then [s[0]] else []) + Filter(s[1..], p);
    }
  }

  /** `p` evaluated to `true` without throwing. */
  function HoldsOk<T>(p: T -> Result<bool>): T -> bool {
    x => p(x) == Done(true)
  }

  /** `s.filter(p)` where `p` may throw: the first throw aborts the filter. */
  function TryFilter<T>(s: seq<T>, p: T -> Result<bool>): (r: Result<seq<T>>)
    ensures r.Done? <==> forall i :: 0 <= i < |s| ==> p(s[i]).Done?
    ensures r.Done? ==> r.value == Filter(s, HoldsOk(p))
  {
    if s == [] then Done([])
    else match p(s[0])
      case Thrown => Thrown
      case Done(keep) =>
        match TryFilter(s[1..], p)
        case Thrown => Thrown
        case Done(rest) => Done((if keep then [s[0]] else []) + rest)
  }

  /** When no call of `p` throws, `TryFilter` keeps, in order and with their
      multiplicity, exactly the elements `p` accepts. */
  lemma TryFilterKeeps<T>(s: seq<T>, p: T -> Result<bool>)
    ensures TryFilter(s, p).Done? ==>
      var kept := TryFilter(s, p).value;
      && Subseq(kept, s)
      && (forall i :: 0 <= i < |kept| ==> p(kept[i]) == Done(true))
      && (forall i :: 0 <= i < |s| && p(s[i]) == Done(true) ==> s[i] in kept)
      && (forall x :: multiset(kept)[x] == if p(x) == Done(true) then multiset(s)[x] else 0)
  {
    FilterIsSubseq(s, HoldsOk(p));
    FilterCounts(s, HoldsOk(p));
  }
}
