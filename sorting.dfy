/** `Array.prototype.sort` with a comparator, on a copy: a stable insertion
    sort. ECMAScript requires a stable sort; for a comparator that is
    consistent on the data (a total preorder) that fixes the result, and for
    an inconsistent one it leaves the order to the engine, and this model
    takes the insertion order. */
module Sorting {

  /** Insert `x` before the first element it sorts strictly before. */
  function Insert<T>(x: T, r: seq<T>, cmp: (T, T) -> int): (out: seq<T>)
    ensures |out| == |r| + 1
  {
    if r == [] then [x]
    else if cmp(x, r[0]) < 0 then [x] + r
    else [r[0]] + Insert(x, r[1..], cmp)
  }

  /** `[...s].sort(cmp)`: elements are inserted in input order. */
  function SortBy<T>(s: seq<T>, cmp: (T, T) -> int): (r: seq<T>)
    ensures |r| == |s|
  {
    if s == [] then [] else Insert(s[|s| - 1], SortBy(s[..|s| - 1], cmp), cmp)
  }

  predicate Sorted<T>(r: seq<T>, cmp: (T, T) -> int) {
    forall i, j :: 0 <= i < j < |r| ==> cmp(r[i], r[j]) <= 0
  }

  /** `cmp` orders the elements of `dom` consistently: the sign flips when
      the arguments are swapped, and "not after" is transitive. */
  ghost predicate ConsistentOn<T(!new)>(cmp: (T, T) -> int, dom: iset<T>) {
    && (forall a, b :: a in dom && b in dom ==> (cmp(a, b) < 0 <==> cmp(b, a) > 0))
    && (forall a, b, c :: a in dom && b in dom && c in dom && cmp(a, b) <= 0 && cmp(b, c) <= 0
          ==> cmp(a, c) <= 0)
  }

  lemma {:induction false} InsertMultiset<T>(x: T, r: seq<T>, cmp: (T, T) -> int)
    ensures multiset(Insert(x, r, cmp)) == multiset(r) + multiset{x}
  {
    if r != [] && cmp(x, r[0]) >= 0 {
      InsertMultiset(x, r[1..], cmp);
      assert r == [r[0]] + r[1..];
    }
  }

  /** The sort is a permutation of its input. */
  lemma {:induction false} SortPermutes<T>(s: seq<T>, cmp: (T, T) -> int)
    ensures multiset(SortBy(s, cmp)) == multiset(s)
  {
    if s != [] {
      SortPermutes(s[..|s| - 1], cmp);
      InsertMultiset(s[|s| - 1], SortBy(s[..|s| - 1], cmp), cmp);
      assert s == s[..|s| - 1] + [s[|s| - 1]];
    }
  }

  lemma {:induction false} InsertSorted<T(!new)>(x: T, r: seq<T>, cmp: (T, T) -> int, dom: iset<T>)
    requires ConsistentOn(cmp, dom)
    requires x in dom && forall i :: 0 <= i < |r| ==> r[i] in dom
    requires Sorted(r, cmp)
    ensures Sorted(Insert(x, r, cmp), cmp)
  {
    if r == [] {
    } else if cmp(x, r[0]) < 0 {
      InsertFrontSorted(x, r, cmp, dom);
    } else {
      InsertSorted(x, r[1..], cmp, dom);
      InsertElements(x, r[1..], cmp);
      HeadBeforeInsert(x, r, cmp, dom);
    }
  }

  lemma InsertFrontSorted<T(!new)>(x: T, r: seq<T>, cmp: (T, T) -> int, dom: iset<T>)
    requires ConsistentOn(cmp, dom)
    requires x in dom && forall i :: 0 <= i < |r| ==> r[i] in dom
    requires Sorted(r, cmp) && r != [] && cmp(x, r[0]) < 0
    ensures Sorted([x] + r, cmp)
  {
    var out := [x] + r;
    forall j | 0 < j < |out| ensures cmp(x, out[j]) <= 0 {
      assert out[j] == r[j - 1];
      if j > 1 { assert cmp(r[0], r[j - 1]) <= 0; }
    }
  }

  lemma HeadBeforeInsert<T(!new)>(x: T, r: seq<T>, cmp: (T, T) -> int, dom: iset<T>)
    requires ConsistentOn(cmp, dom)
    requires x in dom && forall i :: 0 <= i < |r| ==> r[i] in dom
    requires Sorted(r, cmp) && r != [] && cmp(x, r[0]) >= 0
    requires forall y :: y in Insert(x, r[1..], cmp) <==> y == x || y in r[1..]
    requires Sorted(Insert(x, r[1..], cmp), cmp)
    ensures Sorted([r[0]] + Insert(x, r[1..], cmp), cmp)
  {
    var tail := Insert(x, r[1..], cmp);
    var out := [r[0]] + tail;
    forall j | 0 < j < |out| ensures cmp(r[0], out[j]) <= 0 {
      var y := tail[j - 1];
      assert y in tail;
      if y != x {
        var k :| 0 <= k < |r[1..]| && r[1..][k] == y;
        assert r[k + 1] == y;
      }
    }
    forall i, j | 0 <= i < j < |out| ensures cmp(out[i], out[j]) <= 0 {
      if i > 0 {
        assert out[i] == tail[i - 1] && out[j] == tail[j - 1];
      }
    }
  }

  lemma {:induction false} InsertElements<T>(x: T, r: seq<T>, cmp: (T, T) -> int)
    ensures forall y :: y in Insert(x, r, cmp) <==> y == x || y in r
  {
    if r != [] && cmp(x, r[0]) >= 0 {
      InsertElements(x, r[1..], cmp);
      assert r == [r[0]] + r[1..];
    }
  }

  /** Sorting by a comparator that is consistent on the data yields a sorted list. */
  lemma {:induction false} SortSorts<T(!new)>(s: seq<T>, cmp: (T, T) -> int, dom: iset<T>)
    requires ConsistentOn(cmp, dom)
    requires forall i :: 0 <= i < |s| ==> s[i] in dom
    ensures Sorted(SortBy(s, cmp), cmp)
  {
    if s != [] {
      SortSorts(s[..|s| - 1], cmp, dom);
      SortPermutes(s[..|s| - 1], cmp);
      SortedInDom(s[..|s| - 1], cmp, dom);
      InsertSorted(s[|s| - 1], SortBy(s[..|s| - 1], cmp), cmp, dom);
    }
  }

  lemma SortedInDom<T(!new)>(s: seq<T>, cmp: (T, T) -> int, dom: iset<T>)
    requires forall i :: 0 <= i < |s| ==> s[i] in dom
    requires multiset(SortBy(s, cmp)) == multiset(s)
    ensures forall i :: 0 <= i < |s| ==> SortBy(s, cmp)[i] in dom
  {
    var r := SortBy(s, cmp);
    forall i | 0 <= i < |s| ensures r[i] in dom {
      assert r[i] in multiset(r);
      var k :| 0 <= k < |s| && s[k] == r[i];
    }
  }

  /** An element that sorts before nothing goes to the end. */
  lemma {:induction false} InsertLast<T>(x: T, r: seq<T>, cmp: (T, T) -> int)
    requires forall i :: 0 <= i < |r| ==> cmp(x, r[i]) >= 0
    ensures Insert(x, r, cmp) == r + [x]
  {
    if r != [] {
      InsertLast(x, r[1..], cmp);
      assert r == [r[0]] + r[1..];
    }
  }

  /** A suffix whose first element `x` sorts strictly before is left in place. */
  lemma {:induction false} InsertBeforeSuffix<T>(x: T, a: seq<T>, b: seq<T>, cmp: (T, T) -> int)
    requires b == [] || cmp(x, b[0]) < 0
    ensures Insert(x, a + b, cmp) == Insert(x, a, cmp) + b
  {
    if a == [] {
      assert a + b == b;
    } else {
      assert (a + b)[0] == a[0] && (a + b)[1..] == a[1..] + b;
      InsertBeforeSuffix(x, a[1..], b, cmp);
    }
  }
}
