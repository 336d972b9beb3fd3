/** Sequences read as sets in a strict order: what `ORDER BY` does to the rows of a table. */
module OrderedSeqs {
  /** `lt` is a strict total order on the elements of `s`. */
  ghost predicate TotalOn<T>(lt: (T, T) -> bool, s: seq<T>) {
    && (forall x | x in s :: !lt(x, x))
    && (forall x, y | x in s && y in s :: x != y ==> lt(x, y) || lt(y, x))
    && (forall x, y, z | x in s && y in s && z in s :: lt(x, y) && lt(y, z) ==> lt(x, z))
  }

  ghost predicate Ascending<T>(lt: (T, T) -> bool, q: seq<T>) {
    forall i, j | 0 <= i < j < |q| :: lt(q[i], q[j])
  }

  ghost predicate Distinct<T>(s: seq<T>) {
    forall i, j | 0 <= i < j < |s| :: s[i] != s[j]
  }

  ghost predicate SameElements<T(!new)>(p: seq<T>, q: seq<T>) {
    forall x :: x in p <==> x in q
  }

  function Insert<T>(lt: (T, T) -> bool, x: T, q: seq<T>): (r: seq<T>)
    ensures |r| == |q| + 1
  {
    if q == [] then [x]
    else if lt(x, q[0]) then [x] + q
    else [q[0]] + Insert(lt, x, q[1..])
  }

  /** The rows in the order `lt`, as a database returns them. */
  function Sort<T>(lt: (T, T) -> bool, s: seq<T>): (r: seq<T>)
    ensures |r| == |s|
  {
    if s == [] then [] else Insert(lt, s[0], Sort(lt, s[1..]))
  }

  lemma {:induction false} InsertElements<T(!new)>(lt: (T, T) -> bool, x: T, q: seq<T>)
    ensures forall y :: y in Insert(lt, x, q) <==> y == x || y in q
  {
    if q != [] && !lt(x, q[0]) {
      InsertElements(lt, x, q[1..]);
      assert forall y :: y in q <==> y == q[0] || y in q[1..];
    }
  }

  lemma {:induction false} SortElements<T(!new)>(lt: (T, T) -> bool, s: seq<T>)
    ensures SameElements(Sort(lt, s), s)
  {
    if s != [] {
      SortElements(lt, s[1..]);
      InsertElements(lt, s[0], Sort(lt, s[1..]));
      assert forall y :: y in s <==> y == s[0] || y in s[1..];
    }
  }

  lemma {:induction false} InsertAscends<T(!new)>(lt: (T, T) -> bool, all: seq<T>, x: T, q: seq<T>)
    requires TotalOn(lt, all) && x in all && (forall y | y in q :: y in all)
    requires Ascending(lt, q) && x !in q
    ensures Ascending(lt, Insert(lt, x, q))
  {
    if q == [] {
    } else if lt(x, q[0]) {
      forall j | 0 <= j < |q| ensures lt(x, q[j]) {
        assert q[j] in all && q[0] in all;
        assert j == 0 || lt(q[0], q[j]);
      }
    } else {
      assert q[0] in all && lt(q[0], x);
      InsertAscends(lt, all, x, q[1..]);
      InsertElements(lt, x, q[1..]);
      var r := Insert(lt, x, q[1..]);
      forall j | 0 <= j < |r| ensures lt(q[0], r[j]) {
        assert r[j] in r;
        if r[j] in q[1..] {
          var k :| 0 <= k < |q[1..]| && q[1..][k] == r[j];
          assert lt(q[0], q[k + 1]);
        }
      }
    }
  }

  lemma {:induction false} SortAscends<T(!new)>(lt: (T, T) -> bool, s: seq<T>)
    requires TotalOn(lt, s) && Distinct(s)
    ensures Ascending(lt, Sort(lt, s))
  {
    SortAscendsWithin(lt, s, s);
  }

  lemma {:induction false} SortAscendsWithin<T(!new)>(lt: (T, T) -> bool, all: seq<T>, s: seq<T>)
    requires TotalOn(lt, all) && (forall y | y in s :: y in all) && Distinct(s)
    ensures Ascending(lt, Sort(lt, s))
  {
    if s != [] {
      SortAscendsWithin(lt, all, s[1..]);
      SortElements(lt, s[1..]);
      assert s[0] !in s[1..];
      InsertAscends(lt, all, s[0], Sort(lt, s[1..]));
    }
  }

  lemma HeadIn<T>(q: seq<T>)
    ensures q == [] || q[0] in q
  {
  }

  lemma AscendingAt<T>(lt: (T, T) -> bool, q: seq<T>, i: nat, j: nat)
    requires Ascending(lt, q) && i <= j < |q|
    ensures i == j || lt(q[i], q[j])
  {
  }

  /** What comes strictly after the i-th element has a greater index. */
  lemma NotBelow<T>(lt: (T, T) -> bool, q: seq<T>, i: int, k: nat)
    requires Ascending(lt, q) && i < |q| && k < |q|
    requires forall x, y | x in q && y in q :: !(lt(x, y) && lt(y, x))
    requires i >= 0 ==> lt(q[i], q[k])
    ensures i < k
  {
    if i >= 0 {
      assert q[i] in q && q[k] in q;
    }
  }

  /** An ascending sequence is determined by its elements. */
  lemma {:induction false} AscendingUnique<T(!new)>(lt: (T, T) -> bool, p: seq<T>, q: seq<T>)
    requires Ascending(lt, p) && Ascending(lt, q) && SameElements(p, q)
    requires forall x, y | x in p && y in p :: !(lt(x, y) && lt(y, x))
    ensures p == q
  {
    if p == [] {
      HeadIn(q);
    } else {
      assert p[0] in p && p[0] in q;
      assert q[0] in q && q[0] in p;
      var i :| 0 <= i < |q| && q[i] == p[0];
      var j :| 0 <= j < |p| && p[j] == q[0];
      AscendingAt(lt, q, 0, i);
      AscendingAt(lt, p, 0, j);
      assert p[0] == q[0];
      TailElements(lt, p);
      TailElements(lt, q);
      AscendingUnique(lt, p[1..], q[1..]);
      assert p == [p[0]] + p[1..] && q == [q[0]] + q[1..];
    }
  }

  lemma TailElements<T(!new)>(lt: (T, T) -> bool, p: seq<T>)
    requires p != [] && Ascending(lt, p)
    requires forall x, y | x in p && y in p :: !(lt(x, y) && lt(y, x))
    ensures forall x :: x in p[1..] <==> x in p && x != p[0]
  {
    forall x | x in p[1..] ensures x in p && x != p[0] {
      var k :| 0 <= k < |p[1..]| && p[1..][k] == x;
      assert p[k + 1] == x && lt(p[0], p[k + 1]);
    }
  }

  function Reverse<T>(s: seq<T>): (r: seq<T>)
    ensures |r| == |s|
    ensures forall i | 0 <= i < |s| :: r[i] == s[|s| - 1 - i]
  {
    if s == [] then [] else Reverse(s[1..]) + [s[0]]
  }

  /** Swaps the elements of an array end for end. */
  method ReverseInPlace<T>(items: array<T>)
    modifies items
    ensures items[..] == Reverse(old(items[..]))
  {
    var n, i := items.Length, 0;
    while i < n / 2
      invariant 0 <= i <= n / 2
      invariant forall k | 0 <= k < i || n - i <= k < n :: items[k] == old(items[n - 1 - k])
      invariant forall k | i <= k < n - i :: items[k] == old(items[k])
    {
      items[i], items[n - 1 - i] := items[n - 1 - i], items[i];
      i := i + 1;
    }
    assert items[..] == Reverse(old(items[..]));
  }

  lemma ReverseJoined<T>(a: seq<T>, b: seq<T>)
    ensures Reverse(a + b) == Reverse(b) + Reverse(a)
  {
  }

  lemma ReverseElements<T(!new)>(s: seq<T>)
    ensures SameElements(Reverse(s), s)
  {
    forall x ensures x in Reverse(s) <==> x in s {
      if x in s {
        var i :| 0 <= i < |s| && s[i] == x;
        assert Reverse(s)[|s| - 1 - i] == x;
      }
    }
  }

  /** Sorting by the mirrored order is sorting and reversing. */
  lemma SortMirrored<T(!new)>(lt: (T, T) -> bool, gt: (T, T) -> bool, s: seq<T>)
    requires TotalOn(lt, s) && Distinct(s)
    requires forall x, y | x in s && y in s :: gt(x, y) <==> lt(y, x)
    ensures Sort(gt, s) == Reverse(Sort(lt, s)) && TotalOn(gt, s)
  {
    assert TotalOn(gt, s);
    SortAscends(lt, s);
    SortAscends(gt, s);
    SortElements(lt, s);
    SortElements(gt, s);
    var up, down := Sort(lt, s), Sort(gt, s);
    ReverseElements(up);
    forall i, j | 0 <= i < j < |up| ensures gt(Reverse(up)[i], Reverse(up)[j]) {
      assert lt(up[|up| - 1 - j], up[|up| - 1 - i]);
      assert up[|up| - 1 - j] in up && up[|up| - 1 - i] in up;
    }
    AscendingUnique(gt, down, Reverse(up));
  }

  function Filter<T>(keep: T -> bool, s: seq<T>): (r: seq<T>)
    ensures |r| <= |s|
  {
    if s == [] then []
    else if keep(s[0]) then [s[0]] + Filter(keep, s[1..])
    else Filter(keep, s[1..])
  }

  lemma {:induction false} FilterElements<T(!new)>(keep: T -> bool, s: seq<T>)
    ensures forall y :: y in Filter(keep, s) <==> y in s && keep(y)
  {
    if s != [] {
      FilterElements(keep, s[1..]);
      assert forall y :: y in s <==> y == s[0] || y in s[1..];
    }
  }

  lemma {:induction false} FilterDistinct<T(!new)>(keep: T -> bool, s: seq<T>)
    requires Distinct(s)
    ensures Distinct(Filter(keep, s))
  {
    if s != [] {
      FilterDistinct(keep, s[1..]);
      FilterElements(keep, s[1..]);
      var rest := Filter(keep, s[1..]);
      assert s[0] !in s[1..];
      assert s[0] !in rest;
    }
  }

  /** Filtering an ordered result by "after its i-th element" leaves the rest of it. */
  lemma SortAfter<T(!new)>(lt: (T, T) -> bool, keep: T -> bool, s: seq<T>, i: int)
    requires TotalOn(lt, s) && Distinct(s) && -1 <= i < |s|
    requires forall x | x in s :: keep(x) <==> (i >= 0 ==> lt(Sort(lt, s)[i], x))
    ensures Sort(lt, Filter(keep, s)) == Sort(lt, s)[i + 1..]
  {
    var all, rest := Sort(lt, s), Filter(keep, s);
    SortAscends(lt, s);
    FilterDistinct(keep, s);
    FilterElements(keep, s);
    SortAscends(lt, rest);
    SortElements(lt, s);
    SortElements(lt, rest);
    var tail := all[i + 1..];
    forall x ensures x in Sort(lt, rest) <==> x in tail {
      if x in tail {
        var k :| 0 <= k < |tail| && tail[k] == x;
        assert all[k + i + 1] == x && x in all;
        if i >= 0 { assert lt(all[i], all[k + i + 1]); }
      }
      if x in rest {
        var k :| 0 <= k < |all| && all[k] == x;
        NotBelow(lt, all, i, k);
        assert tail[k - i - 1] == x;
      }
    }
    AscendingUnique(lt, Sort(lt, rest), tail);
  }

  /** Filtering by "before its i-th element" and sorting by the mirrored order walks back from there. */
  lemma SortBefore<T(!new)>(lt: (T, T) -> bool, gt: (T, T) -> bool, keep: T -> bool, s: seq<T>, i: nat)
    requires TotalOn(lt, s) && Distinct(s) && i < |s|
    requires forall x, y :: gt(x, y) <==> lt(y, x)
    requires forall x | x in s :: keep(x) <==> lt(x, Sort(lt, s)[i])
    ensures Sort(gt, Filter(keep, s)) == Reverse(Sort(lt, s))[|s| - i..]
  {
    hide Sort, Filter;
    SortMirrored(lt, gt, s);
    assert Sort(gt, s)[|s| - 1 - i] == Sort(lt, s)[i];
    SortAfter(gt, keep, s, |s| - 1 - i);
  }

  /** A list collected forwards, given backwards. */
  method Reversed<T>(elements: seq<T>) returns (r: seq<T>)
    ensures r == Reverse(elements)
  {
    var a := new T[|elements|](i requires 0 <= i < |elements| => elements[i]);
    assert a[..] == elements;
    ReverseInPlace(a);
    r := a[..];
  }
}
