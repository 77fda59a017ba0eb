/** Three-way comparison and its lexicographic extension to sequences. */
module Lexicographic {

  /** cmp is a total order whose zero is equality. */
  ghost predicate IsOrder<T(!new)>(cmp: (T, T) -> int) {
    && (forall x, y :: cmp(x, y) in {-1, 0, 1})
    && (forall x, y :: cmp(x, y) == -cmp(y, x))
    && (forall x, y :: cmp(x, y) == 0 <==> x == y)
    && (forall x, y, z :: cmp(x, y) < 0 && cmp(y, z) < 0 ==> cmp(x, z) < 0)
  }

  /** The first difference decides; a proper prefix comes first. */
  function Compare<T>(cmp: (T, T) -> int, a: seq<T>, b: seq<T>): int {
    if a == [] then (if b == [] then 0 else -1)
    else if b == [] then 1
    else if cmp(a[0], b[0]) != 0 then cmp(a[0], b[0])
    else Compare(cmp, a[1..], b[1..])
  }

  lemma {:induction false} CompareAntisymmetric<T(!new)>(cmp: (T, T) -> int, a: seq<T>, b: seq<T>)
    requires IsOrder(cmp)
    ensures Compare(cmp, a, b) in {-1, 0, 1}
    ensures Compare(cmp, a, b) == -Compare(cmp, b, a)
    ensures Compare(cmp, a, b) == 0 <==> a == b
  {
    if a != [] && b != [] {
      CompareAntisymmetric(cmp, a[1..], b[1..]);
      assert a == [a[0]] + a[1..] && b == [b[0]] + b[1..];
    }
  }

  lemma {:induction false} CompareTransitive<T(!new)>(cmp: (T, T) -> int, a: seq<T>, b: seq<T>, c: seq<T>)
    requires IsOrder(cmp)
    requires Compare(cmp, a, b) < 0 && Compare(cmp, b, c) < 0
    ensures Compare(cmp, a, c) < 0
  {
    if a != [] && b != [] && c != [] {
      if cmp(a[0], b[0]) == 0 && cmp(b[0], c[0]) == 0 {
        CompareTransitive(cmp, a[1..], b[1..], c[1..]);
      }
    }
  }

  /** a comes before b: they agree up to some place, where a ends or has the smaller element. */
  ghost predicate Before<T(!new)>(less: (T, T) -> bool, a: seq<T>, b: seq<T>) {
    exists i :: DiffersAt(less, a, b, i)
  }

  predicate DiffersAt<T(==)>(less: (T, T) -> bool, a: seq<T>, b: seq<T>, i: int) {
    && 0 <= i <= |a| && i < |b| && a[..i] == b[..i]
    && (i < |a| ==> less(a[i], b[i]))
  }

  lemma {:induction false} DiffersLater<T(!new)>(less: (T, T) -> bool, a: seq<T>, b: seq<T>, i: nat)
    requires a != [] && b != []
    ensures DiffersAt(less, a, b, i + 1) <==> a[0] == b[0] && DiffersAt(less, a[1..], b[1..], i)
  {
    if i + 1 <= |a| && i + 1 < |b| {
      assert a[..i + 1] == [a[0]] + a[1..][..i] && b[..i + 1] == [b[0]] + b[1..][..i];
      assert a[..i + 1] == b[..i + 1] <==> a[0] == b[0] && a[1..][..i] == b[1..][..i] by {
        assert a[..i + 1][0] == a[0] && b[..i + 1][0] == b[0];
        assert a[..i + 1][1..] == a[1..][..i] && b[..i + 1][1..] == b[1..][..i];
      }
    }
  }

  lemma {:induction false} BeforeUnfolds<T(!new)>(less: (T, T) -> bool, a: seq<T>, b: seq<T>)
    requires a != [] && b != []
    ensures Before(less, a, b) <==> less(a[0], b[0]) || (a[0] == b[0] && Before(less, a[1..], b[1..]))
  {
    if less(a[0], b[0]) {
      assert DiffersAt(less, a, b, 0);
    }
    if a[0] == b[0] && Before(less, a[1..], b[1..]) {
      var i :| DiffersAt(less, a[1..], b[1..], i);
      DiffersLater(less, a, b, i);
    }
    if Before(less, a, b) {
      var i :| DiffersAt(less, a, b, i);
      if i > 0 {
        DiffersLater(less, a, b, i - 1);
      }
    }
  }

  /** The comparison is negative exactly when the first sequence comes before the second. */
  lemma {:induction false} CompareMeansBefore<T(!new)>(cmp: (T, T) -> int, less: (T, T) -> bool, a: seq<T>, b: seq<T>)
    requires IsOrder(cmp)
    requires forall k, l :: 0 <= k < |a| && 0 <= l < |b| ==> (less(a[k], b[l]) <==> cmp(a[k], b[l]) < 0)
    ensures Compare(cmp, a, b) < 0 <==> Before(less, a, b)
  {
    if a == [] {
      if b != [] {
        assert DiffersAt(less, a, b, 0);
      }
    } else if b != [] {
      CompareMeansBefore(cmp, less, a[1..], b[1..]);
      BeforeUnfolds(less, a, b);
    }
  }

  /** For sequences of one length, the last element decides when everything before it is equal. */
  lemma {:induction false} CompareSnoc<T>(cmp: (T, T) -> int, a: seq<T>, b: seq<T>, x: T, y: T)
    requires |a| == |b| && cmp.requires(x, y)
    ensures Compare(cmp, a + [x], b + [y]) ==
            if Compare(cmp, a, b) != 0 then Compare(cmp, a, b) else cmp(x, y)
  {
    if a == [] {
      assert (a + [x])[1..] == [] && (b + [y])[1..] == [];
    } else {
      CompareSnoc(cmp, a[1..], b[1..], x, y);
      assert (a + [x])[1..] == a[1..] + [x] && (b + [y])[1..] == b[1..] + [y];
    }
  }
}
