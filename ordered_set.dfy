/**
  A JavaScript `Set` of ids as the application uses it: membership plus
  insertion order, which `Array.from` exposes and which therefore decides
  the order of an export. Modelled as a sequence without duplicates.
 */
module OrderedSet {
  import opened Seqs

  ghost predicate NoDuplicates<T>(s: seq<T>)
  {
    forall i, j :: 0 <= i < j < |s| ==> s[i] != s[j]
  }

  function DifferentFrom<T(==)>(x: T): T -> bool
  {
    y => y != x
  }

  /** `set.add(x)`: appends `x` unless it is already present. */
  function Add<T(==)>(s: seq<T>, x: T): seq<T>
  {
    if x in s then s else s + [x]
  }

  /** `set.delete(x)`: drops `x`, keeping the others in order. */
  function Delete<T(==)>(s: seq<T>, x: T): seq<T>
  {
    Filter(DifferentFrom(x), s)
  }

  /** `set.has(x) ? set.delete(x) : set.add(x)` */
  function Toggle<T(==)>(s: seq<T>, x: T): seq<T>
  {
    if x in s then Delete(s, x) else Add(s, x)
  }

  /** Deleting removes exactly `x`: every other element keeps its membership. */
  lemma DeleteMembership<T>(s: seq<T>, x: T, y: T)
    ensures y in Delete(s, x) <==> y in s && y != x
  {
    FilterMembership(DifferentFrom(x), s, y);
  }

  /** Deleting keeps the survivors in their relative order and keeps them distinct. */
  lemma DeletePreservesOrder<T>(s: seq<T>, x: T)
    ensures IsSubsequence(Delete(s, x), s)
    ensures NoDuplicates(s) ==> NoDuplicates(Delete(s, x))
  {
    FilterIsSubsequence(DifferentFrom(x), s);
    if NoDuplicates(s) {
      var d := Delete(s, x);
      forall y ensures multiset(d)[y] <= 1 {
        FilterCount(DifferentFrom(x), s, y);
        DistinctCount(s, y);
      }
      CountBoundDistinct(d);
    }
  }

  lemma {:induction false} DistinctCount<T>(s: seq<T>, y: T)
    requires NoDuplicates(s)
    ensures multiset(s)[y] <= 1
  {
    if s != [] {
      DistinctCount(s[1..], y);
      assert s == [s[0]] + s[1..];
      if s[0] == y {
        assert y !in s[1..];
      }
    }
  }

  lemma CountBoundDistinct<T>(s: seq<T>)
    requires forall y :: multiset(s)[y] <= 1
    ensures NoDuplicates(s)
  {
    forall i, j | 0 <= i < j < |s| ensures s[i] != s[j] {
      assert s == s[..i] + [s[i]] + s[i + 1..j] + [s[j]] + s[j + 1..];
      assert multiset(s)[s[i]] >= multiset([s[i]])[s[i]] + multiset([s[j]])[s[i]];
    }
  }

  /** Toggling flips the membership of `x` and leaves every other element's membership alone. */
  lemma ToggleMembership<T>(s: seq<T>, x: T, y: T)
    ensures y in Toggle(s, x) <==> if y == x then x !in s else y in s
  {
    DeleteMembership(s, x, y);
  }

  /** A newly added element goes last. */
  lemma ToggleAppends<T>(s: seq<T>, x: T)
    requires x !in s
    ensures Toggle(s, x) == s + [x]
  {
  }

  /** Toggling keeps the other elements, and their relative order, exactly as they were. */
  lemma ToggleKeepsOthers<T>(s: seq<T>, x: T)
    ensures Delete(Toggle(s, x), x) == Delete(s, x)
  {
    if x in s {
      var d := Delete(s, x);
      forall i | 0 <= i < |d| ensures DifferentFrom(x)(d[i]) {
        assert d[i] in d;
      }
      FilterAllKept(DifferentFrom(x), d);
    } else {
      FilterConcat(DifferentFrom(x), s, [x]);
      assert Filter(DifferentFrom(x), [x]) == [];
    }
  }

  /** Toggling keeps the sequence free of duplicates. */
  lemma TogglePreservesNoDuplicates<T>(s: seq<T>, x: T)
    requires NoDuplicates(s)
    ensures NoDuplicates(Toggle(s, x))
  {
    DeletePreservesOrder(s, x);
  }

  /** Toggling twice restores membership. */
  lemma ToggleTwiceMembership<T>(s: seq<T>, x: T, y: T)
    ensures y in Toggle(Toggle(s, x), x) <==> y in s
  {
    ToggleMembership(s, x, y);
    ToggleMembership(Toggle(s, x), x, y);
    ToggleMembership(s, x, x);
  }

  /** Toggling an absent element twice restores the sequence itself, order included. */
  lemma ToggleTwiceAbsent<T>(s: seq<T>, x: T)
    requires x !in s
    ensures Toggle(Toggle(s, x), x) == s
  {
    FilterConcat(DifferentFrom(x), s, [x]);
    FilterAllKept(DifferentFrom(x), s);
    assert Filter(DifferentFrom(x), [x]) == [];
  }

  /** Toggling a present element twice moves it to the end: membership returns, order need not. */
  lemma ToggleTwiceMovesToEnd()
    ensures Toggle(Toggle([1, 2], 1), 1) == [2, 1]
  {
    assert Delete([1, 2], 1) == [2] by {
      assert [1, 2][1..] == [2];
    }
  }
}
