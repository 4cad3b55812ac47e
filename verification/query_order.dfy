/** The query order is a strict total order, and the sorted copy is the only sorted permutation. */
module QueryOrder {
  import opened ObjectTypes
  import opened Queries
  import opened ObjectRuns

  // ---- The comparator ----

  lemma {:induction false} StringLessIrreflexive(a: string)
    ensures !StringLess(a, a)
  {
    if a != [] {
      StringLessIrreflexive(a[1..]);
    }
  }

  lemma {:induction false} StringLessTransitive(a: string, b: string, c: string)
    requires StringLess(a, b) && StringLess(b, c)
    ensures StringLess(a, c)
  {
    if a != [] && a[0] == b[0] == c[0] {
      StringLessTransitive(a[1..], b[1..], c[1..]);
    }
  }

  lemma {:induction false} StringLessTotal(a: string, b: string)
    ensures StringLess(a, b) || a == b || StringLess(b, a)
  {
    if a != [] && b != [] && a[0] == b[0] {
      StringLessTotal(a[1..], b[1..]);
      assert a == [a[0]] + a[1..] && b == [b[0]] + b[1..];
    }
  }

  lemma CompareStringsLaws(a: string, b: string, c: string)
    ensures CompareStrings(a, b) == 0 <==> a == b
    ensures CompareStrings(a, b) < 0 <==> StringLess(a, b)
    ensures CompareStrings(a, b) > 0 <==> StringLess(b, a)
    ensures StringLess(a, b) && StringLess(b, c) ==> StringLess(a, c)
  {
    hide StringLess;
    StringLessIrreflexive(a);
    StringLessTotal(a, b);
    if StringLess(a, b) && StringLess(b, a) {
      StringLessTransitive(a, b, a);
    }
    if StringLess(a, b) && StringLess(b, c) {
      StringLessTransitive(a, b, c);
    }
  }

  /** The comparator is antisymmetric, and zero only between objects with one id. */
  lemma ComparatorTotal(sort: Sort, a: RoomObject, b: RoomObject)
    ensures CompareObjects(sort, a, b) < 0 <==> CompareObjects(sort, b, a) > 0
    ensures CompareObjects(sort, a, b) == 0 ==> a.objectId == b.objectId
  {
    CompareStringsLaws(a.createdAtLocal, b.createdAtLocal, a.createdAtLocal);
    CompareStringsLaws(b.createdAtLocal, a.createdAtLocal, b.createdAtLocal);
    CompareStringsLaws(a.updatedAtLocal, b.updatedAtLocal, a.updatedAtLocal);
    CompareStringsLaws(b.updatedAtLocal, a.updatedAtLocal, b.updatedAtLocal);
    CompareStringsLaws(a.objectId, b.objectId, a.objectId);
    CompareStringsLaws(b.objectId, a.objectId, b.objectId);
    hide CompareStrings;
  }

  lemma BeforeTransitive(sort: Sort, a: RoomObject, b: RoomObject, c: RoomObject)
    requires Before(sort, a, b) && Before(sort, b, c)
    ensures Before(sort, a, c)
  {
    TransitiveKeys(a.createdAtLocal, b.createdAtLocal, c.createdAtLocal);
    TransitiveKeys(c.updatedAtLocal, b.updatedAtLocal, a.updatedAtLocal);
    TransitiveKeys(a.objectId, b.objectId, c.objectId);
    hide CompareStrings;
  }

  lemma TransitiveKeys(a: string, b: string, c: string)
    ensures CompareStrings(a, b) <= 0 && CompareStrings(b, c) <= 0 ==> CompareStrings(a, c) <= 0
    ensures CompareStrings(a, b) < 0 && CompareStrings(b, c) <= 0 ==> CompareStrings(a, c) < 0
    ensures CompareStrings(a, b) <= 0 && CompareStrings(b, c) < 0 ==> CompareStrings(a, c) < 0
  {
    CompareStringsLaws(a, b, c);
    CompareStringsLaws(b, c, a);
    CompareStringsLaws(a, c, b);
    hide CompareStrings, StringLess;
  }

  // ---- Sorting ----

  ghost predicate InOrder(sort: Sort, xs: seq<RoomObject>) {
    forall i, j :: 0 <= i < j < |xs| ==> Before(sort, xs[i], xs[j])
  }

  lemma {:induction false} InsertPermutes(sort: Sort, o: RoomObject, xs: seq<RoomObject>)
    ensures multiset(Insert(sort, o, xs)) == multiset(xs) + multiset{o}
  {
    if xs != [] && Before(sort, xs[0], o) {
      InsertPermutes(sort, o, xs[1..]);
      assert xs == [xs[0]] + xs[1..];
    }
  }

  lemma LastAdded(xs: seq<RoomObject>)
    requires xs != []
    ensures multiset(xs) == multiset(xs[..|xs| - 1]) + multiset{xs[|xs| - 1]}
  {
    assert xs == xs[..|xs| - 1] + [xs[|xs| - 1]];
  }

  lemma {:induction false} SortedPermutes(sort: Sort, xs: seq<RoomObject>)
    ensures multiset(Sorted(sort, xs)) == multiset(xs)
  {
    if xs != [] {
      hide Insert;
      var n := |xs| - 1;
      SortedPermutes(sort, xs[..n]);
      InsertPermutes(sort, xs[n], Sorted(sort, xs[..n]));
      LastAdded(xs);
    }
  }

  /** An object with a new id goes to the only place where the order allows it. */
  lemma {:induction false} InsertInOrder(sort: Sort, o: RoomObject, xs: seq<RoomObject>)
    requires InOrder(sort, xs) && forall x <- xs :: x.objectId != o.objectId
    ensures InOrder(sort, Insert(sort, o, xs))
  {
    hide Before;
    if xs == [] {
    } else if Before(sort, xs[0], o) {
      InsertInOrder(sort, o, xs[1..]);
      InsertedElements(sort, o, xs[1..]);
      FirstBefore(sort, xs[0], Insert(sort, o, xs[1..]));
    } else {
      EitherBefore(sort, o, xs[0]);
      forall k | 0 <= k < |xs| ensures Before(sort, o, xs[k]) {
        if k > 0 {
          BeforeTransitive(sort, o, xs[0], xs[k]);
        }
      }
      FirstBefore(sort, o, xs);
    }
  }

  lemma FirstBefore(sort: Sort, first: RoomObject, rest: seq<RoomObject>)
    requires InOrder(sort, rest) && forall x <- rest :: Before(sort, first, x)
    ensures InOrder(sort, [first] + rest)
  {
    hide Before;
  }

  lemma InsertedElements(sort: Sort, o: RoomObject, xs: seq<RoomObject>)
    ensures forall x :: x in Insert(sort, o, xs) <==> x == o || x in xs
  {
    InsertPermutes(sort, o, xs);
    forall x ensures x in Insert(sort, o, xs) <==> x == o || x in xs {
      assert x in Insert(sort, o, xs) <==> x in multiset(Insert(sort, o, xs));
      assert x in xs <==> x in multiset(xs);
    }
  }

  lemma {:induction false} InsertUnique(sort: Sort, o: RoomObject, xs: seq<RoomObject>)
    requires UniqueIds(xs) && forall x <- xs :: x.objectId != o.objectId
    ensures UniqueIds(Insert(sort, o, xs))
  {
    hide Before;
    if xs != [] && Before(sort, xs[0], o) {
      var rest := Insert(sort, o, xs[1..]);
      InsertUnique(sort, o, xs[1..]);
      InsertedElements(sort, o, xs[1..]);
      forall k | 0 <= k < |rest| ensures xs[0].objectId != rest[k].objectId {
        assert rest[k] in rest;
      }
    }
  }

  lemma EitherBefore(sort: Sort, a: RoomObject, b: RoomObject)
    requires a.objectId != b.objectId && !Before(sort, b, a)
    ensures Before(sort, a, b)
  {
    ComparatorTotal(sort, a, b);
    ComparatorTotal(sort, b, a);
    hide CompareObjects;
  }

  /** With unique ids the sorted copy is strictly in order, whatever the sort. */
  lemma {:induction false} SortedInOrder(sort: Sort, xs: seq<RoomObject>)
    requires UniqueIds(xs)
    ensures InOrder(sort, Sorted(sort, xs)) && UniqueIds(Sorted(sort, xs))
  {
    if xs != [] {
      var n := |xs| - 1;
      var before := Sorted(sort, xs[..n]);
      SortedInOrder(sort, xs[..n]);
      SortedPermutes(sort, xs[..n]);
      forall x | x in before ensures x.objectId != xs[n].objectId {
        assert x in multiset(before);
        assert x in xs[..n];
      }
      hide Insert, InOrder, UniqueIds;
      InsertInOrder(sort, xs[n], before);
      InsertUnique(sort, xs[n], before);
    }
  }

  /** There is only one permutation in order. */
  lemma {:induction false} InOrderIsUnique(sort: Sort, xs: seq<RoomObject>, ys: seq<RoomObject>)
    requires InOrder(sort, xs) && InOrder(sort, ys) && multiset(xs) == multiset(ys)
    ensures xs == ys
  {
    assert |xs| == |multiset(xs)| == |multiset(ys)| == |ys|;
    if xs != [] {
      hide Before;
      SameFirst(sort, xs, ys);
      assert InOrder(sort, xs[1..]) && InOrder(sort, ys[1..]);
      hide InOrder;
      FirstRemoved(xs);
      FirstRemoved(ys);
      InOrderIsUnique(sort, xs[1..], ys[1..]);
    }
  }

  lemma FirstRemoved(xs: seq<RoomObject>)
    requires xs != []
    ensures xs == [xs[0]] + xs[1..] && multiset(xs[1..]) == multiset(xs) - multiset{xs[0]}
  {
    assert xs == [xs[0]] + xs[1..];
  }

  lemma SameFirst(sort: Sort, xs: seq<RoomObject>, ys: seq<RoomObject>)
    requires xs != [] && ys != [] && InOrder(sort, xs) && InOrder(sort, ys) && multiset(xs) == multiset(ys)
    ensures xs[0] == ys[0]
  {
    hide Before;
    if xs[0] != ys[0] {
      assert xs[0] in multiset(ys) && ys[0] in multiset(xs);
      assert xs[0] in ys && ys[0] in xs;
      assert Before(sort, ys[0], xs[0]) && Before(sort, xs[0], ys[0]);
      NotBothBefore(sort, xs[0], ys[0]);
    }
  }

  lemma NotBothBefore(sort: Sort, a: RoomObject, b: RoomObject)
    ensures !(Before(sort, a, b) && Before(sort, b, a))
  {
    ComparatorTotal(sort, a, b);
    hide CompareObjects;
  }

  /** Any sorting routine that permutes and orders agrees with the sorted copy. */
  lemma SortedIsTheSortedPermutation(sort: Sort, xs: seq<RoomObject>, ys: seq<RoomObject>)
    requires UniqueIds(xs) && multiset(ys) == multiset(xs)
    ensures InOrder(sort, ys) <==> ys == Sorted(sort, xs)
  {
    hide Sorted;
    SortedInOrder(sort, xs);
    SortedPermutes(sort, xs);
    if InOrder(sort, ys) {
      InOrderIsUnique(sort, ys, Sorted(sort, xs));
    }
  }

  // ---- Selection ----

  lemma {:induction false} SelectedCounts<T>(xs: seq<T>, keep: T -> bool, x: T)
    ensures multiset(Selected(xs, keep))[x] == if keep(x) then multiset(xs)[x] else 0
  {
    if xs != [] {
      var n := |xs| - 1;
      SelectedCounts(xs[..n], keep, x);
      assert xs == xs[..n] + [xs[n]];
    }
  }

  lemma SelectedPermutes<T(!new)>(xs: seq<T>, ys: seq<T>, keep: T -> bool)
    requires multiset(xs) == multiset(ys)
    ensures multiset(Selected(xs, keep)) == multiset(Selected(ys, keep))
  {
    var a, b := multiset(Selected(xs, keep)), multiset(Selected(ys, keep));
    forall x: T ensures a[x] == b[x] {
      SelectedCounts(xs, keep, x);
      SelectedCounts(ys, keep, x);
    }
    assert a == b;
  }

  lemma SelectedIn<T>(xs: seq<T>, keep: T -> bool, x: T)
    ensures x in Selected(xs, keep) <==> x in xs && keep(x)
  {
    SelectedCounts(xs, keep, x);
    assert x in Selected(xs, keep) <==> multiset(Selected(xs, keep))[x] > 0;
    assert x in xs <==> multiset(xs)[x] > 0;
  }

  lemma {:induction false} SelectedUnique(xs: seq<RoomObject>, keep: RoomObject -> bool)
    requires UniqueIds(xs)
    ensures UniqueIds(Selected(xs, keep))
  {
    if xs != [] {
      var n := |xs| - 1;
      SelectedUnique(xs[..n], keep);
      forall x | x in Selected(xs[..n], keep) ensures x.objectId != xs[n].objectId {
        SelectedIn(xs[..n], keep, x);
      }
    }
  }

  lemma {:induction false} SelectedInOrder(sort: Sort, xs: seq<RoomObject>, keep: RoomObject -> bool)
    requires InOrder(sort, xs)
    ensures InOrder(sort, Selected(xs, keep))
  {
    hide Before;
    if xs != [] {
      var n := |xs| - 1;
      SelectedInOrder(sort, xs[..n], keep);
      forall x | x in Selected(xs[..n], keep) ensures Before(sort, x, xs[n]) {
        SelectedIn(xs[..n], keep, x);
      }
    }
  }

  /** Two selections that differ only in order sort alike. */
  lemma SortedSelectionIndependent(sort: Sort, xs: seq<RoomObject>, ys: seq<RoomObject>, keep: RoomObject -> bool)
    requires UniqueIds(xs) && UniqueIds(ys) && multiset(xs) == multiset(ys)
    ensures Sorted(sort, Selected(xs, keep)) == Sorted(sort, Selected(ys, keep))
    ensures |Sorted(sort, Selected(xs, keep))| == |Selected(xs, keep)|
  {
    var a, b := Selected(xs, keep), Selected(ys, keep);
    SelectedUnique(xs, keep);
    SelectedUnique(ys, keep);
    SelectedPermutes(xs, ys, keep);
    hide Selected, Sorted, InOrder;
    SortedInOrder(sort, a);
    SortedInOrder(sort, b);
    SortedPermutes(sort, a);
    SortedPermutes(sort, b);
    assert |Sorted(sort, a)| == |multiset(Sorted(sort, a))| == |multiset(a)| == |a|;
    InOrderIsUnique(sort, Sorted(sort, a), Sorted(sort, b));
  }
}
