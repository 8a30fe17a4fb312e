/** `OrderBy(y => y.Volume)` of the 18.02.22 version: the PTVs listed by ascending volume, equal
    volumes in the order the set lists them. */
module VolumeOrder {
  import opened Geometry
  import opened Structures

  /** `Structure.Volume` of `id`. */
  function VolumeOf(st: Store, id: string): nat {
    Volume(Vox(st, id))
  }

  /** The ids of `ys` by ascending volume. */
  ghost predicate SortedByVolume(st: Store, ys: seq<string>) {
    forall i, j :: 0 <= i < j < |ys| ==> VolumeOf(st, ys[i]) <= VolumeOf(st, ys[j])
  }

  /** `x` placed after every element of `ys` whose volume is not larger than its own. */
  function InsertByVolume(st: Store, ys: seq<string>, x: string): seq<string>
  {
    if ys == [] || VolumeOf(st, ys[|ys| - 1]) <= VolumeOf(st, x) then ys + [x]
    else InsertByVolume(st, ys[..|ys| - 1], x) + [ys[|ys| - 1]]
  }

  /** The sort `OrderBy` performs: each id is inserted after the ids before it that are not larger. */
  function OrderByVolume(st: Store, xs: seq<string>): seq<string>
  {
    if xs == [] then [] else InsertByVolume(st, OrderByVolume(st, xs[..|xs| - 1]), xs[|xs| - 1])
  }

  /** Inserting adds exactly the one id; the result ends in `x` or in the last id of `ys`. */
  lemma {:induction false} InsertPermutes(st: Store, ys: seq<string>, x: string)
    ensures var r := InsertByVolume(st, ys, x);
      && multiset(r) == multiset(ys) + multiset{x}
      && |r| == |ys| + 1
      && (r[|r| - 1] == x || (ys != [] && r[|r| - 1] == ys[|ys| - 1]))
  {
    if ys != [] && VolumeOf(st, ys[|ys| - 1]) > VolumeOf(st, x) {
      var init := ys[..|ys| - 1];
      InsertPermutes(st, init, x);
      assert ys == init + [ys[|ys| - 1]];
    }
  }

  /** Inserting into a sorted list keeps it sorted and adds exactly the one id; the result ends in
      `x` or in the last id of `ys`. */
  lemma {:induction false} InsertSorted(st: Store, ys: seq<string>, x: string)
    requires SortedByVolume(st, ys)
    ensures var r := InsertByVolume(st, ys, x);
      && SortedByVolume(st, r)
      && multiset(r) == multiset(ys) + multiset{x}
      && |r| == |ys| + 1
      && (r[|r| - 1] == x || (ys != [] && r[|r| - 1] == ys[|ys| - 1]))
  {
    InsertPermutes(st, ys, x);
    if ys != [] && VolumeOf(st, ys[|ys| - 1]) > VolumeOf(st, x) {
      var init, last := ys[..|ys| - 1], ys[|ys| - 1];
      assert SortedByVolume(st, init);
      InsertSorted(st, init, x);
      var s := InsertByVolume(st, init, x);
      var r := s + [last];
      assert VolumeOf(st, s[|s| - 1]) <= VolumeOf(st, last);
      forall i, j | 0 <= i < j < |r| ensures VolumeOf(st, r[i]) <= VolumeOf(st, r[j]) {
        if j == |r| - 1 && i < |s| {
          assert VolumeOf(st, r[i]) <= VolumeOf(st, s[|s| - 1]);
        }
      }
    } else {
      var r := ys + [x];
      forall i, j | 0 <= i < j < |r| ensures VolumeOf(st, r[i]) <= VolumeOf(st, r[j]) {
        if j == |r| - 1 && i < |ys| {
          assert VolumeOf(st, r[i]) <= VolumeOf(st, ys[|ys| - 1]);
        }
      }
    }
  }

  /** The ordered list is sorted by volume and holds exactly the ids it was given. */
  lemma {:induction false} OrderBySortsAndPermutes(st: Store, xs: seq<string>)
    ensures SortedByVolume(st, OrderByVolume(st, xs))
    ensures multiset(OrderByVolume(st, xs)) == multiset(xs)
  {
    if xs != [] {
      OrderBySortsAndPermutes(st, xs[..|xs| - 1]);
      InsertSorted(st, OrderByVolume(st, xs[..|xs| - 1]), xs[|xs| - 1]);
      assert xs == xs[..|xs| - 1] + [xs[|xs| - 1]];
    }
  }

  /** A list already sorted by volume is left as it is, ties included: the order is stable. */
  lemma {:induction false} SortedUnchanged(st: Store, xs: seq<string>)
    requires SortedByVolume(st, xs)
    ensures OrderByVolume(st, xs) == xs
  {
    if xs != [] {
      var init := xs[..|xs| - 1];
      assert SortedByVolume(st, init);
      SortedUnchanged(st, init);
      if |init| > 0 {
        assert VolumeOf(st, init[|init| - 1]) <= VolumeOf(st, xs[|xs| - 1]);
      }
      assert init + [xs[|xs| - 1]] == xs;
    }
  }
}
