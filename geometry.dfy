/** The segment geometry behind a structure. A segment is a finite set of voxels;
    the boolean operations `Or`, `And` and `Sub` are set union, intersection and
    difference, `Volume` is the voxel count and `IsEmpty` means no voxel.
    Distances are whole tenths of a millimetre, one voxel step per unit. */
module Geometry {

  datatype Voxel = Voxel(x: int, y: int, z: int)

  type Region = set<Voxel>

  /** `Structure.Volume`: the number of voxels. */
  function Volume(r: Region): nat { |r| }

  /** `w` is within Chebyshev distance `d` of `v`. */
  predicate Near(v: Voxel, w: Voxel, d: nat) {
    v.x - d <= w.x <= v.x + d && v.y - d <= w.y <= v.y + d && v.z - d <= w.z <= v.z + d
  }

  /** The voxels within Chebyshev distance `d` of `v`. */
  function Cube(v: Voxel, d: nat): (c: Region)
    ensures forall w :: w in c <==> Near(v, w, d)
  {
    var c := set x: int, y: int, z: int | v.x - d <= x <= v.x + d && v.y - d <= y <= v.y + d
                                          && v.z - d <= z <= v.z + d :: Voxel(x, y, z);
    assert forall w :: Near(v, w, d) ==> w in c by {
      forall w | Near(v, w, d) ensures w in c {
        assert w == Voxel(w.x, w.y, w.z);
      }
    }
    c
  }

  /** `Structure.Margin(d)`: isotropic expansion by `d` for `d >= 0`, erosion by `-d` otherwise. */
  function Margin(r: Region, d: int): Region
  {
    if d >= 0 then set v, w | v in r && w in Cube(v, d) :: w
    else set v | v in r && Cube(v, -d) <= r
  }

  /** A non-negative margin contains the region it grows. */
  lemma {:induction false} MarginContains(r: Region, d: int)
    requires d >= 0
    ensures r <= Margin(r, d)
  {
    forall v | v in r ensures v in Margin(r, d) {
      assert v in Cube(v, d);
    }
  }

  /** A larger non-negative margin contains a smaller one. */
  lemma {:induction false} MarginMonotone(r: Region, d1: int, d2: int)
    requires 0 <= d1 <= d2
    ensures Margin(r, d1) <= Margin(r, d2)
  {
    forall w | w in Margin(r, d1) ensures w in Margin(r, d2) {
      var v :| v in r && w in Cube(v, d1);
      assert w in Cube(v, d2);
    }
  }

  /** The margin of a larger region is larger. */
  lemma {:induction false} MarginOfSubset(r1: Region, r2: Region, d: int)
    requires r1 <= r2
    ensures Margin(r1, d) <= Margin(r2, d)
  {
  }
}
