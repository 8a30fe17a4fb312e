/** The single-step `CreateCroppedPTVs` of the 21.02.22 version and the cropped-PTV loop of the
    18.02.22 `Execute`: a PTV `PTV_<d><X><rest>` looks for its parent `PTV_<d><rest>` among all
    structures, and the parent minus a 3 mm margin around the child is kept as `z_PTV_<d><rest>`. */
module SingleCrop {
  import opened Text
  import opened Geometry
  import opened Structures
  import opened Results
  import opened PlanName
  import opened CroppedPtvs

  /** The margin cut around the child: 3 mm, whatever crop distance the caller passes. */
  const ChildMargin := 30

  /** The two versions differ in how the parent is searched for. */
  datatype Version =
    | Of210222  // a capture reduced to its digit is skipped; the parent is the first id containing the name
    | Of180222  // no skip; the parent is the first id containing the name followed by a non-upper-case character

  /** The capture of `^PTV_?(\d[A-Z]+)`: the digit and the whole run of upper-case letters after
      `PTV` or `PTV_`. */
  function ChildCapture(id: string): (c: Option<string>)
    ensures c.Some? ==> IsToken(c.value)
  {
    if !StartsWith(id, "PTV") then None
    else
      var j := if |id| > 3 && id[3] == '_' then 4 else 3;
      if j < |id| && IsDigit(id[j]) && UpperRun(id, j + 1) > 0
      then Some(id[j..j + 1 + UpperRun(id, j + 1)])
      else None
  }

  /** `"PTV_" + capture.Remove(1, 1)`: one level up, by dropping the letter after the digit. */
  function ParentName(c: string): string
    requires |c| >= 2
  {
    "PTV_" + RemoveAt(c, 1)
  }

  /** `Regex.IsMatch(x, p + "[^A-Z]")`: `p` occurs in `x` followed by a character that is not an
      upper-case letter. */
  predicate FollowedByNonUpper(x: string, p: string) {
    exists i :: 0 <= i && i + |p| < |x| && OccursAt(x, p, i) && !IsUpper(x[i + |p|])
  }

  /** Whether `x` is accepted as the parent named `p`. */
  predicate ParentMatch(x: string, p: string, v: Version) {
    match v
    case Of210222 => Contains(x, p)
    case Of180222 => FollowedByNonUpper(x, p)
  }

  /** `ss.Structures.FirstOrDefault(...)`: the first id of `xs` that `f` accepts. */
  function FirstWhere(xs: seq<string>, f: string -> bool): (r: Option<string>)
    ensures r.None? <==> forall k :: 0 <= k < |xs| ==> !f(xs[k])
    ensures r.Some? ==> exists k :: 0 <= k < |xs| && xs[k] == r.value && f(r.value)
                                    && forall j :: 0 <= j < k ==> !f(xs[j])
  {
    if xs == [] then None
    else match FirstWhere(xs[..|xs| - 1], f)
      case Some(p) => Some(p)
      case None => if f(xs[|xs| - 1]) then Some(xs[|xs| - 1]) else None
  }

  /** The helper `z` of the parent is found or added (a new one takes the parent's structure
      code) and, when empty, becomes the parent minus the margin around the child `t`. */
  function CropInto(st: Store, parent: string, z: string, t: string): (r: Store)
  {
    var s1 := if z in st.table then st else SetCode(FindOrAdd(st, "PTV", z), z, CodeOf(st, parent));
    if IsEmpty(s1, z) then SetVox(s1, z, Vox(s1, parent) - Margin(Vox(s1, t), ChildMargin)) else s1
  }

  /** The parent the child `t` is cropped from, with the name of its helper, if any. */
  function ParentOf(names: seq<string>, t: string, v: Version): Option<(string, string)>
  {
    match ChildCapture(t)
    case None => None
    case Some(c) =>
      var reduced := RemoveAt(c, 1);
      if v == Of210222 && |reduced| == 1 then None
      else
        var p := "PTV_" + reduced;
        match FirstWhere(names, x => ParentMatch(x, p, v))
        case None => None
        case Some(parent) => Some((parent, "z_" + p))
  }

  /** One pass of the `foreach` for the PTV `t`. */
  function SingleCropStep(st: Store, t: string, v: Version): Store
  {
    match ParentOf(st.names, t, v)
    case None => st
    case Some((parent, z)) => CropInto(st, parent, z, t)
  }

  /** The `foreach` over `ts`. */
  function SingleCropLoop(st: Store, ts: seq<string>, v: Version): Store
  {
    if ts == [] then st else SingleCropStep(SingleCropLoop(st, ts[..|ts| - 1], v), ts[|ts| - 1], v)
  }

  /** The parent is found in one step: `PTV_1CBA` looks for `PTV_1BA`, not for `PTV_1A`; in the
      21.02.22 version `PTV_1A`, whose reduced name would be `PTV_1`, is skipped. */
  lemma {:induction false} ParentNameExamples(st: Store)
    ensures ChildCapture("PTV_1CBA") == Some("1CBA") && ParentName("1CBA") == "PTV_1BA"
    ensures ChildCapture("PTV1CBA") == Some("1CBA")
    ensures ParentOf(st.names, "PTV_1A", Of210222).None?
  {
    var s := "PTV_1CBA";
    assert s[..3] == "PTV" && s[3] == '_';
    assert UpperRun(s, 8) == 0;
    assert UpperRun(s, 7) == 1;
    assert UpperRun(s, 6) == 2;
    assert UpperRun(s, 5) == 3;
    assert s[4..8] == "1CBA";
    assert RemoveAt("1CBA", 1) == "1BA";
    var u := "PTV1CBA";
    assert u[..3] == "PTV" && u[3] == '1';
    assert UpperRun(u, 7) == 0;
    assert UpperRun(u, 6) == 1;
    assert UpperRun(u, 5) == 2;
    assert UpperRun(u, 4) == 3;
    assert u[3..7] == "1CBA";
    var w := "PTV_1A";
    assert w[..3] == "PTV" && w[3] == '_';
    assert UpperRun(w, 6) == 0;
    assert UpperRun(w, 5) == 1;
    assert w[4..6] == "1A";
    assert |RemoveAt("1A", 1)| == 1;
  }

  /** In the 18.02.22 version a structure named exactly like the parent is not found: the name must
      be followed by another character, and one that is not an upper-case letter. The 21.02.22
      version finds it. */
  lemma {:induction false} ExactParentNotFound(p: string)
    ensures !ParentMatch(p, p, Of180222)
    ensures ParentMatch(p, p, Of210222)
  {
    assert OccursAt(p, p, 0) by {
      assert p[0..|p|] == p;
    }
  }

  /** A helper id `z_PTV_...` is neither `tmp` nor a PTV id, and it is a `z_` helper. */
  lemma {:induction false} HelperNameFacts(p: string, t: string)
    requires StartsWith(t, "PTV")
    ensures var z := "z_" + p; z != TmpName && z != t && IsHelperName(z)
  {
    var z := "z_" + p;
    assert z[0] == 'z' && t[0] == 'P' by {
      assert t[..3][0] == t[0];
    }
    assert z[..2] == "z_";
  }

  /** When the child has a parent, only its helper can change: it is added at the end of the
      listing when missing, and a helper that has a segment is left alone. Without a parent nothing
      changes. */
  lemma {:induction false} SingleCropStepFrame(st: Store, t: string, v: Version)
    ensures var r := SingleCropStep(st, t, v);
      match ParentOf(st.names, t, v)
      case None => r == st
      case Some((parent, z)) =>
        && z in r.table
        && (r.names == st.names || r.names == st.names + [z])
        && (forall n :: n != z ==> (n in r.table <==> n in st.table) && (n in st.table ==> r.table[n] == st.table[n]))
        && (z in st.table && !IsEmpty(st, z) ==> r == st)
  {
  }

  /** An empty or missing helper becomes the parent minus the 3 mm margin around the child, and a
      new helper takes the parent's structure code. */
  lemma {:induction false} SingleCropStepContents(st: Store, t: string, v: Version)
    ensures var r := SingleCropStep(st, t, v);
      match ParentOf(st.names, t, v)
      case None => true
      case Some((parent, z)) =>
        && (IsEmpty(st, z) ==> Vox(r, z) == Vox(st, parent) - Margin(Vox(st, t), ChildMargin))
        && (z !in st.table ==> r.table[z].code == CodeOf(st, parent))
  {
    match ChildCapture(t)
    case None =>
    case Some(c) =>
      assert StartsWith(t, "PTV");
      HelperNameFacts("PTV_" + RemoveAt(c, 1), t);
  }

  /** Only `z_` helpers change, `tmp` is neither added nor removed, no structure is removed, and the
      listing stays well formed. */
  lemma {:induction false} SingleCropStepKeeps(st: Store, t: string, v: Version)
    ensures var r := SingleCropStep(st, t, v);
      && KeepsUserStructures(st, r)
      && (TmpName in r.table <==> TmpName in st.table)
      && st.table.Keys <= r.table.Keys
      && (WellFormed(st) ==> WellFormed(r))
  {
    SingleCropStepFrame(st, t, v);
    match ChildCapture(t)
    case None =>
    case Some(c) =>
      assert StartsWith(t, "PTV");
      HelperNameFacts("PTV_" + RemoveAt(c, 1), t);
  }

  /** The whole loop changes only `z_` helpers, keeps `tmp` as it was and keeps the listing well
      formed. */
  lemma {:induction false} SingleCropLoopKeeps(st: Store, ts: seq<string>, v: Version)
    ensures var r := SingleCropLoop(st, ts, v);
      && KeepsUserStructures(st, r)
      && (TmpName in r.table <==> TmpName in st.table)
      && (WellFormed(st) ==> WellFormed(r))
  {
    if ts != [] {
      var s := SingleCropLoop(st, ts[..|ts| - 1], v);
      SingleCropLoopKeeps(st, ts[..|ts| - 1], v);
      SingleCropStepKeeps(s, ts[|ts| - 1], v);
      KeepsTransitive(st, s, SingleCropStep(s, ts[|ts| - 1], v));
    }
  }

  /** One pass of the `foreach`, in place. */
  method SingleCropFor(t: string, ss: StructureSet, v: Version)
    requires ss.Valid()
    modifies ss
    ensures ss.Valid() && ss.Current() == SingleCropStep(old(ss.Current()), t, v)
  {
    var c := ChildCapture(t);
    if c.None? {
      return;
    }
    var reduced := RemoveAt(c.value, 1);
    if v == Of210222 && |reduced| == 1 {
      return;
    }
    var p := "PTV_" + reduced;
    var parent := FirstWhere(ss.names, x => ParentMatch(x, p, v));
    if parent.None? {
      return;
    }
    var z := "z_" + p;
    var code := CodeOf(ss.Current(), parent.value);
    var created := ss.AddStructure("PTV", z);
    if created {
      ss.SetStructureCode(z, code);
    }
    if IsEmpty(ss.Current(), z) {
      ss.SetSegment(z, Vox(ss.Current(), parent.value) - Margin(Vox(ss.Current(), t), ChildMargin));
    }
  }

  /** `CreateCroppedPTVs(ptvs, ss, scd, cropmm)` of the 21.02.22 version (and the cropped-PTV loop
      of the 18.02.22 `Execute`). */
  method CreateCroppedPTVs(ptvs: seq<string>, ss: StructureSet, v: Version)
    requires ss.Valid()
    modifies ss
    ensures ss.Valid() && ss.Current() == SingleCropLoop(old(ss.Current()), ptvs, v)
  {
    ghost var s0 := ss.Current();
    for i := 0 to |ptvs|
      invariant ss.Valid() && ss.Current() == SingleCropLoop(s0, ptvs[..i], v)
    {
      assert ptvs[..i + 1][..i] == ptvs[..i];
      SingleCropFor(ptvs[i], ss, v);
    }
    assert ptvs[..|ptvs|] == ptvs;
  }
}
