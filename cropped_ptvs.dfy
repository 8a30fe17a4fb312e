/** `CreateCroppedPTVs`: for each listed PTV with a parent among the listed ones, the parent minus
    a margin around the child is kept as `z_<parent id>`, and a child with at least two letters
    after the digit (second level or deeper) has that margin cut out of `z_PTV_ges` as well. */
module CroppedPtvs {
  import opened Text
  import opened Geometry
  import opened Structures
  import opened Hierarchy
  import opened Merge

  /** `^PTV_\d[A-Z]{2}`, not anchored at the end: at least two letters after the digit, so the PTV
      sits inside another at any depth. */
  predicate IsChildLevel(id: string) {
    IsPtvStart(id) && |id| >= 7 && IsUpper(id[6])
  }

  /** The first listed id that contains `p` (`ptvs.FirstOrDefault(x => Regex.IsMatch(x.Id, p))`;
      a PTV id has no metacharacters, so the pattern match is a substring test). */
  function FirstContaining(xs: seq<string>, p: string): (r: string)
    requires Listed(xs, p)
    ensures r in xs && Contains(r, p)
    ensures exists k :: 0 <= k < |xs| && xs[k] == r && forall j :: 0 <= j < k ==> !Contains(xs[j], p)
  {
    if Contains(xs[0], p) then xs[0]
    else
      assert Listed(xs[1..], p) by {
        var i :| 0 <= i < |xs| && Contains(xs[i], p);
        assert xs[1..][i - 1] == xs[i];
      }
      var r := FirstContaining(xs[1..], p);
      assert forall j :: 0 <= j < |xs| - 1 ==> xs[1..][j] == xs[j + 1];
      r
  }

  /** The structure code of `id`, or none when the id is not in the set. */
  function CodeOf(st: Store, id: string): string {
    if id in st.table then st.table[id].code else NoCode
  }

  /** One pass of the `foreach` for the listed PTV `t`. */
  function CropStep(st: Store, all: seq<string>, t: string, crop: int): Store
  {
    var p := GetParentId(all, t);
    if p == "" then st
    else
      var parent := FirstContaining(all, p);
      var z := "z_" + p;
      var s1 := if z in st.table then st else SetCode(FindOrAdd(st, "PTV", z), z, CodeOf(st, parent));
      if !IsEmpty(s1, z) then s1
      else
        var s2 := SetVox(s1, z, Vox(s1, parent) - Margin(Vox(s1, t), crop));
        if GesName in all && IsChildLevel(t) && GesName in s2.table
        then SetVox(s2, GesName, Vox(s2, GesName) - Margin(Vox(s2, t), crop))
        else s2
  }

  /** The `foreach` over `ts`, with the whole list `all` as the parent search space. */
  function CropLoop(st: Store, all: seq<string>, ts: seq<string>, crop: int): Store
  {
    if ts == [] then st else CropStep(CropLoop(st, all, ts[..|ts| - 1], crop), all, ts[|ts| - 1], crop)
  }

  /** `CreateCroppedPTVs(ptvs, ss, scd, cropmm)` on a snapshot. */
  function CroppedPtvsSpec(st: Store, ptvs: seq<string>, crop: int): Store
  {
    CropLoop(st, ptvs, ptvs, crop)
  }

  /** A helper id `z_` + a PTV id. */
  predicate IsHelperId(n: string) {
    |n| >= 2 && n[..2] == "z_" && IsPtvName(n[2..])
  }

  /** One pass changes nothing but the helper of the parent and `z_PTV_ges`, adds at most that
      helper at the end of the listing, and keeps the listing well formed; without a parent, or
      when the parent's helper already has a segment, it changes nothing at all. */
  lemma {:induction false} CropStepFrame(st: Store, all: seq<string>, t: string, crop: int)
    ensures var r, p := CropStep(st, all, t, crop), GetParentId(all, t);
      && (p == "" || !IsEmpty(st, "z_" + p) ==> r == st)
      && (WellFormed(st) ==> WellFormed(r))
      && (r.names == st.names || exists z :: IsHelperId(z) && z !in st.table && r.names == st.names + [z])
      && forall n :: n != GesName && !IsHelperId(n) ==>
           (n in r.table <==> n in st.table) && (n in st.table ==> r.table[n] == st.table[n])
  {
    var p := GetParentId(all, t);
    if p != "" {
      var z := "z_" + p;
      assert z[2..] == p;
      assert IsHelperId(z);
    }
  }

  /** The whole loop changes nothing but helpers and `z_PTV_ges`: every listed PTV keeps its
      segment, colour and code. */
  lemma {:induction false} CropLoopFrame(st: Store, all: seq<string>, ts: seq<string>, crop: int)
    ensures var r := CropLoop(st, all, ts, crop);
      && (WellFormed(st) ==> WellFormed(r))
      && forall n :: n != GesName && !IsHelperId(n) ==>
           (n in r.table <==> n in st.table) && (n in st.table ==> r.table[n] == st.table[n])
  {
    if ts != [] {
      CropLoopFrame(st, all, ts[..|ts| - 1], crop);
      CropStepFrame(CropLoop(st, all, ts[..|ts| - 1], crop), all, ts[|ts| - 1], crop);
    }
  }

  /** A child whose parent has no helper yet (or an empty one) creates it as the parent minus the
      crop margin around the child, with the parent's structure code when new; a child with at
      least two letters after the digit (second level or deeper) also has that margin cut out of
      a listed `z_PTV_ges`. */
  lemma {:induction false} CropStepContents(st: Store, all: seq<string>, t: string, crop: int)
    requires GetParentId(all, t) != ""
    requires var z := "z_" + GetParentId(all, t); IsEmpty(st, z) && z !in all
    ensures var p := GetParentId(all, t);
      var z, parent, r := "z_" + p, FirstContaining(all, p), CropStep(st, all, t, crop);
      && IsPtvName(p) && Contains(parent, p) && parent in all
      && z in r.table && Vox(r, z) == Vox(st, parent) - Margin(Vox(st, t), crop)
      && (z !in st.table ==> r.table[z].code == CodeOf(st, parent))
      && Vox(r, GesName) == (if GesName in all && IsChildLevel(t) && GesName in st.table
                             then Vox(st, GesName) - Margin(Vox(st, t), crop) else Vox(st, GesName))
  {
    var p := GetParentId(all, t);
    var z := "z_" + p;
    var parent := FirstContaining(all, p);
    assert z != GesName by {
      assert z[6] == p[4] && IsDigit(p[4]);
      assert GesName[6] == 'g';
    }
    assert IsPtvStart(t);
    assert t != z by {
      assert t[..4] == "PTV_";
      assert z[..4] == "z_PT";
    }
  }

  /** Only helpers, `z_PTV_ges` among them, can change; `tmp` is neither added nor removed. */
  lemma {:induction false} CroppedPtvsKeeps(st: Store, ptvs: seq<string>, crop: int)
    ensures var r := CroppedPtvsSpec(st, ptvs, crop);
      && KeepsUserStructures(st, r)
      && (TmpName in r.table <==> TmpName in st.table)
      && (WellFormed(st) ==> WellFormed(r))
  {
    CropLoopFrame(st, ptvs, ptvs, crop);
    assert GesName[..2] == "z_";
  }

  /** One pass of the `foreach` of `CreateCroppedPTVs`, in place. */
  method CropFor(ptvs: seq<string>, t: string, ss: StructureSet, crop: int)
    requires ss.Valid()
    modifies ss
    ensures ss.Valid() && ss.Current() == CropStep(old(ss.Current()), ptvs, t, crop)
  {
    var p := GetParentId(ptvs, t);
    if p != "" {
      var parent := FirstContaining(ptvs, p);
      var z := "z_" + p;
      var code := CodeOf(ss.Current(), parent);
      var created := ss.AddStructure("PTV", z);
      if created {
        ss.SetStructureCode(z, code);
      }
      if IsEmpty(ss.Current(), z) {
        ss.SetSegment(z, Vox(ss.Current(), parent) - Margin(Vox(ss.Current(), t), crop));
        if GesName in ptvs && IsChildLevel(t) && GesName in ss.table {
          ss.SetSegment(GesName, Vox(ss.Current(), GesName) - Margin(Vox(ss.Current(), t), crop));
        }
      }
    }
  }

  /** `CreateCroppedPTVs(ptvs, ss, scd, cropmm)`. */
  method CreateCroppedPTVs(ptvs: seq<string>, ss: StructureSet, crop: int)
    requires ss.Valid()
    modifies ss
    ensures ss.Valid() && ss.Current() == CroppedPtvsSpec(old(ss.Current()), ptvs, crop)
  {
    ghost var s0 := ss.Current();
    for i := 0 to |ptvs|
      invariant ss.Valid() && ss.Current() == CropLoop(s0, ptvs, ptvs[..i], crop)
    {
      assert ptvs[..i + 1][..i] == ptvs[..i];
      CropFor(ptvs, ptvs[i], ss, crop);
    }
    assert ptvs[..|ptvs|] == ptvs;
  }
}
