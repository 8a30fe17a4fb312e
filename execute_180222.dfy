/** `Script.Execute` of the 18.02.22 version: all structures whose id starts with `PTV`, ordered
    by volume, are merged into `z_PTVges`; rings, cropped PTVs, cropped organs at risk and the PRV
    warning follow, all inside one method that keeps one `tmp` from start to end. */
module Execute180222 {
  import opened Text
  import opened Geometry
  import opened Structures
  import opened Results
  import opened Merge
  import opened Oars
  import opened Prvs
  import opened Ring
  import opened Rings
  import opened SingleCrop
  import opened VolumeOrder
  import Older = Execute210222

  /** The merged PTV of this version. */
  const LooseGesName := "z_PTVges"

  /** The distance of every crop and ring: 3 mm. */
  const CropDistance := 30

  /** What the outcome names when `AddStructure("CONTROL", "tmp")` fails on an existing `tmp`. */
  const TmpTaken := "AddStructure"

  /** `ss.Structures.Where(x => x.Id.StartsWith("PTV")).OrderBy(y => y.Volume)`. */
  function PtvsByVolume(st: Store): seq<string>
  {
    OrderByVolume(st, Where(st, x => StartsWith(x, "PTV")))
  }

  /** Lines 55-96 once `tmp` and `z_PTVges` exist: several PTVs and an empty `z_PTVges` are merged,
      and a union larger than the largest PTV is kept and listed; a user-made `z_PTVges` is taken
      and listed whatever the number of PTVs; otherwise `z_PTVges` is removed. */
  function MergeStage(s2: Store, ptvs: seq<string>): (t: Older.Targets)
    requires TmpName in s2.table && LooseGesName in s2.table
    ensures TmpName in t.st.table
  {
    if |ptvs| > 1 && IsEmpty(s2, LooseGesName) then
      var m := MergeLoop(MergeState(s2, ptvs[0]), LooseGesName, ptvs);
      if Volume(Vox(m.st, LooseGesName)) > Volume(Vox(m.st, m.ptvmax))
      then Older.Targets(m.st, Some(LooseGesName), ptvs + Where(m.st, x => StartsWith(x, LooseGesName)))
      else Older.Targets(Delete(m.st, LooseGesName), Some(m.ptvmax), ptvs)
    else if !IsEmpty(s2, LooseGesName) then
      Older.Targets(s2, Some(LooseGesName), ptvs + Where(s2, x => StartsWith(x, LooseGesName)))
    else Older.Targets(Delete(s2, LooseGesName), if ptvs == [] then None else Some(ptvs[0]), ptvs)
  }

  /** The organ loop against the target; a null target throws at the first organ. */
  function OarPart(st: Store, ptvmax: Option<string>, oars: seq<string>): (r: Run)
    requires TmpName in st.table
    ensures TmpName in r.st.table
  {
    match ptvmax
    case None => if oars == [] then Run(st, Completed, []) else Run(st, Threw("NullReferenceException"), [])
    case Some(p) => OarLoop(st, p, oars, CropDistance)
  }

  /** The PRV loop and its message box, then `tmp` is removed; a null target throws at the first
      PRV. */
  function PrvPart(st: Store, ptvmax: Option<string>, prvs: seq<string>): Run
    requires TmpName in st.table
  {
    match ptvmax
    case None => if prvs == [] then Run(Delete(st, TmpName), Completed, []) else Run(st, Threw("NullReferenceException"), [])
    case Some(p) =>
      var r := PrvLoop(st, p, prvs);
      Run(Delete(r.st, TmpName), Completed, Warning(r.message, r.count))
  }

  /** The organs whose id starts with `OAR`, then the structures whose id contains `PRV`. */
  function Finish(st: Store, ptvmax: Option<string>, shown: seq<string>): Run
    requires TmpName in st.table
  {
    var o := OarPart(st, ptvmax, Where(st, x => StartsWith(x, "OAR")));
    if o.outcome.Threw? then Run(o.st, o.outcome, shown)
    else
      var w := PrvPart(o.st, ptvmax, Where(o.st, x => Contains(x, "PRV")));
      Run(w.st, w.outcome, shown + w.messages)
  }

  /** The rings and, for several listed PTVs, the cropped PTVs, before `Finish`. */
  function Generate(s2: Store, ptvs: seq<string>): Run
    requires TmpName in s2.table && LooseGesName in s2.table
  {
    var t := MergeStage(s2, ptvs);
    var g := RingsLoop(t.st, t.work, CropDistance, OptionalUnderscore);
    RingsLoopKeeps(t.st, t.work, CropDistance, OptionalUnderscore);
    var s3 := if |t.work| > 1 then SingleCropLoop(g.st, t.work, Of180222) else g.st;
    SingleCropLoopKeeps(g.st, t.work, Of180222);
    Finish(s3, t.ptvmax, g.messages)
  }

  /** `Execute` on a snapshot: `loaded` says a patient and a structure set are open. `tmp` is added
      without a fallback, so a `tmp` left in the set stops the run before anything changes. */
  function ExecuteSpec(st: Store, loaded: bool): Run
  {
    if !loaded then Run(st, Completed, [Older.LoadMessage])
    else if TmpName in st.table then Run(st, Threw(TmpTaken), [])
    else
      var s1 := FindOrAdd(st, "CONTROL", TmpName);
      Generate(FindOrAdd(s1, "PTV", LooseGesName), PtvsByVolume(s1))
  }

  /** The listed PTVs start with `PTV`, so none of them is `tmp` or `z_PTVges`, and they are
      ordered by volume. */
  lemma {:induction false} PtvsApart(st: Store)
    ensures Apart(PtvsByVolume(st), LooseGesName)
    ensures SortedByVolume(st, PtvsByVolume(st))
  {
    var all := Where(st, x => StartsWith(x, "PTV"));
    OrderBySortsAndPermutes(st, all);
    forall t | t in PtvsByVolume(st) ensures t != TmpName && t != LooseGesName {
      assert t in multiset(PtvsByVolume(st));
      assert t in all;
      assert t[..3] == "PTV" && t[0] == 'P';
    }
  }

  /** The merge stage changes only `tmp` and `z_PTVges`. */
  lemma {:induction false} MergeStageKeeps(s2: Store, ptvs: seq<string>)
    requires TmpName in s2.table && LooseGesName in s2.table
    ensures var t := MergeStage(s2, ptvs);
      && KeepsUserStructures(s2, t.st)
      && (WellFormed(s2) ==> WellFormed(t.st))
  {
    assert IsHelperName(LooseGesName) by {
      assert LooseGesName[..2] == "z_";
    }
    if |ptvs| > 1 && IsEmpty(s2, LooseGesName) {
      MergeLoopFrame(MergeState(s2, ptvs[0]), LooseGesName, ptvs);
    }
  }

  /** Without a user-made `z_PTVges`, several PTVs are merged: the union is kept as `z_PTVges` and
      is the target exactly when it is strictly larger than every PTV; otherwise the first largest
      PTV is the target and `z_PTVges` is removed. */
  lemma {:induction false} MergeStageChoice(s2: Store, ptvs: seq<string>)
    requires TmpName in s2.table && LooseGesName in s2.table && IsEmpty(s2, LooseGesName)
    requires |ptvs| > 1 && Apart(ptvs, LooseGesName)
    ensures var t := MergeStage(s2, ptvs);
      && (t.ptvmax == Some(LooseGesName) ==>
            Vox(t.st, LooseGesName) == UnionOf(s2, ptvs)
            && forall x :: x in ptvs ==> Volume(Vox(s2, x)) < Volume(UnionOf(s2, ptvs)))
      && (t.ptvmax != Some(LooseGesName) ==>
            t.ptvmax.Some? && FirstLargest(s2, ptvs, t.ptvmax.value)
            && Volume(UnionOf(s2, ptvs)) <= Volume(Vox(s2, t.ptvmax.value))
            && LooseGesName !in t.st.table)
  {
    var m0 := MergeState(s2, ptvs[0]);
    LoopFacts(s2, s2, LooseGesName, ptvs);
    MaxOfIn(s2, ptvs[0], ptvs);
    MaxOfBound(s2, ptvs[0], ptvs);
    MaxOfIsFirstLargest(s2, ptvs);
    var p := MaxOf(s2, ptvs[0], ptvs);
    assert ptvs[0] in ptvs;
    assert p != TmpName && p != LooseGesName;
    MergeLoopVox(m0, LooseGesName, ptvs, p);
    if Volume(UnionOf(s2, ptvs)) > Volume(Vox(s2, p)) {
      forall x | x in ptvs ensures Volume(Vox(s2, x)) < Volume(UnionOf(s2, ptvs)) {
        var j :| 0 <= j < |ptvs| && ptvs[j] == x;
      }
    }
  }

  /** A user-made `z_PTVges` with a segment is the target and is listed for the rings and crops,
      however many PTVs there are, and nothing changes. */
  lemma {:induction false} UserMergedListed(s2: Store, ptvs: seq<string>)
    requires WellFormed(s2) && TmpName in s2.table && LooseGesName in s2.table && !IsEmpty(s2, LooseGesName)
    ensures var t := MergeStage(s2, ptvs);
      && t.st == s2 && t.ptvmax == Some(LooseGesName)
      && exists j :: |ptvs| <= j < |t.work| && t.work[j] == LooseGesName
  {
    Older.SelfPrefixListed(s2, LooseGesName);
    var found := Where(s2, x => StartsWith(x, LooseGesName));
    var k :| 0 <= k < |found| && found[k] == LooseGesName;
    assert (ptvs + found)[|ptvs| + k] == LooseGesName;
  }

  /** The organ and PRV steps change only `tmp` and `z_` helpers, and a run that completes
      removes `tmp`. */
  lemma {:induction false} FinishKeeps(st: Store, ptvmax: Option<string>, shown: seq<string>)
    requires TmpName in st.table
    ensures var r := Finish(st, ptvmax, shown);
      && KeepsUserStructures(st, r.st)
      && (WellFormed(st) ==> WellFormed(r.st))
      && (r.outcome == Completed ==> TmpName !in r.st.table)
  {
    var oars := Where(st, x => StartsWith(x, "OAR"));
    if ptvmax.Some? {
      OarLoopFrame(st, ptvmax.value, oars, CropDistance);
    }
  }

  /** Everything after `tmp` and `z_PTVges` exist changes only `tmp` and `z_` helpers. */
  lemma {:induction false} GenerateKeeps(s2: Store, ptvs: seq<string>)
    requires TmpName in s2.table && LooseGesName in s2.table
    ensures var r := Generate(s2, ptvs);
      && KeepsUserStructures(s2, r.st)
      && (WellFormed(s2) ==> WellFormed(r.st))
      && (r.outcome == Completed ==> TmpName !in r.st.table)
  {
    var t := MergeStage(s2, ptvs);
    MergeStageKeeps(s2, ptvs);
    var g := RingsLoop(t.st, t.work, CropDistance, OptionalUnderscore);
    RingsLoopKeeps(t.st, t.work, CropDistance, OptionalUnderscore);
    KeepsTransitive(s2, t.st, g.st);
    var s3 := if |t.work| > 1 then SingleCropLoop(g.st, t.work, Of180222) else g.st;
    SingleCropLoopKeeps(g.st, t.work, Of180222);
    KeepsTransitive(s2, g.st, s3);
    FinishKeeps(s3, t.ptvmax, g.messages);
    KeepsTransitive(s2, s3, Finish(s3, t.ptvmax, g.messages).st);
  }

  /** A whole run changes no structure the user made and keeps the listing well formed; a `tmp`
      already in the set stops it before anything changes, and a run that completes with a
      structure set open leaves no `tmp`. */
  lemma {:induction false} ExecuteKeepsUserStructures(st: Store, loaded: bool)
    ensures var r := ExecuteSpec(st, loaded);
      && KeepsUserStructures(st, r.st)
      && (WellFormed(st) ==> WellFormed(r.st))
      && (loaded && TmpName in st.table ==> r.st == st && r.outcome == Threw(TmpTaken))
      && (loaded && r.outcome == Completed ==> TmpName !in r.st.table)
  {
    if loaded && TmpName !in st.table {
      var s1 := FindOrAdd(st, "CONTROL", TmpName);
      var s2 := FindOrAdd(s1, "PTV", LooseGesName);
      assert LooseGesName[..2] == "z_";
      assert KeepsUserStructures(st, s2);
      GenerateKeeps(s2, PtvsByVolume(s1));
      KeepsTransitive(st, s2, Generate(s2, PtvsByVolume(s1)).st);
    }
  }

  /** Lines 55-96 in place. */
  method MergeTargets(ptvs: seq<string>, ss: StructureSet) returns (ptvmax: Option<string>, work: seq<string>)
    requires ss.Valid() && TmpName in ss.table && LooseGesName in ss.table
    modifies ss
    ensures ss.Valid() && Older.Targets(ss.Current(), ptvmax, work) == MergeStage(old(ss.Current()), ptvs)
  {
    if |ptvs| > 1 && IsEmpty(ss.Current(), LooseGesName) {
      var max := MergeSegments(ptvs, ss, LooseGesName);
      if Volume(Vox(ss.Current(), LooseGesName)) > Volume(Vox(ss.Current(), max)) {
        ptvmax := Some(LooseGesName);
        work := ptvs + Where(ss.Current(), x => StartsWith(x, LooseGesName));
      } else {
        ss.RemoveStructure(LooseGesName);
        ptvmax, work := Some(max), ptvs;
      }
    } else if !IsEmpty(ss.Current(), LooseGesName) {
      ptvmax := Some(LooseGesName);
      work := ptvs + Where(ss.Current(), x => StartsWith(x, LooseGesName));
    } else {
      ss.RemoveStructure(LooseGesName);
      ptvmax := if ptvs == [] then None else Some(ptvs[0]);
      work := ptvs;
    }
  }

  /** The organ loop in place, with `tmp` in the set. */
  method CropOars(ss: StructureSet, ptvmax: Option<string>) returns (outcome: Outcome)
    requires ss.Valid() && TmpName in ss.table
    modifies ss
    ensures ss.Valid() && Run(ss.Current(), outcome, []) == OarPart(old(ss.Current()), ptvmax, Where(old(ss.Current()), x => StartsWith(x, "OAR")))
  {
    var oars := Where(ss.Current(), x => StartsWith(x, "OAR"));
    if ptvmax.None? {
      outcome := if oars == [] then Completed else Threw("NullReferenceException");
    } else {
      outcome := CropEach(oars, ss, ptvmax.value, CropDistance);
    }
  }

  /** The PRV loop, its message box and the removal of `tmp`, in place. */
  method WarnPrvs(ss: StructureSet, ptvmax: Option<string>) returns (outcome: Outcome, messages: seq<string>)
    requires ss.Valid() && TmpName in ss.table
    modifies ss
    ensures ss.Valid()
    ensures Run(ss.Current(), outcome, messages) == PrvPart(old(ss.Current()), ptvmax, Where(old(ss.Current()), x => Contains(x, "PRV")))
  {
    var prvs := Where(ss.Current(), x => Contains(x, "PRV"));
    if ptvmax.None? {
      messages := [];
      if prvs != [] {
        return Threw("NullReferenceException"), messages;
      }
    } else {
      var message, count := ReportEach(prvs, ss, ptvmax.value);
      messages := Warning(message, count);
    }
    ss.RemoveStructure(TmpName);
    outcome := Completed;
  }

  /** `Execute(context)` of the 18.02.22 version. */
  method Execute(loaded: bool, ss: StructureSet) returns (outcome: Outcome, messages: seq<string>)
    requires ss.Valid()
    modifies ss
    ensures ss.Valid() && Run(ss.Current(), outcome, messages) == ExecuteSpec(old(ss.Current()), loaded)
  {
    if !loaded {
      return Completed, [Older.LoadMessage];
    }
    if TmpName in ss.table {
      return Threw(TmpTaken), [];
    }
    var _ := ss.AddStructure("CONTROL", TmpName);
    var ptvs := PtvsByVolume(ss.Current());
    var _ := ss.AddStructure("PTV", LooseGesName);
    ghost var s2 := ss.Current();
    var ptvmax, work := MergeTargets(ptvs, ss);
    ghost var t := ss.Current();
    messages := CreateRings(work, ss, CropDistance, OptionalUnderscore);
    RingsLoopKeeps(t, work, CropDistance, OptionalUnderscore);
    ghost var g := ss.Current();
    if |work| > 1 {
      SingleCrop.CreateCroppedPTVs(work, ss, Of180222);
    }
    SingleCropLoopKeeps(g, work, Of180222);
    outcome := CropOars(ss, ptvmax);
    if outcome.Threw? {
      return;
    }
    var warnings;
    outcome, warnings := WarnPrvs(ss, ptvmax);
    messages := messages + warnings;
  }
}
