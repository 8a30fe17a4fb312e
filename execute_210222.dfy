/** `Script.Execute` of the 21.02.22 version: the PTVs are named by the ids of all plans of the
    course; several PTVs are merged, the merged PTV's family is appended to the list, the PTVs
    are cropped from their parents, every listed PTV gets a ring, and the organs at risk and the
    PRVs are checked against the merged (or only) PTV. */
module Execute210222 {
  import opened Text
  import opened Structures
  import opened Results
  import opened PlanName
  import opened Merge
  import opened Oars
  import opened Prvs
  import opened Ring
  import opened Rings
  import opened SingleCrop
  import Current = Execute

  /** The message box shown when no patient or no structure set is open. */
  const LoadMessage := "Please load a patient, 3D image, and structure set before running this script."

  /** The crop distance the rings and the organs at risk are called with: 0.3 mm. */
  const Crop := 3

  /** The target the later steps use (None is a null reference) and the list of PTVs they work on. */
  datatype Targets = Targets(st: Store, ptvmax: Option<string>, work: seq<string>)

  /** Several PTVs are merged and every structure whose id starts with the result's id is appended
      to the list; a single PTV is the target itself; no PTV leaves the target null. */
  function MergeStage(st: Store, ptvs: seq<string>): Targets
  {
    if |ptvs| > 1 then
      var m := MaxMerged(st, ptvs);
      Targets(m.st, m.ptvmax, ptvs + Where(m.st, x => StartsWith(x, m.ptvmax.value)))
    else Targets(st, if ptvs == [] then None else Some(ptvs[0]), ptvs)
  }

  /** A generator called with a null target: `tmp` is found or added, and the first element of
      the list dereferences the null; an empty list removes `tmp` again. */
  function WithoutTarget(st: Store, list: seq<string>): Run
  {
    var s1 := FindOrAdd(st, "CONTROL", TmpName);
    if list == [] then Run(Delete(s1, TmpName), Completed, [])
    else Run(s1, Threw("NullReferenceException"), [])
  }

  /** `CreateCroppedOARs` over the structures whose id starts with `OAR`. */
  function OarStage(st: Store, ptvmax: Option<string>): Run
  {
    var oars := Where(st, x => StartsWith(x, "OAR"));
    match ptvmax
    case None => WithoutTarget(st, oars)
    case Some(p) => CroppedOarsSpec(st, oars, p, Crop)
  }

  /** `WarnOnPRVs` over the structures whose id starts with `PRV`. */
  function PrvStage(st: Store, ptvmax: Option<string>): Run
  {
    var prvs := Where(st, x => StartsWith(x, "PRV"));
    match ptvmax
    case None => WithoutTarget(st, prvs)
    case Some(p) => WarnOnPrvsSpec(st, prvs, p)
  }

  /** Everything after the PTVs are resolved, with the messages shown so far. */
  function Generate(st: Store, ptvs: seq<string>, shown: seq<string>): Run
  {
    var t := MergeStage(st, ptvs);
    var s2 := if |t.work| > 1 then SingleCropLoop(t.st, t.work, Of210222) else t.st;
    var g := RingsLoop(s2, t.work, Crop, Underscore);
    AfterRings(g.st, t.ptvmax, shown + g.messages)
  }

  /** The organs at risk, then the PRVs, against the target. */
  function AfterRings(st: Store, ptvmax: Option<string>, shown: seq<string>): Run
  {
    var o := OarStage(st, ptvmax);
    if o.outcome.Threw? then Run(o.st, o.outcome, shown)
    else
      var w := PrvStage(o.st, ptvmax);
      Run(w.st, w.outcome, shown + w.messages)
  }

  /** `Execute` on a snapshot: `loaded` says a patient and a structure set are open, `plans` are
      the ids of the course's external plans. An ambiguous suffix throws from `Single`. */
  function ExecuteSpec(st: Store, loaded: bool, plans: seq<string>): Run
  {
    if !loaded then Run(st, Completed, [LoadMessage])
    else
      match Resolve(st.names, PlanTokens(plans))
      case Ambiguous(_, miss) => Run(st, Threw("InvalidOperationException"), Current.MissingNotices(miss))
      case Resolved(ptvs, miss) => Generate(st, ptvs, Current.MissingNotices(miss))
  }

  /** The merge stage changes only `tmp` and `z_` helpers. */
  lemma {:induction false} MergeStageKeeps(st: Store, ptvs: seq<string>)
    requires NotScratch(ptvs)
    ensures var t := MergeStage(st, ptvs);
      && KeepsUserStructures(st, t.st)
      && (WellFormed(st) ==> WellFormed(t.st))
  {
    if |ptvs| > 1 {
      MaxMergedKeeps(st, ptvs);
    }
  }

  /** A null target changes only `tmp`, and removes it again when the list is empty. */
  lemma {:induction false} WithoutTargetKeeps(st: Store, list: seq<string>)
    ensures var r := WithoutTarget(st, list);
      && KeepsUserStructures(st, r.st)
      && (WellFormed(st) ==> WellFormed(r.st))
      && (r.outcome == Completed <==> list == [])
      && (r.outcome == Completed ==> TmpName !in r.st.table)
      && r.messages == []
  {
  }

  /** The organ step changes only `tmp` and `z_` helpers. */
  lemma {:induction false} OarStageKeeps(st: Store, ptvmax: Option<string>)
    ensures var r := OarStage(st, ptvmax);
      && KeepsUserStructures(st, r.st)
      && (WellFormed(st) ==> WellFormed(r.st))
  {
    match ptvmax
    case None => WithoutTargetKeeps(st, Where(st, x => StartsWith(x, "OAR")));
    case Some(p) => CroppedOarsKeeps(st, Where(st, x => StartsWith(x, "OAR")), p, Crop);
  }

  /** The PRV step changes only `tmp`, and a step that completes leaves no `tmp`. */
  lemma {:induction false} PrvStageKeeps(st: Store, ptvmax: Option<string>)
    ensures var r := PrvStage(st, ptvmax);
      && KeepsUserStructures(st, r.st)
      && (WellFormed(st) ==> WellFormed(r.st))
      && (r.outcome == Completed ==> TmpName !in r.st.table)
  {
    match ptvmax
    case None => WithoutTargetKeeps(st, Where(st, x => StartsWith(x, "PRV")));
    case Some(p) => WarnOnPrvsState(st, Where(st, x => StartsWith(x, "PRV")), p);
  }

  /** After the PTVs are resolved, the run changes only `tmp` and `z_` helpers, and a run that
      completes leaves no `tmp` behind. */
  lemma {:induction false} GenerateKeeps(st: Store, ptvs: seq<string>, shown: seq<string>)
    requires NotScratch(ptvs)
    ensures var r := Generate(st, ptvs, shown);
      && KeepsUserStructures(st, r.st)
      && (WellFormed(st) ==> WellFormed(r.st))
      && (r.outcome == Completed ==> TmpName !in r.st.table)
  {
    var t := MergeStage(st, ptvs);
    MergeStageKeeps(st, ptvs);
    var s2 := if |t.work| > 1 then SingleCropLoop(t.st, t.work, Of210222) else t.st;
    if |t.work| > 1 {
      SingleCropLoopKeeps(t.st, t.work, Of210222);
    }
    KeepsTransitive(st, t.st, s2);
    var g := RingsLoop(s2, t.work, Crop, Underscore);
    RingsLoopKeeps(s2, t.work, Crop, Underscore);
    KeepsTransitive(st, s2, g.st);
    AfterRingsKeeps(g.st, t.ptvmax, shown + g.messages);
    KeepsTransitive(st, g.st, AfterRings(g.st, t.ptvmax, shown + g.messages).st);
  }

  /** The organ and PRV steps change only `tmp` and `z_` helpers and, when they complete, leave
      no `tmp`. */
  lemma {:induction false} AfterRingsKeeps(st: Store, ptvmax: Option<string>, shown: seq<string>)
    ensures var r := AfterRings(st, ptvmax, shown);
      && KeepsUserStructures(st, r.st)
      && (WellFormed(st) ==> WellFormed(r.st))
      && (r.outcome == Completed ==> TmpName !in r.st.table)
  {
    var o := OarStage(st, ptvmax);
    OarStageKeeps(st, ptvmax);
    if o.outcome.Completed? {
      PrvStageKeeps(o.st, ptvmax);
      KeepsTransitive(st, o.st, PrvStage(o.st, ptvmax).st);
    }
  }

  /** A whole run changes no structure the user made, keeps the listing well formed, and a run
      that completes with a structure set open leaves no `tmp`. */
  lemma {:induction false} ExecuteKeepsUserStructures(st: Store, loaded: bool, plans: seq<string>)
    ensures var r := ExecuteSpec(st, loaded, plans);
      && KeepsUserStructures(st, r.st)
      && (WellFormed(st) ==> WellFormed(r.st))
      && (r.outcome == Completed && loaded ==> TmpName !in r.st.table)
  {
    if loaded {
      var res := Resolve(st.names, PlanTokens(plans));
      if res.Resolved? {
        Current.ResolvedNotScratch(st.names, PlanTokens(plans));
        GenerateKeeps(st, res.ptvs, Current.MissingNotices(res.missing));
      }
    }
  }

  /** A user's `z_PTV_ges` with a segment is the target only when several PTVs are resolved; a
      single PTV is the target itself, unlike in the current script. */
  lemma {:induction false} UserMergedOnlyForSeveral(st: Store, ptvs: seq<string>)
    requires GesName in st.table && !IsEmpty(st, GesName) && ptvs != []
    ensures MergeStage(st, ptvs).ptvmax == if |ptvs| > 1 then Some(GesName) else Some(ptvs[0])
    ensures |ptvs| == 1 ==> MaxMerged(st, ptvs).ptvmax == Some(GesName)
  {
    UserMergedWins(st, ptvs);
  }

  /** When the plans name no structure at all but an organ at risk exists, the organ step
      dereferences the null target: the run throws with `tmp` left in the set, after the
      warnings for the suffixes found nowhere. */
  lemma {:induction false} NoPtvLeavesTmp(st: Store, plans: seq<string>)
    requires Resolve(st.names, PlanTokens(plans)) == Resolved([], Resolve(st.names, PlanTokens(plans)).missing)
    requires Where(st, x => StartsWith(x, "OAR")) != []
    ensures var r := ExecuteSpec(st, true, plans);
      && r.outcome == Threw("NullReferenceException")
      && r.st == FindOrAdd(st, "CONTROL", TmpName)
      && r.messages == Current.MissingNotices(Resolve(st.names, PlanTokens(plans)).missing)
  {
    var miss := Resolve(st.names, PlanTokens(plans)).missing;
    assert MergeStage(st, []) == Targets(st, None, []);
    assert RingsLoop(st, [], Crop, Underscore) == Run(st, Completed, []);
  }

  /** A structure in the listing is among the structures whose id starts with its own id. */
  lemma {:induction false} SelfPrefixListed(st: Store, p: string)
    requires p in st.names
    ensures p in Where(st, x => StartsWith(x, p))
  {
    assert p[..|p|] == p;
  }

  /** When the largest resolved PTV is the target, the list the crop and ring loops work on holds
      it twice: once as resolved and once as a structure whose id starts with its own id. */
  lemma {:induction false} LargestListedTwice(st: Store, ptvs: seq<string>, i: nat)
    requires WellFormed(st) && NotScratch(ptvs) && |ptvs| > 1
    requires i < |ptvs| && ptvs[i] in st.table && !IsHelperName(ptvs[i])
    requires MaxMerged(st, ptvs).ptvmax == Some(ptvs[i])
    ensures var w := MergeStage(st, ptvs).work;
      exists j :: |ptvs| <= j < |w| && w[j] == ptvs[i]
  {
    var p := ptvs[i];
    var m := MaxMerged(st, ptvs);
    MaxMergedKeeps(st, ptvs);
    assert p in ptvs && p != TmpName;
    assert p in m.st.table <==> p in st.table;
    SelfPrefixListed(m.st, p);
    var found := Where(m.st, x => StartsWith(x, p));
    var k :| 0 <= k < |found| && found[k] == p;
    assert MergeStage(st, ptvs).work == ptvs + found;
    assert (ptvs + found)[|ptvs| + k] == p;
  }

  /** A generator's null target, in place. */
  method TouchTmp(list: seq<string>, ss: StructureSet) returns (outcome: Outcome)
    requires ss.Valid()
    modifies ss
    ensures ss.Valid() && Run(ss.Current(), outcome, []) == WithoutTarget(old(ss.Current()), list)
  {
    var _ := ss.AddStructure("CONTROL", TmpName);
    if list != [] {
      return Threw("NullReferenceException");
    }
    ss.RemoveStructure(TmpName);
    outcome := Completed;
  }

  /** The organ step, in place. */
  method CropOars(ss: StructureSet, ptvmax: Option<string>) returns (outcome: Outcome)
    requires ss.Valid()
    modifies ss
    ensures ss.Valid() && Run(ss.Current(), outcome, []) == OarStage(old(ss.Current()), ptvmax)
  {
    var oars := Where(ss.Current(), x => StartsWith(x, "OAR"));
    if ptvmax.None? {
      outcome := TouchTmp(oars, ss);
    } else {
      outcome := CreateCroppedOARs(oars, ss, ptvmax.value, Crop);
    }
  }

  /** The PRV step, in place. */
  method WarnPrvs(ss: StructureSet, ptvmax: Option<string>) returns (outcome: Outcome, messages: seq<string>)
    requires ss.Valid()
    modifies ss
    ensures ss.Valid() && Run(ss.Current(), outcome, messages) == PrvStage(old(ss.Current()), ptvmax)
  {
    var prvs := Where(ss.Current(), x => StartsWith(x, "PRV"));
    if ptvmax.None? {
      outcome := TouchTmp(prvs, ss);
      messages := [];
    } else {
      messages := WarnOnPRVs(prvs, ss, ptvmax.value);
      outcome := Completed;
    }
  }

  /** Lines 57-66 in place: the target and the list the later steps work on. */
  method MergeTargets(ptvs: seq<string>, ss: StructureSet) returns (ptvmax: Option<string>, work: seq<string>)
    requires ss.Valid()
    modifies ss
    ensures ss.Valid() && Targets(ss.Current(), ptvmax, work) == MergeStage(old(ss.Current()), ptvs)
  {
    if |ptvs| > 1 {
      ptvmax := CreateMaxMergedPTV(ptvs, ss);
      work := ptvs + Where(ss.Current(), x => StartsWith(x, ptvmax.value));
    } else {
      ptvmax := if ptvs == [] then None else Some(ptvs[0]);
      work := ptvs;
    }
  }

  /** `Execute(context)` of the 21.02.22 version. */
  method Execute(loaded: bool, plans: seq<string>, ss: StructureSet) returns (outcome: Outcome, messages: seq<string>)
    requires ss.Valid()
    modifies ss
    ensures ss.Valid() && Run(ss.Current(), outcome, messages) == ExecuteSpec(old(ss.Current()), loaded, plans)
  {
    if !loaded {
      return Completed, [LoadMessage];
    }
    ghost var s0 := ss.Current();
    var ids := GatherPlanTokens(plans);
    var res := ResolvePtvs(ss.names, ids);
    messages := Current.MissingNotices(res.missing);
    if res.Ambiguous? {
      return Threw("InvalidOperationException"), messages;
    }
    var ptvmax, work := MergeTargets(res.ptvs, ss);
    if |work| > 1 {
      SingleCrop.CreateCroppedPTVs(work, ss, Of210222);
    }
    var notices := CreateRings(work, ss, Crop, Underscore);
    messages := messages + notices;
    outcome := CropOars(ss, ptvmax);
    if outcome.Threw? {
      return;
    }
    var warnings;
    outcome, warnings := WarnPrvs(ss, ptvmax);
    messages := messages + warnings;
  }
}
