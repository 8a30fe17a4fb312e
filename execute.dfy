/** `Script.Execute` of the current script: resolve the PTVs named by the plan id, merge them, crop
    the organs at risk, warn about overlapping PRVs, build the ring and the cropped PTVs. */
module Execute {
  import opened Text
  import opened Geometry
  import opened Structures
  import opened Results
  import opened PlanName
  import opened Merge
  import opened Oars
  import opened Prvs
  import opened Ring
  import opened CroppedPtvs

  /** The message box shown when no plan is open. */
  const LoadPlanMessage := "Please load a plan before running this script."

  /** The crop distance every generator is called with: 3 mm. */
  const CropDistance := 30

  /** The message boxes for the suffixes found nowhere, in order. */
  function MissingNotices(ids: seq<string>): (ms: seq<string>)
    ensures |ms| == |ids| && forall i :: 0 <= i < |ids| ==> ms[i] == MissingMessage(ids[i])
  {
    seq(|ids|, i requires 0 <= i < |ids| => MissingMessage(ids[i]))
  }

  /** The list the ring and the cropped PTVs work on: the resolved PTVs, followed by every structure
      whose id starts with the merged PTV's id when that is not one of them. */
  function WorkList(st: Store, ptvs: seq<string>, ptvmax: string): seq<string>
  {
    if ptvmax in ptvs then ptvs else ptvs + Where(st, x => StartsWith(x, ptvmax))
  }

  /** `Execute` on a snapshot; `plan` is the id of the open plan, if any. */
  function ExecuteSpec(st: Store, plan: Option<string>): Run
  {
    if plan.None? then Run(st, Completed, [LoadPlanMessage])
    else
      match Resolve(st.names, Suffixes(plan.value))
      case Ambiguous(a, miss) => Run(st, Threw(AmbiguousMessage(a)), MissingNotices(miss))
      case Resolved(ptvs, miss) => Generate(st, ptvs, MissingNotices(miss))
  }

  /** Everything after the PTVs are resolved, with the messages shown so far. */
  function Generate(st: Store, ptvs: seq<string>, shown: seq<string>): Run
  {
    var m := MaxMerged(st, ptvs);
    if m.ptvmax.None? then Run(m.st, Threw("NullReferenceException"), shown)
    else AfterMerge(m.st, WorkList(m.st, ptvs, m.ptvmax.value), m.ptvmax.value, shown)
  }

  /** The organs at risk are cropped from the merged (or largest) PTV. */
  function AfterMerge(st: Store, work: seq<string>, ptvmax: string, shown: seq<string>): Run
  {
    var o := CroppedOarsSpec(st, Where(st, x => StartsWith(x, "OAR")), ptvmax, CropDistance);
    if o.outcome.Threw? then Run(o.st, o.outcome, shown)
    else AfterOars(o.st, work, ptvmax, shown)
  }

  /** The PRV warning, the ring and the cropped PTVs. */
  function AfterOars(st: Store, work: seq<string>, ptvmax: string, shown: seq<string>): Run
  {
    var w := WarnOnPrvsSpec(st, Where(st, x => StartsWith(x, "PRV")), ptvmax);
    var g := CreateRingSpec(w.st, work, CropDistance);
    if g.outcome.Threw? then Run(g.st, g.outcome, shown + w.messages + g.messages)
    else Run(CroppedPtvsSpec(g.st, work, CropDistance), Completed, shown + w.messages + g.messages)
  }

  /** Resolved PTVs start with `PTV_`, so they are neither `tmp` nor `z_PTV_ges`. */
  lemma {:induction false} ResolvedNotScratch(names: seq<string>, ids: seq<string>)
    requires Resolve(names, ids).Resolved?
    ensures NotScratch(Resolve(names, ids).ptvs)
  {
    ResolvedPtvs(names, ids);
    forall p | p in Resolve(names, ids).ptvs ensures p != TmpName && p != GesName {
      var k :| 0 <= k < |ids| && UniqueMatch(names, ids[k], p);
      assert p in Candidates(names, ids[k]);
      assert p[0] == 'P';
    }
  }

  /** The last three steps change only `tmp` and `z_` helpers and leave no `tmp` behind. */
  lemma {:induction false} AfterOarsKeeps(st: Store, work: seq<string>, ptvmax: string, shown: seq<string>)
    ensures var r := AfterOars(st, work, ptvmax, shown);
      && KeepsUserStructures(st, r.st)
      && (WellFormed(st) ==> WellFormed(r.st))
      && TmpName !in r.st.table
  {
    var prvs := Where(st, x => StartsWith(x, "PRV"));
    var w := WarnOnPrvsSpec(st, prvs, ptvmax);
    WarnOnPrvsState(st, prvs, ptvmax);
    var g := CreateRingSpec(w.st, work, CropDistance);
    RingKeeps(w.st, work, CropDistance);
    CroppedPtvsKeeps(g.st, work, CropDistance);
    KeepsTransitive(st, w.st, g.st);
    KeepsTransitive(st, g.st, CroppedPtvsSpec(g.st, work, CropDistance));
  }

  /** From the OAR step on, only `tmp` and `z_` helpers change, and a run that completes leaves no
      `tmp` behind. */
  lemma {:induction false} AfterMergeKeeps(st: Store, work: seq<string>, ptvmax: string, shown: seq<string>)
    ensures var r := AfterMerge(st, work, ptvmax, shown);
      && KeepsUserStructures(st, r.st)
      && (WellFormed(st) ==> WellFormed(r.st))
      && (r.outcome == Completed ==> TmpName !in r.st.table)
  {
    var oars := Where(st, x => StartsWith(x, "OAR"));
    var o := CroppedOarsSpec(st, oars, ptvmax, CropDistance);
    CroppedOarsKeeps(st, oars, ptvmax, CropDistance);
    if o.outcome.Completed? {
      AfterOarsKeeps(o.st, work, ptvmax, shown);
      KeepsTransitive(st, o.st, AfterOars(o.st, work, ptvmax, shown).st);
    }
  }

  /** After the PTVs are resolved, the run changes only `tmp` and `z_` helpers. */
  lemma {:induction false} GenerateKeeps(st: Store, ptvs: seq<string>, shown: seq<string>)
    requires NotScratch(ptvs)
    ensures var r := Generate(st, ptvs, shown);
      && KeepsUserStructures(st, r.st)
      && (WellFormed(st) ==> WellFormed(r.st))
      && (r.outcome == Completed ==> TmpName !in r.st.table)
  {
    var m := MaxMerged(st, ptvs);
    MaxMergedKeeps(st, ptvs);
    if m.ptvmax.Some? {
      var work := WorkList(m.st, ptvs, m.ptvmax.value);
      AfterMergeKeeps(m.st, work, m.ptvmax.value, shown);
      KeepsTransitive(st, m.st, AfterMerge(m.st, work, m.ptvmax.value, shown).st);
    }
  }

  /** A whole run changes no structure the user made: everything but `tmp` and the `z_` helpers is
      left as it was, the listing stays well formed, and a run that completes leaves no `tmp`. */
  lemma {:induction false} ExecuteKeepsUserStructures(st: Store, plan: Option<string>)
    ensures var r := ExecuteSpec(st, plan);
      && KeepsUserStructures(st, r.st)
      && (WellFormed(st) ==> WellFormed(r.st))
      && (r.outcome == Completed && plan.Some? ==> TmpName !in r.st.table)
  {
    if plan.Some? {
      var res := Resolve(st.names, Suffixes(plan.value));
      if res.Resolved? {
        ResolvedNotScratch(st.names, Suffixes(plan.value));
        GenerateKeeps(st, res.ptvs, MissingNotices(res.missing));
      }
    }
  }

  /** A plan id naming a suffix that several structures start with stops the run before anything
      changes, after the warnings for the suffixes before it that were found nowhere. */
  lemma {:induction false} ExecuteAmbiguousAborts(st: Store, plan: string)
    requires Resolve(st.names, Suffixes(plan)).Ambiguous?
    ensures var r, a := ExecuteSpec(st, Some(plan)), Resolve(st.names, Suffixes(plan)).suffix;
      && r.st == st && r.outcome == Threw(AmbiguousMessage(a))
      && a in Suffixes(plan) && |Candidates(st.names, a)| > 1
  {
    AmbiguousSuffix(st.names, Suffixes(plan));
  }

  /** `Execute(context)`: `plan` is the id of the open plan, if any. */
  method Execute(plan: Option<string>, ss: StructureSet) returns (outcome: Outcome, messages: seq<string>)
    requires ss.Valid()
    modifies ss
    ensures ss.Valid() && Run(ss.Current(), outcome, messages) == ExecuteSpec(old(ss.Current()), plan)
  {
    if plan.None? {
      return Completed, [LoadPlanMessage];
    }
    var ids := ExtractSuffixes(plan.value);
    var res := ResolvePtvs(ss.names, ids);
    messages := MissingNotices(res.missing);
    if res.Ambiguous? {
      return Threw(AmbiguousMessage(res.suffix)), messages;
    }
    var ptvmax := CreateMaxMergedPTV(res.ptvs, ss);
    if ptvmax.None? {
      return Threw("NullReferenceException"), messages;
    }
    var work := WorkList(ss.Current(), res.ptvs, ptvmax.value);
    outcome := CreateCroppedOARs(Where(ss.Current(), x => StartsWith(x, "OAR")), ss, ptvmax.value, CropDistance);
    if outcome.Threw? {
      return;
    }
    var warnings := WarnOnPRVs(Where(ss.Current(), x => StartsWith(x, "PRV")), ss, ptvmax.value);
    var notices;
    outcome, notices := CreateRing(work, ss, CropDistance);
    messages := messages + warnings + notices;
    if outcome.Threw? {
      return;
    }
    CreateCroppedPTVs(work, ss, CropDistance);
  }
}
