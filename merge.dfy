/** `CreateMaxMergedPTV`: merge the listed PTVs into `z_PTV_ges`, or fall back to the largest PTV.
    The same method is in the current script and in the 21.02.22 version. */
module Merge {
  import opened Text
  import opened Geometry
  import opened Structures
  import opened Results

  /** The merged PTV. */
  const GesName := "z_PTV_ges"

  /** What the loop carries: the structure set and the largest PTV seen so far. */
  datatype MergeState = MergeState(st: Store, ptvmax: string)

  /** One iteration over `t`, merging into `ges`: remember `t` if strictly larger, put `ges Or t`
      into `tmp`, and copy it into `ges` when that is strictly larger. */
  function MergeStep(m: MergeState, ges: string, t: string): (r: MergeState)
    requires TmpName in m.st.table && ges in m.st.table
    ensures r.st.names == m.st.names && r.st.table.Keys == m.st.table.Keys
  {
    var st := m.st;
    var ptvmax := if Volume(Vox(st, t)) > Volume(Vox(st, m.ptvmax)) then t else m.ptvmax;
    var st1 := SetVox(st, TmpName, Vox(st, ges) + Vox(st, t));
    var st2 := if Volume(Vox(st1, ges)) < Volume(Vox(st1, TmpName)) then SetVox(st1, ges, Vox(st1, TmpName)) else st1;
    MergeState(st2, ptvmax)
  }

  /** The `foreach` over `ts`. */
  function MergeLoop(m: MergeState, ges: string, ts: seq<string>): (r: MergeState)
    requires TmpName in m.st.table && ges in m.st.table
    ensures r.st.names == m.st.names && r.st.table.Keys == m.st.table.Keys
  {
    if ts == [] then m else MergeStep(MergeLoop(m, ges, ts[..|ts| - 1]), ges, ts[|ts| - 1])
  }

  /** The set once `tmp` and `z_PTV_ges` exist. */
  function Prepared(st: Store): (r: Store)
    ensures TmpName in r.table && GesName in r.table
    ensures WellFormed(st) ==> WellFormed(r)
    ensures forall x :: x != TmpName && x != GesName ==>
      (x in r.table <==> x in st.table) && (x in st.table ==> r.table[x] == st.table[x])
    ensures Vox(r, GesName) == Vox(st, GesName)
  {
    FindOrAdd(FindOrAdd(st, "CONTROL", TmpName), "PTV", GesName)
  }

  /** The structure set after the method and the structure it returns;
      None is the null dereference when the list is empty and no merged PTV exists. */
  datatype MergeResult = MergeResult(st: Store, ptvmax: Option<string>)

  /** `CreateMaxMergedPTV` on a snapshot of the structure set. */
  function MaxMerged(st: Store, ptvs: seq<string>): (r: MergeResult)
    ensures ptvs != [] ==> r.ptvmax.Some?
  {
    MergeFrom(Prepared(st), ptvs)
  }

  /** The method once `tmp` and `z_PTV_ges` exist: a non-empty `z_PTV_ges` is taken as it is;
      otherwise the loop runs and the larger of the union and the largest PTV is returned. */
  function MergeFrom(s1: Store, ptvs: seq<string>): MergeResult
    requires TmpName in s1.table && GesName in s1.table
  {
    if !IsEmpty(s1, GesName) then MergeResult(Delete(s1, TmpName), Some(GesName))
    else if ptvs == [] then MergeResult(s1, None)
    else
      var m := MergeLoop(MergeState(s1, ptvs[0]), GesName, ptvs);
      if Volume(Vox(m.st, GesName)) > Volume(Vox(m.st, m.ptvmax))
      then MergeResult(Delete(m.st, TmpName), Some(GesName))
      else MergeResult(Delete(Delete(m.st, GesName), TmpName), Some(m.ptvmax))
  }

  /** The union of the segments of `ts`. */
  function UnionOf(st: Store, ts: seq<string>): Region
  {
    if ts == [] then {} else UnionOf(st, ts[..|ts| - 1]) + Vox(st, ts[|ts| - 1])
  }

  /** `p` is the first of `ts` with the largest volume. */
  ghost predicate FirstLargest(st: Store, ts: seq<string>, p: string) {
    exists k :: 0 <= k < |ts| && ts[k] == p
      && (forall j :: 0 <= j < |ts| ==> Volume(Vox(st, ts[j])) <= Volume(Vox(st, p)))
      && (forall j :: 0 <= j < k ==> Volume(Vox(st, ts[j])) < Volume(Vox(st, p)))
  }

  /** The listed ids are ordinary structures, not the scratch or the merged one. */
  predicate NotScratch(ts: seq<string>) {
    Apart(ts, GesName)
  }

  /** The listed ids are neither `tmp` nor the structure `ges` merged into. */
  predicate Apart(ts: seq<string>, ges: string) {
    forall t :: t in ts ==> t != TmpName && t != ges
  }

  /** A union grows strictly exactly when the added part is not already inside. */
  lemma {:induction false} UnionGrows(a: Region, b: Region)
    ensures Volume(a) < Volume(a + b) <==> !(b <= a)
  {
    if !(b <= a) {
      var v :| v in b && v !in a;
      var c := a + b;
      assert c == a + (c - a) && a !! (c - a);
      assert |c| == |a| + |c - a|;
      assert v in c - a;
    } else {
      assert a + b == a;
    }
  }

  /** The loop changes no structure other than `tmp` and `z_PTV_ges`. */
  lemma {:induction false} MergeLoopFrame(m0: MergeState, ges: string, ts: seq<string>)
    requires TmpName in m0.st.table && ges in m0.st.table
    ensures forall x :: x != TmpName && x != ges && x in m0.st.table ==>
      MergeLoop(m0, ges, ts).st.table[x] == m0.st.table[x]
  {
    if ts != [] {
      MergeLoopFrame(m0, ges, ts[..|ts| - 1]);
    }
  }

  /** The loop grows `ges` by exactly the union of the listed PTVs. */
  lemma {:induction false} MergeLoopUnion(m0: MergeState, ges: string, ts: seq<string>)
    requires TmpName in m0.st.table && ges in m0.st.table && Apart(ts, ges)
    ensures Vox(MergeLoop(m0, ges, ts).st, ges) == Vox(m0.st, ges) + UnionOf(m0.st, ts)
  {
    if ts != [] {
      var pre := ts[..|ts| - 1];
      var t := ts[|ts| - 1];
      assert forall x :: x in pre ==> x in ts;
      assert t in ts;
      MergeLoopUnion(m0, ges, pre);
      MergeLoopVox(m0, ges, pre, t);
      var m := MergeLoop(m0, ges, pre);
      UnionGrows(Vox(m.st, ges), Vox(m.st, t));
    }
  }

  /** The loop reads every other structure as it was before the loop. */
  lemma {:induction false} MergeLoopVox(m0: MergeState, ges: string, ts: seq<string>, x: string)
    requires TmpName in m0.st.table && ges in m0.st.table
    requires x != TmpName && x != ges
    ensures Vox(MergeLoop(m0, ges, ts).st, x) == Vox(m0.st, x)
  {
    MergeLoopFrame(m0, ges, ts);
  }

  /** The PTV the loop remembers, computed on the segments before the loop:
      the first strictly larger one wins. */
  function MaxOf(st: Store, p0: string, ts: seq<string>): string
  {
    if ts == [] then p0
    else
      var q := MaxOf(st, p0, ts[..|ts| - 1]);
      var t := ts[|ts| - 1];
      if Volume(Vox(st, t)) > Volume(Vox(st, q)) then t else q
  }

  /** The remembered PTV is the starting one or one of the listed PTVs. */
  lemma {:induction false} MaxOfIn(st: Store, p0: string, ts: seq<string>)
    ensures MaxOf(st, p0, ts) == p0 || MaxOf(st, p0, ts) in ts
  {
    if ts != [] {
      MaxOfIn(st, p0, ts[..|ts| - 1]);
    }
  }

  /** The loop remembers `MaxOf`, since it leaves the listed segments alone. */
  lemma {:induction false} MergeLoopMax(m0: MergeState, ges: string, ts: seq<string>)
    requires TmpName in m0.st.table && ges in m0.st.table && Apart(ts, ges)
    requires m0.ptvmax != TmpName && m0.ptvmax != ges
    ensures MergeLoop(m0, ges, ts).ptvmax == MaxOf(m0.st, m0.ptvmax, ts)
  {
    if ts != [] {
      var pre, t := ts[..|ts| - 1], ts[|ts| - 1];
      assert Apart(pre, ges) by {
        assert forall x :: x in pre ==> x in ts;
      }
      MergeLoopMax(m0, ges, pre);
      MaxOfIn(m0.st, m0.ptvmax, pre);
      var m := MergeLoop(m0, ges, pre);
      assert m.ptvmax == m0.ptvmax || m.ptvmax in pre;
      assert m.ptvmax != TmpName && m.ptvmax != ges by {
        assert forall x :: x in pre ==> x in ts;
      }
      assert t in ts;
      MergeLoopVox(m0, ges, pre, t);
      MergeLoopVox(m0, ges, pre, m.ptvmax);
    }
  }

  /** `MaxOf` is at least as large as the starting PTV and every listed PTV. */
  lemma {:induction false} MaxOfBound(st: Store, p0: string, ts: seq<string>)
    ensures Volume(Vox(st, p0)) <= Volume(Vox(st, MaxOf(st, p0, ts)))
    ensures forall j :: 0 <= j < |ts| ==> Volume(Vox(st, ts[j])) <= Volume(Vox(st, MaxOf(st, p0, ts)))
  {
    if ts != [] {
      var pre := ts[..|ts| - 1];
      MaxOfBound(st, p0, pre);
      assert forall j :: 0 <= j < |pre| ==> ts[j] == pre[j];
    }
  }

  /** A `MaxOf` other than the starting PTV is strictly larger than it and is the first listed PTV
      of its volume. */
  lemma {:induction false} MaxOfFirst(st: Store, p0: string, ts: seq<string>)
    ensures var p := MaxOf(st, p0, ts);
      p == p0 ||
        (exists k :: 0 <= k < |ts| && ts[k] == p
          && Volume(Vox(st, p0)) < Volume(Vox(st, p))
          && forall j :: 0 <= j < k ==> Volume(Vox(st, ts[j])) < Volume(Vox(st, p)))
  {
    if ts != [] {
      var pre := ts[..|ts| - 1];
      MaxOfFirst(st, p0, pre);
      MaxOfBound(st, p0, pre);
      var q := MaxOf(st, p0, pre);
      var p := MaxOf(st, p0, ts);
      if p != q {
        var k := |ts| - 1;
        forall j | 0 <= j < k ensures Volume(Vox(st, ts[j])) < Volume(Vox(st, p)) {
          assert ts[j] == pre[j];
        }
        assert ts[k] == p;
      } else if p != p0 {
        var k :| 0 <= k < |pre| && pre[k] == p
          && Volume(Vox(st, p0)) < Volume(Vox(st, p))
          && forall j :: 0 <= j < k ==> Volume(Vox(st, pre[j])) < Volume(Vox(st, p));
        assert ts[k] == p;
      }
    }
  }

  /** A user-made, non-empty `z_PTV_ges` wins: it is returned and left as it is, and only `tmp`
      is removed. */
  lemma {:induction false} UserMergedWins(st: Store, ptvs: seq<string>)
    requires GesName in st.table && !IsEmpty(st, GesName)
    ensures MaxMerged(st, ptvs).ptvmax == Some(GesName)
    ensures MaxMerged(st, ptvs).st.table == st.table - {TmpName}
  {
  }

  /** The loop, run from a set whose `ges` is empty and whose listed segments are those of `st`,
      remembers `MaxOf` and leaves the union in `ges`. */
  lemma {:induction false} LoopFacts(st: Store, s1: Store, ges: string, ptvs: seq<string>)
    requires TmpName in s1.table && ges in s1.table && IsEmpty(s1, ges)
    requires |ptvs| > 0 && Apart(ptvs, ges) && forall t :: t in ptvs ==> Vox(s1, t) == Vox(st, t)
    ensures var m := MergeLoop(MergeState(s1, ptvs[0]), ges, ptvs);
      && m.ptvmax == MaxOf(st, ptvs[0], ptvs)
      && Vox(m.st, ges) == UnionOf(st, ptvs)
  {
    var m0 := MergeState(s1, ptvs[0]);
    assert ptvs[0] in ptvs;
    MergeLoopMax(m0, ges, ptvs);
    MaxOfFrame(st, s1, ptvs[0], ptvs);
    MergeLoopUnion(m0, ges, ptvs);
    UnionOfFrame(st, s1, ptvs);
  }

  /** `MaxOf` only reads the segments of the starting PTV and the listed ones. */
  lemma {:induction false} MaxOfFrame(a: Store, b: Store, p0: string, ts: seq<string>)
    requires Vox(a, p0) == Vox(b, p0) && forall t :: t in ts ==> Vox(a, t) == Vox(b, t)
    ensures MaxOf(a, p0, ts) == MaxOf(b, p0, ts)
  {
    if ts != [] {
      MaxOfFrame(a, b, p0, ts[..|ts| - 1]);
      MaxOfIn(a, p0, ts[..|ts| - 1]);
      assert forall x :: x in ts[..|ts| - 1] ==> x in ts;
    }
  }

  /** The maximum over a non-empty list started at its head is the first largest one. */
  lemma {:induction false} MaxOfIsFirstLargest(st: Store, ts: seq<string>)
    requires |ts| > 0
    ensures FirstLargest(st, ts, MaxOf(st, ts[0], ts))
  {
    var p := MaxOf(st, ts[0], ts);
    MaxOfBound(st, ts[0], ts);
    MaxOfFirst(st, ts[0], ts);
    if p == ts[0] {
      assert ts[0] == p;
    }
  }

  /** From an empty `z_PTV_ges`, `tmp` is gone afterwards, every other structure but `z_PTV_ges`
      is as it was, and `z_PTV_ges` is kept exactly when it is returned. */
  lemma {:induction false} MergeFromFrame(s1: Store, ptvs: seq<string>)
    requires TmpName in s1.table && GesName in s1.table && IsEmpty(s1, GesName)
    requires |ptvs| > 0 && NotScratch(ptvs)
    ensures var r := MergeFrom(s1, ptvs);
      && r.ptvmax.Some?
      && TmpName !in r.st.table
      && (r.ptvmax == Some(GesName) <==> GesName in r.st.table)
      && forall x :: x != TmpName && x != GesName ==>
           (x in r.st.table <==> x in s1.table) && (x in s1.table ==> r.st.table[x] == s1.table[x])
  {
    var m0 := MergeState(s1, ptvs[0]);
    var m := MergeLoop(m0, GesName, ptvs);
    assert m.ptvmax != TmpName && m.ptvmax != GesName by {
      assert ptvs[0] in ptvs;
      MaxOfIn(s1, ptvs[0], ptvs);
      MergeLoopMax(m0, GesName, ptvs);
    }
    MergeLoopFrame(m0, GesName, ptvs);
  }

  /** Without a user-made merged PTV, `tmp` is gone afterwards, every other structure but
      `z_PTV_ges` is as it was, and `z_PTV_ges` is kept exactly when it is returned. */
  lemma {:induction false} MergedFrame(st: Store, ptvs: seq<string>)
    requires |ptvs| > 0 && NotScratch(ptvs) && IsEmpty(st, GesName)
    ensures var r := MaxMerged(st, ptvs);
      && r.ptvmax.Some?
      && TmpName !in r.st.table
      && (r.ptvmax == Some(GesName) <==> GesName in r.st.table)
      && forall x :: x != TmpName && x != GesName ==>
           (x in r.st.table <==> x in st.table) && (x in st.table ==> r.st.table[x] == st.table[x])
  {
    MergeFromFrame(Prepared(st), ptvs);
  }

  /** From an empty `z_PTV_ges`, the union is kept and returned exactly when it is strictly larger
      than the remembered PTV, which is returned otherwise. */
  lemma {:induction false} MergeFromChoice(st: Store, s1: Store, ptvs: seq<string>)
    requires TmpName in s1.table && GesName in s1.table && IsEmpty(s1, GesName)
    requires |ptvs| > 0 && NotScratch(ptvs) && forall t :: t in ptvs ==> Vox(s1, t) == Vox(st, t)
    ensures var r, p := MergeFrom(s1, ptvs), MaxOf(st, ptvs[0], ptvs);
      && (Volume(UnionOf(st, ptvs)) > Volume(Vox(st, p)) ==>
            r.ptvmax == Some(GesName) && Vox(r.st, GesName) == UnionOf(st, ptvs))
      && (Volume(UnionOf(st, ptvs)) <= Volume(Vox(st, p)) ==> r.ptvmax == Some(p))
  {
    var m0 := MergeState(s1, ptvs[0]);
    LoopFacts(st, s1, GesName, ptvs);
    MaxOfIn(st, ptvs[0], ptvs);
    var p := MaxOf(st, ptvs[0], ptvs);
    assert ptvs[0] in ptvs;
    assert p != TmpName && p != GesName;
    MergeLoopVox(m0, GesName, ptvs, p);
  }

  /** Without a user-made merged PTV, the union of all listed PTVs is kept as `z_PTV_ges` and
      returned exactly when it is strictly larger than the first largest PTV; otherwise that PTV
      is returned. */
  lemma {:induction false} MergedOrLargest(st: Store, ptvs: seq<string>)
    requires |ptvs| > 0 && NotScratch(ptvs) && IsEmpty(st, GesName)
    ensures var r := MaxMerged(st, ptvs);
      && (r.ptvmax == Some(GesName) ==>
            Vox(r.st, GesName) == UnionOf(st, ptvs)
            && forall t :: t in ptvs ==> Volume(Vox(st, t)) < Volume(UnionOf(st, ptvs)))
      && (r.ptvmax != Some(GesName) ==>
            r.ptvmax.Some?
            && FirstLargest(st, ptvs, r.ptvmax.value)
            && Volume(UnionOf(st, ptvs)) <= Volume(Vox(st, r.ptvmax.value)))
  {
    var s1 := Prepared(st);
    assert forall t :: t in ptvs ==> Vox(s1, t) == Vox(st, t);
    MergeFromChoice(st, s1, ptvs);
    MaxOfIn(st, ptvs[0], ptvs);
    MaxOfBound(st, ptvs[0], ptvs);
    MaxOfIsFirstLargest(st, ptvs);
    var p := MaxOf(st, ptvs[0], ptvs);
    assert ptvs[0] in ptvs;
    assert p != GesName;
    if Volume(UnionOf(st, ptvs)) > Volume(Vox(st, p)) {
      forall t | t in ptvs ensures Volume(Vox(st, t)) < Volume(UnionOf(st, ptvs)) {
        var j :| 0 <= j < |ptvs| && ptvs[j] == t;
      }
    }
  }

  /** From a prepared set, whatever the case, only `tmp` and `z_PTV_ges` can change, and the
      listing stays well formed. */
  lemma {:induction false} MergeFromKeeps(s1: Store, ptvs: seq<string>)
    requires TmpName in s1.table && GesName in s1.table && NotScratch(ptvs)
    ensures var r := MergeFrom(s1, ptvs);
      && (WellFormed(s1) ==> WellFormed(r.st))
      && forall x :: x != TmpName && x != GesName ==>
           (x in r.st.table <==> x in s1.table) && (x in s1.table ==> r.st.table[x] == s1.table[x])
  {
    if IsEmpty(s1, GesName) && ptvs != [] {
      MergeFromFrame(s1, ptvs);
      var m := MergeLoop(MergeState(s1, ptvs[0]), GesName, ptvs);
      assert WellFormed(s1) ==> WellFormed(m.st) by {
        assert m.st.names == s1.names && m.st.table.Keys == s1.table.Keys;
      }
    }
  }

  /** Whatever the case, including the null dereference, only `tmp` and `z_PTV_ges` can change,
      and the listing stays well formed. */
  lemma {:induction false} MaxMergedKeeps(st: Store, ptvs: seq<string>)
    requires NotScratch(ptvs)
    ensures var r := MaxMerged(st, ptvs);
      && KeepsUserStructures(st, r.st)
      && (WellFormed(st) ==> WellFormed(r.st))
  {
    MergeFromKeeps(Prepared(st), ptvs);
    assert GesName[..2] == "z_";
  }

  /** Each listed segment lies in the union, and the union lies in the listed segments. */
  lemma {:induction false} UnionOfBounds(st: Store, ts: seq<string>)
    ensures forall t :: t in ts ==> Vox(st, t) <= UnionOf(st, ts)
    ensures forall v :: v in UnionOf(st, ts) ==> exists t :: t in ts && v in Vox(st, t)
  {
    if ts != [] {
      UnionOfBounds(st, ts[..|ts| - 1]);
    }
  }

  /** The union only reads the listed segments. */
  lemma {:induction false} UnionOfFrame(a: Store, b: Store, ts: seq<string>)
    requires forall t :: t in ts ==> Vox(a, t) == Vox(b, t)
    ensures UnionOf(a, ts) == UnionOf(b, ts)
  {
    if ts != [] {
      UnionOfFrame(a, b, ts[..|ts| - 1]);
    }
  }

  /** The merge `foreach`, in place: the largest PTV is remembered and `ges` grows into the union. */
  method MergeSegments(ptvs: seq<string>, ss: StructureSet, ges: string) returns (max: string)
    requires ss.Valid() && TmpName in ss.table && ges in ss.table && ges != TmpName && |ptvs| > 0
    modifies ss
    ensures ss.Valid() && TmpName in ss.table && ges in ss.table
    ensures MergeState(ss.Current(), max) == MergeLoop(MergeState(old(ss.Current()), ptvs[0]), ges, ptvs)
  {
    ghost var s1 := ss.Current();
    max := ptvs[0];
    for i := 0 to |ptvs|
      invariant ss.Valid() && TmpName in ss.table && ges in ss.table
      invariant MergeState(ss.Current(), max) == MergeLoop(MergeState(s1, ptvs[0]), ges, ptvs[..i])
    {
      MergeLoopPrefix(MergeState(s1, ptvs[0]), ges, ptvs, i);
      max := MergeOne(ptvs[i], ss, ges, max);
    }
    assert ptvs[..|ptvs|] == ptvs;
  }

  /** The loop over the first `i + 1` ids is the loop over the first `i`, then one pass over the next. */
  lemma {:induction false} MergeLoopPrefix(m: MergeState, ges: string, ts: seq<string>, i: nat)
    requires TmpName in m.st.table && ges in m.st.table && i < |ts|
    ensures MergeLoop(m, ges, ts[..i + 1]) == MergeStep(MergeLoop(m, ges, ts[..i]), ges, ts[i])
  {
    assert ts[..i + 1][..i] == ts[..i];
  }

  /** One pass of the merge `foreach`, in place. */
  method MergeOne(t: string, ss: StructureSet, ges: string, max: string) returns (max': string)
    requires ss.Valid() && TmpName in ss.table && ges in ss.table && ges != TmpName
    modifies ss
    ensures ss.Valid() && TmpName in ss.table && ges in ss.table
    ensures MergeState(ss.Current(), max') == MergeStep(MergeState(old(ss.Current()), max), ges, t)
  {
    max' := max;
    if Volume(Vox(ss.Current(), t)) > Volume(Vox(ss.Current(), max)) {
      max' := t;
    }
    ss.SetSegment(TmpName, Vox(ss.Current(), ges) + Vox(ss.Current(), t));
    if Volume(Vox(ss.Current(), ges)) < Volume(Vox(ss.Current(), TmpName)) {
      ss.SetSegment(ges, Vox(ss.Current(), TmpName));
    }
  }

  /** `CreateMaxMergedPTV(ptvs, ss)`. */
  method CreateMaxMergedPTV(ptvs: seq<string>, ss: StructureSet) returns (ptvmax: Option<string>)
    requires ss.Valid()
    modifies ss
    ensures ss.Valid()
    ensures MergeResult(ss.Current(), ptvmax) == MaxMerged(old(ss.Current()), ptvs)
  {
    var _ := ss.AddStructure("CONTROL", TmpName);
    var _ := ss.AddStructure("PTV", GesName);
    assert ss.Current() == Prepared(old(ss.Current()));
    if !IsEmpty(ss.Current(), GesName) {
      ptvmax := Some(GesName);
    } else if ptvs == [] {
      ptvmax := None;
      return;
    } else {
      var max := MergeSegments(ptvs, ss, GesName);
      if Volume(Vox(ss.Current(), GesName)) > Volume(Vox(ss.Current(), max)) {
        ptvmax := Some(GesName);
      } else {
        ss.RemoveStructure(GesName);
        ptvmax := Some(max);
      }
    }
    ss.RemoveStructure(TmpName);
  }
}
