/** `WarnOnPRVs`: tell the user which planning organ-at-risk volumes (PRVs) overlap the given PTV.
    The current script and the 21.02.22 version share this method. */
module Prvs {
  import opened Text
  import opened Geometry
  import opened Structures
  import opened Results

  /** What the loop carries: the set, the message built so far and the number of overlaps. */
  datatype Report = Report(st: Store, message: string, count: nat)

  /** One pass for `p`: `tmp` gets the overlap, and a non-empty overlap appends the id. */
  function PrvStep(r: Report, ptv: string, p: string): Report
    requires TmpName in r.st.table
  {
    var s1 := SetVox(r.st, TmpName, Vox(r.st, ptv) * Vox(r.st, p));
    if Volume(Vox(s1, TmpName)) != 0
    then Report(s1, r.message + (if r.count > 0 then ", " else "") + p, r.count + 1)
    else Report(s1, r.message, r.count)
  }

  /** The `foreach` over `ps`. */
  function PrvLoop(st: Store, ptv: string, ps: seq<string>): (r: Report)
    requires TmpName in st.table
    ensures r.st.names == st.names && r.st.table.Keys == st.table.Keys
    ensures forall n :: n != TmpName && n in st.table ==> r.st.table[n] == st.table[n]
  {
    if ps == [] then Report(st, "", 0) else PrvStep(PrvLoop(st, ptv, ps[..|ps| - 1]), ptv, ps[|ps| - 1])
  }

  /** The message box shown after the loop, if any. */
  function Warning(message: string, count: nat): seq<string>
  {
    if message != "" && count > 1 then ["Strukturen " + message + " überlappen mit einem PTV"]
    else if message != "" && count == 1 then ["Struktur " + message + " überlappt mit einem PTV"]
    else []
  }

  /** `WarnOnPRVs(prvs, ss, ptvmax)` on a snapshot. */
  function WarnOnPrvsSpec(st: Store, prvs: seq<string>, ptv: string): Run
  {
    var r := PrvLoop(FindOrAdd(st, "CONTROL", TmpName), ptv, prvs);
    Run(Delete(r.st, TmpName), Completed, Warning(r.message, r.count))
  }

  /** The PRVs of `ps` that share a voxel with the PTV, in order. */
  function Overlapping(st: Store, ptv: string, ps: seq<string>): seq<string>
  {
    Filter(ps, p => Vox(st, ptv) * Vox(st, p) != {})
  }

  /** The loop reports exactly the overlapping PRVs, joined by `", "`, and counts them. */
  lemma {:induction false} PrvLoopReports(st: Store, ptv: string, ps: seq<string>)
    requires TmpName in st.table && ptv != TmpName && TmpName !in ps
    ensures var r := PrvLoop(st, ptv, ps);
      r.message == Join(Overlapping(st, ptv, ps), ", ") && r.count == |Overlapping(st, ptv, ps)|
  {
    if ps != [] {
      var pre, p := ps[..|ps| - 1], ps[|ps| - 1];
      assert TmpName !in pre by {
        assert forall x :: x in pre ==> x in ps;
      }
      PrvLoopReports(st, ptv, pre);
      var r := PrvLoop(st, ptv, pre);
      assert Vox(r.st, p) == Vox(st, p) && Vox(r.st, ptv) == Vox(st, ptv);
    }
  }

  /** The set afterwards is the one before, without `tmp`; it shows no error. */
  lemma {:induction false} WarnOnPrvsState(st: Store, prvs: seq<string>, ptv: string)
    ensures var r := WarnOnPrvsSpec(st, prvs, ptv);
      && r.outcome == Completed
      && TmpName !in r.st.table
      && (forall n :: n != TmpName ==>
            (n in r.st.table <==> n in st.table) && (n in st.table ==> r.st.table[n] == st.table[n]))
      && KeepsUserStructures(st, r.st)
      && (WellFormed(st) ==> WellFormed(r.st))
  {
  }

  /** No overlap, no message; one overlap names the PRV in the singular; several overlaps list them
      in the plural. */
  lemma {:induction false} WarnOnPrvsMessages(st: Store, prvs: seq<string>, ptv: string)
    requires ptv != TmpName && TmpName !in prvs && forall p :: p in prvs ==> p != ""
    ensures var r, o := WarnOnPrvsSpec(st, prvs, ptv), Overlapping(st, ptv, prvs);
      && (|o| == 0 ==> r.messages == [])
      && (|o| == 1 ==> r.messages == ["Struktur " + o[0] + " überlappt mit einem PTV"])
      && (|o| > 1 ==> r.messages == ["Strukturen " + Join(o, ", ") + " überlappen mit einem PTV"])
  {
    var s1 := FindOrAdd(st, "CONTROL", TmpName);
    PrvLoopReports(s1, ptv, prvs);
    var o := Overlapping(s1, ptv, prvs);
    assert o == Overlapping(st, ptv, prvs) by {
      OverlappingFrame(s1, st, ptv, prvs);
    }
    if |o| == 1 {
      assert o[0] in prvs;
      assert Join(o, ", ") == o[0];
    } else if |o| > 1 {
      JoinNonEmpty(o, ", ");
    }
  }

  /** The overlap list only reads the PTV's and the listed segments. */
  lemma {:induction false} OverlappingFrame(a: Store, b: Store, ptv: string, ps: seq<string>)
    requires Vox(a, ptv) == Vox(b, ptv) && forall p :: p in ps ==> Vox(a, p) == Vox(b, p)
    ensures Overlapping(a, ptv, ps) == Overlapping(b, ptv, ps)
  {
    if ps != [] {
      OverlappingFrame(a, b, ptv, ps[..|ps| - 1]);
    }
  }

  /** Joining at least two ids gives a non-empty text. */
  lemma {:induction false} JoinNonEmpty(xs: seq<string>, sep: string)
    requires |xs| > 1 && sep != ""
    ensures Join(xs, sep) != ""
  {
    assert |Join(xs, sep)| >= |sep|;
  }

  /** One pass of the `foreach` of `WarnOnPRVs`, in place. */
  method PrvFor(ptv: string, p: string, ss: StructureSet, message: string, count: nat)
    returns (message': string, count': nat)
    requires ss.Valid() && TmpName in ss.table
    modifies ss
    ensures ss.Valid() && TmpName in ss.table
    ensures Report(ss.Current(), message', count') == PrvStep(Report(old(ss.Current()), message, count), ptv, p)
  {
    message', count' := message, count;
    ss.SetSegment(TmpName, Vox(ss.Current(), ptv) * Vox(ss.Current(), p));
    if Volume(Vox(ss.Current(), TmpName)) != 0 {
      if count' > 0 {
        message' := message' + ", ";
      }
      message' := message' + p;
      count' := count' + 1;
    }
  }

  /** `WarnOnPRVs(prvs, ss, ptvmax)`. */
  method WarnOnPRVs(prvs: seq<string>, ss: StructureSet, ptv: string) returns (messages: seq<string>)
    requires ss.Valid()
    modifies ss
    ensures ss.Valid() && Run(ss.Current(), Completed, messages) == WarnOnPrvsSpec(old(ss.Current()), prvs, ptv)
  {
    var _ := ss.AddStructure("CONTROL", TmpName);
    var message, count := ReportEach(prvs, ss, ptv);
    messages := Warning(message, count);
    ss.RemoveStructure(TmpName);
  }

  /** The `foreach` over the PRVs, in place, with `tmp` in the set (the loop of `WarnOnPRVs`, and
      the PRV loop of the 18.02.22 `Execute`). */
  method ReportEach(prvs: seq<string>, ss: StructureSet, ptv: string) returns (message: string, count: nat)
    requires ss.Valid() && TmpName in ss.table
    modifies ss
    ensures ss.Valid() && TmpName in ss.table
    ensures Report(ss.Current(), message, count) == PrvLoop(old(ss.Current()), ptv, prvs)
  {
    message, count := "", 0;
    ghost var s1 := ss.Current();
    for i := 0 to |prvs|
      invariant ss.Valid() && TmpName in ss.table
      invariant Report(ss.Current(), message, count) == PrvLoop(s1, ptv, prvs[..i])
    {
      assert prvs[..i + 1][..i] == prvs[..i];
      message, count := PrvFor(ptv, prvs[i], ss, message, count);
    }
    assert prvs[..|prvs|] == prvs;
  }
}
