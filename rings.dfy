/** `CreateRings` of the 21.02.22 version and the ring loop of the 18.02.22 `Execute`: every listed
    PTV gets a ring of its own, `z_Ring_<id>`, holding its 20 mm margin minus its crop margin.
    A ring that already has a segment is left alone, and the first misnamed PTV ends the loop. */
module Rings {
  import opened Text
  import opened Geometry
  import opened Structures
  import opened Results
  import opened Ring

  /** The ring of one PTV, built into the ring structure `name`: the 20 mm margin of `t` is added,
      the crop margin of `t` is taken out, and the ring is coloured and coded. */
  function OwnRing(s1: Store, name: string, t: string, crop: int): (r: Store)
    requires name in s1.table
    ensures r.names == s1.names && r.table.Keys == s1.table.Keys
    ensures forall n :: n != name && n in s1.table ==> r.table[n] == s1.table[n]
    ensures r.table[name].color == RingColor && r.table[name].code == RingCode
  {
    var s2 := SetVox(s1, name, Vox(s1, name) + Margin(Vox(s1, t), RingWidth));
    var s3 := SetVox(s2, name, Vox(s2, name) - Margin(Vox(s2, t), crop));
    SetCode(SetColor(s3, name, RingColor), name, RingCode)
  }

  /** One pass for the PTV `t`. A misnamed PTV shows the warning, which ends the loop. */
  function RingsStep(st: Store, t: string, crop: int, pat: RingPattern): Run
  {
    var id := RingSuffix(t, pat);
    if id == "" then Run(st, Completed, [WrongPtvMessage])
    else
      var name := "z_Ring_" + id;
      var s1 := FindOrAdd(st, "CONTROL", name);
      if IsEmpty(s1, name) then Run(OwnRing(s1, name, t, crop), Completed, [])
      else Run(s1, Completed, [])
  }

  /** The `foreach` over `ts`; once the warning is shown (`break`) no later PTV is looked at. */
  function RingsLoop(st: Store, ts: seq<string>, crop: int, pat: RingPattern): Run
  {
    if ts == [] then Run(st, Completed, [])
    else
      var r := RingsLoop(st, ts[..|ts| - 1], crop, pat);
      if r.messages != [] then r else RingsStep(r.st, ts[|ts| - 1], crop, pat)
  }

  /** A PTV is never its own ring: the ring id starts with `z_Ring_`, which cannot hold the
      `PTV` the group was matched after. */
  lemma {:induction false} RingIsNotItsPtv(t: string, pat: RingPattern)
    requires RingSuffix(t, pat) != ""
    ensures t != "z_Ring_" + RingSuffix(t, pat)
  {
    var g := RingSuffix(t, pat);
    RingSuffixLeftmost(t, 0, pat);
    var k :| 0 <= k <= |t| && RingMatchAt(t, k, pat) == Some(g);
    if |t| == 7 + |g| {
      assert t[..7][k] == 'P';
      assert t[..7] != "z_Ring_";
    }
  }

  /** A well-named PTV whose ring is missing or empty gets the ring: its 20 mm margin minus its crop
      margin, with the ring colour and code; nothing else changes. A ring that has a segment already
      is left as it is. A misnamed PTV changes nothing and shows the warning. */
  lemma {:induction false} RingsStepContents(st: Store, t: string, crop: int, pat: RingPattern)
    ensures var r, id := RingsStep(st, t, crop, pat), RingSuffix(t, pat);
      && r.outcome == Completed
      && (id == "" ==> r.st == st && r.messages == [WrongPtvMessage])
      && (id != "" ==>
            var name := "z_Ring_" + id;
            && r.messages == []
            && name in r.st.table
            && (r.st.names == st.names || r.st.names == st.names + [name])
            && (forall n :: n != name ==>
                  (n in r.st.table <==> n in st.table) && (n in st.table ==> r.st.table[n] == st.table[n]))
            && (name in st.table && !IsEmpty(st, name) ==> r.st == st)
            && (IsEmpty(st, name) ==>
                  Vox(r.st, name) == Margin(Vox(st, t), RingWidth) - Margin(Vox(st, t), crop)
                  && r.st.table[name].color == RingColor && r.st.table[name].code == RingCode))
  {
    var id := RingSuffix(t, pat);
    if id != "" {
      RingIsNotItsPtv(t, pat);
    }
  }

  /** Only rings, all `z_` helpers, can change, `tmp` is neither added nor removed, and the listing
      stays well formed. */
  lemma {:induction false} RingsStepKeeps(st: Store, t: string, crop: int, pat: RingPattern)
    ensures var r := RingsStep(st, t, crop, pat);
      && KeepsUserStructures(st, r.st)
      && (TmpName in r.st.table <==> TmpName in st.table)
      && st.table.Keys <= r.st.table.Keys
      && (RingSuffix(t, pat) != "" ==> "z_Ring_" + RingSuffix(t, pat) in r.st.table)
      && (WellFormed(st) ==> WellFormed(r.st))
  {
    var id := RingSuffix(t, pat);
    if id != "" {
      var name := "z_Ring_" + id;
      assert name[..2] == "z_" && name[0] != TmpName[0];
    }
  }

  /** The whole loop changes only rings, keeps `tmp` as it was, never removes a structure and
      keeps the listing well formed. */
  lemma {:induction false} RingsLoopKeeps(st: Store, ts: seq<string>, crop: int, pat: RingPattern)
    ensures var r := RingsLoop(st, ts, crop, pat);
      && r.outcome == Completed
      && KeepsUserStructures(st, r.st)
      && (TmpName in r.st.table <==> TmpName in st.table)
      && st.table.Keys <= r.st.table.Keys
      && (WellFormed(st) ==> WellFormed(r.st))
  {
    if ts != [] {
      var r := RingsLoop(st, ts[..|ts| - 1], crop, pat);
      RingsLoopKeeps(st, ts[..|ts| - 1], crop, pat);
      if r.messages == [] {
        RingsStepKeeps(r.st, ts[|ts| - 1], crop, pat);
        KeepsTransitive(st, r.st, RingsStep(r.st, ts[|ts| - 1], crop, pat).st);
      }
    }
  }

  /** Some listed PTV does not match the ring pattern. */
  predicate Misnamed(ts: seq<string>, pat: RingPattern) {
    exists k :: 0 <= k < |ts| && RingSuffix(ts[k], pat) == ""
  }

  /** One pass shows the warning exactly for a misnamed PTV. */
  lemma {:induction false} RingsStepWarns(st: Store, t: string, crop: int, pat: RingPattern)
    ensures RingsStep(st, t, crop, pat).messages == if RingSuffix(t, pat) == "" then [WrongPtvMessage] else []
  {
  }

  /** The loop shows the warning exactly when some listed PTV is misnamed, and shows it once. */
  lemma {:induction false} RingsLoopWarns(st: Store, ts: seq<string>, crop: int, pat: RingPattern)
    ensures RingsLoop(st, ts, crop, pat).messages == if Misnamed(ts, pat) then [WrongPtvMessage] else []
  {
    if ts != [] {
      var pre, t := ts[..|ts| - 1], ts[|ts| - 1];
      RingsLoopWarns(st, pre, crop, pat);
      var r := RingsLoop(st, pre, crop, pat);
      if Misnamed(pre, pat) {
        var k :| 0 <= k < |pre| && RingSuffix(pre[k], pat) == "";
        assert ts[k] == pre[k];
        assert Misnamed(ts, pat);
      } else {
        RingsStepWarns(r.st, t, crop, pat);
        if RingSuffix(t, pat) == "" {
          assert ts[|ts| - 1] == t;
          assert Misnamed(ts, pat);
        } else {
          forall k | 0 <= k < |ts| ensures RingSuffix(ts[k], pat) != "" {
            if k < |pre| {
              assert pre[k] == ts[k];
            }
          }
        }
      }
    }
  }

  /** Every PTV up to and including the first misnamed one has been looked at: each well-named one
      among them has its ring in the set afterwards. */
  lemma {:induction false} RingsLoopCovers(st: Store, ts: seq<string>, crop: int, pat: RingPattern, k: nat)
    requires k < |ts| && forall j :: 0 <= j <= k ==> RingSuffix(ts[j], pat) != ""
    ensures "z_Ring_" + RingSuffix(ts[k], pat) in RingsLoop(st, ts, crop, pat).st.table
  {
    var pre, t := ts[..|ts| - 1], ts[|ts| - 1];
    var r := RingsLoop(st, pre, crop, pat);
    var name := "z_Ring_" + RingSuffix(ts[k], pat);
    if k < |pre| {
      assert forall j :: 0 <= j <= k ==> pre[j] == ts[j];
      RingsLoopCovers(st, pre, crop, pat, k);
      assert name in r.st.table;
      if r.messages == [] {
        RingsStepKeeps(r.st, t, crop, pat);
        assert RingsLoop(st, ts, crop, pat) == RingsStep(r.st, t, crop, pat);
      } else {
        assert RingsLoop(st, ts, crop, pat) == r;
      }
    } else {
      RingsLastCovered(st, ts, crop, pat);
    }
  }

  /** When no PTV of the list is misnamed, the last one has its ring in the set afterwards. */
  lemma {:induction false} RingsLastCovered(st: Store, ts: seq<string>, crop: int, pat: RingPattern)
    requires ts != [] && forall j :: 0 <= j < |ts| ==> RingSuffix(ts[j], pat) != ""
    ensures "z_Ring_" + RingSuffix(ts[|ts| - 1], pat) in RingsLoop(st, ts, crop, pat).st.table
  {
    var pre, t := ts[..|ts| - 1], ts[|ts| - 1];
    var r := RingsLoop(st, pre, crop, pat);
    RingsLoopWarns(st, pre, crop, pat);
    assert !Misnamed(pre, pat) by {
      assert forall j :: 0 <= j < |pre| ==> pre[j] == ts[j];
    }
    assert r.messages == [];
    RingsStepKeeps(r.st, t, crop, pat);
    assert RingsLoop(st, ts, crop, pat) == RingsStep(r.st, t, crop, pat);
  }

  /** Once the warning is shown, the rest of the list is not looked at. */
  lemma {:induction false} RingsLoopStopped(st: Store, ts: seq<string>, n: nat, crop: int, pat: RingPattern)
    requires n <= |ts| && RingsLoop(st, ts[..n], crop, pat).messages != []
    ensures RingsLoop(st, ts, crop, pat) == RingsLoop(st, ts[..n], crop, pat)
    decreases |ts| - n
  {
    if n < |ts| {
      assert ts[..n + 1][..n] == ts[..n];
      RingsLoopStopped(st, ts, n + 1, crop, pat);
    } else {
      assert ts[..n] == ts;
    }
  }

  /** One pass of the ring `foreach`, in place. */
  method RingFor(t: string, ss: StructureSet, crop: int, pat: RingPattern) returns (messages: seq<string>)
    requires ss.Valid()
    modifies ss
    ensures ss.Valid() && Run(ss.Current(), Completed, messages) == RingsStep(old(ss.Current()), t, crop, pat)
  {
    var id := RingSuffix(t, pat);
    if id == "" {
      return [WrongPtvMessage];
    }
    messages := [];
    var name := "z_Ring_" + id;
    var _ := ss.AddStructure("CONTROL", name);
    ghost var s1 := ss.Current();
    if IsEmpty(ss.Current(), name) {
      ss.SetSegment(name, Vox(ss.Current(), name) + Margin(Vox(ss.Current(), t), RingWidth));
      ss.SetSegment(name, Vox(ss.Current(), name) - Margin(Vox(ss.Current(), t), crop));
      ss.SetStructureColor(name, RingColor);
      ss.SetStructureCode(name, RingCode);
      assert ss.Current() == OwnRing(s1, name, t, crop);
    }
  }

  /** `CreateRings(ptvs, ss, scd, cropmm)` (and the ring loop of the 18.02.22 `Execute`, with the
      optional-underscore pattern and a crop of 3 mm). */
  method CreateRings(ptvs: seq<string>, ss: StructureSet, crop: int, pat: RingPattern) returns (messages: seq<string>)
    requires ss.Valid()
    modifies ss
    ensures ss.Valid() && Run(ss.Current(), Completed, messages) == RingsLoop(old(ss.Current()), ptvs, crop, pat)
  {
    ghost var s0 := ss.Current();
    messages := [];
    for i := 0 to |ptvs|
      invariant ss.Valid() && Run(ss.Current(), Completed, messages) == RingsLoop(s0, ptvs[..i], crop, pat)
      invariant messages == []
    {
      assert ptvs[..i + 1][..i] == ptvs[..i];
      messages := RingFor(ptvs[i], ss, crop, pat);
      if messages != [] {
        RingsLoopStopped(s0, ptvs, i + 1, crop, pat);
        return;
      }
    }
    assert ptvs[..|ptvs|] == ptvs;
  }
}
