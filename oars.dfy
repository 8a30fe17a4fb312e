/** `CreateCroppedOARs`: every organ at risk that overlaps the given PTV, or comes within the crop
    distance of it, gets a helper `z_<id without its first four characters>` holding the organ
    minus the PTV's crop margin; nerves are never cropped. The current script and the 21.02.22
    version share this method. */
module Oars {
  import opened Text
  import opened Geometry
  import opened Structures
  import opened Results

  /** The structure code given to a new helper, by its key in the structure code dictionary. */
  const ControlCode := "Control"

  /** Organs whose id names a nerve or the spinal cord are never cropped. */
  predicate IsNerve(id: string) {
    Contains(id, "Spinal") || Contains(id, "HS") || Contains(id, "Opt") || Contains(id, "Chia")
  }

  /** The colour of `id`, or the colour of a new structure when the id is not in the set. */
  function ColorOf(st: Store, id: string): Color {
    if id in st.table then st.table[id].color else NewColor
  }

  /** The helper id of an organ: `"z_" + id.Substring(4)`. */
  function HelperOf(o: string): string
    requires |o| >= 4
  {
    "z_" + o[4..]
  }

  /** One pass of the `foreach` for the organ `o`, with `tmp` in the set. */
  function OarStep(st: Store, ptv: string, o: string, crop: int): (r: Run)
    requires TmpName in st.table
    ensures TmpName in r.st.table
  {
    var s1 := SetVox(st, TmpName, Vox(st, ptv) * Margin(Vox(st, o), crop));
    if Volume(Vox(s1, TmpName)) == 0 || IsNerve(o) then Run(s1, Completed, [])
    else if |o| < 4 then Run(s1, Threw("ArgumentOutOfRangeException"), [])
    else
      var h := HelperOf(o);
      var s2 := if h in s1.table then s1
                else SetCode(SetColor(FindOrAdd(s1, "CONTROL", h), h, ColorOf(s1, o)), h, ControlCode);
      if !IsEmpty(s2, h) then Run(s2, Completed, [])
      else
        var s3 := SetVox(s2, h, Vox(s2, o) - Margin(Vox(s2, ptv), crop));
        Run(if IsEmpty(s3, h) then Delete(s3, h) else s3, Completed, [])
  }

  /** The `foreach` over `os`; an exception ends the run where it happens. */
  function OarLoop(st: Store, ptv: string, os: seq<string>, crop: int): (r: Run)
    requires TmpName in st.table
    ensures TmpName in r.st.table
  {
    if os == [] then Run(st, Completed, [])
    else
      var r := OarLoop(st, ptv, os[..|os| - 1], crop);
      if r.outcome.Threw? then r else OarStep(r.st, ptv, os[|os| - 1], crop)
  }

  /** `CreateCroppedOARs(oars, ss, ptvcrop, scd, cropmm)` on a snapshot: `tmp` is found or added,
      the loop runs, and `tmp` is removed unless an exception ended the run first. */
  function CroppedOarsSpec(st: Store, oars: seq<string>, ptv: string, crop: int): Run
  {
    var r := OarLoop(FindOrAdd(st, "CONTROL", TmpName), ptv, oars, crop);
    if r.outcome.Threw? then r else Run(Delete(r.st, TmpName), Completed, [])
  }

  /** One pass changes nothing but `tmp` and helpers, and shows no message. */
  lemma {:induction false} OarStepFrame(st: Store, ptv: string, o: string, crop: int)
    requires TmpName in st.table
    ensures var r := OarStep(st, ptv, o, crop);
      && r.messages == []
      && (WellFormed(st) ==> WellFormed(r.st))
      && forall n :: n != TmpName && !IsHelperName(n) ==>
           (n in r.st.table <==> n in st.table) && (n in st.table ==> r.st.table[n] == st.table[n])
  {
    OarStepKeeps(st, ptv, o, crop);
  }

  /** The frame part of `OarStepFrame`, step by step through the pass. */
  lemma {:induction false} OarStepKeeps(st: Store, ptv: string, o: string, crop: int)
    requires TmpName in st.table
    ensures KeepsUserStructures(st, OarStep(st, ptv, o, crop).st)
  {
    var s1 := SetVox(st, TmpName, Vox(st, ptv) * Margin(Vox(st, o), crop));
    assert KeepsUserStructures(st, s1);
    if !(Volume(Vox(s1, TmpName)) == 0 || IsNerve(o)) && |o| >= 4 {
      var h := HelperOf(o);
      assert IsHelperName(h) by {
        assert h[..2] == "z_";
      }
      var s2 := if h in s1.table then s1
                else SetCode(SetColor(FindOrAdd(s1, "CONTROL", h), h, ColorOf(s1, o)), h, ControlCode);
      assert KeepsUserStructures(s1, s2);
      KeepsTransitive(st, s1, s2);
      if IsEmpty(s2, h) {
        var s3 := SetVox(s2, h, Vox(s2, o) - Margin(Vox(s2, ptv), crop));
        assert KeepsUserStructures(s2, s3);
        KeepsTransitive(st, s2, s3);
        assert KeepsUserStructures(s3, Delete(s3, h));
        KeepsTransitive(st, s3, Delete(s3, h));
      }
    }
  }

  /** The whole loop changes nothing but `tmp` and helpers: organs and PTVs keep their segment,
      colour and code. */
  lemma {:induction false} OarLoopFrame(st: Store, ptv: string, os: seq<string>, crop: int)
    requires TmpName in st.table
    ensures var r := OarLoop(st, ptv, os, crop);
      && r.messages == []
      && (WellFormed(st) ==> WellFormed(r.st))
      && forall n :: n != TmpName && !IsHelperName(n) ==>
           (n in r.st.table <==> n in st.table) && (n in st.table ==> r.st.table[n] == st.table[n])
  {
    if os != [] {
      OarLoopFrame(st, ptv, os[..|os| - 1], crop);
      var r := OarLoop(st, ptv, os[..|os| - 1], crop);
      if r.outcome.Completed? {
        OarStepFrame(r.st, ptv, os[|os| - 1], crop);
      }
    }
  }

  /** An organ that overlaps the PTV's neighbourhood and is no nerve gets its helper, when that is
      missing or empty: the organ minus the crop margin around the PTV, kept only when non-empty,
      with the organ's colour and the control code when new. A helper that exists and is not
      empty is left as it is. An organ out of reach, or a nerve, changes nothing but `tmp`. */
  lemma {:induction false} OarStepContents(st: Store, ptv: string, o: string, crop: int)
    requires TmpName in st.table && ptv != TmpName && o != TmpName
    ensures var r, near := OarStep(st, ptv, o, crop), Vox(st, ptv) * Margin(Vox(st, o), crop) != {};
      && (!near || IsNerve(o) ==> r.outcome == Completed && r.st == SetVox(st, TmpName, Vox(st, ptv) * Margin(Vox(st, o), crop)))
      && (near && !IsNerve(o) && |o| < 4 ==> r.outcome.Threw?)
      && (near && !IsNerve(o) && |o| >= 4 && IsEmpty(st, HelperOf(o)) && HelperOf(o) != o && HelperOf(o) != ptv ==>
            var h, cut := HelperOf(o), Vox(st, o) - Margin(Vox(st, ptv), crop);
            && r.outcome == Completed
            && (h in r.st.table <==> cut != {})
            && Vox(r.st, h) == cut
            && (h !in st.table && cut != {} ==>
                  r.st.table[h].color == ColorOf(st, o) && r.st.table[h].code == ControlCode))
      && (near && !IsNerve(o) && |o| >= 4 && HelperOf(o) in st.table && !IsEmpty(st, HelperOf(o)) ==>
            r == Run(SetVox(st, TmpName, Vox(st, ptv) * Margin(Vox(st, o), crop)), Completed, []))
  {
    if |o| >= 4 {
      assert HelperOf(o) != TmpName by {
        assert HelperOf(o)[0] == 'z';
      }
    }
  }

  /** Only `tmp` and helpers can change, the listing stays well formed, no message is shown,
      and after a run that completes `tmp` is gone. */
  lemma {:induction false} CroppedOarsKeeps(st: Store, oars: seq<string>, ptv: string, crop: int)
    ensures var r := CroppedOarsSpec(st, oars, ptv, crop);
      && r.messages == []
      && KeepsUserStructures(st, r.st)
      && (WellFormed(st) ==> WellFormed(r.st))
      && (r.outcome == Completed ==> TmpName !in r.st.table)
  {
    OarLoopFrame(FindOrAdd(st, "CONTROL", TmpName), ptv, oars, crop);
  }

  /** One pass of the `foreach` of `CreateCroppedOARs`, in place. */
  method OarFor(ptv: string, o: string, ss: StructureSet, crop: int) returns (outcome: Outcome)
    requires ss.Valid() && TmpName in ss.table
    modifies ss
    ensures ss.Valid() && Run(ss.Current(), outcome, []) == OarStep(old(ss.Current()), ptv, o, crop)
  {
    outcome := Completed;
    ss.SetSegment(TmpName, Vox(ss.Current(), ptv) * Margin(Vox(ss.Current(), o), crop));
    if Volume(Vox(ss.Current(), TmpName)) != 0 && !IsNerve(o) {
      if |o| < 4 {
        outcome := Threw("ArgumentOutOfRangeException");
        return;
      }
      var h := HelperOf(o);
      var color := ColorOf(ss.Current(), o);
      var created := ss.AddStructure("CONTROL", h);
      if created {
        ss.SetStructureColor(h, color);
        ss.SetStructureCode(h, ControlCode);
      }
      if IsEmpty(ss.Current(), h) {
        ss.SetSegment(h, Vox(ss.Current(), o) - Margin(Vox(ss.Current(), ptv), crop));
        if IsEmpty(ss.Current(), h) {
          ss.RemoveStructure(h);
        }
      }
    }
  }

  /** `CreateCroppedOARs(oars, ss, ptvcrop, scd, cropmm)`. */
  method CreateCroppedOARs(oars: seq<string>, ss: StructureSet, ptv: string, crop: int) returns (outcome: Outcome)
    requires ss.Valid()
    modifies ss
    ensures ss.Valid() && Run(ss.Current(), outcome, []) == CroppedOarsSpec(old(ss.Current()), oars, ptv, crop)
  {
    var _ := ss.AddStructure("CONTROL", TmpName);
    outcome := CropEach(oars, ss, ptv, crop);
    if outcome.Completed? {
      ss.RemoveStructure(TmpName);
    }
  }

  /** The `foreach` over the organs, in place, with `tmp` in the set (the loop of
      `CreateCroppedOARs`, and the organ loop of the 18.02.22 `Execute`). */
  method CropEach(oars: seq<string>, ss: StructureSet, ptv: string, crop: int) returns (outcome: Outcome)
    requires ss.Valid() && TmpName in ss.table
    modifies ss
    ensures ss.Valid() && Run(ss.Current(), outcome, []) == OarLoop(old(ss.Current()), ptv, oars, crop)
  {
    ghost var s1 := ss.Current();
    outcome := Completed;
    for i := 0 to |oars|
      invariant ss.Valid() && TmpName in ss.table
      invariant Run(ss.Current(), outcome, []) == OarLoop(s1, ptv, oars[..i], crop)
      invariant outcome == Completed
    {
      assert oars[..i + 1][..i] == oars[..i];
      outcome := OarFor(ptv, oars[i], ss, crop);
      if outcome.Threw? {
        OarLoopThrown(s1, ptv, oars, i + 1, crop);
        return;
      }
    }
    assert oars[..|oars|] == oars;
  }

  /** Once the loop has thrown, the later organs are not looked at. */
  lemma {:induction false} OarLoopThrown(st: Store, ptv: string, os: seq<string>, i: nat, crop: int)
    requires TmpName in st.table && i <= |os| && OarLoop(st, ptv, os[..i], crop).outcome.Threw?
    ensures OarLoop(st, ptv, os, crop) == OarLoop(st, ptv, os[..i], crop)
    decreases |os| - i
  {
    if i < |os| {
      assert os[..i + 1][..i] == os[..i];
      OarLoopThrown(st, ptv, os, i + 1, crop);
      assert os[..|os|] == os;
    } else {
      assert os[..i] == os;
    }
  }
}
