/** `CreateRing`: a control ring around the largest PTV of the list, 20 mm wide, with every
    listed PTV kept clear by the crop distance plus 2 mm for each enclosing PTV it has. */
module Ring {
  import opened Text
  import opened Geometry
  import opened Structures
  import opened Results
  import opened Hierarchy
  import opened Merge

  /** `Color.FromArgb(255, 255, 165, 0)`. */
  const RingColor: Color := 0xFFFF_A500

  /** The structure code of a ring, by its key in the structure code dictionary. */
  const RingCode := "Ring"

  /** The outer margin of the ring: 20 mm. */
  const RingWidth := 200

  /** The extra clearance per enclosing PTV: 2 mm. */
  const LevelStep := 20

  /** The message box for a PTV id the ring pattern does not match. */
  const WrongPtvMessage := "Falsch benanntes PTV gefunden!"

  /** The two spellings of the ring pattern: `PTV_(\d?[A-z]+)` in the current and the 21.02.22
      scripts, and `PTV_?(\d?[A-z]+)`, whose underscore is optional, in the 18.02.22 version. */
  datatype RingPattern = Underscore | OptionalUnderscore

  /** The group `(\d?[A-z]+)` matched from position `j`: after a digit the letters are required;
      without one `\d?` matches nothing. */
  function GroupAt(s: string, j: nat): (g: Option<string>)
    requires j <= |s|
    ensures g.Some? ==> j + |g.value| <= |s| && |g.value| > 0 && s[j..j + |g.value|] == g.value
  {
    if j < |s| && IsDigit(s[j]) then
      var n := AzRun(s, j + 1);
      if n > 0 then Some(s[j..j + 1 + n]) else None
    else
      var n := AzRun(s, j);
      if n > 0 then Some(s[j..j + n]) else None
  }

  /** The group of the ring pattern when it matches at position `i` of `s`. With the optional
      underscore the engine first takes the `_` and falls back to `PTV` alone when the group then
      fails; as `[A-z]` holds `_`, the group then starts with the underscore. */
  function RingMatchAt(s: string, i: nat, pat: RingPattern): (g: Option<string>)
    ensures g.Some? ==> |g.value| > 0 && i + 3 + |g.value| <= |s| && s[i] == 'P'
    ensures g.Some? && pat == Underscore ==> OccursAt(s, "PTV_" + g.value, i)
    ensures g.Some? && pat == OptionalUnderscore ==>
      OccursAt(s, "PTV" + g.value, i) || OccursAt(s, "PTV_" + g.value, i)
  {
    match pat
    case Underscore => UnderscoreMatchAt(s, i)
    case OptionalUnderscore => LooseMatchAt(s, i)
  }

  /** `PTV_(\d?[A-z]+)` at position `i`. */
  function UnderscoreMatchAt(s: string, i: nat): (g: Option<string>)
    ensures g.Some? ==> |g.value| > 0 && OccursAt(s, "PTV_" + g.value, i) && s[i] == 'P'
  {
    if OccursAt(s, "PTV_", i) then
      var g := GroupAt(s, i + 4);
      if g.Some? then
        Joined(s, "PTV_", g.value, i);
        g
      else None
    else None
  }

  /** `PTV_?(\d?[A-z]+)` at position `i`. */
  function LooseMatchAt(s: string, i: nat): (g: Option<string>)
    ensures g.Some? ==> |g.value| > 0 && i + 3 + |g.value| <= |s| && s[i] == 'P'
    ensures g.Some? ==> OccursAt(s, "PTV" + g.value, i) || OccursAt(s, "PTV_" + g.value, i)
  {
    if !OccursAt(s, "PTV", i) then None
    else if OccursAt(s, "_", i + 3) && GroupAt(s, i + 4).Some? then
      var g := GroupAt(s, i + 4).value;
      assert s[i..i + 4] == "PTV_" by {
        assert s[i..i + 4] == s[i..i + 3] + s[i + 3..i + 4];
      }
      Joined(s, "PTV_", g, i);
      Some(g)
    else
      var g := GroupAt(s, i + 3);
      if g.Some? then
        Joined(s, "PTV", g.value, i);
        g
      else None
  }

  /** `p` followed by `q` occurs at `i` when `p` occurs there and `q` right after it. */
  lemma {:induction false} Joined(s: string, p: string, q: string, i: nat)
    requires OccursAt(s, p, i) && OccursAt(s, q, i + |p|)
    ensures OccursAt(s, p + q, i) && (|p| > 0 ==> s[i] == p[0])
  {
    assert s[i..i + |p| + |q|] == s[i..i + |p|] + s[i + |p|..i + |p| + |q|];
    if |p| > 0 {
      assert s[i..i + |p|][0] == s[i];
    }
  }

  /** The group of the leftmost match at or after `i`, or `""`. */
  function RingSuffixFrom(s: string, i: nat, pat: RingPattern): string
    requires i <= |s|
    decreases |s| - i
  {
    match RingMatchAt(s, i, pat)
    case Some(g) => g
    case None => if i == |s| then "" else RingSuffixFrom(s, i + 1, pat)
  }

  /** The suffix is `""` exactly when the pattern matches nowhere at or after `i`. */
  lemma {:induction false} RingSuffixEmpty(s: string, i: nat, pat: RingPattern)
    requires i <= |s|
    ensures RingSuffixFrom(s, i, pat) == "" <==> forall k :: i <= k <= |s| ==> RingMatchAt(s, k, pat).None?
    decreases |s| - i
  {
    if RingMatchAt(s, i, pat).None? && i < |s| {
      RingSuffixEmpty(s, i + 1, pat);
    }
  }

  /** A non-empty suffix is the group of the leftmost match at or after `i`. */
  lemma {:induction false} RingSuffixLeftmost(s: string, i: nat, pat: RingPattern)
    requires i <= |s| && RingSuffixFrom(s, i, pat) != ""
    ensures exists k :: (i <= k <= |s| && RingMatchAt(s, k, pat) == Some(RingSuffixFrom(s, i, pat))
      && forall j :: i <= j < k ==> RingMatchAt(s, j, pat).None?)
    decreases |s| - i
  {
    var g := RingSuffixFrom(s, i, pat);
    if RingMatchAt(s, i, pat).Some? {
      assert RingMatchAt(s, i, pat) == Some(g);
    } else {
      RingSuffixLeftmost(s, i + 1, pat);
      var k :| i + 1 <= k <= |s| && RingMatchAt(s, k, pat) == Some(g)
               && forall j :: i + 1 <= j < k ==> RingMatchAt(s, j, pat).None?;
      assert forall j :: i <= j < k ==> RingMatchAt(s, j, pat).None?;
    }
  }

  /** `ptvreg1.Match(id).Groups[1].Value`. */
  function RingSuffix(id: string, pat: RingPattern): string
  {
    RingSuffixFrom(id, 0, pat)
  }

  /** The merged PTV gets the ring `z_Ring_ges`; since `[A-z]` also takes `_`, an id with a trailing
      annotation such as `PTV_1A_2Gy` gets `z_Ring_1A_`. */
  lemma {:induction false} RingSuffixExamples()
    ensures RingSuffix("z_PTV_ges", Underscore) == "ges"
    ensures RingSuffix("PTV_1A_2Gy", Underscore) == "1A_"
  {
    var s := "z_PTV_ges";
    assert !OccursAt(s, "PTV_", 0) && !OccursAt(s, "PTV_", 1) by {
      assert s[0] == 'z' && s[1] == '_';
    }
    assert s[2..6] == "PTV_";
    assert AzRun(s, 9) == 0;
    assert AzRun(s, 8) == 1;
    assert AzRun(s, 7) == 2;
    assert AzRun(s, 6) == 3;
    assert s[6..9] == "ges";
    assert RingSuffixFrom(s, 2, Underscore) == "ges";
    var t := "PTV_1A_2Gy";
    assert t[0..4] == "PTV_";
    assert AzRun(t, 7) == 0;
    assert AzRun(t, 6) == 1;
    assert AzRun(t, 5) == 2;
    assert t[4..7] == "1A_";
  }

  /** With the optional underscore, `z_PTVges` gets `z_Ring_ges` and `PTV1A` gets `z_Ring_1A`. */
  lemma {:induction false} LooseRingSuffixExamples()
    ensures RingSuffix("z_PTVges", OptionalUnderscore) == "ges"
    ensures RingSuffix("PTV1A", OptionalUnderscore) == "1A"
  {
    var s := "z_PTVges";
    assert !OccursAt(s, "PTV", 0) && !OccursAt(s, "PTV", 1) by {
      assert s[0] == 'z' && s[1] == '_';
    }
    assert s[2..5] == "PTV";
    assert AzRun(s, 8) == 0;
    assert AzRun(s, 7) == 1;
    assert AzRun(s, 6) == 2;
    assert AzRun(s, 5) == 3;
    assert s[5..8] == "ges";
    assert RingSuffixFrom(s, 2, OptionalUnderscore) == "ges";
    var t := "PTV1A";
    assert t[0..3] == "PTV";
    assert AzRun(t, 5) == 0;
    assert AzRun(t, 4) == 1;
    assert t[3..5] == "1A";
  }

  /** `PTV_1` has no letter after its digit: the underscore pattern matches nowhere, so the PTV is
      reported as misnamed, while the optional-underscore pattern falls back to the group `_`. */
  lemma {:induction false} DigitOnlyExample()
    ensures RingSuffix("PTV_1", Underscore) == ""
    ensures RingSuffix("PTV_1", OptionalUnderscore) == "_"
  {
    var u := "PTV_1";
    assert u[0..3] == "PTV" && u[3..4] == "_" && u[0..4] == "PTV_";
    assert AzRun(u, 5) == 0;
    assert AzRun(u, 4) == 0;
    assert AzRun(u, 3) == 1;
    forall k | 1 <= k <= 5 ensures !OccursAt(u, "PTV_", k) {
      if k + 4 <= 5 {
        assert u[k..k + 4][0] == u[1] == 'T';
      }
    }
    RingSuffixEmpty(u, 0, Underscore);
  }

  /** The clearance of `c` from the ring: the crop distance plus 2 mm per enclosing listed PTV. */
  function Clearance(ptvs: seq<string>, c: string, crop: int): int
  {
    crop + LevelStep * GetParentCount(ptvs, c)
  }

  /** The voxels within the clearance of `c`. */
  function ClearZone(st: Store, all: seq<string>, c: string, crop: int): Region
  {
    Margin(Vox(st, c), Clearance(all, c, crop))
  }

  /** The `foreach` that subtracts each listed PTV's clearance margin from the ring, reading every
      segment as the loop finds it. */
  function RingCut(st: Store, ring: string, all: seq<string>, ts: seq<string>, crop: int): (r: Store)
    requires ring in st.table
    ensures r.names == st.names && r.table.Keys == st.table.Keys
    ensures forall n :: n != ring ==> Vox(r, n) == Vox(st, n)
    ensures forall n :: n != ring && n in st.table ==> r.table[n] == st.table[n]
    ensures r.table[ring] == st.table[ring].(voxels := Vox(r, ring))
    ensures Vox(r, ring) <= Vox(st, ring)
  {
    if ts == [] then st
    else
      var s := RingCut(st, ring, all, ts[..|ts| - 1], crop);
      var c := ts[|ts| - 1];
      SetVox(s, ring, Vox(s, ring) - ClearZone(s, all, c, crop))
  }

  /** The voxels kept clear of the ring by the PTVs `ts`. */
  function Exclusion(st: Store, all: seq<string>, ts: seq<string>, crop: int): Region
  {
    if ts == [] then {}
    else Exclusion(st, all, ts[..|ts| - 1], crop) + ClearZone(st, all, ts[|ts| - 1], crop)
  }

  /** `CreateRing(ptvs, ss, scd, cropmm)` on a snapshot; the crop distance is in tenths of a
      millimetre. An empty list dereferences null. */
  function CreateRingSpec(st: Store, ptvs: seq<string>, crop: int): Run
  {
    if ptvs == [] then Run(st, Threw("NullReferenceException"), [])
    else
      var top := MaxOf(st, ptvs[0], ptvs);
      var id := RingSuffix(top, Underscore);
      if id == "" then Run(st, Completed, [WrongPtvMessage])
      else
        var name := "z_Ring_" + id;
        var s1 := FindOrAdd(st, "CONTROL", name);
        if !IsEmpty(s1, name) then Run(s1, Completed, [])
        else Run(BuildRing(s1, name, top, ptvs, crop), Completed, [])
  }

  /** The body of `if (tmpring.IsEmpty)`: grow the ring around `top`, cut every listed PTV's
      clearance out of it, then colour and code it. */
  function BuildRing(s1: Store, name: string, top: string, ptvs: seq<string>, crop: int): (r: Store)
    requires name in s1.table
    ensures r.names == s1.names && r.table.Keys == s1.table.Keys
    ensures forall n :: n != name && n in s1.table ==> r.table[n] == s1.table[n]
    ensures r.table[name].color == RingColor && r.table[name].code == RingCode
  {
    var s2 := SetVox(s1, name, Vox(s1, name) + Margin(Vox(s1, top), RingWidth));
    var s3 := RingCut(s2, name, ptvs, ptvs, crop);
    SetCode(SetColor(s3, name, RingColor), name, RingCode)
  }

  /** A voxel is kept clear exactly when it lies within the clearance of some listed PTV. */
  lemma {:induction false} ExclusionMembers(st: Store, all: seq<string>, ts: seq<string>, crop: int, v: Voxel)
    ensures v in Exclusion(st, all, ts, crop) <==>
      exists k :: 0 <= k < |ts| && v in ClearZone(st, all, ts[k], crop)
  {
    if ts != [] {
      var pre := ts[..|ts| - 1];
      var last := ts[|ts| - 1];
      ExclusionMembers(st, all, pre, crop, v);
      if v in Exclusion(st, all, pre, crop) {
        var k :| 0 <= k < |pre| && v in ClearZone(st, all, pre[k], crop);
        assert ts[k] == pre[k];
      } else if v !in ClearZone(st, all, last, crop) {
        forall k | 0 <= k < |ts| ensures v !in ClearZone(st, all, ts[k], crop) {
          if k < |pre| {
            assert v !in ClearZone(st, all, pre[k], crop);
            assert pre[k] == ts[k];
          } else {
            assert ts[k] == last;
          }
        }
      }
    }
  }

  /** When the ring is not itself listed, the cut removes exactly the exclusion. */
  lemma {:induction false} RingCutRemovesExclusion(st: Store, ring: string, all: seq<string>, ts: seq<string>, crop: int)
    requires ring in st.table && ring !in ts
    ensures Vox(RingCut(st, ring, all, ts, crop), ring) == Vox(st, ring) - Exclusion(st, all, ts, crop)
  {
    if ts != [] {
      var pre := ts[..|ts| - 1];
      assert ring !in pre by {
        assert forall x :: x in pre ==> x in ts;
      }
      RingCutRemovesExclusion(st, ring, all, pre, crop);
    }
  }

  /** Built into an empty ring that is not itself listed, the ring holds every voxel within 20 mm
      of `top` that lies outside the clearance of every listed PTV. */
  lemma {:induction false} BuildRingContents(st: Store, s1: Store, name: string, top: string, ptvs: seq<string>, crop: int)
    requires name in s1.table && IsEmpty(s1, name) && name !in ptvs && top != name
    requires Vox(s1, top) == Vox(st, top) && forall t :: t in ptvs ==> Vox(s1, t) == Vox(st, t)
    ensures forall v :: v in Vox(BuildRing(s1, name, top, ptvs, crop), name) <==>
      v in Margin(Vox(st, top), RingWidth)
      && forall k :: 0 <= k < |ptvs| ==> v !in Margin(Vox(st, ptvs[k]), Clearance(ptvs, ptvs[k], crop))
  {
    var s2 := SetVox(s1, name, Vox(s1, name) + Margin(Vox(s1, top), RingWidth));
    assert Vox(s2, name) == Margin(Vox(st, top), RingWidth);
    assert forall t :: t in ptvs ==> Vox(s2, t) == Vox(st, t);
    RingCutRemovesExclusion(s2, name, ptvs, ptvs, crop);
    ExclusionFrame(s2, st, ptvs, ptvs, crop);
    forall v ensures v in Exclusion(st, ptvs, ptvs, crop) <==>
      exists k :: 0 <= k < |ptvs| && v in Margin(Vox(st, ptvs[k]), Clearance(ptvs, ptvs[k], crop))
    {
      ExclusionMembers(st, ptvs, ptvs, crop, v);
    }
  }

  /** The ring built from scratch: every voxel within 20 mm of the largest PTV that lies outside
      the clearance of every listed PTV, with the ring colour and code. */
  lemma {:induction false} RingContents(st: Store, ptvs: seq<string>, crop: int)
    requires |ptvs| > 0 && RingSuffix(MaxOf(st, ptvs[0], ptvs), Underscore) != ""
    requires var name := "z_Ring_" + RingSuffix(MaxOf(st, ptvs[0], ptvs), Underscore); IsEmpty(st, name) && name !in ptvs
    ensures var top := MaxOf(st, ptvs[0], ptvs);
      var name, r := "z_Ring_" + RingSuffix(top, Underscore), CreateRingSpec(st, ptvs, crop);
      && r.outcome == Completed && r.messages == []
      && name in r.st.table && r.st.table[name].color == RingColor && r.st.table[name].code == RingCode
      && forall v :: v in Vox(r.st, name) <==>
            v in Margin(Vox(st, top), RingWidth)
            && forall k :: 0 <= k < |ptvs| ==> v !in Margin(Vox(st, ptvs[k]), Clearance(ptvs, ptvs[k], crop))
  {
    var top := MaxOf(st, ptvs[0], ptvs);
    var name := "z_Ring_" + RingSuffix(top, Underscore);
    assert top != name by {
      MaxOfIn(st, ptvs[0], ptvs);
      assert ptvs[0] in ptvs;
    }
    var s1 := FindOrAdd(st, "CONTROL", name);
    BuildRingContents(st, s1, name, top, ptvs, crop);
  }

  /** The exclusion only reads the listed segments. */
  lemma {:induction false} ExclusionFrame(a: Store, b: Store, all: seq<string>, ts: seq<string>, crop: int)
    requires forall t :: t in ts ==> Vox(a, t) == Vox(b, t)
    ensures Exclusion(a, all, ts, crop) == Exclusion(b, all, ts, crop)
  {
    if ts != [] {
      ExclusionFrame(a, b, all, ts[..|ts| - 1], crop);
    }
  }

  /** Whatever happens, only the ring can change: it is added at the end of the listing when new,
      and a ring that already has a segment is left alone. */
  lemma {:induction false} RingOnlyTouchesRing(st: Store, ptvs: seq<string>, crop: int)
    requires |ptvs| > 0
    ensures var name, r := "z_Ring_" + RingSuffix(MaxOf(st, ptvs[0], ptvs), Underscore), CreateRingSpec(st, ptvs, crop);
      && (WellFormed(st) ==> WellFormed(r.st))
      && (r.st.names == st.names || r.st.names == st.names + [name])
      && (forall n :: n != name ==> (n in r.st.table <==> n in st.table) && (n in st.table ==> r.st.table[n] == st.table[n]))
      && (name in st.table && !IsEmpty(st, name) ==> r.st == st)
  {
    if ptvs != [] && RingSuffix(MaxOf(st, ptvs[0], ptvs), Underscore) != "" {
      var name := "z_Ring_" + RingSuffix(MaxOf(st, ptvs[0], ptvs), Underscore);
      var s1 := FindOrAdd(st, "CONTROL", name);
      assert s1.names == st.names || s1.names == st.names + [name];
    }
  }

  /** The `foreach` of `CreateRing` that cuts each listed PTV's clearance out of the ring. */
  method CutRing(ptvs: seq<string>, ss: StructureSet, name: string, crop: int)
    requires ss.Valid() && name in ss.table
    modifies ss
    ensures ss.Valid() && ss.Current() == RingCut(old(ss.Current()), name, ptvs, ptvs, crop)
  {
    ghost var s2 := ss.Current();
    for i := 0 to |ptvs|
      invariant ss.Valid() && name in ss.table
      invariant ss.Current() == RingCut(s2, name, ptvs, ptvs[..i], crop)
    {
      assert ptvs[..i + 1][..i] == ptvs[..i];
      var c := ptvs[i];
      ss.SetSegment(name, Vox(ss.Current(), name) - ClearZone(ss.Current(), ptvs, c, crop));
    }
    assert ptvs[..|ptvs|] == ptvs;
  }

  /** Whatever happens, only the ring, a `z_` helper, can change; `tmp` is neither added nor removed. */
  lemma {:induction false} RingKeeps(st: Store, ptvs: seq<string>, crop: int)
    ensures var r := CreateRingSpec(st, ptvs, crop);
      && KeepsUserStructures(st, r.st)
      && (TmpName in r.st.table <==> TmpName in st.table)
      && (WellFormed(st) ==> WellFormed(r.st))
  {
    if ptvs != [] {
      RingOnlyTouchesRing(st, ptvs, crop);
      var name := "z_Ring_" + RingSuffix(MaxOf(st, ptvs[0], ptvs), Underscore);
      assert name[..2] == "z_";
    }
  }

  /** `CreateRing(ptvs, ss, scd, cropmm)`. */
  method CreateRing(ptvs: seq<string>, ss: StructureSet, crop: int) returns (outcome: Outcome, messages: seq<string>)
    requires ss.Valid()
    modifies ss
    ensures ss.Valid()
    ensures Run(ss.Current(), outcome, messages) == CreateRingSpec(old(ss.Current()), ptvs, crop)
  {
    messages := [];
    if ptvs == [] {
      outcome := Threw("NullReferenceException");
      return;
    }
    outcome := Completed;
    var top := MaxOf(ss.Current(), ptvs[0], ptvs);
    var id := RingSuffix(top, Underscore);
    if id == "" {
      messages := [WrongPtvMessage];
      return;
    }
    var name := "z_Ring_" + id;
    var _ := ss.AddStructure("CONTROL", name);
    ghost var s1 := ss.Current();
    if IsEmpty(ss.Current(), name) {
      ss.SetSegment(name, Vox(ss.Current(), name) + Margin(Vox(ss.Current(), top), RingWidth));
      CutRing(ptvs, ss, name, crop);
      ss.SetStructureColor(name, RingColor);
      ss.SetStructureCode(name, RingCode);
      assert ss.Current() == BuildRing(s1, name, top, ptvs, crop);
    }
  }
}
