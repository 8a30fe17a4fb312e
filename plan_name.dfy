/** Reading the target suffixes out of a plan id (`GetPTVsFromPlanname`) and resolving each
    suffix to the one structure whose id starts with `PTV_<suffix>`. */
module PlanName {
  import opened Text
  import opened Results

  /** A suffix token: `\d[A-Z]+` exactly, e.g. `1A`, `1DCBA`. */
  predicate IsToken(t: string) {
    |t| >= 2 && IsDigit(t[0]) && forall k :: 1 <= k < |t| ==> IsUpper(t[k])
  }

  // ---------------------------------------------------------------------------
  // The dash form `\d[A-Z]+?-(\d[A-Z]{3,})`, e.g. `c1A-1DCBA`

  /** The capture of the dash pattern for a match starting at `i`, if one starts there.
      The lazy `[A-Z]+?` must be followed by `-`, so it always takes the whole letter run;
      the greedy `[A-Z]{3,}` takes the whole run after the second digit, which must be 3 or longer. */
  function DashAt(s: string, i: nat): Option<string>
    requires i <= |s|
  {
    if i + 1 < |s| && IsDigit(s[i]) && IsUpper(s[i + 1]) then
      var j := i + 1 + UpperRun(s, i + 1);
      if j + 1 < |s| && s[j] == '-' && IsDigit(s[j + 1]) && UpperRun(s, j + 2) >= 3
      then Some(s[j + 1..j + 2 + UpperRun(s, j + 2)])
      else None
    else None
  }

  /** `Regex.Match` of the dash pattern: the leftmost match's capture, or None. */
  function DashCapture(s: string, i: nat): (c: Option<string>)
    requires i <= |s|
    ensures c.Some? ==> IsToken(c.value) && |c.value| >= 4
    decreases |s| - i
  {
    if i == |s| then None
    else match DashAt(s, i)
      case Some(c) => Some(c)
      case None => DashCapture(s, i + 1)
  }

  /** The dash form's list: the captured token, then repeatedly index 1 deleted while longer than 1. */
  function Chain(c: string): seq<string>
    decreases |c|
  {
    if |c| <= 1 then [] else [c] + Chain(RemoveAt(c, 1))
  }

  /** The chain holds `|c| - 1` ids; the `k`-th keeps the digit and drops the first `k` letters,
      so each is one shorter than the one before and the last has length 2. */
  lemma {:induction false} ChainShape(c: string)
    requires |c| >= 1
    ensures |Chain(c)| == |c| - 1
    ensures forall k :: 0 <= k < |Chain(c)| ==> Chain(c)[k] == c[..1] + c[k + 1..]
    decreases |c|
  {
    if |c| > 1 {
      var d := RemoveAt(c, 1);
      ChainShape(d);
      forall k | 0 <= k < |Chain(c)| ensures Chain(c)[k] == c[..1] + c[k + 1..] {
        if k > 0 {
          assert Chain(c)[k] == Chain(d)[k - 1];
          assert d[..1] + d[k..] == c[..1] + c[k + 1..];
        }
      }
    }
  }

  /** Every id of the chain of a token is a token. */
  lemma {:induction false} ChainTokens(c: string)
    requires IsToken(c)
    ensures forall t :: t in Chain(c) ==> IsToken(t)
  {
    ChainShape(c);
    forall t | t in Chain(c) ensures IsToken(t) {
      var k :| 0 <= k < |Chain(c)| && Chain(c)[k] == t;
    }
  }

  // ---------------------------------------------------------------------------
  // The enumerated form: every match of `\d[A-Z]+`, e.g. `c1A1BA1CBA1DCBA`

  /** `Regex.Matches(s, @"\d[A-Z]+")` from position `i`: non-overlapping, left to right,
      each match taking the whole letter run. */
  function TokensFrom(s: string, i: nat): (ts: seq<string>)
    requires i <= |s|
    decreases |s| - i
  {
    if i + 1 >= |s| then []
    else if IsDigit(s[i]) && IsUpper(s[i + 1]) then
      var e := i + 1 + UpperRun(s, i + 1);
      [s[i..e]] + TokensFrom(s, e)
    else TokensFrom(s, i + 1)
  }

  /** `t` is a token that occurs in `s` at or after `i` and is not followed by another
      upper-case letter. */
  ghost predicate MaximalMatch(s: string, t: string, i: nat) {
    IsToken(t) && exists p :: i <= p && OccursAt(s, t, p) && (p + |t| == |s| || !IsUpper(s[p + |t|]))
  }

  /** Each match is a token that occurs in the plan id at or after `i` and is not followed by
      another upper-case letter. */
  lemma {:induction false} TokensAreMaximalMatches(s: string, i: nat)
    requires i <= |s|
    ensures forall t :: t in TokensFrom(s, i) ==> MaximalMatch(s, t, i)
    decreases |s| - i
  {
    if i + 1 < |s| {
      if IsDigit(s[i]) && IsUpper(s[i + 1]) {
        var e := i + 1 + UpperRun(s, i + 1);
        var h := s[i..e];
        TokensAreMaximalMatches(s, e);
        assert TokensFrom(s, i) == [h] + TokensFrom(s, e);
        assert IsToken(h) by {
          forall k | 1 <= k < |h| ensures IsUpper(h[k]) {
            assert h[k] == s[i + k];
          }
        }
        assert OccursAt(s, h, i) && i + |h| == e;
      } else {
        TokensAreMaximalMatches(s, i + 1);
      }
    }
  }

  /** The match of `\d[A-Z]+` that starts at `p`, if one does: a digit, then the whole run of
      upper-case letters after it, which must not be empty. */
  function MatchAt(s: string, p: nat): Option<string>
  {
    if p + 1 < |s| && IsDigit(s[p]) && IsUpper(s[p + 1]) then Some(s[p..p + 1 + UpperRun(s, p + 1)])
    else None
  }

  /** A reference reading that looks at every position from `i` on, left to right, and keeps the
      match starting there, without skipping over earlier matches. */
  function AllMatches(s: string, i: nat): seq<string>
    decreases |s| - i
  {
    if i >= |s| then []
    else if MatchAt(s, i).Some? then [MatchAt(s, i).value] + AllMatches(s, i + 1)
    else AllMatches(s, i + 1)
  }

  /** No match starts inside a run of upper-case letters. */
  lemma {:induction false} SkipLetters(s: string, j: nat, e: nat)
    requires j <= e <= |s| && forall k :: j <= k < e ==> IsUpper(s[k])
    ensures AllMatches(s, j) == AllMatches(s, e)
    decreases e - j
  {
    if j < e {
      assert MatchAt(s, j).None?;
      SkipLetters(s, j + 1, e);
    }
  }

  /** At a match, the reference reading also goes on after the match's letter run. */
  lemma {:induction false} AllMatchesAtMatch(s: string, i: nat)
    requires i + 1 < |s| && IsDigit(s[i]) && IsUpper(s[i + 1])
    ensures var e := i + 1 + UpperRun(s, i + 1);
      AllMatches(s, i) == [s[i..e]] + AllMatches(s, e)
  {
    var e := i + 1 + UpperRun(s, i + 1);
    assert MatchAt(s, i) == Some(s[i..e]);
    SkipLetters(s, i + 1, e);
  }

  /** `Regex.Matches` skipping over each match loses nothing: a match never holds a second
      digit, so the matches are exactly those starting at every digit followed by an upper-case
      letter, left to right. */
  lemma {:induction false} TokensAreAllMatches(s: string, i: nat)
    requires i <= |s|
    ensures TokensFrom(s, i) == AllMatches(s, i)
    decreases |s| - i
  {
    if i + 1 >= |s| {
      if i < |s| {
        assert MatchAt(s, i).None?;
        assert AllMatches(s, i + 1) == [];
      }
    } else if IsDigit(s[i]) && IsUpper(s[i + 1]) {
      var e := i + 1 + UpperRun(s, i + 1);
      TokensAreAllMatches(s, e);
      AllMatchesAtMatch(s, i);
    } else {
      assert MatchAt(s, i).None?;
      TokensAreAllMatches(s, i + 1);
    }
  }

  /** Every digit at or after `i` followed by an upper-case letter starts a match, which
      takes the whole letter run. */
  lemma {:induction false} TokensComplete(s: string, i: nat, p: nat)
    requires i <= p && p + 1 < |s| && IsDigit(s[p]) && IsUpper(s[p + 1])
    ensures s[p..p + 1 + UpperRun(s, p + 1)] in TokensFrom(s, i)
  {
    TokensAreAllMatches(s, i);
    MatchInAll(s, i, p);
  }

  /** The match at `p` is among the matches read from any `i <= p`. */
  lemma {:induction false} MatchInAll(s: string, i: nat, p: nat)
    requires i <= p < |s| && MatchAt(s, p).Some?
    ensures MatchAt(s, p).value in AllMatches(s, i)
    decreases p - i
  {
    if i < p {
      MatchInAll(s, i + 1, p);
    }
  }

  /** The suffix list of a plan id: the dash chain if the dash pattern matches, else all matches. */
  function Suffixes(planId: string): seq<string>
  {
    match DashCapture(planId, 0)
    case Some(c) => Chain(c)
    case None => TokensFrom(planId, 0)
  }

  /** Every suffix of either grammar is a token `\d[A-Z]+`. */
  lemma {:induction false} SuffixesAreTokens(planId: string)
    ensures forall t :: t in Suffixes(planId) ==> IsToken(t)
  {
    match DashCapture(planId, 0)
    case Some(c) => ChainTokens(c);
    case None => TokensAreMaximalMatches(planId, 0);
  }

  /** The first half of `GetPTVsFromPlanname`: the `ids` list built by the `while` loop over
      the dash capture, or by the loop over the matches. */
  method ExtractSuffixes(planId: string) returns (ids: seq<string>)
    ensures ids == Suffixes(planId)
    ensures forall t :: t in ids ==> IsToken(t)
  {
    SuffixesAreTokens(planId);
    ids := [];
    var m := DashCapture(planId, 0);
    if m.Some? {
      var childId := m.value;
      while |childId| > 1
        invariant ids + Chain(childId) == Chain(m.value)
        decreases |childId|
      {
        ids := ids + [childId];
        childId := RemoveAt(childId, 1);
      }
    } else {
      var matches := TokensFrom(planId, 0);
      for i := 0 to |matches|
        invariant ids == matches[..i]
      {
        ids := ids + [matches[i]];
      }
    }
  }

  /** `c1A-1DCBA` gives the chain made by deleting index 1: `1DCBA, 1CBA, 1BA, 1A`. */
  lemma {:induction false} DashFormExample()
    ensures Suffixes("c1A-1DCBA") == ["1DCBA", "1CBA", "1BA", "1A"]
  {
    var s := "c1A-1DCBA";
    assert UpperRun(s, 9) == 0;
    assert UpperRun(s, 8) == 1;
    assert UpperRun(s, 7) == 2;
    assert UpperRun(s, 6) == 3;
    assert UpperRun(s, 5) == 4;
    assert UpperRun(s, 3) == 0;
    assert UpperRun(s, 2) == 1;
    assert s[4..9] == "1DCBA";
    assert DashAt(s, 1) == Some("1DCBA");
    assert DashCapture(s, 0) == Some("1DCBA");
    assert RemoveAt("1DCBA", 1) == "1CBA";
    assert RemoveAt("1CBA", 1) == "1BA";
    assert RemoveAt("1BA", 1) == "1A";
    assert RemoveAt("1A", 1) == "1";
    assert Chain("1A") == ["1A"];
  }
  /** A plan id without `-` never matches the dash pattern, so it is read in the enumerated form. */
  lemma {:induction false} NoDashNoCapture(s: string, i: nat)
    requires i <= |s| && forall k :: i <= k < |s| ==> s[k] != '-'
    ensures DashCapture(s, i) == None
    decreases |s| - i
  {
    if i < |s| {
      NoDashNoCapture(s, i + 1);
    }
  }

  /** `c1A1BA1CBA1DCBA` gives its four matches in order. */
  lemma {:induction false} EnumeratedFormExample()
    ensures Suffixes("c1A1BA1CBA1DCBA") == ["1A", "1BA", "1CBA", "1DCBA"]
  {
    var s := "c1A1BA1CBA1DCBA";
    EnumeratedTail(s);
    assert TokensFrom(s, 0) == ["1A", "1BA", "1CBA", "1DCBA"];
    assert '-' !in s;
    NoDashNoCapture(s, 0);
  }

  /** The matches of `c1A1BA1CBA1DCBA` from index 1 on. */
  lemma {:induction false} EnumeratedTail(s: string)
    requires s == "c1A1BA1CBA1DCBA"
    ensures TokensFrom(s, 1) == ["1A", "1BA", "1CBA", "1DCBA"]
  {
    assert UpperRun(s, 15) == 0;
    assert UpperRun(s, 14) == 1;
    assert UpperRun(s, 13) == 2;
    assert UpperRun(s, 12) == 3;
    assert UpperRun(s, 11) == 4;
    assert UpperRun(s, 10) == 0;
    assert UpperRun(s, 9) == 1;
    assert UpperRun(s, 8) == 2;
    assert UpperRun(s, 7) == 3;
    assert UpperRun(s, 6) == 0;
    assert UpperRun(s, 5) == 1;
    assert UpperRun(s, 4) == 2;
    assert TokensFrom(s, 15) == [];
    assert s[10..15] == "1DCBA";
    assert s[6..10] == "1CBA";
    assert s[3..6] == "1BA";
    assert TokensFrom(s, 10) == ["1DCBA"];
    assert TokensFrom(s, 6) == ["1CBA", "1DCBA"];
    assert TokensFrom(s, 3) == ["1BA", "1CBA", "1DCBA"];
    assert UpperRun(s, 3) == 0;
    assert UpperRun(s, 2) == 1;
    assert s[1..3] == "1A";
  }

  /** The 21.02.22 version reads every plan of the course in the enumerated form only: the matches
      of `\d[A-Z]+` in each plan id, plan after plan. */
  function PlanTokens(plans: seq<string>): seq<string>
  {
    if plans == [] then [] else PlanTokens(plans[..|plans| - 1]) + TokensFrom(plans[|plans| - 1], 0)
  }

  /** Every gathered id is a token matched in one of the plan ids. */
  lemma {:induction false} PlanTokensFromPlans(plans: seq<string>)
    ensures forall t :: t in PlanTokens(plans) ==>
      IsToken(t) && exists j, p :: 0 <= j < |plans| && 0 <= p && OccursAt(plans[j], t, p)
  {
    if plans != [] {
      var init, last := plans[..|plans| - 1], plans[|plans| - 1];
      PlanTokensFromPlans(init);
      TokensAreMaximalMatches(last, 0);
      forall t | t in PlanTokens(plans)
        ensures IsToken(t) && exists j, p :: 0 <= j < |plans| && 0 <= p && OccursAt(plans[j], t, p)
      {
        if t in PlanTokens(init) {
          var j, p :| 0 <= j < |init| && 0 <= p && OccursAt(init[j], t, p);
          assert plans[j] == init[j];
        } else {
          assert t in TokensFrom(last, 0);
          var p :| 0 <= p && OccursAt(last, t, p) && (p + |t| == |last| || !IsUpper(last[p + |t|]));
          assert plans[|plans| - 1] == last;
        }
      }
    }
  }

  /** For one plan id without a dash both versions read the same suffixes. */
  lemma {:induction false} SinglePlanReading(planId: string)
    requires forall k :: 0 <= k < |planId| ==> planId[k] != '-'
    ensures PlanTokens([planId]) == Suffixes(planId)
  {
    NoDashNoCapture(planId, 0);
    assert [planId][..0] == [];
  }

  /** A dash plan id is read differently: the 21.02.22 version takes its two matches, not the
      chain of the token after the dash. */
  lemma {:induction false} DashPlanReading()
    ensures PlanTokens(["c1A-1DCBA"]) == ["1A", "1DCBA"]
    ensures Suffixes("c1A-1DCBA") == ["1DCBA", "1CBA", "1BA", "1A"]
  {
    DashFormExample();
    var s := "c1A-1DCBA";
    assert UpperRun(s, 9) == 0;
    assert UpperRun(s, 8) == 1;
    assert UpperRun(s, 7) == 2;
    assert UpperRun(s, 6) == 3;
    assert UpperRun(s, 5) == 4;
    assert UpperRun(s, 3) == 0;
    assert UpperRun(s, 2) == 1;
    assert s[4..9] == "1DCBA";
    assert s[1..3] == "1A";
    assert TokensFrom(s, 9) == [];
    assert TokensFrom(s, 4) == ["1DCBA"];
    assert TokensFrom(s, 3) == ["1DCBA"];
    assert TokensFrom(s, 1) == ["1A", "1DCBA"];
    assert TokensFrom(s, 0) == ["1A", "1DCBA"];
    assert ["c1A-1DCBA"][..0] == [];
  }

  /** The first loop of the 21.02.22 `GetPTVsFromPlanname`: `ids` collects the matches of every
      plan id in turn. */
  method GatherPlanTokens(plans: seq<string>) returns (ids: seq<string>)
    ensures ids == PlanTokens(plans)
  {
    ids := [];
    for i := 0 to |plans|
      invariant ids == PlanTokens(plans[..i])
    {
      assert plans[..i + 1][..i] == plans[..i];
      var matches := TokensFrom(plans[i], 0);
      ghost var before := ids;
      for j := 0 to |matches|
        invariant ids == before + matches[..j]
      {
        ids := ids + [matches[j]];
      }
      assert matches[..|matches|] == matches;
    }
    assert plans[..|plans|] == plans;
  }

  // ---------------------------------------------------------------------------
  // Resolving suffixes to structures

  /** What resolution yields: the resolved PTV ids and the suffixes found nowhere (each of which
      was reported to the user), or the first ambiguous suffix, which aborts the run. */
  datatype Resolution =
    | Resolved(ptvs: seq<string>, missing: seq<string>)
    | Ambiguous(suffix: string, missing: seq<string>)

  /** The structure ids starting with `PTV_<id>`, in the set's order. */
  function Candidates(names: seq<string>, id: string): seq<string>
  {
    Filter(names, x => StartsWith(x, "PTV_" + id))
  }

  /** The resolution loop over `ids`: a unique candidate is appended unless already listed,
      no candidate is a warning, several candidates stop everything. */
  function Resolve(names: seq<string>, ids: seq<string>): Resolution
  {
    if ids == [] then Resolved([], [])
    else match Resolve(names, ids[..|ids| - 1])
      case Ambiguous(a, miss) => Ambiguous(a, miss)
      case Resolved(ptvs, miss) =>
        var id := ids[|ids| - 1];
        var cs := Candidates(names, id);
        if |cs| == 0 then Resolved(ptvs, miss + [id])
        else if |cs| > 1 then Ambiguous(id, miss)
        else Resolved(if cs[0] in ptvs then ptvs else ptvs + [cs[0]], miss)
  }

  /** The suffix matched by exactly the structure `p`. */
  predicate UniqueMatch(names: seq<string>, id: string, p: string) {
    Candidates(names, id) == [p]
  }

  /** A resolution that succeeds met no suffix with several candidates, lists no structure twice
      and lists exactly the structures that are the unique candidate of some suffix. */
  lemma {:induction false} ResolvedPtvs(names: seq<string>, ids: seq<string>)
    requires Resolve(names, ids).Resolved?
    ensures Distinct(Resolve(names, ids).ptvs)
    ensures forall k :: 0 <= k < |ids| ==> |Candidates(names, ids[k])| <= 1
    ensures forall p :: p in Resolve(names, ids).ptvs <==> exists k :: 0 <= k < |ids| && UniqueMatch(names, ids[k], p)
  {
    if ids != [] {
      var init := ids[..|ids| - 1];
      ResolvedPtvs(names, init);
      var id := ids[|ids| - 1];
      var cs := Candidates(names, id);
      var ptvs := Resolve(names, ids).ptvs;
      var prev := Resolve(names, init).ptvs;
      assert ptvs == prev || (|cs| == 1 && cs[0] !in prev && ptvs == prev + [cs[0]]);
      forall p ensures p in ptvs <==> exists k :: 0 <= k < |ids| && UniqueMatch(names, ids[k], p) {
        if p in ptvs {
          if |cs| == 1 && p == cs[0] {
            assert UniqueMatch(names, ids[|ids| - 1], p);
          } else {
            var k :| 0 <= k < |init| && UniqueMatch(names, init[k], p);
            assert UniqueMatch(names, ids[k], p);
          }
        } else {
          forall k | 0 <= k < |ids| ensures !UniqueMatch(names, ids[k], p) {
            if k < |init| {
              assert ids[k] == init[k];
            }
          }
        }
      }
      forall k | 0 <= k < |ids| ensures |Candidates(names, ids[k])| <= 1 {
        if k < |init| {
          assert ids[k] == init[k];
        }
      }
    }
  }

  /** The first suffix whose unique candidate is `p` comes before every suffix whose unique
      candidate is `q`. */
  ghost predicate MatchedBefore(names: seq<string>, ids: seq<string>, p: string, q: string) {
    exists k :: 0 <= k < |ids| && UniqueMatch(names, ids[k], p)
      && forall j :: 0 <= j <= k ==> !UniqueMatch(names, ids[j], q)
  }

  /** A suffix matched before another stays so when a further suffix is appended. */
  lemma {:induction false} MatchedBeforeExtend(names: seq<string>, ids: seq<string>, p: string, q: string)
    requires ids != [] && MatchedBefore(names, ids[..|ids| - 1], p, q)
    ensures MatchedBefore(names, ids, p, q)
  {
    var init := ids[..|ids| - 1];
    var k :| 0 <= k < |init| && UniqueMatch(names, init[k], p)
      && forall j :: 0 <= j <= k ==> !UniqueMatch(names, init[j], q);
    assert ids[k] == init[k];
    assert forall j :: 0 <= j <= k ==> ids[j] == init[j];
  }

  /** A structure matched somewhere in `ids` precedes one that no suffix of `ids` matches. */
  lemma {:induction false} MatchedBeforeNew(names: seq<string>, ids: seq<string>, p: string, q: string)
    requires ids != [] && Resolve(names, ids[..|ids| - 1]).Resolved?
    requires p in Resolve(names, ids[..|ids| - 1]).ptvs && q !in Resolve(names, ids[..|ids| - 1]).ptvs
    ensures MatchedBefore(names, ids, p, q)
  {
    var init := ids[..|ids| - 1];
    ResolvedPtvs(names, init);
    var k :| 0 <= k < |init| && UniqueMatch(names, init[k], p);
    assert ids[k] == init[k];
    forall j | 0 <= j <= k ensures !UniqueMatch(names, ids[j], q) {
      assert ids[j] == init[j];
    }
  }

  /** The resolved PTVs are listed in the order their first suffixes come in the plan id. */
  lemma {:induction false} ResolvedOrder(names: seq<string>, ids: seq<string>)
    requires Resolve(names, ids).Resolved?
    ensures var ptvs := Resolve(names, ids).ptvs;
      forall a, b :: 0 <= a < b < |ptvs| ==> MatchedBefore(names, ids, ptvs[a], ptvs[b])
  {
    if ids != [] {
      var init := ids[..|ids| - 1];
      ResolvedOrder(names, init);
      var cs := Candidates(names, ids[|ids| - 1]);
      var ptvs := Resolve(names, ids).ptvs;
      var prev := Resolve(names, init).ptvs;
      assert ptvs == prev || (|cs| == 1 && cs[0] !in prev && ptvs == prev + [cs[0]]);
      forall a, b | 0 <= a < b < |ptvs| ensures MatchedBefore(names, ids, ptvs[a], ptvs[b]) {
        assert ptvs[a] == prev[a];
        if b < |prev| {
          assert ptvs[b] == prev[b];
          MatchedBeforeExtend(names, ids, prev[a], prev[b]);
        } else {
          MatchedBeforeNew(names, ids, prev[a], cs[0]);
        }
      }
    }
  }

  /** The warnings of a successful resolution are exactly the suffixes without a candidate, in order. */
  lemma {:induction false} ResolvedMissing(names: seq<string>, ids: seq<string>)
    requires Resolve(names, ids).Resolved?
    ensures Resolve(names, ids).missing == Filter(ids, id => |Candidates(names, id)| == 0)
  {
    if ids != [] {
      ResolvedMissing(names, ids[..|ids| - 1]);
    }
  }

  /** An ambiguous result names a suffix of the list that has several candidates. */
  lemma {:induction false} AmbiguousSuffix(names: seq<string>, ids: seq<string>)
    requires Resolve(names, ids).Ambiguous?
    ensures |Candidates(names, Resolve(names, ids).suffix)| > 1
    ensures Resolve(names, ids).suffix in ids
  {
    var init := ids[..|ids| - 1];
    if Resolve(names, init).Ambiguous? {
      AmbiguousSuffix(names, init);
      assert Resolve(names, init).suffix in ids;
    }
  }

  /** The warning shown for a suffix found nowhere. */
  function MissingMessage(id: string): string {
    "Keine Struktur mit Id PTV_" + id + " gefunden!"
  }

  /** The exception text for an ambiguous suffix (current version). */
  function AmbiguousMessage(id: string): string {
    "Mehr als ein PTV mit Id PTV_" + id + " gefunden. Bitte altes PTV umbenennen (z.B. z_PTV_" + id + ")"
  }

  /** The resolution loop of `GetPTVsFromPlanname` over the structure ids `names`
      (in `ss.Structures` order). It stops at the first ambiguous suffix. */
  method ResolvePtvs(names: seq<string>, ids: seq<string>) returns (r: Resolution)
    ensures r == Resolve(names, ids)
    ensures r.Resolved? ==> Distinct(r.ptvs) && forall p :: p in r.ptvs ==> p in names
  {
    var ptvs: seq<string> := [];
    var missing: seq<string> := [];
    for i := 0 to |ids|
      invariant Resolve(names, ids[..i]) == Resolved(ptvs, missing)
    {
      assert ids[..i + 1][..i] == ids[..i];
      var cs := Candidates(names, ids[i]);
      if |cs| == 0 {
        missing := missing + [ids[i]];
      } else if |cs| > 1 {
        r := Ambiguous(ids[i], missing);
        assert ids[..i + 1][..i] == ids[..i];
        AmbiguityIsFinal(names, ids, i + 1);
        return;
      } else if cs[0] !in ptvs {
        ptvs := ptvs + [cs[0]];
      }
    }
    assert ids[..|ids|] == ids;
    r := Resolved(ptvs, missing);
    ResolvedPtvs(names, ids);
    forall p | p in ptvs ensures p in names {
      var k :| 0 <= k < |ids| && UniqueMatch(names, ids[k], p);
      assert p in Candidates(names, ids[k]);
    }
  }

  /** Once a prefix of the suffixes is ambiguous, the whole list resolves to that ambiguity. */
  lemma {:induction false} AmbiguityIsFinal(names: seq<string>, ids: seq<string>, n: nat)
    requires n <= |ids| && Resolve(names, ids[..n]).Ambiguous?
    ensures Resolve(names, ids) == Resolve(names, ids[..n])
    decreases |ids| - n
  {
    if n < |ids| {
      assert ids[..n + 1][..n] == ids[..n];
      AmbiguityIsFinal(names, ids, n + 1);
    } else {
      assert ids[..n] == ids;
    }
  }
}
