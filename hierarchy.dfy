/** Parent inference over PTV ids (`GetParentId`, `GetParentCount`): a boost PTV such as
    `PTV_1CBA` sits inside `PTV_1BA`, which sits inside `PTV_1A`; the parent id is found by
    deleting the first letter after the digit until some listed PTV id contains the result. */
module Hierarchy {
  import opened Text
  import opened Results

  /** `s` starts with `PTV_<digit><A-Z>`. */
  predicate IsPtvStart(s: string) {
    |s| >= 6 && s[..4] == "PTV_" && IsDigit(s[4]) && IsUpper(s[5])
  }

  /** `s` is exactly `PTV_\d[A-Z]+`. */
  predicate IsPtvName(s: string) {
    IsPtvStart(s) && forall k :: 5 <= k < |s| ==> IsUpper(s[k])
  }

  /** The match of `^PTV_\d[A-Z]+` in `s` (greedy), or None. */
  function PtvHead(s: string): (h: Option<string>)
    ensures h.Some? <==> IsPtvStart(s)
    ensures h.Some? ==> IsPtvName(h.value) && StartsWith(s, h.value)
    ensures h.Some? ==> |h.value| == |s| || !IsUpper(s[|h.value|])
  {
    if IsPtvStart(s) then Some(s[..5 + UpperRun(s, 5)]) else None
  }

  /** Some id of the list contains `p` (`ptvs.Any(x => x.Id.Contains(p))`). */
  predicate Listed(ids: seq<string>, p: string) {
    exists i :: 0 <= i < |ids| && Contains(ids[i], p)
  }

  /** The id `h` with the `k` letters after the digit deleted: `Ancestor("PTV_1CBA", 2) == "PTV_1A"`. */
  function Ancestor(h: string, k: nat): string
    requires 5 + k <= |h|
  {
    h[..5] + h[5 + k..]
  }

  /** `GetParentId`: the nearest id up the deletion chain that some listed id contains, or `""`. */
  function GetParentId(ids: seq<string>, child: string): (r: string)
    ensures !IsPtvStart(child) ==> r == ""
    ensures r != "" ==> IsPtvName(r) && Listed(ids, r)
    ensures r != "" ==> IsPtvStart(child) && |r| < |PtvHead(child).value|
    decreases |child|
  {
    match PtvHead(child)
    case None => ""
    case Some(h) =>
      var p := RemoveAt(h, 5);
      if Listed(ids, p) && IsPtvStart(p) then p else GetParentId(ids, p)
  }

  /** `GetParentCount`: how many times a parent can be found going up from `id`. */
  function GetParentCount(ids: seq<string>, id: string): (n: nat)
    ensures n == 0 <==> GetParentId(ids, id) == ""
    decreases |id|
  {
    var p := GetParentId(ids, id);
    if p != "" then 1 + GetParentCount(ids, p) else 0
  }

  /** The depths up the chain of `h` above step `k` that a listed id contains. */
  ghost function ListedAbove(ids: seq<string>, h: string, k: nat): set<nat>
  {
    set j: nat | k < j && j + 6 <= |h| && Listed(ids, Ancestor(h, j))
  }

  /** Deleting index 5 walks one more step up the chain. */
  lemma {:induction false} AncestorStep(h: string, k: nat)
    requires 6 + k <= |h|
    ensures RemoveAt(Ancestor(h, k), 5) == Ancestor(h, k + 1)
  {
  }

  /** From step `k` of the chain of `h`, `GetParentId` returns the nearest listed step above `k`,
      and `""` exactly when no step above `k` is listed. */
  lemma {:induction false} ParentWalk(ids: seq<string>, h: string, k: nat)
    requires IsPtvName(h) && k + 6 <= |h|
    ensures var r := GetParentId(ids, Ancestor(h, k));
      && (r == "" <==> ListedAbove(ids, h, k) == {})
      && (r != "" ==> exists j: nat :: k < j && j + 6 <= |h| && r == Ancestor(h, j)
                        && Listed(ids, r) && forall i: nat :: k < i < j ==> i !in ListedAbove(ids, h, k))
    decreases |h| - k
  {
    var a := Ancestor(h, k);
    assert IsPtvName(a);
    assert PtvHead(a) == Some(a) by {
      UpperRunToEnd(a, 5);
      assert a[..|a|] == a;
    }
    var p := RemoveAt(a, 5);
    AncestorStep(h, k);
    if k + 7 <= |h| {
      assert IsPtvStart(p);
      if Listed(ids, p) {
        assert k + 1 in ListedAbove(ids, h, k);
      } else {
        ParentWalk(ids, h, k + 1);
        assert ListedAbove(ids, h, k) == ListedAbove(ids, h, k + 1);
      }
    } else {
      assert !IsPtvStart(p);
      assert ListedAbove(ids, h, k) == {};
    }
  }

  /** A run of upper-case letters reaching the end of the string is the whole tail. */
  lemma {:induction false} UpperRunToEnd(s: string, i: nat)
    requires i <= |s| && forall k :: i <= k < |s| ==> IsUpper(s[k])
    ensures UpperRun(s, i) == |s| - i
    decreases |s| - i
  {
    if i < |s| {
      UpperRunToEnd(s, i + 1);
    }
  }

  /** `GetParentId` looks only at the `^PTV_\d[A-Z]+` prefix of the child id. */
  lemma {:induction false} ParentOfHead(ids: seq<string>, child: string)
    requires IsPtvStart(child)
    ensures GetParentId(ids, child) == GetParentId(ids, Ancestor(PtvHead(child).value, 0))
  {
    var h := PtvHead(child).value;
    assert Ancestor(h, 0) == h;
    assert PtvHead(h) == Some(h) by {
      UpperRunToEnd(h, 5);
      assert h[..|h|] == h;
    }
  }

  /** `GetParentCount` from step `k` of the chain counts the listed steps above `k`, so each
      enclosing PTV that is present adds exactly one level. */
  lemma {:induction false} CountIsListedAncestors(ids: seq<string>, h: string, k: nat)
    requires IsPtvName(h) && k + 6 <= |h|
    ensures GetParentCount(ids, Ancestor(h, k)) == |ListedAbove(ids, h, k)|
    decreases |h| - k
  {
    ParentWalk(ids, h, k);
    var r := GetParentId(ids, Ancestor(h, k));
    if r != "" {
      var j: nat :| k < j && j + 6 <= |h| && r == Ancestor(h, j) && Listed(ids, r)
                    && forall i: nat :: k < i < j ==> i !in ListedAbove(ids, h, k);
      CountIsListedAncestors(ids, h, j);
      ListedAboveSplit(ids, h, k, j);
    }
  }

  /** When `j` is the nearest listed step above `k`, the listed steps above `k` are `j` and those
      above `j`. */
  lemma {:induction false} ListedAboveSplit(ids: seq<string>, h: string, k: nat, j: nat)
    requires k < j && j + 6 <= |h| && Listed(ids, Ancestor(h, j))
    requires forall i: nat :: k < i < j ==> i !in ListedAbove(ids, h, k)
    ensures |ListedAbove(ids, h, k)| == 1 + |ListedAbove(ids, h, j)|
  {
    var above, upper := ListedAbove(ids, h, k), ListedAbove(ids, h, j);
    assert j in above;
    forall i: nat ensures i in above <==> i == j || i in upper {
      if i in above && i != j {
        assert !(k < i < j);
      }
    }
    assert above == {j} + upper;
    assert j !in upper;
  }
}
