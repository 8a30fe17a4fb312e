/** Character classes and string helpers used by the identifier recognisers.
    Identifiers are plain `string`s (sequences of `char`); no case folding. */
module Text {

  /** `\d` restricted to ASCII, as the identifiers use it. */
  predicate IsDigit(c: char) { '0' <= c <= '9' }

  /** `[A-Z]` */
  predicate IsUpper(c: char) { 'A' <= c <= 'Z' }

  /** `[A-z]`: the ASCII range 65..122, which also holds `[ \ ] ^ _` and the backtick. */
  predicate IsAz(c: char) { 'A' <= c <= 'z' }

  /** `String.StartsWith(p)` (ordinal). */
  predicate StartsWith(s: string, p: string) {
    |p| <= |s| && s[..|p|] == p
  }

  /** `String.Contains(p)` (ordinal), which is also what `Regex.IsMatch(s, p)` does
      for a pattern `p` without metacharacters. */
  predicate Contains(s: string, p: string) {
    exists i :: 0 <= i <= |s| && OccursAt(s, p, i)
  }

  /** `p` occurs in `s` at position `i`. */
  predicate OccursAt(s: string, p: string, i: nat) {
    i + |p| <= |s| && s[i..i + |p|] == p
  }

  /** `String.Remove(i, 1)`. */
  function RemoveAt(s: string, i: nat): (r: string)
    requires i < |s|
    ensures |r| == |s| - 1
    ensures r[..i] == s[..i] && r[i..] == s[i + 1..]
  {
    s[..i] + s[i + 1..]
  }

  /** Length of the run of `[A-Z]` starting at `i` (a greedy `[A-Z]*`). */
  function UpperRun(s: string, i: nat): (n: nat)
    requires i <= |s|
    ensures i + n <= |s|
    ensures forall k :: i <= k < i + n ==> IsUpper(s[k])
    ensures i + n == |s| || !IsUpper(s[i + n])
    decreases |s| - i
  {
    if i < |s| && IsUpper(s[i]) then 1 + UpperRun(s, i + 1) else 0
  }

  /** Length of the run of `[A-z]` starting at `i` (a greedy `[A-z]*`). */
  function AzRun(s: string, i: nat): (n: nat)
    requires i <= |s|
    ensures i + n <= |s|
    ensures forall k :: i <= k < i + n ==> IsAz(s[k])
    ensures i + n == |s| || !IsAz(s[i + n])
    decreases |s| - i
  {
    if i < |s| && IsAz(s[i]) then 1 + AzRun(s, i + 1) else 0
  }

  /** The elements of `xs` that satisfy `p`, in order (LINQ `Where`). */
  function Filter(xs: seq<string>, p: string -> bool): (r: seq<string>)
    ensures |r| <= |xs|
    ensures forall x :: x in r <==> x in xs && p(x)
  {
    if xs == [] then [] else
    var rest := Filter(xs[..|xs| - 1], p);
    if p(xs[|xs| - 1]) then rest + [xs[|xs| - 1]] else rest
  }

  /** Filtering out a value that does not occur changes nothing. */
  lemma {:induction false} FilterAbsent(xs: seq<string>, y: string, p: string -> bool)
    requires forall x :: p(x) <==> x != y
    requires y !in xs
    ensures Filter(xs, p) == xs
  {
    if xs != [] {
      FilterAbsent(xs[..|xs| - 1], y, p);
      assert xs == xs[..|xs| - 1] + [xs[|xs| - 1]];
    }
  }

  /** Filtering out the value at `k` of a list without repeats drops exactly that entry and keeps
      every other element in its place. */
  lemma {:induction false} FilterDropsOne(xs: seq<string>, y: string, p: string -> bool, k: nat)
    requires forall x :: p(x) <==> x != y
    requires Distinct(xs) && k < |xs| && xs[k] == y
    ensures Filter(xs, p) == xs[..k] + xs[k + 1..]
  {
    var init, last := xs[..|xs| - 1], xs[|xs| - 1];
    if k == |xs| - 1 {
      FilterAbsent(init, y, p);
    } else {
      assert Distinct(init);
      FilterDropsOne(init, y, p, k);
      assert last != y;
      assert xs[..k] + xs[k + 1..] == init[..k] + init[k + 1..] + [last];
    }
  }

  /** `xs` joined with `sep` between consecutive elements. */
  function Join(xs: seq<string>, sep: string): string
  {
    if |xs| == 0 then ""
    else if |xs| == 1 then xs[0]
    else Join(xs[..|xs| - 1], sep) + sep + xs[|xs| - 1]
  }

  /** No identifier occurs twice. */
  predicate Distinct(xs: seq<string>) {
    forall i, j :: 0 <= i < j < |xs| ==> xs[i] != xs[j]
  }

  lemma {:induction false} FilterDistinct(xs: seq<string>, p: string -> bool)
    ensures Distinct(xs) ==> Distinct(Filter(xs, p))
  {
    if xs != [] {
      FilterDistinct(xs[..|xs| - 1], p);
    }
  }
}
