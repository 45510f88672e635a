/**
 * The Fisher–Yates shuffle of a string. A functional reference definition
 * (the swap schedule the draws determine, then the swaps applied in order)
 * and the in-place array loop the engine runs, proved equal.
 */
module Shuffle {
  import opened SecureRandom

  /** `s` with positions `i` and `j` exchanged. */
  function Swap(s: string, i: nat, j: nat): (t: string)
    requires i < |s| && j < |s|
    ensures |t| == |s| && t[i] == s[j] && t[j] == s[i]
    ensures forall k :: 0 <= k < |s| && k != i && k != j ==> t[k] == s[k]
  {
    s[i := s[j]][j := s[i]]
  }

  /** A swap keeps the multiset of characters. */
  lemma SwapPermutes(s: string, i: nat, j: nat)
    requires i < |s| && j < |s|
    ensures multiset(Swap(s, i, j)) == multiset(s)
  {
  }

  /** Draws a shuffle of `n` characters consumes: one per index from `n - 1` down to 1. */
  function ShuffleDraws(n: nat): nat
  {
    if n <= 1 then 0 else n - 1
  }

  /** The swaps the shuffle performs on a string of length `n`: the `k`-th swap
      exchanges index `i = n - 1 - k` with an index `j` in `[0, i]` taken from
      the `k`-th draw, so `i` runs from `n - 1` down to 1. */
  function Schedule(n: nat, d: seq<Word>): (sch: seq<(nat, nat)>)
    requires |d| >= ShuffleDraws(n)
    ensures |sch| == ShuffleDraws(n)
    ensures forall k :: 0 <= k < |sch| ==> 1 <= sch[k].0 == n - 1 - k && sch[k].1 <= sch[k].0
  {
    seq(ShuffleDraws(n), k requires 0 <= k < ShuffleDraws(n) => (n - 1 - k, Below(d[k], n - k)))
  }

  /** The swaps of `sch` applied to `s` from first to last. A pair outside
      the string would be skipped; `Schedule` never produces one. */
  function ApplySwaps(s: string, sch: seq<(nat, nat)>): (t: string)
    ensures |t| == |s|
    decreases |sch|
  {
    if sch == [] then s
    else
      var (i, j) := sch[0];
      ApplySwaps(if i < |s| && j < |s| then Swap(s, i, j) else s, sch[1..])
  }

  /** Applying swaps, one after another, keeps the multiset of characters. */
  lemma {:induction false} ApplySwapsPermutes(s: string, sch: seq<(nat, nat)>)
    ensures multiset(ApplySwaps(s, sch)) == multiset(s)
    decreases |sch|
  {
    if sch != [] {
      var (i, j) := sch[0];
      if i < |s| && j < |s| {
        SwapPermutes(s, i, j);
        ApplySwapsPermutes(Swap(s, i, j), sch[1..]);
      } else {
        ApplySwapsPermutes(s, sch[1..]);
      }
    }
  }

  /** The shuffle as a function of the string and the draws. It permutes its
      input and leaves strings of length 0 or 1 as they are. */
  function FisherYates(s: string, d: seq<Word>): (t: string)
    requires |d| >= ShuffleDraws(|s|)
    ensures |t| == |s|
    ensures multiset(t) == multiset(s)
    ensures |s| <= 1 ==> t == s
  {
    ApplySwapsPermutes(s, Schedule(|s|, d));
    ApplySwaps(s, Schedule(|s|, d))
  }

  /** Swap `k` of the schedule is the one the `k`-th draw selects. */
  lemma ScheduleAt(n: nat, d: seq<Word>, k: nat)
    requires |d| >= ShuffleDraws(n) && k < ShuffleDraws(n)
    ensures Schedule(n, d)[k] == (n - 1 - k, Below(d[k], n - k))
  {
  }

  /** Running the remaining swaps from step `k` performs swap `k` and then the rest. */
  lemma ApplySwapsStep(s: string, sch: seq<(nat, nat)>, k: nat)
    requires k < |sch| && sch[k].0 < |s| && sch[k].1 < |s|
    ensures ApplySwaps(s, sch[k..]) == ApplySwaps(Swap(s, sch[k].0, sch[k].1), sch[k + 1..])
  {
    assert sch[k..][0] == sch[k];
    assert sch[k..][1..] == sch[k + 1..];
  }

  /** `str.split("")`: a fresh array holding the characters of `s`. */
  method Split(s: string) returns (a: array<char>)
    ensures fresh(a) && a[..] == s
  {
    a := new char[|s|](i requires 0 <= i < |s| => s[i]);
  }

  /** The engine's loop: split the string into an array, swap `a[i]` with
      `a[j]`, `j` drawn below `i + 1`, for `i` from the last index down to 1. */
  method ShuffleString(s: string, d: seq<Word>) returns (t: string)
    requires |d| >= ShuffleDraws(|s|)
    ensures t == FisherYates(s, d)
    ensures |t| == |s| && multiset(t) == multiset(s)
  {
    var a := Split(s);
    ghost var sch := Schedule(|s|, d);
    var i := |s| - 1;
    var k := 0;
    while i > 0
      invariant -1 <= i < |s| && k == |s| - 1 - i
      invariant k <= |sch|
      invariant a.Length == |s|
      invariant ApplySwaps(a[..], sch[k..]) == ApplySwaps(s, sch)
    {
      var j := Below(d[k], i + 1);
      ScheduleAt(|s|, d, k);
      ApplySwapsStep(a[..], sch, k);
      ghost var after := Swap(a[..], i, j);
      var held := a[i];
      a[i] := a[j];
      a[j] := held;
      assert a[..] == after;
      i := i - 1;
      k := k + 1;
    }
    assert sch[k..] == [];
    t := a[..];
  }
}
