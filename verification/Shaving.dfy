/** Which rows the response-size valve drops: one row at a time, from the tail of the largest array.
    A table gives the estimated size of every row of every candidate array; `keep[i]` is how many
    rows of array i are still kept. */
module Shaving {

  type Table = seq<seq<nat>>

  predicate Within(table: Table, keep: seq<nat>) {
    |keep| == |table| && forall i | 0 <= i < |table| :: keep[i] <= |table[i]|
  }

  /** Estimated bytes of the first `keep` rows. */
  function Bytes(sizes: seq<nat>, keep: nat): nat
    requires keep <= |sizes|
  {
    if keep == 0 then 0 else Bytes(sizes, keep - 1) + sizes[keep - 1]
  }

  lemma {:induction false} BytesMonotone(sizes: seq<nat>, a: nat, b: nat)
    requires a <= b <= |sizes|
    ensures Bytes(sizes, a) <= Bytes(sizes, b)
  {
    if a < b { BytesMonotone(sizes, a, b - 1); }
  }

  function Sum(s: seq<nat>): nat {
    if s == [] then 0 else s[0] + Sum(s[1..])
  }

  lemma {:induction false} SumDecrement(s: seq<nat>, i: nat)
    requires i < |s| && s[i] > 0
    ensures Sum(s) > 0 && Sum(s[i := s[i] - 1]) == Sum(s) - 1
  {
    if i > 0 {
      SumDecrement(s[1..], i - 1);
      assert s[i := s[i] - 1][1..] == s[1..][i - 1 := s[1..][i - 1] - 1];
    } else {
      assert s[0 := s[0] - 1][1..] == s[1..];
    }
  }

  lemma {:induction false} SumZero(s: seq<nat>)
    ensures Sum(s) == 0 <==> forall i | 0 <= i < |s| :: s[i] == 0
  {
    if s != [] {
      SumZero(s[1..]);
      assert s == [s[0]] + s[1..];
    }
  }

  /** The array the next row comes from: the first of the largest among the first n that still have
      rows, or -1 when none has. */
  function Pick(table: Table, keep: seq<nat>, n: nat): (p: int)
    requires Within(table, keep) && n <= |table|
    ensures -1 <= p < n && (p >= 0 ==> keep[p] > 0)
  {
    if n == 0 then -1
    else
      var p := Pick(table, keep, n - 1);
      if keep[n - 1] > 0 && (p == -1 || Bytes(table[n - 1], keep[n - 1]) > Bytes(table[p], keep[p])) then n - 1 else p
  }

  lemma {:induction false} PickIsLargest(table: Table, keep: seq<nat>, n: nat)
    requires Within(table, keep) && n <= |table|
    ensures var p := Pick(table, keep, n);
            forall i | 0 <= i < n && keep[i] > 0 :: p >= 0 && Bytes(table[i], keep[i]) <= Bytes(table[p], keep[p])
  {
    if n > 0 { PickIsLargest(table, keep, n - 1); }
  }

  predicate Empty(keep: seq<nat>) {
    forall i | 0 <= i < |keep| :: keep[i] == 0
  }

  lemma {:induction false} PickEmpty(table: Table, keep: seq<nat>)
    requires Within(table, keep)
    ensures Pick(table, keep, |table|) == -1 <==> Empty(keep)
  {
    PickIsLargest(table, keep, |table|);
  }

  /** One row fewer in array p. */
  function Drop(keep: seq<nat>, p: nat): seq<nat>
    requires p < |keep| && keep[p] > 0
  {
    keep[p := keep[p] - 1]
  }

  /** Rows dropped until their sizes add up to `excess`, or none are left. */
  function Shaved(table: Table, keep: seq<nat>, excess: int): (r: seq<nat>)
    requires Within(table, keep)
    ensures Within(table, r)
    ensures forall i | 0 <= i < |keep| :: r[i] <= keep[i]
    ensures Sum(r) <= Sum(keep)
    ensures excess > 0 && Sum(keep) > 0 ==> Sum(r) < Sum(keep)
    decreases Sum(keep)
  {
    var p := Pick(table, keep, |table|);
    if excess <= 0 || p < 0 then
      PickEmpty(table, keep); SumZero(keep);
      keep
    else
      SumDecrement(keep, p);
      Shaved(table, Drop(keep, p), excess - table[p][keep[p] - 1])
  }

  /** Measure, shave the measured excess, and repeat until it fits. `size(keep)` is the exact size of
      the result cut to `keep`. */
  function Exact(table: Table, keep: seq<nat>, size: seq<nat> -> int, limit: int): (r: seq<nat>)
    requires Within(table, keep)
    ensures Within(table, r)
    ensures forall i | 0 <= i < |keep| :: r[i] <= keep[i]
    decreases Sum(keep)
  {
    if size(keep) <= limit || Sum(keep) == 0 then keep
    else Exact(table, Shaved(table, keep, size(keep) - limit), size, limit)
  }

  lemma {:induction false} ShavedUnfolds(table: Table, keep: seq<nat>, excess: int)
    requires Within(table, keep)
    ensures var p := Pick(table, keep, |table|);
            Shaved(table, keep, excess) ==
            if excess <= 0 || p < 0 then keep else Shaved(table, Drop(keep, p), excess - table[p][keep[p] - 1])
  {
  }

  /** One row dropped is one step of `Shaved`. */
  predicate Step(table: Table, keep: seq<nat>, keep': seq<nat>, freed: int)
    requires Within(table, keep)
  {
    var p := Pick(table, keep, |table|);
    if p < 0 then freed == -1 && keep' == keep
    else freed == table[p][keep[p] - 1] && keep' == Drop(keep, p)
  }

  lemma {:induction false} StepShaves(table: Table, keep: seq<nat>, keep': seq<nat>, freed: int, left: int)
    requires Within(table, keep) && Step(table, keep, keep', freed) && left > 0
    ensures Within(table, keep')
    ensures freed < 0 ==> Shaved(table, keep, left) == keep'
    ensures freed >= 0 ==> Shaved(table, keep, left) == Shaved(table, keep', left - freed) && Sum(keep') < Sum(keep)
  {
    ShavedUnfolds(table, keep, left);
    var p := Pick(table, keep, |table|);
    if p >= 0 { SumDecrement(keep, p); }
  }

  lemma {:induction false} ExactUnfolds(table: Table, keep: seq<nat>, size: seq<nat> -> int, limit: int)
    requires Within(table, keep) && size(keep) > limit && Sum(keep) > 0
    ensures Exact(table, keep, size, limit) == Exact(table, Shaved(table, keep, size(keep) - limit), size, limit)
  {
  }

  function Zeros(n: nat): (r: seq<nat>)
    ensures |r| == n && Empty(r)
  {
    seq(n, _ => 0)
  }

  lemma {:induction false} EmptiedIsZeros(keep: seq<nat>)
    requires Sum(keep) == 0
    ensures keep == Zeros(|keep|)
  {
    SumZero(keep);
  }

  /** The exact pass ends under the limit whenever the emptied result is under it, for any measure. */
  lemma {:induction false} ExactFits(table: Table, keep: seq<nat>, size: seq<nat> -> int, limit: int)
    requires Within(table, keep) && size(Zeros(|table|)) <= limit
    ensures size(Exact(table, keep, size, limit)) <= limit
    decreases Sum(keep)
  {
    if size(keep) > limit {
      if Sum(keep) == 0 {
        EmptiedIsZeros(keep);
      } else {
        ExactFits(table, Shaved(table, keep, size(keep) - limit), size, limit);
      }
    }
  }

  /** If array c still has rows and array t lost some, c has no more estimated bytes than t had just
      before it lost its last row. */
  predicate NoLarger(table: Table, keep: seq<nat>, c: nat, t: nat)
    requires Within(table, keep) && c < |table| && t < |table|
  {
    keep[c] > 0 && keep[t] < |table[t]| ==> Bytes(table[c], keep[c]) <= Bytes(table[t], keep[t] + 1)
  }

  predicate Balanced(table: Table, keep: seq<nat>)
    requires Within(table, keep)
  {
    forall c, t {:trigger NoLarger(table, keep, c, t)} | 0 <= c < |table| && 0 <= t < |table| ::
      NoLarger(table, keep, c, t)
  }

  lemma {:induction false} DropBalanced(table: Table, keep: seq<nat>, p: nat)
    requires Within(table, keep) && Balanced(table, keep)
    requires p < |table| && p == Pick(table, keep, |table|)
    ensures Balanced(table, Drop(keep, p))
  {
    var keep' := Drop(keep, p);
    PickIsLargest(table, keep, |table|);
    forall c, t | 0 <= c < |table| && 0 <= t < |table|
      ensures NoLarger(table, keep', c, t)
    {
      assert NoLarger(table, keep, c, t);
      BytesMonotone(table[c], keep'[c], keep[c]);
    }
  }

  lemma {:induction false} ShavedBalanced(table: Table, keep: seq<nat>, excess: int)
    requires Within(table, keep) && Balanced(table, keep)
    ensures Balanced(table, Shaved(table, keep, excess))
    decreases Sum(keep)
  {
    var p := Pick(table, keep, |table|);
    ShavedUnfolds(table, keep, excess);
    if excess > 0 && p >= 0 {
      SumDecrement(keep, p);
      DropBalanced(table, keep, p);
      ShavedBalanced(table, Drop(keep, p), excess - table[p][keep[p] - 1]);
    }
  }

  lemma {:induction false} ExactBalanced(table: Table, keep: seq<nat>, size: seq<nat> -> int, limit: int)
    requires Within(table, keep) && Balanced(table, keep)
    ensures Balanced(table, Exact(table, keep, size, limit))
    decreases Sum(keep)
  {
    if size(keep) > limit && Sum(keep) > 0 {
      ShavedBalanced(table, keep, size(keep) - limit);
      ExactBalanced(table, Shaved(table, keep, size(keep) - limit), size, limit);
    }
  }

  function Lengths(table: Table): (r: seq<nat>)
    ensures |r| == |table| && forall i | 0 <= i < |table| :: r[i] == |table[i]|
    ensures Within(table, r)
  {
    seq(|table|, i requires 0 <= i < |table| => |table[i]|)
  }

  /** Both passes, from full arrays. */
  function Trimmed(table: Table, size: seq<nat> -> int, measured: int, limit: int): (r: seq<nat>)
    ensures Within(table, r)
  {
    Exact(table, Shaved(table, Lengths(table), measured - limit), size, limit)
  }

  /** Trimming is balanced over both passes, and it fits whenever emptying every array would. */
  lemma {:induction false} TrimmedBalancedAndFits(table: Table, size: seq<nat> -> int, measured: int, limit: int)
    ensures Balanced(table, Trimmed(table, size, measured, limit))
    ensures size(Zeros(|table|)) <= limit ==> size(Trimmed(table, size, measured, limit)) <= limit
    ensures measured > limit && Sum(Lengths(table)) > 0 ==> Trimmed(table, size, measured, limit) != Lengths(table)
  {
    var first := Shaved(table, Lengths(table), measured - limit);
    ShavedBalanced(table, Lengths(table), measured - limit);
    ExactBalanced(table, first, size, limit);
    if size(Zeros(|table|)) <= limit {
      ExactFits(table, first, size, limit);
    }
    if measured > limit && Sum(Lengths(table)) > 0 {
      assert first != Lengths(table);
      var i :| 0 <= i < |table| && first[i] != Lengths(table)[i];
      assert Trimmed(table, size, measured, limit)[i] <= first[i] < Lengths(table)[i];
    }
  }

  // ---------------------------------------------------------------------------------------------
  // No needless row is dropped
  // ---------------------------------------------------------------------------------------------

  /** Estimated bytes of all rows kept in the first `n` arrays. */
  function Weight(table: Table, keep: seq<nat>, n: nat): nat
    requires Within(table, keep) && n <= |table|
  {
    if n == 0 then 0 else Weight(table, keep, n - 1) + Bytes(table[n - 1], keep[n - 1])
  }

  lemma {:induction false} WeightDrop(table: Table, keep: seq<nat>, p: nat, n: nat)
    requires Within(table, keep) && n <= |table| && p < |table| && keep[p] > 0
    ensures Weight(table, Drop(keep, p), n) == Weight(table, keep, n) - if p < n then table[p][keep[p] - 1] else 0
  {
    if n > 0 { WeightDrop(table, keep, p, n - 1); }
  }

  /** Going from `before` to `after` drops rows, the last of them from array `p`; and without that one the rows
      dropped would not have made up for `excess`. */
  predicate Spare(table: Table, before: seq<nat>, after: seq<nat>, p: nat, excess: int) {
    && Within(table, before) && Within(table, after)
    && (forall i | 0 <= i < |table| :: after[i] <= before[i])
    && p < |table| && after[p] < before[p]
    && Weight(table, before, |table|) - Weight(table, after, |table|) - table[p][after[p]] < excess
  }

  /** One row is never needless. */
  lemma {:induction false} SpareOne(table: Table, keep: seq<nat>, p: nat, excess: int)
    requires Within(table, keep) && p < |table| && keep[p] > 0 && excess > 0
    ensures Spare(table, keep, Drop(keep, p), p, excess)
  {
    WeightDrop(table, keep, p, |table|);
  }

  /** A row dropped before the others counts towards the excess with them. */
  lemma {:induction false} SpareMore(table: Table, keep: seq<nat>, q: nat, after: seq<nat>, p: nat, excess: int)
    requires Within(table, keep) && q < |table| && keep[q] > 0
    requires Spare(table, Drop(keep, q), after, p, excess - table[q][keep[q] - 1])
    ensures Spare(table, keep, after, p, excess)
  {
    WeightDrop(table, keep, q, |table|);
  }

  lemma {:induction false} ShavedFirst(table: Table, keep: seq<nat>, excess: int) returns (q: nat)
    requires Within(table, keep) && excess > 0 && Sum(keep) > 0
    ensures q < |table| && keep[q] > 0 && Within(table, Drop(keep, q)) && Sum(Drop(keep, q)) < Sum(keep)
    ensures Shaved(table, keep, excess) == Shaved(table, Drop(keep, q), excess - table[q][keep[q] - 1])
  {
    PickEmpty(table, keep);
    SumZero(keep);
    q := Pick(table, keep, |table|);
    SumDecrement(keep, q);
    ShavedUnfolds(table, keep, excess);
  }

  lemma {:induction false} ShavedDone(table: Table, keep: seq<nat>, excess: int)
    requires Within(table, keep) && (excess <= 0 || Sum(keep) == 0)
    ensures Shaved(table, keep, excess) == keep
  {
    PickEmpty(table, keep);
    SumZero(keep);
    ShavedUnfolds(table, keep, excess);
  }

  lemma {:induction false} ShavedSpare(table: Table, keep: seq<nat>, excess: int) returns (p: nat)
    requires Within(table, keep) && excess > 0 && Sum(keep) > 0
    ensures Spare(table, keep, Shaved(table, keep, excess), p, excess)
    decreases Sum(keep)
  {
    var q := ShavedFirst(table, keep, excess);
    var next, left := Drop(keep, q), excess - table[q][keep[q] - 1];
    if left > 0 && Sum(next) > 0 {
      p := ShavedSpare(table, next, left);
      SpareMore(table, keep, q, Shaved(table, next, left), p, excess);
    } else {
      ShavedDone(table, next, left);
      p := q;
      SpareOne(table, keep, p, excess);
    }
  }

  lemma {:induction false} ExactSpare(table: Table, keep: seq<nat>, size: seq<nat> -> int, limit: int)
    returns (before: seq<nat>, p: nat)
    requires Within(table, keep) && size(keep) > limit && Sum(keep) > 0
    ensures size(before) > limit && Spare(table, before, Exact(table, keep, size, limit), p, size(before) - limit)
    decreases Sum(keep)
  {
    var next := Shaved(table, keep, size(keep) - limit);
    ExactUnfolds(table, keep, size, limit);
    if size(next) > limit && Sum(next) > 0 {
      before, p := ExactSpare(table, next, size, limit);
    } else {
      before := keep;
      p := ShavedSpare(table, keep, size(keep) - limit);
    }
  }

  /** Trimming drops no needless row: the last rows dropped made up for the excess of a result that was measured
      too large, the whole one or a cut of it, and without the very last they would not have. */
  lemma {:induction false} TrimmedSpare(table: Table, size: seq<nat> -> int, measured: int, limit: int)
    returns (before: seq<nat>, p: nat, excess: int)
    requires measured > limit && Sum(Lengths(table)) > 0
    ensures excess > 0 && Spare(table, before, Trimmed(table, size, measured, limit), p, excess)
    ensures (before == Lengths(table) && excess == measured - limit) || excess == size(before) - limit
  {
    var first := Shaved(table, Lengths(table), measured - limit);
    if size(first) > limit && Sum(first) > 0 {
      before, p := ExactSpare(table, first, size, limit);
      excess := size(before) - limit;
    } else {
      before, excess := Lengths(table), measured - limit;
      p := ShavedSpare(table, before, excess);
    }
  }

  /** The mutable side: the keep count and the byte counter of every candidate, as `shave` updates them. */
  class Trimmer {
    const table: Table
    var keep: seq<nat>
    var bytes: seq<nat>

    /** Each byte counter is the sum of the sizes of the rows its array still keeps. */
    ghost predicate Valid()
      reads this
    {
      && Within(table, keep)
      && |bytes| == |table|
      && forall i | 0 <= i < |table| :: bytes[i] == Bytes(table[i], keep[i])
    }

    constructor (table: Table)
      ensures Valid() && this.table == table && keep == Lengths(table)
    {
      var k: seq<nat>, b: seq<nat> := [], [];
      for i := 0 to |table|
        invariant |k| == |b| == i
        invariant forall j | 0 <= j < i :: k[j] == |table[j]| && b[j] == Bytes(table[j], |table[j]|)
      {
        var total := 0;
        for r := 0 to |table[i]|
          invariant total == Bytes(table[i], r)
        {
          total := total + table[i][r];
        }
        k, b := k + [|table[i]|], b + [total];
      }
      this.table, this.keep, this.bytes := table, k, b;
    }

    /** Drops one row from the largest array that still has rows; the bytes that frees, or -1. */
    method Shave() returns (freed: int)
      requires Valid()
      modifies this
      ensures Valid()
      ensures Step(table, old(keep), keep, freed)
    {
      var pick := -1;
      for i := 0 to |table|
        invariant pick == Pick(table, keep, i) && keep == old(keep) && bytes == old(bytes)
      {
        if keep[i] > 0 && (pick == -1 || bytes[i] > bytes[pick]) {
          pick := i;
        }
      }
      if pick == -1 {
        return -1;
      }
      keep := keep[pick := keep[pick] - 1];
      freed := table[pick][keep[pick]];
      bytes := bytes[pick := bytes[pick] - freed];
    }

    /** The inner loop of both passes. */
    method ShaveExcess(excess: int)
      requires Valid()
      modifies this
      ensures Valid() && keep == Shaved(table, old(keep), excess)
    {
      var left := excess;
      ghost var target := Shaved(table, keep, excess);
      while left > 0
        invariant Valid() && Shaved(table, keep, left) == target
        decreases Sum(keep)
      {
        ghost var before := keep;
        var freed := Shave();
        StepShaves(table, before, keep, freed, left);
        if freed < 0 {
          break;
        }
        left := left - freed;
      }
    }
  }

  /** One round of the exact pass: a cut still too large has rows left to drop, because the emptied one
      is not, and dropping the excess leads to the same end. */
  lemma {:induction false} ExactRound(table: Table, keep: seq<nat>, next: seq<nat>, size: seq<nat> -> int, limit: int)
    requires Within(table, keep) && Within(table, next) && size(Zeros(|table|)) <= limit < size(keep)
    requires next == Shaved(table, keep, size(keep) - limit)
    ensures Sum(next) < Sum(keep) && Exact(table, next, size, limit) == Exact(table, keep, size, limit)
  {
    if Sum(keep) == 0 {
      EmptiedIsZeros(keep);
    } else {
      ExactUnfolds(table, keep, size, limit);
    }
  }

  lemma {:induction false} FirstRound(table: Table, keep: seq<nat>, size: seq<nat> -> int, measured: int, limit: int)
    requires Within(table, keep) && keep == Shaved(table, Lengths(table), measured - limit)
    ensures Exact(table, keep, size, limit) == Trimmed(table, size, measured, limit)
  {
  }

  lemma {:induction false} ExactDone(table: Table, keep: seq<nat>, size: seq<nat> -> int, limit: int)
    requires Within(table, keep) && size(keep) <= limit
    ensures Exact(table, keep, size, limit) == keep
  {
  }

  /** `keep` still leads to `target`. */
  ghost predicate Leads(table: Table, keep: seq<nat>, size: seq<nat> -> int, limit: int, target: seq<nat>) {
    Within(table, keep) && Exact(table, keep, size, limit) == target
  }

  method Round(trimmer: Trimmer, size: seq<nat> -> int, limit: int, ghost target: seq<nat>)
    requires trimmer.Valid() && size(Zeros(|trimmer.table|)) <= limit < size(trimmer.keep)
    requires Leads(trimmer.table, trimmer.keep, size, limit, target)
    modifies trimmer
    ensures trimmer.Valid() && Sum(trimmer.keep) < Sum(old(trimmer.keep))
    ensures Leads(trimmer.table, trimmer.keep, size, limit, target)
  {
    ghost var before := trimmer.keep;
    trimmer.ShaveExcess(size(trimmer.keep) - limit);
    ExactRound(trimmer.table, before, trimmer.keep, size, limit);
  }

  /** The exact pass, on the counters it updates. */
  method ExactPass(trimmer: Trimmer, size: seq<nat> -> int, limit: int, ghost target: seq<nat>)
    requires trimmer.Valid() && size(Zeros(|trimmer.table|)) <= limit
    requires Leads(trimmer.table, trimmer.keep, size, limit, target)
    modifies trimmer
    ensures trimmer.Valid() && trimmer.keep == target
  {
    while size(trimmer.keep) > limit
      invariant trimmer.Valid() && Leads(trimmer.table, trimmer.keep, size, limit, target)
      decreases Sum(trimmer.keep)
    {
      Round(trimmer, size, limit, target);
    }
    ExactDone(trimmer.table, trimmer.keep, size, limit);
  }

  /** Both passes. */
  method Settle(table: Table, size: seq<nat> -> int, measured: int, limit: int) returns (keep: seq<nat>)
    requires size(Zeros(|table|)) <= limit
    ensures keep == Trimmed(table, size, measured, limit)
  {
    var trimmer := new Trimmer(table);
    trimmer.ShaveExcess(measured - limit);
    FirstRound(table, trimmer.keep, size, measured, limit);
    ExactPass(trimmer, size, limit, Trimmed(table, size, measured, limit));
    keep := trimmer.keep;
  }
}
