/** The response-size valve: `boundResponse`, which trims raw rows from a result until its text fits. */
module Valve {
  import opened Json
  import opened Options
  import opened Notes
  import opened Shaving
  import Text

  /** What the valve knows about the call: the limit, whether the tool's result strategy is
      postProcess, which steps are resumable, and two measures it takes as given. `textSize` is the
      length of a whole result as text and `rowSize` that of one row; both are `None` for a value that
      does not marshal. */
  datatype Setting = Setting(
    limit: nat,
    hasSummary: bool,
    resumable: set<string>,
    wording: Wording,
    textSize: Object -> Option<nat>,
    rowSize: Json -> Option<nat>)

  /** A raw step whose rows may be trimmed. `sizes` estimates each row with its separator and indent. */
  datatype Candidate = Candidate(id: string, step: Object, items: seq<Json>, sizes: seq<nat>)

  datatype Report = Report(truncated: bool, unbounded: bool, omittedItems: nat, trimmedSteps: seq<string>)

  const ITEM_INDENT: nat := 6

  function Measured(setting: Setting, items: seq<Json>): (r: Option<seq<nat>>)
    ensures r.Some? ==> |r.value| == |items|
    ensures r.Some? <==> forall i | 0 <= i < |items| :: setting.rowSize(items[i]).Some?
    ensures r.Some? ==> forall i | 0 <= i < |items| :: r.value[i] == setting.rowSize(items[i]).value + 2 + ITEM_INDENT
  {
    if forall i | 0 <= i < |items| :: setting.rowSize(items[i]).Some? then
      Some(seq(|items|, i requires 0 <= i < |items| && setting.rowSize(items[i]).Some? =>
                        setting.rowSize(items[i]).value + 2 + ITEM_INDENT))
    else None
  }

  /** The candidate at one key of the result, if the key holds a step with measurable rows. */
  function CandidateAt(setting: Setting, out: Object, id: string): (r: Option<Candidate>)
    ensures r.Some? ==> var c := r.value;
            && c.id == id && id in out && out[id] == Obj(c.step)
            && c.items != [] && |c.sizes| == |c.items|
            && "data" in c.step && c.step["data"] == Arr(c.items)
            && !(setting.hasSummary && id == "summary")
  {
    if id !in out || !out[id].Obj? || (setting.hasSummary && id == "summary") then None
    else
      var step := out[id].fields;
      var items := ArrayAt(step, "data");
      if items == [] then None
      else
        match Measured(setting, items)
        case None => None
        case Some(sizes) => Some(Candidate(id, step, items, sizes))
  }

  /** Candidates come in the order of their step IDs, none twice. */
  predicate SortedById(cands: seq<Candidate>) {
    forall i, j | 0 <= i < j < |cands| :: cands[i].id != cands[j].id && Text.Leq(cands[i].id, cands[j].id)
  }

  /** The candidates among `ids`, in that order, where `at` finds the candidate of a key. */
  function Collect(at: string -> Option<Candidate>, ids: seq<string>): (r: seq<Candidate>)
    ensures forall c | c in r :: exists id | id in ids :: at(id) == Some(c)
  {
    if ids == [] then []
    else
      var last := |ids| - 1;
      var rest := Collect(at, ids[..last]);
      match at(ids[last])
      case None => rest
      case Some(c) => rest + [c]
  }

  lemma {:induction false} CollectSorted(at: string -> Option<Candidate>, ids: seq<string>)
    requires Text.Sorted(ids) && Text.Distinct(ids)
    requires forall id | at(id).Some? :: at(id).value.id == id
    ensures SortedById(Collect(at, ids))
    decreases |ids|
  {
    if ids != [] {
      var last := |ids| - 1;
      CollectSorted(at, ids[..last]);
      forall c | c in Collect(at, ids[..last])
        ensures c.id != ids[last] && Text.Leq(c.id, ids[last])
      {
        var k :| 0 <= k < last && at(ids[k]) == Some(c);
      }
    }
  }

  function Candidates(setting: Setting, out: Object, ids: seq<string>): (r: seq<Candidate>)
    ensures forall i | 0 <= i < |r| :: r[i].id in ids && CandidateAt(setting, out, r[i].id) == Some(r[i])
  {
    var r := Collect(id => CandidateAt(setting, out, id), ids);
    assert forall i | 0 <= i < |r| :: r[i] in r;
    r
  }

  lemma {:induction false} CandidatesSorted(setting: Setting, out: Object, ids: seq<string>)
    requires Text.Sorted(ids) && Text.Distinct(ids)
    ensures SortedById(Candidates(setting, out, ids))
  {
    CollectSorted(id => CandidateAt(setting, out, id), ids);
  }

  /** A copy of the candidate's step cut to `keep` rows and flagged; a next cursor is removed. */
  function TrimmedStep(setting: Setting, c: Candidate, keep: nat): Object
    requires keep <= |c.items|
  {
    var resumable := c.id in setting.resumable || "nextCursor" in c.step;
    var note := BoundNote(setting.wording, StringAt(c.step, "truncatedMessage"), keep, |c.items|, setting.limit,
                          setting.hasSummary, resumable);
    (c.step - {"nextCursor"})
      ["data" := Arr(c.items[..keep])]["truncated" := Bool(true)]
      ["omittedItems" := Number((|c.items| - keep) as real)]["truncatedMessage" := Str(note)]
  }

  /** Cutting keeps a prefix of the rows, says how many were left out and how to go on, offers no cursor, and
      leaves every other field of the step alone. */
  lemma {:induction false} TrimmedStepFields(setting: Setting, c: Candidate, keep: nat)
    requires keep <= |c.items|
    ensures var r := TrimmedStep(setting, c, keep);
            && "nextCursor" !in r
            && "data" in r && r["data"] == Arr(c.items[..keep])
            && "truncated" in r && r["truncated"] == Bool(true)
            && "omittedItems" in r && r["omittedItems"] == Number((|c.items| - keep) as real)
            && "truncatedMessage" in r
            && r["truncatedMessage"] == Str(BoundNote(setting.wording, StringAt(c.step, "truncatedMessage"), keep, |c.items|, setting.limit,
                                                      setting.hasSummary, c.id in setting.resumable || "nextCursor" in c.step))
            && r.Keys == c.step.Keys - {"nextCursor"} + {"data", "truncated", "omittedItems", "truncatedMessage"}
            && (forall k | k in c.step && k !in ["nextCursor", "data", "truncated", "omittedItems", "truncatedMessage"] ::
                  k in r && r[k] == c.step[k])
  {
  }

  /** How a candidate is cut; a parameter of what follows, so that nothing there depends on the fields. */
  type Cut = (Candidate, nat) -> Json

  function CutOf(setting: Setting): Cut {
    (c: Candidate, keep: nat) => if keep <= |c.items| then Obj(TrimmedStep(setting, c, keep)) else Null
  }

  function TableOf(cands: seq<Candidate>): (r: Table)
    ensures |r| == |cands| && forall i | 0 <= i < |cands| :: r[i] == cands[i].sizes
  {
    seq(|cands|, i requires 0 <= i < |cands| => cands[i].sizes)
  }

  predicate Keeps(cands: seq<Candidate>, keep: seq<nat>) {
    |keep| == |cands| && forall i | 0 <= i < |cands| :: keep[i] <= |cands[i].items|
  }

  /** The result with the first n candidates cut to their keep counts. */
  function Build(cut: Cut, out: Object, cands: seq<Candidate>, keep: seq<nat>, n: nat): Object
    requires Keeps(cands, keep) && n <= |cands|
  {
    if n == 0 then out
    else
      var cp := Build(cut, out, cands, keep, n - 1);
      var c := cands[n - 1];
      if keep[n - 1] < |c.items| then cp[c.id := cut(c, keep[n - 1])] else cp
  }

  /** Distinct keys of the result. */
  predicate Placed(out: Object, cands: seq<Candidate>) {
    && (forall i | 0 <= i < |cands| :: cands[i].id in out)
    && (forall i, j | 0 <= i < j < |cands| :: cands[i].id != cands[j].id)
  }

  lemma {:induction false} BuildKeys(cut: Cut, out: Object, cands: seq<Candidate>, keep: seq<nat>, n: nat)
    requires Keeps(cands, keep) && n <= |cands| && Placed(out, cands)
    ensures Build(cut, out, cands, keep, n).Keys == out.Keys
  {
    if n > 0 { BuildKeys(cut, out, cands, keep, n - 1); }
  }

  lemma {:induction false} BuildCut(cut: Cut, out: Object, cands: seq<Candidate>, keep: seq<nat>, n: nat, i: nat)
    requires Keeps(cands, keep) && i < n <= |cands| && Placed(out, cands) && keep[i] < |cands[i].items|
    ensures var r := Build(cut, out, cands, keep, n); cands[i].id in r && r[cands[i].id] == cut(cands[i], keep[i])
  {
    if i < n - 1 { BuildCut(cut, out, cands, keep, n - 1, i); }
  }

  lemma {:induction false} BuildRest(cut: Cut, out: Object, cands: seq<Candidate>, keep: seq<nat>, n: nat, id: string)
    requires Keeps(cands, keep) && n <= |cands| && id in out
    requires forall i | 0 <= i < n && cands[i].id == id :: keep[i] == |cands[i].items|
    ensures var r := Build(cut, out, cands, keep, n); id in r && r[id] == out[id]
  {
    if n > 0 { BuildRest(cut, out, cands, keep, n - 1, id); }
  }

  /** `textSize` of a cut result as the valve reads it: zero when marshalling fails. */
  function SizeOf(setting: Setting, cut: Cut, out: Object, cands: seq<Candidate>): seq<nat> -> int {
    (keep: seq<nat>) =>
      if !Keeps(cands, keep) then 0
      else match setting.textSize(Build(cut, out, cands, keep, |cands|))
           case Some(n) => n
           case None => 0
  }

  /** Whether emptying every candidate would bring the result under the limit. */
  predicate Feasible(setting: Setting, cut: Cut, out: Object, cands: seq<Candidate>) {
    var emptied := setting.textSize(Build(cut, out, cands, Zeros(|cands|), |cands|));
    emptied.Some? && emptied.value <= setting.limit
  }

  function Omitted(cands: seq<Candidate>, keep: seq<nat>, n: nat): nat
    requires Keeps(cands, keep) && n <= |cands|
  {
    if n == 0 then 0 else Omitted(cands, keep, n - 1) + (|cands[n - 1].items| - keep[n - 1])
  }

  function TrimmedIds(cands: seq<Candidate>, keep: seq<nat>, n: nat): seq<string>
    requires Keeps(cands, keep) && n <= |cands|
  {
    if n == 0 then []
    else TrimmedIds(cands, keep, n - 1) + if keep[n - 1] < |cands[n - 1].items| then [cands[n - 1].id] else []
  }

  /** The keep counts the valve settles on. */
  function Settled(setting: Setting, cut: Cut, out: Object, cands: seq<Candidate>, size: nat): (r: seq<nat>)
    requires forall i | 0 <= i < |cands| :: |cands[i].sizes| == |cands[i].items|
    ensures Keeps(cands, r)
  {
    Trimmed(TableOf(cands), SizeOf(setting, cut, out, cands), size, setting.limit)
  }

  /** What the valve makes of a result whose candidates are `cands`. */
  function Bounded(setting: Setting, cut: Cut, out: Object, cands: seq<Candidate>, size: nat): (Object, Report)
    requires forall i | 0 <= i < |cands| :: |cands[i].sizes| == |cands[i].items|
  {
    if size <= setting.limit then (out, Report(false, false, 0, []))
    else if cands == [] || !Feasible(setting, cut, out, cands) then (out, Report(false, true, 0, []))
    else
      var keep := Settled(setting, cut, out, cands, size);
      (Build(cut, out, cands, keep, |cands|),
       Report(true, false, Omitted(cands, keep, |cands|), TrimmedIds(cands, keep, |cands|)))
  }

  /** The keys of a result the valve considers, sorted. */
  function CandidateIds(setting: Setting, order: seq<string>): seq<string> {
    Text.Sort(if setting.hasSummary then WithoutSummary(order) else order)
  }

  function WithoutSummary(order: seq<string>): (r: seq<string>)
    ensures forall k :: k in r <==> k in order && k != "summary"
  {
    if order == [] then []
    else (if order[0] == "summary" then [] else [order[0]]) + WithoutSummary(order[1..])
  }

  /** `boundResponse` as a function of the result, the order its keys are visited in and its measured size. */
  function BoundResponse(setting: Setting, out: Object, order: seq<string>, size: nat): (Object, Report) {
    Bounded(setting, CutOf(setting), out, Candidates(setting, out, CandidateIds(setting, order)), size)
  }

  /** A result under construction; the valve updates `out` in place. */
  class Response {
    var out: Object

    constructor (out: Object)
      ensures this.out == out
    {
      this.out := out;
    }

    /** `boundResponse`. `order` is the order in which the keys of the result happen to be visited. */
    method Bound(setting: Setting, order: seq<string>, size: nat) returns (report: Report)
      modifies this
      ensures (out, report) == BoundResponse(setting, old(out), order, size)
    {
      var cands := Candidates(setting, out, CandidateIds(setting, order));
      out, report := Trim(setting, CutOf(setting), out, cands, size);
    }
  }

  /** The valve once its candidates are collected. */
  method Trim(setting: Setting, cut: Cut, out: Object, cands: seq<Candidate>, size: nat) returns (out': Object, report: Report)
    requires forall i | 0 <= i < |cands| :: |cands[i].sizes| == |cands[i].items|
    ensures (out', report) == Bounded(setting, cut, out, cands, size)
  {
    if size <= setting.limit {
      return out, Report(false, false, 0, []);
    }
    if |cands| == 0 || !Feasible(setting, cut, out, cands) {
      return out, Report(false, true, 0, []);
    }
    var keep := Settle(TableOf(cands), SizeOf(setting, cut, out, cands), size, setting.limit);
    out' := Build(cut, out, cands, keep, |cands|);
    report := Report(true, false, Omitted(cands, keep, |cands|), TrimmedIds(cands, keep, |cands|));
  }

  // ---------------------------------------------------------------------------------------------
  // What the valve promises
  // ---------------------------------------------------------------------------------------------

  lemma {:induction false} WithoutSummaryDistinct(order: seq<string>)
    requires Text.Distinct(order)
    ensures Text.Distinct(WithoutSummary(order))
  {
    if order != [] {
      assert forall i, j | 0 <= i < j < |order[1..]| :: order[1..][i] != order[1..][j] by {
        assert forall i | 0 <= i < |order[1..]| :: order[1..][i] == order[i + 1];
      }
      WithoutSummaryDistinct(order[1..]);
      assert order[0] !in order[1..];
    }
  }

  lemma {:induction false} CandidateIdsSorted(setting: Setting, order: seq<string>)
    requires Text.Distinct(order)
    ensures var ids := CandidateIds(setting, order);
            Text.Sorted(ids) && Text.Distinct(ids) &&
            (forall k :: k in ids <==> k in order && !(setting.hasSummary && k == "summary"))
  {
    var considered := if setting.hasSummary then WithoutSummary(order) else order;
    WithoutSummaryDistinct(order);
    Text.SortSorted(considered);
    Text.SortDistinct(considered);
  }

  /** The result does not depend on the order in which Go happens to walk its keys. */
  lemma {:induction false} OrderIrrelevant(setting: Setting, out: Object, a: seq<string>, b: seq<string>, size: nat)
    requires Text.Visits(a, out.Keys) && Text.Visits(b, out.Keys)
    ensures BoundResponse(setting, out, a, size) == BoundResponse(setting, out, b, size)
  {
    if setting.hasSummary {
      WithoutSummaryDistinct(a);
      WithoutSummaryDistinct(b);
      Text.SortForgetsOrder(WithoutSummary(a), WithoutSummary(b), out.Keys - {"summary"});
    } else {
      Text.SortForgetsOrder(a, b, out.Keys);
    }
  }

  lemma {:induction false} TrimmedIdsAre(cands: seq<Candidate>, keep: seq<nat>, n: nat)
    requires Keeps(cands, keep) && n <= |cands|
    ensures forall id :: id in TrimmedIds(cands, keep, n) <==>
                         exists i :: 0 <= i < n && cands[i].id == id && keep[i] < |cands[i].items|
  {
    if n > 0 {
      TrimmedIdsAre(cands, keep, n - 1);
    }
  }

  lemma {:induction false} TrimmedIdsSorted(cands: seq<Candidate>, keep: seq<nat>, n: nat)
    requires Keeps(cands, keep) && n <= |cands| && SortedById(cands)
    ensures Text.Sorted(TrimmedIds(cands, keep, n)) && Text.Distinct(TrimmedIds(cands, keep, n))
  {
    if n > 0 {
      TrimmedIdsSorted(cands, keep, n - 1);
      TrimmedIdsAre(cands, keep, n - 1);
      var before := TrimmedIds(cands, keep, n - 1);
      forall k | 0 <= k < |before|
        ensures before[k] != cands[n - 1].id && Text.Leq(before[k], cands[n - 1].id)
      {
        assert before[k] in before;
        var i :| 0 <= i < n - 1 && cands[i].id == before[k] && keep[i] < |cands[i].items|;
      }
    }
  }

  /** The candidates of a result whose keys are visited in `order`. */
  function CandidatesOf(setting: Setting, out: Object, order: seq<string>): seq<Candidate> {
    Candidates(setting, out, CandidateIds(setting, order))
  }

  /** The valve leaves a result alone exactly when it already fits, has no rows to trim, or would not
      fit with every row gone; otherwise it says it truncated. */
  lemma {:induction false} UntouchedWhen(setting: Setting, out: Object, order: seq<string>, size: nat)
    ensures var (out', report) := BoundResponse(setting, out, order, size);
            var cands := CandidatesOf(setting, out, order);
            && (!report.truncated <==> size <= setting.limit || cands == [] || !Feasible(setting, CutOf(setting), out, cands))
            && (!report.truncated ==> out' == out && report.omittedItems == 0 && report.trimmedSteps == [])
            && (report.unbounded <==> !report.truncated && size > setting.limit)
  {
  }

  lemma {:induction false} PlacedCandidates(setting: Setting, out: Object, order: seq<string>)
    requires Text.Distinct(order)
    ensures SortedById(CandidatesOf(setting, out, order)) && Placed(out, CandidatesOf(setting, out, order))
  {
    CandidateIdsSorted(setting, order);
    CandidatesSorted(setting, out, CandidateIds(setting, order));
  }

  /** The text of a result is within the limit, if it marshals at all. */
  predicate FitsLimit(setting: Setting, out: Object) {
    var n := setting.textSize(out);
    n.Some? ==> n.value <= setting.limit
  }

  lemma {:induction false} SomeRows(table: Table)
    requires table != [] && forall i | 0 <= i < |table| :: table[i] != []
    ensures Sum(Lengths(table)) > 0
  {
    SumZero(Lengths(table));
    assert Lengths(table)[0] > 0;
  }

  /** `keep` comes from dropping rows off a result that was measured `excess` over the limit, the whole one or
      the one cut to `before`; and without the last row dropped, one of candidate `p`, the rows dropped would
      not have made up for it. */
  ghost predicate Needed(setting: Setting, cut: Cut, out: Object, cands: seq<Candidate>, size: nat, keep: seq<nat>,
                         before: seq<nat>, p: nat, excess: nat)
  {
    && excess > 0 && Spare(TableOf(cands), before, keep, p, excess)
    && Keeps(cands, before)
    && ((before == Lengths(TableOf(cands)) && size == setting.limit + excess) ||
        setting.textSize(Build(cut, out, cands, before, |cands|)) == Some(setting.limit + excess))
  }

  /** No needless row was dropped. */
  ghost predicate Economical(setting: Setting, cut: Cut, out: Object, cands: seq<Candidate>, size: nat, keep: seq<nat>) {
    exists before: seq<nat>, p: nat, excess: nat :: Needed(setting, cut, out, cands, size, keep, before, p, excess)
  }

  lemma {:induction false} SettledEconomical(setting: Setting, cut: Cut, out: Object, cands: seq<Candidate>, size: nat)
    requires forall i | 0 <= i < |cands| :: |cands[i].sizes| == |cands[i].items| > 0
    requires cands != [] && size > setting.limit
    ensures Economical(setting, cut, out, cands, size, Settled(setting, cut, out, cands, size))
  {
    var table, measure := TableOf(cands), SizeOf(setting, cut, out, cands);
    SomeRows(table);
    var before, p, excess := TrimmedSpare(table, measure, size, setting.limit);
    assert Keeps(cands, before);
    assert Needed(setting, cut, out, cands, size, Settled(setting, cut, out, cands, size), before, p, excess);
  }

  lemma {:induction false} SettledKeeps(setting: Setting, cut: Cut, out: Object, cands: seq<Candidate>, size: nat)
    requires forall i | 0 <= i < |cands| :: |cands[i].sizes| == |cands[i].items| > 0
    requires cands != [] && size > setting.limit && Feasible(setting, cut, out, cands)
    ensures var keep := Settled(setting, cut, out, cands, size);
            && Balanced(TableOf(cands), keep)
            && FitsLimit(setting, Build(cut, out, cands, keep, |cands|))
            && exists i :: 0 <= i < |cands| && keep[i] < |cands[i].items|
  {
    var table, measure := TableOf(cands), SizeOf(setting, cut, out, cands);
    TrimmedBalancedAndFits(table, measure, size, setting.limit);
    SomeRows(table);
    var keep := Settled(setting, cut, out, cands, size);
    var i :| 0 <= i < |table| && keep[i] != Lengths(table)[i];
  }

  lemma {:induction false} SumLast(s: seq<nat>, n: nat)
    requires n < |s|
    ensures Sum(s[..n + 1]) == Sum(s[..n]) + s[n]
  {
    if n > 0 {
      SumLast(s[1..], n - 1);
      assert s[..n + 1][1..] == s[1..][..n] && s[..n][1..] == s[1..][..n - 1];
    }
  }

  lemma {:induction false} OmittedIs(cands: seq<Candidate>, keep: seq<nat>, all: seq<nat>, n: nat)
    requires Keeps(cands, keep) && n <= |cands|
    requires |all| == |cands| && forall i | 0 <= i < |cands| :: all[i] == |cands[i].items|
    ensures Omitted(cands, keep, n) == Sum(all[..n]) - Sum(keep[..n])
  {
    if n > 0 {
      OmittedIs(cands, keep, all, n - 1);
      SumLast(all, n - 1);
      SumLast(keep, n - 1);
    }
  }

  /** What the valve has done to a result it truncated, with the rows it kept of each candidate: the
      text fits; every step is as it was or cut to a proper prefix of its rows; the cuts are balanced; no
      needless row was dropped; the report names exactly the steps that were cut, in order, and counts every
      omitted row. */
  ghost predicate TrimmedTo(setting: Setting, cut: Cut, out: Object, cands: seq<Candidate>, size: nat, keep: seq<nat>,
                            out': Object, report: Report)
  {
    && Keeps(cands, keep)
    && FitsLimit(setting, out')
    && out'.Keys == out.Keys
    && (forall i | 0 <= i < |cands| && keep[i] < |cands[i].items| ::
          cands[i].id in out' && out'[cands[i].id] == cut(cands[i], keep[i]))
    && (forall id | id in out && id !in report.trimmedSteps :: out'[id] == out[id])
    && Within(TableOf(cands), keep) && Balanced(TableOf(cands), keep)
    && Economical(setting, cut, out, cands, size, keep)
    && Reported(cands, keep, report)
  }

  /** The report names exactly the steps that were cut, in order, and counts every omitted row. */
  ghost predicate Reported(cands: seq<Candidate>, keep: seq<nat>, report: Report)
    requires Keeps(cands, keep)
  {
    && Text.Sorted(report.trimmedSteps) && Text.Distinct(report.trimmedSteps) && report.trimmedSteps != []
    && (forall id :: id in report.trimmedSteps <==>
                     exists i :: 0 <= i < |cands| && cands[i].id == id && keep[i] < |cands[i].items|)
    && report.omittedItems == Sum(Lengths(TableOf(cands))) - Sum(keep)
  }

  lemma {:induction false} ReportIs(cands: seq<Candidate>, keep: seq<nat>, report: Report)
    requires Keeps(cands, keep) && SortedById(cands) && exists i :: 0 <= i < |cands| && keep[i] < |cands[i].items|
    requires forall i | 0 <= i < |cands| :: |cands[i].sizes| == |cands[i].items|
    requires report.omittedItems == Omitted(cands, keep, |cands|) && report.trimmedSteps == TrimmedIds(cands, keep, |cands|)
    ensures Reported(cands, keep, report)
  {
    OmittedIs(cands, keep, Lengths(TableOf(cands)), |cands|);
    assert Lengths(TableOf(cands))[..|cands|] == Lengths(TableOf(cands)) && keep[..|cands|] == keep;
    TrimmedIdsAre(cands, keep, |cands|);
    TrimmedIdsSorted(cands, keep, |cands|);
    var i :| 0 <= i < |cands| && keep[i] < |cands[i].items|;
    assert cands[i].id in TrimmedIds(cands, keep, |cands|);
  }

  lemma {:induction false} BuildTrims(cut: Cut, out: Object, cands: seq<Candidate>, keep: seq<nat>, ids: seq<string>)
    requires Keeps(cands, keep) && Placed(out, cands)
    requires forall id :: id in ids <==> exists i :: 0 <= i < |cands| && cands[i].id == id && keep[i] < |cands[i].items|
    ensures var out' := Build(cut, out, cands, keep, |cands|);
            && out'.Keys == out.Keys
            && (forall i | 0 <= i < |cands| && keep[i] < |cands[i].items| ::
                  cands[i].id in out' && out'[cands[i].id] == cut(cands[i], keep[i]))
            && (forall id | id in out && id !in ids :: out'[id] == out[id])
  {
    BuildKeys(cut, out, cands, keep, |cands|);
    var out' := Build(cut, out, cands, keep, |cands|);
    forall i | 0 <= i < |cands| && keep[i] < |cands[i].items|
      ensures cands[i].id in out' && out'[cands[i].id] == cut(cands[i], keep[i])
    {
      BuildCut(cut, out, cands, keep, |cands|, i);
    }
    forall id | id in out && id !in ids
      ensures out'[id] == out[id]
    {
      BuildRest(cut, out, cands, keep, |cands|, id);
    }
  }

  lemma {:induction false} BoundedTrims(setting: Setting, cut: Cut, out: Object, cands: seq<Candidate>, size: nat) returns (keep: seq<nat>)
    requires SortedById(cands) && Placed(out, cands)
    requires forall i | 0 <= i < |cands| :: |cands[i].sizes| == |cands[i].items| > 0
    requires Bounded(setting, cut, out, cands, size).1.truncated
    ensures TrimmedTo(setting, cut, out, cands, size, keep,
                      Bounded(setting, cut, out, cands, size).0, Bounded(setting, cut, out, cands, size).1)
  {
    keep := Settled(setting, cut, out, cands, size);
    SettledKeeps(setting, cut, out, cands, size);
    SettledEconomical(setting, cut, out, cands, size);
    var report := Bounded(setting, cut, out, cands, size).1;
    ReportIs(cands, keep, report);
    BuildTrims(cut, out, cands, keep, report.trimmedSteps);
  }

  lemma {:induction false} ValveTrims(setting: Setting, out: Object, order: seq<string>, size: nat) returns (keep: seq<nat>)
    requires Text.Distinct(order)
    requires BoundResponse(setting, out, order, size).1.truncated
    ensures TrimmedTo(setting, CutOf(setting), out, CandidatesOf(setting, out, order), size, keep,
                      BoundResponse(setting, out, order, size).0, BoundResponse(setting, out, order, size).1)
  {
    PlacedCandidates(setting, out, order);
    keep := BoundedTrims(setting, CutOf(setting), out, CandidatesOf(setting, out, order), size);
  }

  /** A step the report names is the cut of its candidate. */
  lemma {:induction false} TrimmedStepIs(setting: Setting, out: Object, order: seq<string>, size: nat, id: string)
    returns (c: Candidate, kept: nat)
    requires Text.Distinct(order)
    requires var report := BoundResponse(setting, out, order, size).1; report.truncated && id in report.trimmedSteps
    ensures CandidateAt(setting, out, id) == Some(c) && kept < |c.items|
    ensures var out' := BoundResponse(setting, out, order, size).0; id in out' && out'[id] == Obj(TrimmedStep(setting, c, kept))
  {
    var cands := CandidatesOf(setting, out, order);
    var keep := ValveTrims(setting, out, order, size);
    var i :| 0 <= i < |cands| && cands[i].id == id && keep[i] < |cands[i].items|;
    c, kept := cands[i], keep[i];
  }

  /** The summary of a postProcess tool is never touched. */
  lemma {:induction false} SummaryKept(setting: Setting, out: Object, order: seq<string>, size: nat)
    requires Text.Distinct(order) && setting.hasSummary && "summary" in out
    ensures var out' := BoundResponse(setting, out, order, size).0; "summary" in out' && out'["summary"] == out["summary"]
  {
    CandidateIdsSorted(setting, order);
    var cands, cut := CandidatesOf(setting, out, order), CutOf(setting);
    if size > setting.limit && cands != [] && Feasible(setting, cut, out, cands) {
      BuildRest(cut, out, cands, Settled(setting, cut, out, cands, size), |cands|, "summary");
    }
  }

  /** The text of a cut result is at most that of the emptied one and the estimates of the rows it keeps. */
  ghost predicate Estimated(setting: Setting, cut: Cut, out: Object, cands: seq<Candidate>, size: nat, emptied: nat) {
    && size <= emptied + Weight(TableOf(cands), Lengths(TableOf(cands)), |cands|)
    && forall keep: seq<nat> | Keeps(cands, keep) && Within(TableOf(cands), keep) && setting.textSize(Build(cut, out, cands, keep, |cands|)).Some? ::
         setting.textSize(Build(cut, out, cands, keep, |cands|)).value <= emptied + Weight(TableOf(cands), keep, |cands|)
  }

  lemma {:induction false} EmptyWeighsNothing(table: Table, keep: seq<nat>, n: nat)
    requires Within(table, keep) && n <= |table| && Empty(keep)
    ensures Weight(table, keep, n) == 0
  {
    if n > 0 { EmptyWeighsNothing(table, keep, n - 1); }
  }

  /** So where the estimates hold and every row fits beside the emptied result, some row is kept. */
  lemma {:induction false} SomeRowKept(
      setting: Setting, out: Object, order: seq<string>, size: nat, emptied: nat, keep: seq<nat>)
    requires Text.Distinct(order) && BoundResponse(setting, out, order, size).1.truncated
    requires var cands := CandidatesOf(setting, out, order);
             && Keeps(cands, keep) && Economical(setting, CutOf(setting), out, cands, size, keep)
             && Estimated(setting, CutOf(setting), out, cands, size, emptied)
             && forall i, j | 0 <= i < |cands| && 0 <= j < |cands[i].sizes| :: emptied + cands[i].sizes[j] <= setting.limit
    ensures !Empty(keep)
  {
    var cands, cut := CandidatesOf(setting, out, order), CutOf(setting);
    var before, p, excess :| Needed(setting, cut, out, cands, size, keep, before, p, excess);
    if Empty(keep) {
      EmptyWeighsNothing(TableOf(cands), keep, |cands|);
    }
  }

  // ---------------------------------------------------------------------------------------------
  // When the valve truncates
  // ---------------------------------------------------------------------------------------------

  /** A step with rows, all of which marshal. */
  predicate Trimmable(setting: Setting, out: Object, id: string) {
    && id in out && out[id].Obj? && !(setting.hasSummary && id == "summary")
    && "data" in out[id].fields && out[id].fields["data"].Arr? && out[id].fields["data"].items != []
    && forall row | row in out[id].fields["data"].items :: setting.rowSize(row).Some?
  }

  lemma {:induction false} CandidateIff(setting: Setting, out: Object, id: string)
    ensures CandidateAt(setting, out, id).Some? <==> Trimmable(setting, out, id)
  {
    if id in out && out[id].Obj? {
      var items := ArrayAt(out[id].fields, "data");
      assert forall i | 0 <= i < |items| :: items[i] in items;
    }
  }

  lemma {:induction false} CollectAll(at: string -> Option<Candidate>, ids: seq<string>, id: string)
    requires id in ids && at(id).Some?
    ensures at(id).value in Collect(at, ids)
  {
    var last := |ids| - 1;
    if id != ids[last] { CollectAll(at, ids[..last], id); }
  }

  /** The candidates are the trimmable steps, with their own rows and those rows' sizes. */
  lemma {:induction false} CandidatesAre(setting: Setting, out: Object, order: seq<string>)
    requires Text.Distinct(order)
    ensures var cands := CandidatesOf(setting, out, order);
            && (forall c | c in cands :: c.id in order && Trimmable(setting, out, c.id)
                                         && c.step == out[c.id].fields && c.items == out[c.id].fields["data"].items)
            && (forall id | id in order && Trimmable(setting, out, id) :: exists i | 0 <= i < |cands| :: cands[i].id == id)
  {
    var cands, ids := CandidatesOf(setting, out, order), CandidateIds(setting, order);
    CandidateIdsSorted(setting, order);
    forall c | c in cands
      ensures c.id in order && Trimmable(setting, out, c.id)
      ensures c.step == out[c.id].fields && c.items == out[c.id].fields["data"].items
    {
      var i :| 0 <= i < |cands| && cands[i] == c;
      CandidateIff(setting, out, c.id);
    }
    forall id | id in order && Trimmable(setting, out, id)
      ensures exists i | 0 <= i < |cands| :: cands[i].id == id
    {
      CandidateIff(setting, out, id);
      CollectAll(x => CandidateAt(setting, out, x), ids, id);
    }
  }

  /** A step of the result with every trimmable step emptied. */
  ghost predicate EmptiedAt(setting: Setting, out: Object, order: seq<string>, out': Object, id: string)
    requires id in out && id in out'
  {
    if id in order && Trimmable(setting, out, id)
    then exists c | CandidateAt(setting, out, id) == Some(c) :: out'[id] == Obj(TrimmedStep(setting, c, 0))
    else out'[id] == out[id]
  }

  ghost predicate Emptied(setting: Setting, out: Object, order: seq<string>, out': Object) {
    out'.Keys == out.Keys && forall id | id in out :: EmptiedAt(setting, out, order, out', id)
  }

  lemma {:induction false} BuiltCut(setting: Setting, out: Object, cands: seq<Candidate>, i: nat)
    requires Placed(out, cands) && i < |cands| && cands[i].items != []
    ensures var out' := Build(CutOf(setting), out, cands, Zeros(|cands|), |cands|);
            cands[i].id in out' && out'[cands[i].id] == Obj(TrimmedStep(setting, cands[i], 0))
  {
    BuildCut(CutOf(setting), out, cands, Zeros(|cands|), |cands|, i);
  }

  lemma {:induction false} BuiltKept(setting: Setting, out: Object, cands: seq<Candidate>, id: string)
    requires id in out && forall i | 0 <= i < |cands| :: cands[i].id != id
    ensures var out' := Build(CutOf(setting), out, cands, Zeros(|cands|), |cands|); id in out' && out'[id] == out[id]
  {
    BuildRest(CutOf(setting), out, cands, Zeros(|cands|), |cands|, id);
  }

  lemma {:induction false} BuiltEmptyAt(setting: Setting, out: Object, order: seq<string>, cands: seq<Candidate>, out': Object, id: string)
    requires Text.Distinct(order) && cands == CandidatesOf(setting, out, order) && id in out
    requires out' == Build(CutOf(setting), out, cands, Zeros(|cands|), |cands|) && id in out'
    ensures EmptiedAt(setting, out, order, out', id)
  {
    PlacedCandidates(setting, out, order);
    CandidatesAre(setting, out, order);
    if id in order && Trimmable(setting, out, id) {
      var i :| 0 <= i < |cands| && cands[i].id == id;
      BuiltCut(setting, out, cands, i);
      assert CandidateAt(setting, out, id) == Some(cands[i]);
    } else {
      assert forall i | 0 <= i < |cands| :: cands[i] in cands;
      BuiltKept(setting, out, cands, id);
    }
  }

  lemma {:induction false} BuiltEmpty(setting: Setting, out: Object, order: seq<string>)
    requires Text.Distinct(order)
    ensures var cands := CandidatesOf(setting, out, order);
            Keeps(cands, Zeros(|cands|)) && Emptied(setting, out, order, Build(CutOf(setting), out, cands, Zeros(|cands|), |cands|))
  {
    var cands := CandidatesOf(setting, out, order);
    var out' := Build(CutOf(setting), out, cands, Zeros(|cands|), |cands|);
    PlacedCandidates(setting, out, order);
    BuildKeys(CutOf(setting), out, cands, Zeros(|cands|), |cands|);
    forall id | id in out
      ensures EmptiedAt(setting, out, order, out', id)
    {
      BuiltEmptyAt(setting, out, order, cands, out', id);
    }
  }

  /** The valve truncates exactly the results that are too large, have a step to trim, and would fit with all
      such steps emptied. */
  lemma {:induction false} TruncatesExactly(setting: Setting, out: Object, order: seq<string>, size: nat)
    requires Text.Distinct(order)
    ensures BoundResponse(setting, out, order, size).1.truncated <==>
            && size > setting.limit
            && (exists id | id in order :: Trimmable(setting, out, id))
            && (exists out' | Emptied(setting, out, order, out') ::
                  setting.textSize(out').Some? && setting.textSize(out').value <= setting.limit)
  {
    var cands := CandidatesOf(setting, out, order);
    CandidatesAre(setting, out, order);
    BuiltEmpty(setting, out, order);
    UntouchedWhen(setting, out, order, size);
    var built := Build(CutOf(setting), out, cands, Zeros(|cands|), |cands|);
    forall out' | Emptied(setting, out, order, out')
      ensures out' == built
    {
      EmptiedOnce(setting, out, order, out', built);
    }
    if cands != [] { assert cands[0] in cands; }
  }

  lemma {:induction false} EmptiedOnce(setting: Setting, out: Object, order: seq<string>, a: Object, b: Object)
    requires Emptied(setting, out, order, a) && Emptied(setting, out, order, b)
    ensures a == b
  {
    forall id | id in out
      ensures a[id] == b[id]
    {
      EmptiedOnceAt(setting, out, order, a, b, id);
    }
  }

  lemma {:induction false} EmptiedOnceAt(setting: Setting, out: Object, order: seq<string>, a: Object, b: Object, id: string)
    requires id in out && id in a && id in b && EmptiedAt(setting, out, order, a, id) && EmptiedAt(setting, out, order, b, id)
    ensures a[id] == b[id]
  {
  }
}
