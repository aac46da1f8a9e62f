/** Grouping a tool's steps into batches, and running them in any completion order. */
module Batches {
  import opened Options
  import opened Json

  /** The parts of a step definition that decide where it runs and what it needs. `count` is the page-size
      argument when it is an integer literal. */
  datatype Step = Step(
    id: string, parallel: bool, forEach: string, forEachIf: string, forEachKey: string, concurrency: int,
    select: seq<string>, followPages: bool, resumable: bool, count: Option<int>)

  datatype Batch = Batch(sequential: bool, steps: seq<Step>)

  // ---------------------------------------------------------------------------------------------
  // Grouping
  // ---------------------------------------------------------------------------------------------

  /** `GroupStepsIntoBatches`, one step at a time. */
  function Grouped(batches: seq<Batch>, step: Step): seq<Batch> {
    if !step.parallel then batches + [Batch(true, [step])]
    else if batches == [] || batches[|batches| - 1].sequential then batches + [Batch(false, [step])]
    else
      var last := |batches| - 1;
      batches[last := Batch(false, batches[last].steps + [step])]
  }

  function Group(steps: seq<Step>): seq<Batch> {
    if steps == [] then [] else Grouped(Group(steps[..|steps| - 1]), steps[|steps| - 1])
  }

  method GroupStepsIntoBatches(steps: seq<Step>) returns (batches: seq<Batch>)
    ensures batches == Group(steps)
  {
    batches := [];
    for i := 0 to |steps|
      invariant batches == Group(steps[..i])
    {
      var step := steps[i];
      assert steps[..i + 1][..i] == steps[..i];
      if step.parallel {
        if batches == [] || batches[|batches| - 1].sequential {
          batches := batches + [Batch(false, [step])];
        } else {
          var last := |batches| - 1;
          batches := batches[last := Batch(false, batches[last].steps + [step])];
        }
      } else {
        batches := batches + [Batch(true, [step])];
      }
    }
    assert steps[..|steps|] == steps;
  }

  /** The steps of the batches, in order. */
  function Flatten(batches: seq<Batch>): seq<Step> {
    if batches == [] then [] else Flatten(batches[..|batches| - 1]) + batches[|batches| - 1].steps
  }

  predicate WellMade(b: Batch) {
    if b.sequential then |b.steps| == 1 && !b.steps[0].parallel
    else b.steps != [] && forall i | 0 <= i < |b.steps| :: b.steps[i].parallel
  }

  /** A sequential batch is one ordinary step; a parallel batch is a run of parallel steps; and runs are
      maximal, so no two parallel batches touch. */
  predicate Proper(batches: seq<Batch>) {
    && (forall i | 0 <= i < |batches| :: WellMade(batches[i]))
    && (forall i | 0 < i < |batches| :: batches[i - 1].sequential || batches[i].sequential)
  }

  lemma {:induction false} FlattenAppend(batches: seq<Batch>, b: Batch)
    ensures Flatten(batches + [b]) == Flatten(batches) + b.steps
  {
    assert (batches + [b])[..|batches|] == batches;
  }

  lemma {:induction false} FlattenLast(batches: seq<Batch>, b: Batch)
    requires batches != []
    ensures Flatten(batches[|batches| - 1 := b]) == Flatten(batches[..|batches| - 1]) + b.steps
  {
    assert batches[|batches| - 1 := b] == batches[..|batches| - 1] + [b];
    FlattenAppend(batches[..|batches| - 1], b);
  }

  lemma {:induction false} GroupedFlattens(batches: seq<Batch>, step: Step)
    ensures Flatten(Grouped(batches, step)) == Flatten(batches) + [step]
  {
    if !step.parallel {
      FlattenAppend(batches, Batch(true, [step]));
    } else if batches == [] || batches[|batches| - 1].sequential {
      FlattenAppend(batches, Batch(false, [step]));
    } else {
      FlattenLast(batches, Batch(false, batches[|batches| - 1].steps + [step]));
      assert Flatten(batches) == Flatten(batches[..|batches| - 1]) + batches[|batches| - 1].steps;
    }
  }

  lemma {:induction false} AppendProper(batches: seq<Batch>, b: Batch)
    requires Proper(batches) && WellMade(b)
    requires batches == [] || batches[|batches| - 1].sequential || b.sequential
    ensures Proper(batches + [b])
  {
  }

  lemma {:induction false} LastProper(batches: seq<Batch>, b: Batch)
    requires batches != [] && Proper(batches) && WellMade(b) && b.sequential == batches[|batches| - 1].sequential
    ensures Proper(batches[|batches| - 1 := b])
  {
  }

  lemma {:induction false} GroupedProper(batches: seq<Batch>, step: Step)
    requires Proper(batches)
    ensures Proper(Grouped(batches, step))
  {
    if !step.parallel {
      AppendProper(batches, Batch(true, [step]));
    } else if batches == [] || batches[|batches| - 1].sequential {
      AppendProper(batches, Batch(false, [step]));
    } else {
      assert WellMade(batches[|batches| - 1]);
      LastProper(batches, Batch(false, batches[|batches| - 1].steps + [step]));
    }
  }

  /** One more step at the end. */
  lemma {:induction false} GroupedGood(batches: seq<Batch>, before: seq<Step>, step: Step, all: seq<Step>, grown: seq<Batch>)
    requires Flatten(batches) == before && Proper(batches) && all == before + [step] && grown == Grouped(batches, step)
    ensures Flatten(grown) == all && Proper(grown)
  {
    GroupedFlattens(batches, step);
    GroupedProper(batches, step);
  }

  lemma {:induction false} GroupUnfolds(steps: seq<Step>)
    requires steps != []
    ensures Group(steps) == Grouped(Group(steps[..|steps| - 1]), steps[|steps| - 1])
    ensures steps == steps[..|steps| - 1] + [steps[|steps| - 1]]
  {
  }

  /** Grouping keeps every step in its declared place and makes parallel runs as long as they can be. */
  lemma {:induction false} GroupIsProper(steps: seq<Step>)
    ensures Flatten(Group(steps)) == steps && Proper(Group(steps))
  {
    if steps != [] {
      var before, last := steps[..|steps| - 1], steps[|steps| - 1];
      GroupIsProper(before);
      GroupUnfolds(steps);
      GroupedGood(Group(before), before, last, steps, Group(steps));
    }
  }

  /** A proper grouping without its last step. */
  function Ungrouped(batches: seq<Batch>): seq<Batch>
    requires batches != [] && batches[|batches| - 1].steps != []
  {
    var last := batches[|batches| - 1];
    if |last.steps| == 1 then batches[..|batches| - 1]
    else batches[|batches| - 1 := Batch(last.sequential, last.steps[..|last.steps| - 1])]
  }

  lemma {:induction false} UngroupSingle(batches: seq<Batch>)
    requires batches != [] && Proper(batches) && |batches[|batches| - 1].steps| == 1
    ensures Proper(Ungrouped(batches))
    ensures Grouped(Ungrouped(batches), batches[|batches| - 1].steps[0]) == batches
  {
    var n := |batches| - 1;
    assert WellMade(batches[n]);
    assert batches[n].steps == [batches[n].steps[0]];
    assert batches == batches[..n] + [batches[n]];
    assert n > 0 ==> batches[n - 1].sequential || batches[n].sequential;
  }

  lemma {:induction false} UngroupLonger(batches: seq<Batch>)
    requires batches != [] && Proper(batches) && |batches[|batches| - 1].steps| > 1
    ensures Proper(Ungrouped(batches))
    ensures var s := batches[|batches| - 1].steps; Grouped(Ungrouped(batches), s[|s| - 1]) == batches
  {
    var n := |batches| - 1;
    var s := batches[n].steps;
    assert WellMade(batches[n]);
    var shorter := Batch(false, s[..|s| - 1]);
    assert WellMade(shorter);
    LastProper(batches, shorter);
    assert s == s[..|s| - 1] + [s[|s| - 1]];
  }

  lemma {:induction false} UngroupedProper(batches: seq<Batch>)
    requires batches != [] && Proper(batches)
    ensures WellMade(batches[|batches| - 1])
    ensures var s := batches[|batches| - 1].steps;
            && Proper(Ungrouped(batches))
            && Flatten(batches) == Flatten(Ungrouped(batches)) + [s[|s| - 1]]
            && Grouped(Ungrouped(batches), s[|s| - 1]) == batches
  {
    var s := batches[|batches| - 1].steps;
    assert WellMade(batches[|batches| - 1]);
    if |s| == 1 { UngroupSingle(batches); } else { UngroupLonger(batches); }
    GroupedFlattens(Ungrouped(batches), s[|s| - 1]);
  }

  /** There is no other grouping with those two properties. */
  lemma {:induction false} GroupIsOnly(steps: seq<Step>, batches: seq<Batch>)
    requires Flatten(batches) == steps && Proper(batches)
    ensures batches == Group(steps)
    decreases |steps|
  {
    if batches != [] {
      UngroupedProper(batches);
      var s := batches[|batches| - 1].steps;
      assert steps[|steps| - 1] == s[|s| - 1];
      assert steps[..|steps| - 1] == Flatten(Ungrouped(batches));
      GroupIsOnly(steps[..|steps| - 1], Ungrouped(batches));
    }
  }

  // ---------------------------------------------------------------------------------------------
  // Running
  // ---------------------------------------------------------------------------------------------

  type StepResults = map<string, Object>

  /** What a step returns, given the results it can see; `None` is a failure. */
  type Run = (Step, StepResults) -> Option<Object>

  predicate AllRun(run: Run, steps: seq<Step>, seen: StepResults) {
    forall i | 0 <= i < |steps| :: run(steps[i], seen).Some?
  }

  /** The results of `steps`, all seeing `seen`, stored in that order. */
  function Stored(run: Run, steps: seq<Step>, seen: StepResults, into: StepResults): StepResults
    requires AllRun(run, steps, seen)
  {
    if steps == [] then into
    else
      var last := |steps| - 1;
      Stored(run, steps[..last], seen, into)[steps[last].id := run(steps[last], seen).value]
  }

  predicate Unique(steps: seq<Step>) {
    forall i, j | 0 <= i < j < |steps| :: steps[i].id != steps[j].id
  }

  /** Every step's own result is there, under its own ID. */
  lemma {:induction false} StoredOwn(run: Run, steps: seq<Step>, seen: StepResults, into: StepResults, i: nat)
    requires AllRun(run, steps, seen) && Unique(steps) && i < |steps|
    ensures var r := Stored(run, steps, seen, into);
            steps[i].id in r && r[steps[i].id] == run(steps[i], seen).value
  {
    if i < |steps| - 1 { StoredOwn(run, steps[..|steps| - 1], seen, into, i); }
  }

  /** Every other entry is as it was. */
  lemma {:induction false} StoredRest(run: Run, steps: seq<Step>, seen: StepResults, into: StepResults, k: string)
    requires AllRun(run, steps, seen) && forall i | 0 <= i < |steps| :: steps[i].id != k
    ensures var r := Stored(run, steps, seen, into);
            (k in r <==> k in into) && (k in r ==> r[k] == into[k])
  {
    if steps != [] { StoredRest(run, steps[..|steps| - 1], seen, into, k); }
  }

  /** Whatever order the results arrive in, the same results are stored. */
  lemma {:induction false} StoredForgetsOrder(run: Run, a: seq<Step>, b: seq<Step>, seen: StepResults, into: StepResults)
    requires AllRun(run, a, seen) && AllRun(run, b, seen) && Unique(a) && Unique(b)
    requires forall s :: s in a <==> s in b
    ensures Stored(run, a, seen, into) == Stored(run, b, seen, into)
  {
    var x, y := Stored(run, a, seen, into), Stored(run, b, seen, into);
    forall k
      ensures (k in x <==> k in y) && (k in x ==> x[k] == y[k])
    {
      StoredSame(run, a, b, seen, into, k);
    }
  }

  lemma {:induction false} StoredSame(run: Run, a: seq<Step>, b: seq<Step>, seen: StepResults, into: StepResults, k: string)
    requires AllRun(run, a, seen) && AllRun(run, b, seen) && Unique(a) && Unique(b)
    requires forall s :: s in a <==> s in b
    ensures var x, y := Stored(run, a, seen, into), Stored(run, b, seen, into);
            (k in x <==> k in y) && (k in x ==> x[k] == y[k])
  {
    if i :| 0 <= i < |a| && a[i].id == k {
      assert a[i] in b;
      var j :| 0 <= j < |b| && b[j] == a[i];
      StoredOwn(run, a, seen, into, i);
      StoredOwn(run, b, seen, into, j);
    } else {
      forall j | 0 <= j < |b|
        ensures b[j].id != k
      {
        assert b[j] in a;
      }
      StoredRest(run, a, seen, into, k);
      StoredRest(run, b, seen, into, k);
    }
  }

  /** One batch: every step sees what was there before it, and none of the others. */
  function BatchResult(run: Run, steps: seq<Step>, results: StepResults): Option<StepResults> {
    if AllRun(run, steps, results) then Some(Stored(run, steps, results, results)) else None
  }

  function RunAll(run: Run, batches: seq<Batch>): Option<StepResults> {
    if batches == [] then Some(map[])
    else
      match RunAll(run, batches[..|batches| - 1])
      case None => None
      case Some(results) => BatchResult(run, batches[|batches| - 1].steps, results)
  }

  /** `arrived` lists the same steps, each once. */
  ghost predicate Arrival(steps: seq<Step>, arrived: seq<Step>) {
    Unique(arrived) && |arrived| == |steps| && forall s :: s in steps <==> s in arrived
  }

  lemma {:induction false} ArrivalRuns(run: Run, steps: seq<Step>, arrived: seq<Step>, seen: StepResults)
    requires Arrival(steps, arrived)
    ensures AllRun(run, steps, seen) <==> AllRun(run, arrived, seen)
  {
    if AllRun(run, steps, seen) {
      forall i | 0 <= i < |arrived|
        ensures run(arrived[i], seen).Some?
      {
        assert arrived[i] in arrived;
      }
    }
    if AllRun(run, arrived, seen) {
      forall i | 0 <= i < |steps|
        ensures run(steps[i], seen).Some?
      {
        assert steps[i] in steps;
      }
    }
  }

  /** `executeBatch`: each step's result goes into a channel as the step finishes, and the channel is
      drained into the results once all have; `arrived` is the order in which they finish. */
  method ExecuteBatch(run: Run, steps: seq<Step>, results: StepResults, arrived: seq<Step>) returns (r: Option<StepResults>)
    requires Unique(steps) && Arrival(steps, arrived)
    ensures r == BatchResult(run, steps, results)
  {
    ArrivalRuns(run, steps, arrived, results);
    var channel: seq<(string, Object)> := [];
    for i := 0 to |arrived|
      invariant |channel| == i
      invariant forall j | 0 <= j < i ::
                  run(arrived[j], results).Some? && channel[j] == (arrived[j].id, run(arrived[j], results).value)
    {
      match run(arrived[i], results) {
        case None => return None;
        case Some(data) => channel := channel + [(arrived[i].id, data)];
      }
    }
    var into := results;
    for i := 0 to |channel|
      invariant AllRun(run, arrived[..i], results) && into == Stored(run, arrived[..i], results, results)
    {
      assert arrived[..i + 1][..i] == arrived[..i];
      into := into[channel[i].0 := channel[i].1];
    }
    assert arrived[..|arrived|] == arrived;
    StoredForgetsOrder(run, arrived, steps, results, results);
    return Some(into);
  }

  lemma {:induction false} FailsForGood(run: Run, batches: seq<Batch>, n: nat)
    requires n <= |batches| && RunAll(run, batches[..n]).None?
    ensures RunAll(run, batches).None?
  {
    if n == |batches| {
      assert batches[..n] == batches;
    } else {
      assert batches[..|batches| - 1][..n] == batches[..n];
      FailsForGood(run, batches[..|batches| - 1], n);
    }
  }

  lemma {:induction false} OneBatch(run: Run, batches: seq<Batch>, b: nat, results: StepResults)
    requires b < |batches| && RunAll(run, batches[..b]) == Some(results)
    ensures RunAll(run, batches[..b + 1]) == BatchResult(run, batches[b].steps, results)
    ensures BatchResult(run, batches[b].steps, results).None? ==> RunAll(run, batches).None?
  {
    assert batches[..b + 1][..b] == batches[..b];
    if RunAll(run, batches[..b + 1]).None? { FailsForGood(run, batches, b + 1); }
  }

  /** `Execute`, up to the result strategy: `arrived` chooses the completion order of every batch, and
      makes no difference. */
  method Execute(run: Run, steps: seq<Step>, arrived: nat -> seq<Step>) returns (r: Option<StepResults>)
    requires Unique(steps)
    requires forall b | 0 <= b < |Group(steps)| :: Arrival(Group(steps)[b].steps, arrived(b))
    ensures r == RunAll(run, Group(steps))
  {
    var batches := GroupStepsIntoBatches(steps);
    GroupIsProper(steps);
    var results: StepResults := map[];
    for b := 0 to |batches|
      invariant RunAll(run, batches[..b]) == Some(results)
    {
      BatchUnique(batches, b);
      OneBatch(run, batches, b, results);
      var next := ExecuteBatch(run, batches[b].steps, results, arrived(b));
      if next.None? {
        return None;
      }
      results := next.value;
    }
    assert batches[..|batches|] == batches;
    return Some(results);
  }

  /** Where a batch's steps sit in the declared order. */
  lemma {:induction false} FlattenAt(batches: seq<Batch>, b: nat)
    requires b < |batches|
    ensures var before := Flatten(batches[..b]);
            && |before| + |batches[b].steps| <= |Flatten(batches)|
            && Flatten(batches)[..|before|] == before
            && Flatten(batches)[|before|..|before| + |batches[b].steps|] == batches[b].steps
  {
    var n := |batches| - 1;
    if b < n {
      FlattenAt(batches[..n], b);
      assert batches[..n][..b] == batches[..b];
      var f, g := Flatten(batches), Flatten(batches[..n]);
      assert f[..|g|] == g;
      assert f[..|Flatten(batches[..b])|] == g[..|Flatten(batches[..b])|];
    }
  }

  lemma {:induction false} SliceUnique(all: seq<Step>, lo: nat, part: seq<Step>)
    requires lo + |part| <= |all| && all[lo..lo + |part|] == part && Unique(all)
    ensures Unique(part)
  {
    assert forall i | 0 <= i < |part| :: part[i] == all[lo + i];
  }

  lemma {:induction false} BatchUnique(batches: seq<Batch>, b: nat)
    requires b < |batches| && Unique(Flatten(batches))
    ensures Unique(batches[b].steps)
  {
    FlattenAt(batches, b);
    SliceUnique(Flatten(batches), |Flatten(batches[..b])|, batches[b].steps);
  }

  // ---------------------------------------------------------------------------------------------
  // What each step sees
  // ---------------------------------------------------------------------------------------------

  predicate Named(steps: seq<Step>, k: string) {
    exists i | 0 <= i < |steps| :: steps[i].id == k
  }

  /** The results hold exactly these steps' IDs. */
  ghost predicate Covers(results: StepResults, steps: seq<Step>) {
    forall k :: k in results <==> Named(steps, k)
  }

  lemma {:induction false} RunCovers(run: Run, batches: seq<Batch>)
    requires RunAll(run, batches).Some? && Unique(Flatten(batches))
    ensures Covers(RunAll(run, batches).value, Flatten(batches))
  {
    if batches != [] {
      var n := |batches| - 1;
      FlattenAt(batches, n);
      SliceUnique(Flatten(batches), 0, Flatten(batches[..n]));
      RunCovers(run, batches[..n]);
      BatchUnique(batches, n);
      StoredCovers(run, batches[n].steps, RunAll(run, batches[..n]).value, Flatten(batches[..n]));
    }
  }

  lemma {:induction false} StoredCovers(run: Run, steps: seq<Step>, results: StepResults, before: seq<Step>)
    requires AllRun(run, steps, results) && Unique(steps) && Covers(results, before)
    ensures Covers(Stored(run, steps, results, results), before + steps)
  {
    forall k
      ensures k in Stored(run, steps, results, results) <==> Named(before + steps, k)
    {
      NamedSum(before, steps, k);
      if i :| 0 <= i < |steps| && steps[i].id == k {
        StoredOwn(run, steps, results, results, i);
      } else {
        StoredRest(run, steps, results, results, k);
      }
    }
  }

  lemma {:induction false} NamedSum(a: seq<Step>, b: seq<Step>, k: string)
    ensures Named(a + b, k) <==> Named(a, k) || Named(b, k)
  {
    if i :| 0 <= i < |a| && a[i].id == k { assert (a + b)[i].id == k; }
    if i :| 0 <= i < |b| && b[i].id == k { assert (a + b)[|a| + i].id == k; }
  }

  /** The final results, cut back to what was there after the first `b` batches. */
  lemma {:induction false} Unchanged(run: Run, batches: seq<Batch>, b: nat, k: string)
    requires RunAll(run, batches).Some? && Unique(Flatten(batches)) && b <= |batches|
    ensures RunAll(run, batches[..b]).Some?
    ensures var seen := RunAll(run, batches[..b]).value;
            k in seen ==> k in RunAll(run, batches).value && RunAll(run, batches).value[k] == seen[k]
  {
    var n := |batches| - 1;
    if b == |batches| {
      assert batches[..b] == batches;
    } else {
      assert batches[..n][..b] == batches[..b];
      FlattenAt(batches, n);
      SliceUnique(Flatten(batches), 0, Flatten(batches[..n]));
      Unchanged(run, batches[..n], b, k);
      var before := RunAll(run, batches[..n]).value;
      if k in before {
        RunCovers(run, batches[..n]);
        LaterNamesDiffer(Flatten(batches), Flatten(batches[..n]), batches[n].steps, k);
        StoredRest(run, batches[n].steps, before, before, k);
      }
    }
  }

  lemma {:induction false} LaterNamesDiffer(all: seq<Step>, a: seq<Step>, b: seq<Step>, k: string)
    requires Unique(all) && all == a + b && Named(a, k)
    ensures forall i | 0 <= i < |b| :: b[i].id != k
  {
    var j :| 0 <= j < |a| && a[j].id == k;
    assert all[j] == a[j];
    assert forall i | 0 <= i < |b| :: b[i] == all[|a| + i];
  }

  lemma {:induction false} PrefixUnique(steps: seq<Step>, b: nat)
    requires Unique(steps) && b <= |Group(steps)|
    ensures Unique(Flatten(Group(steps)[..b]))
  {
    GroupIsProper(steps);
    if b == |Group(steps)| {
      assert Group(steps)[..b] == Group(steps);
    } else {
      FlattenAt(Group(steps), b);
      SliceUnique(steps, 0, Flatten(Group(steps)[..b]));
    }
  }

  /** Whenever a run gets as far as batch `b`, whatever happens in it or later, its steps see exactly the
      results of the steps declared before it: all of them and no others. */
  lemma {:induction false} ReachedSees(run: Run, steps: seq<Step>, b: nat)
    requires Unique(steps) && b <= |Group(steps)| && RunAll(run, Group(steps)[..b]).Some?
    ensures Covers(RunAll(run, Group(steps)[..b]).value, Flatten(Group(steps)[..b]))
  {
    PrefixUnique(steps, b);
    RunCovers(run, Group(steps)[..b]);
  }

  /** In every run, successful or not, that gets past its first `n` batches, each step of a batch `b` among
      them returned its result seeing exactly the results of the batches before `b`; and those results, and
      its own, still stand after the `n` batches as they were. */
  lemma {:induction false} SeesEarlierBatches(run: Run, steps: seq<Step>, n: nat, b: nat, i: nat)
    requires Unique(steps) && b < n <= |Group(steps)| && RunAll(run, Group(steps)[..n]).Some?
    requires i < |Group(steps)[b].steps|
    ensures RunAll(run, Group(steps)[..b]).Some?
    ensures var after := RunAll(run, Group(steps)[..n]).value;
            var seen := RunAll(run, Group(steps)[..b]).value;
            var step := Group(steps)[b].steps[i];
            && Covers(seen, Flatten(Group(steps)[..b]))
            && (forall k | k in seen :: k in after && after[k] == seen[k])
            && step.id in after && run(step, seen) == Some(after[step.id])
  {
    var batches := Group(steps)[..n];
    assert batches[..b] == Group(steps)[..b] && batches[b] == Group(steps)[b];
    PrefixUnique(steps, n);
    SeenStands(run, batches, b);
    ReachedSees(run, steps, b);
    OwnResult(run, batches, b, i);
  }

  lemma {:induction false} SeenStands(run: Run, batches: seq<Batch>, b: nat)
    requires Unique(Flatten(batches)) && RunAll(run, batches).Some? && b <= |batches|
    ensures RunAll(run, batches[..b]).Some?
    ensures forall k | k in RunAll(run, batches[..b]).value ::
              k in RunAll(run, batches).value && RunAll(run, batches).value[k] == RunAll(run, batches[..b]).value[k]
  {
    Unchanged(run, batches, b, "");
    forall k | k in RunAll(run, batches[..b]).value
      ensures k in RunAll(run, batches).value && RunAll(run, batches).value[k] == RunAll(run, batches[..b]).value[k]
    {
      Unchanged(run, batches, b, k);
    }
  }

  lemma {:induction false} OwnResult(run: Run, batches: seq<Batch>, b: nat, i: nat)
    requires Unique(Flatten(batches)) && RunAll(run, batches).Some? && b < |batches| && i < |batches[b].steps|
    ensures RunAll(run, batches[..b]).Some?
    ensures var step := batches[b].steps[i];
            step.id in RunAll(run, batches).value &&
            run(step, RunAll(run, batches[..b]).value) == Some(RunAll(run, batches).value[step.id])
  {
    var step := batches[b].steps[i];
    Unchanged(run, batches, b, step.id);
    Unchanged(run, batches, b + 1, step.id);
    assert batches[..b + 1][..b] == batches[..b];
    BatchUnique(batches, b);
    var seen := RunAll(run, batches[..b]).value;
    StoredOwn(run, batches[b].steps, seen, seen, i);
  }
}
