/** Which tools always return what they declare: the exact condition on a definition and the catalog. */
module Fitting {
  import opened Json
  import opened Options
  import opened Schema
  import opened Results
  import opened Conformance
  import B = Batches
  import F = FanOut
  import L = Loader
  import Notes
  import P = Pagination
  import Text
  import V = Valve

  /** A tool in both its views, with what its schema is generated from. */
  datatype Definition = Definition(
    tool: Tool, defs: seq<B.Step>, catalog: Catalog, required: map<string, seq<string>>)

  predicate SameStep(step: Step, def: B.Step) {
    step.id == def.id && step.forEach == def.forEach && step.followPages == def.followPages && step.resumable == def.resumable
  }

  predicate SameSteps(steps: seq<Step>, defs: seq<B.Step>) {
    |steps| == |defs| && forall i | 0 <= i < |steps| :: SameStep(steps[i], defs[i])
  }

  /** The loader accepts it. */
  predicate Accepted(d: Definition, cursor: Option<bool>) {
    && SameSteps(d.tool.steps, d.defs) && L.Loadable(d.defs, cursor)
    && L.ResultOk(d.defs, d.tool.postProcess, d.tool.omitRawSteps)
  }

  function OpOf(d: Definition, i: nat): Option<Operation>
    requires i < |d.tool.steps|
  {
    Lookup(d.catalog, d.tool.steps[i].operation)
  }

  function RequiredOf(d: Definition, i: nat): seq<string>
    requires i < |d.tool.steps|
  {
    RequiredFor(d.required, d.tool.steps[i].id)
  }

  lemma {:induction false} AcceptedIds(d: Definition, cursor: Option<bool>)
    requires Accepted(d, cursor)
    ensures B.Unique(d.defs) && Text.Distinct(Ids(d.tool.steps)) && |d.tool.steps| == |d.defs| > 0
    ensures d.tool.postProcess ==> SUMMARY !in Ids(d.tool.steps)
  {
    L.LoadableUnique(d.defs, cursor);
    var steps, defs := d.tool.steps, d.defs;
    assert forall i | 0 <= i < |steps| :: SameStep(steps[i], defs[i]);
    forall i, j | 0 <= i < j < |steps|
      ensures Ids(steps)[i] != Ids(steps)[j]
    {
      assert defs[i].id != defs[j].id;
    }
  }

  /** The step a fan-out goes over. */
  lemma {:induction false} ParentOf(d: Definition, cursor: Option<bool>, i: nat) returns (p: nat)
    requires Accepted(d, cursor) && i < |d.tool.steps| && d.tool.steps[i].forEach != ""
    ensures p < i && d.tool.steps[p].id == d.tool.steps[i].forEach
  {
    assert SameStep(d.tool.steps[i], d.defs[i]);
    L.LoadedAt(d.defs, cursor, |d.defs|, i);
    var prior := d.defs[..i];
    p :| 0 <= p < |prior| && prior[p].id == d.defs[i].forEach;
    assert SameStep(d.tool.steps[p], d.defs[p]);
  }

  lemma {:induction false} SameId(d: Definition, cursor: Option<bool>, i: nat, j: nat)
    requires Accepted(d, cursor) && i < |d.tool.steps| && j < |d.tool.steps| && d.tool.steps[i].id == d.tool.steps[j].id
    ensures i == j
  {
    AcceptedIds(d, cursor);
    assert Ids(d.tool.steps)[i] == Ids(d.tool.steps)[j];
  }

  // ---------------------------------------------------------------------------------------------
  // Runs, and the results they leave
  // ---------------------------------------------------------------------------------------------

  ghost predicate ReturnedAt(d: Definition, i: nat, seen: B.StepResults, r: Object)
    requires i < |d.tool.steps| == |d.defs|
  {
    Returned(d.tool.steps[i], d.defs[i], OpOf(d, i), RequiredOf(d, i), seen, r)
  }

  /** Whatever a step returns, seeing whatever it sees, is what the executor makes of the answers of a broker
      that keeps to its specification. */
  ghost predicate HonestRun(d: Definition, run: B.Run)
    requires |d.tool.steps| == |d.defs|
  {
    forall i: nat, seen {:trigger run(d.defs[i], seen)} | i < |d.defs| && run(d.defs[i], seen).Some? ::
      ReturnedAt(d, i, seen, run(d.defs[i], seen).value)
  }

  function IdSet(d: Definition): set<string> {
    set i | 0 <= i < |d.tool.steps| :: d.tool.steps[i].id
  }

  /** One result per step, each of them what that step returns in the light of the others. */
  ghost predicate Consistent(d: Definition, results: B.StepResults)
    requires |d.tool.steps| == |d.defs|
  {
    results.Keys == IdSet(d) && forall i: nat | i < |d.tool.steps| :: ResultAt(d, i, results)
  }

  ghost predicate ResultAt(d: Definition, i: nat, results: B.StepResults)
    requires i < |d.tool.steps| == |d.defs|
  {
    d.tool.steps[i].id in results && ReturnedAt(d, i, results, results[d.tool.steps[i].id])
  }

  /** A step looks at nothing but its parent's result. */
  lemma {:induction false} SeesOnlyParent(d: Definition, i: nat, seen: B.StepResults, other: B.StepResults, r: Object)
    requires SameSteps(d.tool.steps, d.defs) && i < |d.tool.steps| && ReturnedAt(d, i, seen, r)
    requires var parent := d.defs[i].forEach;
             parent != "" && parent in seen ==> parent in other && other[parent] == seen[parent]
    ensures ReturnedAt(d, i, other, r)
  {
    var step, def := d.tool.steps[i], d.defs[i];
    assert SameStep(step, def);
    if step.forEach != "" {
      var op := OpOf(d, i).value;
      var cfg, labels :| Configured(def, seen, cfg) && FanOutReturns(cfg, labels, r) && HonestAnswers(labels, step, op, RequiredOf(d, i));
      assert Configured(def, other, cfg);
    }
  }

  /** The batch and the place in it of a declared step. */
  lemma {:induction false} BatchOf(batches: seq<B.Batch>, i: nat) returns (b: nat, j: nat)
    requires i < |B.Flatten(batches)|
    ensures b < |batches| && j < |batches[b].steps| && batches[b].steps[j] == B.Flatten(batches)[i]
  {
    var n := |batches| - 1;
    var before := B.Flatten(batches[..n]);
    if i < |before| {
      b, j := BatchOf(batches[..n], i);
    } else {
      b, j := n, i - |before|;
    }
  }

  /** After `n` batches every declared step's result is what that step returned, seeing results that stand. */
  lemma {:induction false} ReturnedBy(defs: seq<B.Step>, run: B.Run, n: nat, i: nat) returns (seen: B.StepResults)
    requires B.Unique(defs) && n <= |B.Group(defs)| && B.RunAll(run, B.Group(defs)[..n]).Some?
    requires i < |B.Flatten(B.Group(defs)[..n])|
    ensures var step, results := B.Flatten(B.Group(defs)[..n])[i], B.RunAll(run, B.Group(defs)[..n]).value;
            && step.id in results && run(step, seen) == Some(results[step.id])
            && forall k | k in seen :: k in results && results[k] == seen[k]
  {
    var batches := B.Group(defs);
    var b, j := BatchOf(batches[..n], i);
    assert batches[..n][b] == batches[b];
    B.SeesEarlierBatches(run, defs, n, b, j);
    seen := B.RunAll(run, batches[..b]).value;
  }

  lemma {:induction false} WholeGroup(defs: seq<B.Step>)
    ensures B.Group(defs)[..|B.Group(defs)|] == B.Group(defs) && B.Flatten(B.Group(defs)) == defs
  {
    B.GroupIsProper(defs);
  }

  lemma {:induction false} RunResultAt(d: Definition, cursor: Option<bool>, run: B.Run, i: nat)
    requires Accepted(d, cursor) && HonestRun(d, run) && B.RunAll(run, B.Group(d.defs)).Some? && i < |d.defs|
    ensures ResultAt(d, i, B.RunAll(run, B.Group(d.defs)).value)
  {
    AcceptedIds(d, cursor);
    WholeGroup(d.defs);
    var seen := ReturnedBy(d.defs, run, |B.Group(d.defs)|, i);
    assert SameStep(d.tool.steps[i], d.defs[i]);
    var results := B.RunAll(run, B.Group(d.defs)).value;
    assert run(d.defs[i], seen).Some?;
    SeesOnlyParent(d, i, seen, results, results[d.defs[i].id]);
  }

  lemma {:induction false} NamedIds(d: Definition, k: string)
    requires SameSteps(d.tool.steps, d.defs)
    ensures B.Named(d.defs, k) <==> k in IdSet(d)
  {
    assert forall i | 0 <= i < |d.defs| :: SameStep(d.tool.steps[i], d.defs[i]);
  }

  lemma {:induction false} CoveredKeys(d: Definition, results: B.StepResults)
    requires SameSteps(d.tool.steps, d.defs) && B.Covers(results, d.defs)
    ensures results.Keys == IdSet(d)
  {
    forall k
      ensures k in results <==> k in IdSet(d)
    {
      NamedIds(d, k);
    }
  }

  lemma {:induction false} RunKeys(d: Definition, cursor: Option<bool>, run: B.Run, results: B.StepResults)
    requires Accepted(d, cursor) && B.RunAll(run, B.Group(d.defs)) == Some(results)
    ensures results.Keys == IdSet(d)
  {
    AcceptedIds(d, cursor);
    WholeGroup(d.defs);
    B.ReachedSees(run, d.defs, |B.Group(d.defs)|);
    CoveredKeys(d, results);
  }

  /** Every successful run leaves consistent results. */
  lemma {:induction false} RunIsConsistent(d: Definition, cursor: Option<bool>, run: B.Run)
    requires Accepted(d, cursor) && HonestRun(d, run) && B.RunAll(run, B.Group(d.defs)).Some?
    ensures Consistent(d, B.RunAll(run, B.Group(d.defs)).value)
  {
    RunKeys(d, cursor, run, B.RunAll(run, B.Group(d.defs)).value);
    forall i: nat | i < |d.tool.steps|
      ensures ResultAt(d, i, B.RunAll(run, B.Group(d.defs)).value)
    {
      RunResultAt(d, cursor, run, i);
    }
  }

  /** The run in which every step returns its result, once it sees its parent's. */
  function Replay(results: B.StepResults): B.Run {
    (step: B.Step, seen: B.StepResults) =>
      if step.id in results && (step.forEach == "" || SeesParent(step, seen, results)) then Some(results[step.id]) else None
  }

  predicate SeesParent(step: B.Step, seen: B.StepResults, results: B.StepResults) {
    step.forEach in seen && step.forEach in results && seen[step.forEach] == results[step.forEach]
  }

  lemma {:induction false} ReplayHonest(d: Definition, cursor: Option<bool>, results: B.StepResults)
    requires Accepted(d, cursor) && Consistent(d, results)
    ensures HonestRun(d, Replay(results))
  {
    var run := Replay(results);
    forall i: nat, seen | i < |d.defs| && run(d.defs[i], seen).Some?
      ensures ReturnedAt(d, i, seen, run(d.defs[i], seen).value)
    {
      assert SameStep(d.tool.steps[i], d.defs[i]);
      assert ResultAt(d, i, results);
      SeesOnlyParent(d, i, results, seen, results[d.defs[i].id]);
    }
  }

  ghost predicate Within(part: B.StepResults, results: B.StepResults) {
    forall k | k in part :: k in results && part[k] == results[k]
  }

  lemma {:induction false} ReplayWithin(d: Definition, cursor: Option<bool>, results: B.StepResults, n: nat)
    requires Accepted(d, cursor) && n <= |B.Group(d.defs)| && B.RunAll(Replay(results), B.Group(d.defs)[..n]).Some?
    ensures Within(B.RunAll(Replay(results), B.Group(d.defs)[..n]).value, results)
  {
    var run, batches := Replay(results), B.Group(d.defs)[..n];
    AcceptedIds(d, cursor);
    B.ReachedSees(run, d.defs, n);
    forall k | k in B.RunAll(run, batches).value
      ensures k in results && B.RunAll(run, batches).value[k] == results[k]
    {
      var i :| 0 <= i < |B.Flatten(batches)| && B.Flatten(batches)[i].id == k;
      var seen := ReturnedBy(d.defs, run, n, i);
    }
  }

  lemma {:induction false} OneBatchMore(run: B.Run, batches: seq<B.Batch>, b: nat, seen: B.StepResults)
    requires b < |batches| && B.RunAll(run, batches[..b]) == Some(seen) && B.AllRun(run, batches[b].steps, seen)
    ensures B.RunAll(run, batches[..b + 1]).Some?
  {
    assert batches[..b + 1][..b] == batches[..b] && batches[..b + 1][b] == batches[b];
  }

  lemma {:induction false} ReplayRuns(d: Definition, cursor: Option<bool>, results: B.StepResults, n: nat)
    requires Accepted(d, cursor) && results.Keys == IdSet(d) && n <= |B.Group(d.defs)|
    ensures B.RunAll(Replay(results), B.Group(d.defs)[..n]).Some?
  {
    if n > 0 {
      var run, b, batches := Replay(results), n - 1, B.Group(d.defs);
      ReplayRuns(d, cursor, results, b);
      ReplayWithin(d, cursor, results, b);
      var seen := B.RunAll(run, batches[..b]).value;
      forall i | 0 <= i < |batches[b].steps|
        ensures run(batches[b].steps[i], seen).Some?
      {
        ReplayStep(d, cursor, results, seen, b, i);
      }
      OneBatchMore(run, batches, b, seen);
    }
  }

  lemma {:induction false} ReplayStep(d: Definition, cursor: Option<bool>, results: B.StepResults, seen: B.StepResults, b: nat, i: nat)
    requires Accepted(d, cursor) && results.Keys == IdSet(d) && Within(seen, results)
    requires b < |B.Group(d.defs)| && i < |B.Group(d.defs)[b].steps|
    requires B.RunAll(Replay(results), B.Group(d.defs)[..b]) == Some(seen)
    ensures Replay(results)(B.Group(d.defs)[b].steps[i], seen).Some?
  {
    var step := B.Group(d.defs)[b].steps[i];
    var m := L.Placed(d.defs, b, i);
    assert d.defs[m + i] == step;
    NamedIds(d, step.id);
    if step.forEach != "" { L.ForEachFindsParent(Replay(results), d.defs, cursor, b, i); }
  }

  lemma {:induction false} WithinIsAll(part: B.StepResults, results: B.StepResults)
    requires Within(part, results) && part.Keys == results.Keys
    ensures part == results
  {
  }

  /** And all consistent results are left by some successful run. */
  lemma {:induction false} ConsistentIsRun(d: Definition, cursor: Option<bool>, results: B.StepResults)
    requires Accepted(d, cursor) && Consistent(d, results)
    ensures HonestRun(d, Replay(results)) && B.RunAll(Replay(results), B.Group(d.defs)) == Some(results)
  {
    var n := |B.Group(d.defs)|;
    ReplayHonest(d, cursor, results);
    WholeGroup(d.defs);
    ReplayRuns(d, cursor, results, n);
    ReplayWithin(d, cursor, results, n);
    var all := B.RunAll(Replay(results), B.Group(d.defs)[..n]).value;
    RunKeys(d, cursor, Replay(results), all);
    WithinIsAll(all, results);
  }

  // ---------------------------------------------------------------------------------------------
  // The condition
  // ---------------------------------------------------------------------------------------------

  predicate Resolved(d: Definition, i: nat)
    requires i < |d.tool.steps|
  {
    OpOf(d, i).Some? && OpOf(d, i).value.fields.Some?
  }

  /** A step whose honest results may have rows to go over. */
  predicate MayList(d: Definition, p: nat)
    requires p < |d.tool.steps|
  {
    d.tool.steps[p].forEach == "" && (Resolved(d, p) ==> OpOf(d, p).value.list)
  }

  /** A step whose honest results hold one resource, which is an error for a fan-out. */
  predicate HoldsOne(d: Definition, p: nat)
    requires p < |d.tool.steps|
  {
    d.tool.steps[p].forEach == "" && !d.tool.steps[p].followPages && Resolved(d, p) && !OpOf(d, p).value.list
  }

  /** A row of this step may hold text under `key`. */
  predicate Textual(d: Definition, p: nat, key: string)
    requires p < |d.tool.steps|
  {
    Resolved(d, p) ==> var fields := OpOf(d, p).value.fields.value; key in fields ==> fields[key] == TString
  }

  /** The fan-outs over a row that must find their key in it, if step `i` is to make a call for that row: the
      step itself, and all that do not choose their rows. */
  predicate Must(d: Definition, i: nat, g: nat)
    requires g < |d.defs|
  {
    g == i || d.defs[g].forEachIf == ""
  }

  predicate KeysTextual(d: Definition, i: nat, p: nat)
    requires |d.tool.steps| == |d.defs| && p < |d.tool.steps|
  {
    forall g: nat | g < |d.defs| && d.tool.steps[g].forEach == d.tool.steps[p].id && Must(d, i, g) ::
      Textual(d, p, d.defs[g].forEachKey)
  }

  /** Fan-out `i` makes a call in some successful run. */
  predicate CanCall(d: Definition, i: nat)
    requires |d.tool.steps| == |d.defs| && i < |d.tool.steps|
  {
    exists p: nat | p < |d.tool.steps| && d.tool.steps[p].id == d.tool.steps[i].forEach ::
      MayList(d, p) && KeysTextual(d, i, p)
  }

  /** The tool has successful runs: every operation is known, and no fan-out goes over a single resource. */
  predicate Runs(d: Definition) {
    && (forall i: nat | i < |d.tool.steps| :: OpOf(d, i).Some?)
    && (forall i: nat, p: nat | i < |d.tool.steps| && p < |d.tool.steps| && d.tool.steps[i].forEach == d.tool.steps[p].id ::
          d.tool.steps[i].forEach != "" ==> !HoldsOne(d, p))
  }

  /** Step `i` returns, in some successful run, a list where its schema asks for one resource. */
  predicate Misfit(d: Definition, i: nat)
    requires |d.tool.steps| == |d.defs| && i < |d.tool.steps|
  {
    OpOf(d, i).Some? && Arrayed(d.tool.steps[i], OpOf(d, i).value) && (d.tool.steps[i].forEach == "" || CanCall(d, i))
  }

  /** The condition: the tool writes nothing, or never succeeds, or shows its raw steps and has no misfit. */
  predicate Fits(d: Definition)
    requires |d.tool.steps| == |d.defs|
  {
    !Writes(d.tool) || !Runs(d) || (!d.tool.omitRawSteps && forall i: nat | i < |d.tool.steps| :: !Misfit(d, i))
  }

  // ---------------------------------------------------------------------------------------------
  // Results of a tool that fits
  // ---------------------------------------------------------------------------------------------

  lemma {:induction false} SingleAt(d: Definition, p: nat, results: B.StepResults)
    requires |d.tool.steps| == |d.defs| && p < |d.tool.steps| && Consistent(d, results) && d.tool.steps[p].forEach == ""
    ensures OpOf(d, p).Some? && d.tool.steps[p].id in results
    ensures Single(d.tool.steps[p], OpOf(d, p).value, RequiredOf(d, p), results[d.tool.steps[p].id])
  {
    assert ResultAt(d, p, results);
  }

  lemma {:induction false} EmptyScan(world: P.World, step: P.PagedStep, maxPages: nat, n: nat, t: nat, args: P.Args)
    requires n > 0
    requires var reply := world.broker(t, P.Asked(step, args, n)); reply.Answer? ==> P.ExtractDataItems(reply.data) == []
    ensures var o := P.Pages(world, step, maxPages, n, t, args, [], []).outcome; o.Fetched? ==> o.data == []
  {
    var reply := world.broker(t, P.Asked(step, args, n));
    if maxPages > 0 && reply.Answer? {
      P.PagesUnfolds(world, step, maxPages, n, t, args, [], [], P.TakePage(world, step, n, [], reply.data));
    }
  }

  /** A scan of an operation that is not a list collects nothing. */
  lemma {:induction false} NothingListed(step: Step, op: Operation, required: seq<string>, r: Object)
    requires Single(step, op, required, r) && step.followPages && op.fields.Some? && !op.list
    ensures "data" in r && r["data"] == Arr([])
  {
    var c: Scanned :| ScanReturns(c, step.resumable, r) && HonestWorld(c.world, op, required);
    EmptyScan(c.world, c.step, c.maxPages, P.ResolveMaxResults(c.params), c.t, P.Args(P.Seed(c.step, c.params), c.step.count));
  }

  /** The rows a fan-out may go over in the results of step `p`. */
  lemma {:induction false} RowsHonest(d: Definition, p: nat, results: B.StepResults, rows: seq<Json>)
    requires |d.tool.steps| == |d.defs| && p < |d.tool.steps| && Consistent(d, results) && d.tool.steps[p].id in results
    requires ParentRows(results[d.tool.steps[p].id]) == Some(rows)
    ensures !HoldsOne(d, p)
    ensures !MayList(d, p) ==> rows == []
    ensures Resolved(d, p) ==> AllResources(rows, OpOf(d, p).value.fields.value, RequiredOf(d, p)) || d.tool.steps[p].forEach != ""
  {
    var step, r := d.tool.steps[p], results[d.tool.steps[p].id];
    assert ResultAt(d, p, results);
    if step.forEach != "" {
      FanOutHasNoData(d, p, results);
    } else if Resolved(d, p) {
      var op := OpOf(d, p).value;
      SingleAt(d, p, results);
      SingleShaped(step, op, RequiredOf(d, p), r);
      if !op.list && step.followPages { NothingListed(step, op, RequiredOf(d, p), r); }
    }
  }

  lemma {:induction false} FanOutHasNoData(d: Definition, p: nat, results: B.StepResults)
    requires |d.tool.steps| == |d.defs| && p < |d.tool.steps| && ResultAt(d, p, results) && d.tool.steps[p].forEach != ""
    ensures "data" !in results[d.tool.steps[p].id]
  {
    var step, r := d.tool.steps[p], results[d.tool.steps[p].id];
    var cfg, labels :| Configured(d.defs[p], results, cfg) && FanOutReturns(cfg, labels, r)
                       && HonestAnswers(labels, step, OpOf(d, p).value, RequiredOf(d, p));
  }

  /** The fan-out behind a result. */
  lemma {:induction false} FanOutAt(d: Definition, cursor: Option<bool>, i: nat, results: B.StepResults)
    returns (p: nat, cfg: F.Config, labels: seq<F.Label>)
    requires Accepted(d, cursor) && i < |d.tool.steps| && Consistent(d, results) && d.tool.steps[i].forEach != ""
    ensures p < |d.tool.steps| && d.tool.steps[p].id == d.tool.steps[i].forEach && d.tool.steps[p].id in results
    ensures OpOf(d, i).Some? && d.tool.steps[i].id in results
    ensures Configured(d.defs[i], results, cfg) && FanOutReturns(cfg, labels, results[d.tool.steps[i].id])
    ensures HonestAnswers(labels, d.tool.steps[i], OpOf(d, i).value, RequiredOf(d, i))
    ensures ParentRows(results[d.tool.steps[p].id]) == Some(cfg.rows)
  {
    assert ResultAt(d, i, results) && SameStep(d.tool.steps[i], d.defs[i]);
    p := ParentOf(d, cursor, i);
    cfg, labels :| Configured(d.defs[i], results, cfg) && FanOutReturns(cfg, labels, results[d.tool.steps[i].id])
                   && HonestAnswers(labels, d.tool.steps[i], OpOf(d, i).value, RequiredOf(d, i));
  }

  /** A tool with a successful run has what it takes to have one. */
  lemma {:induction false} SuccessMeansRuns(d: Definition, cursor: Option<bool>, results: B.StepResults)
    requires Accepted(d, cursor) && Consistent(d, results)
    ensures Runs(d)
  {
    forall i: nat | i < |d.tool.steps|
      ensures OpOf(d, i).Some?
    {
      assert ResultAt(d, i, results);
    }
    forall i: nat, p: nat | i < |d.tool.steps| && p < |d.tool.steps| && d.tool.steps[i].forEach == d.tool.steps[p].id
                            && d.tool.steps[i].forEach != ""
      ensures !HoldsOne(d, p)
    {
      var q, cfg, labels := FanOutAt(d, cursor, i, results);
      SameId(d, cursor, p, q);
      RowsHonest(d, p, results, cfg.rows);
    }
  }

  /** A row of a resolved step has no text under a key that is declared otherwise. */
  lemma {:induction false} NoTextThere(
      cfg: F.Config, fields: map<string, Type>, required: seq<string>, i: nat)
    requires i < |cfg.rows| && AllResources(cfg.rows, fields, required)
    requires cfg.keyName in fields && fields[cfg.keyName] != TString
    ensures !F.Judge(cfg, cfg.rows[i]).Keyed?
  {
    assert Resource(cfg.rows[i], fields, required);
  }

  /** A fan-out that cannot make a call has no answers in any run. */
  lemma {:induction false} NoCallNoAnswers(
      d: Definition, cursor: Option<bool>, i: nat, results: B.StepResults, p: nat, cfg: F.Config, labels: seq<F.Label>)
    requires Accepted(d, cursor) && i < |d.tool.steps| && Consistent(d, results) && d.tool.steps[i].forEach != "" && !CanCall(d, i)
    requires p < |d.tool.steps| && d.tool.steps[p].id == d.tool.steps[i].forEach && d.tool.steps[p].id in results
    requires Configured(d.defs[i], results, cfg) && FanOutReturns(cfg, labels, results[d.tool.steps[i].id])
    requires ParentRows(results[d.tool.steps[p].id]) == Some(cfg.rows)
    ensures F.Exec(cfg, labels).byKey == map[]
  {
    RowsHonest(d, p, results, cfg.rows);
    if MayList(d, p) {
      var g: nat :| g < |d.defs| && d.tool.steps[g].forEach == d.tool.steps[p].id && Must(d, i, g)
                    && !Textual(d, p, d.defs[g].forEachKey);
      if g == i {
        forall j | 0 <= j < |cfg.rows|
          ensures !F.Judge(cfg, cfg.rows[j]).Keyed?
        {
          NoTextThere(cfg, OpOf(d, p).value.fields.value, RequiredOf(d, p), j);
        }
      } else {
        SiblingHasNoRows(d, cursor, p, g, results, cfg.rows);
      }
    }
    F.NoKeyNoAnswer(cfg, labels);
  }

  /** A fan-out that takes every row and can have no key in any has succeeded only if there are none. */
  lemma {:induction false} SiblingHasNoRows(
      d: Definition, cursor: Option<bool>, p: nat, g: nat, results: B.StepResults, rows: seq<Json>)
    requires Accepted(d, cursor) && p < |d.tool.steps| && g < |d.tool.steps| && Consistent(d, results)
    requires d.tool.steps[g].forEach == d.tool.steps[p].id != "" && d.defs[g].forEachIf == ""
    requires MayList(d, p) && !Textual(d, p, d.defs[g].forEachKey)
    requires d.tool.steps[p].id in results && ParentRows(results[d.tool.steps[p].id]) == Some(rows)
    ensures rows == []
  {
    var q, cfg, labels := FanOutAt(d, cursor, g, results);
    SameId(d, cursor, p, q);
    if rows != [] {
      RowsHonest(d, p, results, rows);
      F.FirstRowFine(cfg, labels);
      NoTextThere(cfg, OpOf(d, p).value.fields.value, RequiredOf(d, p), 0);
    }
  }

  lemma {:induction false} StepFits(d: Definition, cursor: Option<bool>, i: nat, results: B.StepResults)
    requires Accepted(d, cursor) && i < |d.tool.steps| && Consistent(d, results) && !Misfit(d, i)
    ensures d.tool.steps[i].id in results
    ensures var r := Scrub(Obj(results[d.tool.steps[i].id]));
            r.Obj? && Shaped(d.tool.steps[i], OpOf(d, i), RequiredOf(d, i), r.fields)
  {
    assert ResultAt(d, i, results);
    var step, op, r := d.tool.steps[i], OpOf(d, i).value, results[d.tool.steps[i].id];
    if Arrayed(step, op) {
      var p, cfg, labels := FanOutAt(d, cursor, i, results);
      NoCallNoAnswers(d, cursor, i, results, p, cfg, labels);
      FanOutShaped(cfg, labels, step, op, RequiredOf(d, i), r);
    } else {
      ProducedShaped(step, d.defs[i], op, RequiredOf(d, i), results, r);
    }
  }

  // ---------------------------------------------------------------------------------------------
  // Sample results
  // ---------------------------------------------------------------------------------------------

  const TEXT := "x"

  function Sample(t: Type): (r: Json)
    ensures Typed(r, t)
  {
    match t
    case TString => Str(TEXT)
    case TInteger => Number(0.0)
    case TNumber => Number(0.0)
    case TBoolean => Bool(false)
    case TArray => Arr([])
    case TObject => Obj(map[])
  }

  /** A resource of this operation that names what it must, and `keys` besides. */
  function Row(op: Operation, required: seq<string>, keys: set<string>): Object {
    map f | f in (set r | r in required) + keys ::
      if op.fields.Some? && f in op.fields.value then Sample(op.fields.value[f]) else Str(TEXT)
  }

  lemma {:induction false} RowIsResource(op: Operation, required: seq<string>, keys: set<string>)
    requires op.fields.Some?
    ensures Resource(Obj(Row(op, required, keys)), op.fields.value, required)
  {
  }

  predicate Listed(op: Operation) {
    op.fields.Some? ==> op.list
  }

  /** An honest answer with these rows, if the operation lists any. */
  function SampleAnswer(op: Operation, required: seq<string>, rows: seq<Json>): Object {
    map["data" := if Listed(op) then Arr(rows) else Obj(Row(op, required, {}))]
  }

  function SamplePage(op: Operation, rows: seq<Json>): Object {
    map["data" := Arr(if Listed(op) then rows else []), "truncated" := Bool(false)]
  }

  /** What one call returns. */
  function SampleCall(step: Step, op: Operation, required: seq<string>, rows: seq<Json>): Object {
    if step.followPages then SamplePage(op, rows) else SampleAnswer(op, required, rows)
  }

  predicate FewResources(op: Operation, required: seq<string>, rows: seq<Json>) {
    |rows| <= 1 && (op.fields.Some? ==> AllResources(rows, op.fields.value, required))
  }

  lemma {:induction false} SampleHonest(op: Operation, required: seq<string>, rows: seq<Json>)
    requires FewResources(op, required, rows)
    ensures Honest(SampleAnswer(op, required, rows), op, required)
  {
    if op.fields.Some? { RowIsResource(op, required, {}); }
  }

  function SampleWording(): Notes.Wording {
    Notes.Wording((n: nat) => "", "", "", (n: nat) => "", (n: nat) => "", (a: nat, b: nat, c: nat, s: bool) => "", (n: nat) => "")
  }

  function SampleScan(step: Step, env: Object): Scanned {
    Scanned(SampleWording(), P.World((t: nat, args: P.Args) => P.Answer(env), (uri: string) => None),
            P.PagedStep(step.resumable, 1), 1, map[], 0)
  }

  /** A broker that answers everything with a single page. */
  lemma {:induction false} SampleScanned(step: Step, op: Operation, required: seq<string>, rows: seq<Json>)
    requires FewResources(op, required, rows)
    ensures ScanReturns(SampleScan(step, SampleAnswer(op, required, rows)), step.resumable, SamplePage(op, rows))
  {
    var env := SampleAnswer(op, required, rows);
    var c := SampleScan(step, env);
    var got := if Listed(op) then rows else [];
    var n, args := P.ResolveMaxResults(c.params), P.Args("", 1);
    assert P.Seed(c.step, c.params) == "" && n == P.DEFAULT_MAX;
    assert P.ExtractDataItems(env) == got && P.ExtractNextPageURI(env) == "";
    var turn := P.TakePage(c.world, c.step, n, [], env);
    assert turn == P.Stop(P.Fetched(got, false, false, "")) by { assert [] + got == got; }
    P.PagesUnfolds(c.world, c.step, 1, n, 0, args, [], [], turn);
  }

  lemma {:induction false} SampleIsSingle(step: Step, op: Operation, required: seq<string>, rows: seq<Json>)
    requires FewResources(op, required, rows)
    ensures Single(step, op, required, SampleCall(step, op, required, rows))
  {
    SampleHonest(op, required, rows);
    if step.followPages {
      SampleScanned(step, op, required, rows);
      var c := SampleScan(step, SampleAnswer(op, required, rows));
      assert HonestWorld(c.world, op, required);
    }
  }

  /** The keys that fan-outs must find in a row of step `p` if step `i` is to make a call for it. */
  function KeysOn(d: Definition, i: nat, p: nat): set<string>
    requires |d.tool.steps| == |d.defs| && p < |d.tool.steps|
  {
    set g: nat | g < |d.defs| && d.tool.steps[g].forEach == d.tool.steps[p].id && Must(d, i, g) :: d.defs[g].forEachKey
  }

  /** A fan-out that is to make a call, if any is. */
  predicate Picked(d: Definition, pick: Option<nat>) {
    && |d.tool.steps| == |d.defs| && Runs(d)
    && (pick.Some? ==> pick.value < |d.tool.steps| && d.tool.steps[pick.value].forEach != "" && CanCall(d, pick.value))
  }

  /** The fan-out that is to make a call goes over the step of this name. */
  predicate Under(d: Definition, pick: Option<nat>, id: string)
    requires Picked(d, pick)
  {
    pick.Some? && d.tool.steps[pick.value].forEach == id
  }

  /** The rows of step `p`: one if it is the one to go over, none otherwise. */
  function RowsOf(d: Definition, pick: Option<nat>, p: nat): (r: seq<Json>)
    requires Picked(d, pick) && p < |d.tool.steps|
  {
    if Under(d, pick, d.tool.steps[p].id) then [Obj(Row(OpOf(d, p).value, RequiredOf(d, p), KeysOn(d, pick.value, p)))] else []
  }

  /** The result of step `i`. A fan-out over the one row calls for it, or skips it if it may. */
  function ValueOf(d: Definition, pick: Option<nat>, i: nat): Object
    requires Picked(d, pick) && i < |d.tool.steps|
  {
    var step, op := d.tool.steps[i], OpOf(d, i).value;
    if step.forEach == "" then SampleCall(step, op, RequiredOf(d, i), RowsOf(d, pick, i))
    else if !Under(d, pick, step.forEach) then FanOutResult(map[], 0)
    else if Must(d, pick.value, i) then FanOutResult(map[TEXT := SampleCall(step, op, RequiredOf(d, i), [])], 0)
    else FanOutResult(map[], 1)
  }

  ghost function Sampled(d: Definition, pick: Option<nat>): B.StepResults
    requires Picked(d, pick) && Text.Distinct(Ids(d.tool.steps))
  {
    map id | id in IdSet(d) :: var i :| 0 <= i < |d.tool.steps| && d.tool.steps[i].id == id; ValueOf(d, pick, i)
  }

  lemma {:induction false} SampledAt(d: Definition, cursor: Option<bool>, pick: Option<nat>, i: nat)
    requires Accepted(d, cursor) && Picked(d, pick) && Text.Distinct(Ids(d.tool.steps)) && i < |d.tool.steps|
    ensures d.tool.steps[i].id in Sampled(d, pick) && Sampled(d, pick)[d.tool.steps[i].id] == ValueOf(d, pick, i)
  {
    forall j | 0 <= j < |d.tool.steps| && d.tool.steps[j].id == d.tool.steps[i].id
      ensures j == i
    {
      SameId(d, cursor, i, j);
    }
  }

  lemma {:induction false} RowsFew(d: Definition, pick: Option<nat>, p: nat)
    requires Picked(d, pick) && p < |d.tool.steps|
    ensures FewResources(OpOf(d, p).value, RequiredOf(d, p), RowsOf(d, pick, p))
  {
    if Under(d, pick, d.tool.steps[p].id) && OpOf(d, p).value.fields.Some? {
      RowIsResource(OpOf(d, p).value, RequiredOf(d, p), KeysOn(d, pick.value, p));
    }
  }

  /** The step to go over may list, and its rows may hold all the keys. */
  lemma {:induction false} PickedParent(d: Definition, cursor: Option<bool>, pick: Option<nat>, p: nat)
    requires Accepted(d, cursor) && Picked(d, pick) && p < |d.tool.steps| && Under(d, pick, d.tool.steps[p].id)
    ensures MayList(d, p) && KeysTextual(d, pick.value, p)
  {
    var q: nat :| q < |d.tool.steps| && d.tool.steps[q].id == d.tool.steps[pick.value].forEach &&
                  MayList(d, q) && KeysTextual(d, pick.value, q);
    SameId(d, cursor, p, q);
  }

  /** What a fan-out over step `p` finds there. */
  lemma {:induction false} SampleRows(d: Definition, cursor: Option<bool>, pick: Option<nat>, p: nat, i: nat)
    requires Accepted(d, cursor) && Picked(d, pick) && p < |d.tool.steps| && i < |d.tool.steps|
    requires d.tool.steps[i].forEach == d.tool.steps[p].id != ""
    ensures ParentRows(ValueOf(d, pick, p)) == Some(RowsOf(d, pick, p))
  {
    if Under(d, pick, d.tool.steps[p].id) { PickedParent(d, cursor, pick, p); }
    assert !HoldsOne(d, p);
  }

  /** The one row has the key of every fan-out that must find it. */
  lemma {:induction false} KeyThere(d: Definition, cursor: Option<bool>, pick: Option<nat>, p: nat, i: nat, cfg: F.Config)
    requires Accepted(d, cursor) && Picked(d, pick) && p < |d.tool.steps| && i < |d.tool.steps|
    requires d.tool.steps[i].forEach == d.tool.steps[p].id && Under(d, pick, d.tool.steps[p].id) && Must(d, pick.value, i)
    requires cfg.rows == RowsOf(d, pick, p) && cfg.keyName == d.defs[i].forEachKey && forall row :: cfg.passes(row) == Some(true)
    ensures F.Judge(cfg, cfg.rows[0]) == F.Keyed(TEXT)
  {
    PickedParent(d, cursor, pick, p);
    var key := d.defs[i].forEachKey;
    assert key in KeysOn(d, pick.value, p);
    assert Textual(d, p, key);
    assert cfg.rows[0].fields[key] == Str(TEXT);
  }

  function SampleConfig(d: Definition, pick: Option<nat>, p: nat, i: nat): F.Config
    requires Picked(d, pick) && p < |d.tool.steps| && i < |d.tool.steps|
  {
    var takes := !Under(d, pick, d.tool.steps[p].id) || Must(d, pick.value, i);
    F.Config(RowsOf(d, pick, p), d.defs[i].forEachKey, (row: Object) => Some(takes), d.defs[i].concurrency)
  }

  /** Fan-outs over no row, over one that is skipped, and over one that is called for. */
  lemma {:induction false} FanOutNone(cfg: F.Config, step: Step, op: Operation, required: seq<string>)
    requires cfg.rows == []
    ensures FanOutReturns(cfg, [F.Dispatch], FanOutResult(map[], 0)) && HonestAnswers([F.Dispatch], step, op, required)
  {
    F.NoRowRun(cfg);
  }

  lemma {:induction false} FanOutSkip(cfg: F.Config, step: Step, op: Operation, required: seq<string>)
    requires |cfg.rows| == 1 && F.Judge(cfg, cfg.rows[0]).Skip?
    ensures var labels := [F.Dispatch, F.Dispatch];
            FanOutReturns(cfg, labels, FanOutResult(map[], 1)) && HonestAnswers(labels, step, op, required)
  {
    F.SkipRun(cfg);
  }

  lemma {:induction false} FanOutOne(cfg: F.Config, step: Step, op: Operation, required: seq<string>, key: string, out: Object)
    requires |cfg.rows| == 1 && F.Judge(cfg, cfg.rows[0]) == F.Keyed(key) && Single(step, op, required, out)
    ensures FanOutReturns(cfg, F.OneCall(out), FanOutResult(map[key := out], 0))
    ensures HonestAnswers(F.OneCall(out), step, op, required) && key in F.Exec(cfg, F.OneCall(out)).byKey
  {
    F.OneCallRun(cfg, key, out);
  }

  /** The fan-out of step `i` has a run that returns its sample. */
  lemma {:induction false} SampleFanOut(d: Definition, cursor: Option<bool>, pick: Option<nat>, p: nat, i: nat)
    returns (labels: seq<F.Label>)
    requires Accepted(d, cursor) && Picked(d, pick) && p < |d.tool.steps| && i < |d.tool.steps|
    requires d.tool.steps[i].forEach == d.tool.steps[p].id != ""
    ensures FanOutReturns(SampleConfig(d, pick, p, i), labels, ValueOf(d, pick, i))
    ensures HonestAnswers(labels, d.tool.steps[i], OpOf(d, i).value, RequiredOf(d, i))
    ensures Under(d, pick, d.tool.steps[p].id) && Must(d, pick.value, i) ==>
              TEXT in F.Exec(SampleConfig(d, pick, p, i), labels).byKey
  {
    var cfg, step, op := SampleConfig(d, pick, p, i), d.tool.steps[i], OpOf(d, i).value;
    if !Under(d, pick, d.tool.steps[p].id) {
      FanOutNone(cfg, step, op, RequiredOf(d, i));
      labels := [F.Dispatch];
    } else if Must(d, pick.value, i) {
      var out := SampleCall(step, op, RequiredOf(d, i), []);
      KeyThere(d, cursor, pick, p, i, cfg);
      SampleIsSingle(step, op, RequiredOf(d, i), []);
      FanOutOne(cfg, step, op, RequiredOf(d, i), TEXT, out);
      labels := F.OneCall(out);
    } else {
      FanOutSkip(cfg, step, op, RequiredOf(d, i));
      labels := [F.Dispatch, F.Dispatch];
    }
  }

  lemma {:induction false} SampleReturned(d: Definition, cursor: Option<bool>, pick: Option<nat>, i: nat)
    requires Accepted(d, cursor) && Picked(d, pick) && Text.Distinct(Ids(d.tool.steps)) && i < |d.tool.steps|
    ensures ReturnedAt(d, i, Sampled(d, pick), ValueOf(d, pick, i))
  {
    var step := d.tool.steps[i];
    assert SameStep(step, d.defs[i]);
    if step.forEach == "" {
      RowsFew(d, pick, i);
      SampleIsSingle(step, OpOf(d, i).value, RequiredOf(d, i), RowsOf(d, pick, i));
    } else {
      var p := ParentOf(d, cursor, i);
      var cfg := SampleConfig(d, pick, p, i);
      var labels := SampleFanOut(d, cursor, pick, p, i);
      SampledAt(d, cursor, pick, p);
      SampleRows(d, cursor, pick, p, i);
      assert Configured(d.defs[i], Sampled(d, pick), cfg);
    }
  }

  lemma {:induction false} SampledConsistent(d: Definition, cursor: Option<bool>, pick: Option<nat>)
    requires Accepted(d, cursor) && Picked(d, pick) && Text.Distinct(Ids(d.tool.steps))
    ensures Consistent(d, Sampled(d, pick))
  {
    forall i: nat | i < |d.tool.steps|
      ensures ResultAt(d, i, Sampled(d, pick))
    {
      SampledAt(d, cursor, pick, i);
      SampleReturned(d, cursor, pick, i);
    }
  }

  // ---------------------------------------------------------------------------------------------
  // The theorem
  // ---------------------------------------------------------------------------------------------

  /** One execution of a tool: what its steps return, what the handler sums up, and the valve's circumstances. */
  datatype Execution = Execution(run: B.Run, summary: Option<Json>, setting: V.Setting, order: seq<string>, size: nat)

  /** It succeeds against a broker that keeps to its specification. */
  ghost predicate Possible(d: Definition, e: Execution)
    requires |d.tool.steps| == |d.defs|
  {
    && HonestRun(d, e.run) && B.RunAll(e.run, B.Group(d.defs)).Some?
    && (e.summary.Some? <==> d.tool.postProcess) && (e.summary.Some? ==> e.summary.value.Obj?)
    && Text.Distinct(e.order) && e.setting.hasSummary == d.tool.postProcess
  }

  function ResultOf(d: Definition, e: Execution): Object
    requires B.RunAll(e.run, B.Group(d.defs)).Some?
  {
    Apply(B.RunAll(e.run, B.Group(d.defs)).value, e.summary, d.tool.omitRawSteps)
  }

  /** Its result satisfies the declared schema, before the size valve and after it. */
  ghost predicate Conforms(d: Definition, e: Execution)
    requires B.RunAll(e.run, B.Group(d.defs)).Some?
  {
    var s, out := OutputSchema(d.tool, d.catalog, d.required), ResultOf(d, e);
    Valid(Obj(out), s) && Valid(Obj(V.BoundResponse(e.setting, out, e.order, e.size).0), s)
  }

  ghost predicate AlwaysConforms(d: Definition)
    requires |d.tool.steps| == |d.defs|
  {
    forall e: Execution | Possible(d, e) :: Conforms(d, e)
  }

  predicate AllObjects(out: Object) {
    forall k | k in out :: out[k].Obj?
  }

  lemma {:induction false} ResultObjects(steps: map<string, Object>, summary: Option<Json>, omitRawSteps: bool)
    requires summary.Some? ==> summary.value.Obj?
    ensures AllObjects(Apply(steps, summary, omitRawSteps))
  {
    ApplyKeeps(steps, summary, omitRawSteps);
  }

  lemma {:induction false} ValveKeepsObjects(setting: V.Setting, out: Object, order: seq<string>, size: nat)
    requires AllObjects(out) && Text.Distinct(order)
    ensures AllObjects(V.BoundResponse(setting, out, order, size).0)
  {
    var bound := V.BoundResponse(setting, out, order, size);
    V.UntouchedWhen(setting, out, order, size);
    if bound.1.truncated {
      var cands := V.CandidatesOf(setting, out, order);
      var keep := V.ValveTrims(setting, out, order, size);
      forall k | k in bound.0
        ensures bound.0[k].Obj?
      {
        if k in bound.1.trimmedSteps {
          var i :| 0 <= i < |cands| && cands[i].id == k && keep[i] < |cands[i].items|;
        }
      }
    }
  }

  /** A result of a tool that writes is accepted only through the strict branch. */
  lemma {:induction false} OnlyStrict(d: Definition, out: Object)
    requires AllObjects(out) && Writes(d.tool) && !Valid(Obj(out), Strict(d.tool, d.catalog, d.required))
    ensures !Valid(Obj(out), OutputSchema(d.tool, d.catalog, d.required))
  {
    DeclaredAccepts(d.tool, d.catalog, d.required, Obj(out));
    if Valid(Obj(out), DesiredState()) { DesiredOutcomeIsText(Obj(out)); }
  }

  /** Without a write every result conforms. */
  lemma {:induction false} ReadsConform(d: Definition, e: Execution)
    requires |d.tool.steps| == |d.defs| && Possible(d, e) && !Writes(d.tool)
    ensures Conforms(d, e)
  {
    var out := ResultOf(d, e);
    ResultObjects(B.RunAll(e.run, B.Group(d.defs)).value, e.summary, d.tool.omitRawSteps);
    ValveKeepsObjects(e.setting, out, e.order, e.size);
    AnyStepsExact(Obj(out));
    AnyStepsExact(Obj(V.BoundResponse(e.setting, out, e.order, e.size).0));
  }

  /** With one, and with every step's result where and as its schema asks for it, every result conforms. */
  lemma {:induction false} WritesConform(d: Definition, cursor: Option<bool>, e: Execution)
    requires Accepted(d, cursor) && Possible(d, e) && Writes(d.tool) && !d.tool.omitRawSteps
    requires forall i: nat | i < |d.tool.steps| :: !Misfit(d, i)
    ensures Conforms(d, e)
  {
    var results := B.RunAll(e.run, B.Group(d.defs)).value;
    RunIsConsistent(d, cursor, e.run);
    AcceptedIds(d, cursor);
    forall i: nat | i < |d.tool.steps|
      ensures d.tool.steps[i].id in results
      ensures var r := Scrub(Obj(results[d.tool.steps[i].id]));
              r.Obj? && Shaped(d.tool.steps[i], OpOf(d, i), RequiredOf(d, i), r.fields)
    {
      StepFits(d, cursor, i, results);
    }
    assert ShapedResults(d.tool, d.catalog, d.required, results, e.summary);
    ResultsConform(d.tool, d.catalog, d.required, results, e.summary, e.setting, e.order, e.size);
  }

  /** A tool that writes and leaves its raw steps out never conforms: the schema asks for the steps. */
  lemma {:induction false} OmittedNeverConforms(d: Definition, cursor: Option<bool>, e: Execution)
    requires Accepted(d, cursor) && Possible(d, e) && Writes(d.tool) && d.tool.omitRawSteps
    ensures !Conforms(d, e)
  {
    var out := ResultOf(d, e);
    AcceptedIds(d, cursor);
    ResultObjects(B.RunAll(e.run, B.Group(d.defs)).value, e.summary, true);
    StrictExact(d.tool, d.catalog, d.required, Obj(out));
    assert Ids(d.tool.steps)[0] in Ids(d.tool.steps);
    assert d.tool.steps[0].id !in out;
    OnlyStrict(d, out);
  }

  /** One step whose value its schema refuses is enough. */
  lemma {:induction false} StrictRefuses(d: Definition, cursor: Option<bool>, out: Object, i: nat)
    requires Accepted(d, cursor) && i < |d.tool.steps| && d.tool.steps[i].id in out
    requires !Valid(out[d.tool.steps[i].id], StepSchema(d.tool.steps[i], OpOf(d, i), RequiredOf(d, i)))
    ensures !Valid(Obj(out), Strict(d.tool, d.catalog, d.required))
  {
    AcceptedIds(d, cursor);
    StrictExact(d.tool, d.catalog, d.required, Obj(out));
    assert StepSchemas(d.catalog, d.required)(d.tool.steps[i]) == StepSchema(d.tool.steps[i], OpOf(d, i), RequiredOf(d, i));
  }

  lemma {:induction false} RefusedResult(d: Definition, cursor: Option<bool>, results: B.StepResults, summary: Option<Json>, i: nat)
    requires Accepted(d, cursor) && Writes(d.tool) && i < |d.tool.steps| && d.tool.steps[i].id in results
    requires (summary.Some? ==> d.tool.postProcess) && (summary.Some? ==> summary.value.Obj?)
    requires !Valid(Scrub(Obj(results[d.tool.steps[i].id])), StepSchema(d.tool.steps[i], OpOf(d, i), RequiredOf(d, i)))
    ensures !Valid(Obj(Apply(results, summary, false)), OutputSchema(d.tool, d.catalog, d.required))
  {
    var id, out := d.tool.steps[i].id, Apply(results, summary, false);
    AcceptedIds(d, cursor);
    assert Ids(d.tool.steps)[i] == id;
    ResultObjects(results, summary, false);
    assert out[id] == Scrub(Obj(results[id]));
    StrictRefuses(d, cursor, out, i);
    OnlyStrict(d, out);
  }

  lemma {:induction false} RefusedStep(d: Definition, cursor: Option<bool>, e: Execution, i: nat)
    requires Accepted(d, cursor) && Possible(d, e) && Writes(d.tool) && !d.tool.omitRawSteps && i < |d.tool.steps|
    requires var results := B.RunAll(e.run, B.Group(d.defs)).value;
             d.tool.steps[i].id in results &&
             !Valid(Scrub(Obj(results[d.tool.steps[i].id])), StepSchema(d.tool.steps[i], OpOf(d, i), RequiredOf(d, i)))
    ensures !Conforms(d, e)
  {
    RefusedResult(d, cursor, B.RunAll(e.run, B.Group(d.defs)).value, e.summary, i);
  }

  /** A tool that writes and has an unpaged list step never conforms. */
  lemma {:induction false} UnpagedListNeverConforms(d: Definition, cursor: Option<bool>, e: Execution, i: nat)
    requires Accepted(d, cursor) && Possible(d, e) && Writes(d.tool) && !d.tool.omitRawSteps
    requires i < |d.tool.steps| && d.tool.steps[i].forEach == "" && Misfit(d, i)
    ensures !Conforms(d, e)
  {
    var results := B.RunAll(e.run, B.Group(d.defs)).value;
    RunIsConsistent(d, cursor, e.run);
    SingleAt(d, i, results);
    UnpagedListRefused(d.tool.steps[i], OpOf(d, i).value, RequiredOf(d, i), results[d.tool.steps[i].id]);
    RefusedStep(d, cursor, e, i);
  }

  /** An execution that leaves given results. */
  function Leaving(d: Definition, results: B.StepResults): Execution {
    Execution(Replay(results), if d.tool.postProcess then Some(Obj(map[])) else None,
              V.Setting(0, d.tool.postProcess, {}, SampleWording(), (o: Object) => None, (j: Json) => None), [], 0)
  }

  lemma {:induction false} LeavingPossible(d: Definition, cursor: Option<bool>, results: B.StepResults)
    requires Accepted(d, cursor) && Consistent(d, results)
    ensures Possible(d, Leaving(d, results)) && B.RunAll(Leaving(d, results).run, B.Group(d.defs)) == Some(results)
  {
    ConsistentIsRun(d, cursor, results);
  }

  /** A misfit fan-out: the execution in which it makes a call. */
  lemma {:induction false} MisfitFanOut(d: Definition, cursor: Option<bool>, i: nat) returns (e: Execution)
    requires Accepted(d, cursor) && Writes(d.tool) && Runs(d) && !d.tool.omitRawSteps
    requires i < |d.tool.steps| && d.tool.steps[i].forEach != "" && Misfit(d, i)
    ensures Possible(d, e) && !Conforms(d, e)
  {
    AcceptedIds(d, cursor);
    var pick: Option<nat> := Some(i);
    var results := Sampled(d, pick);
    SampledConsistent(d, cursor, pick);
    LeavingPossible(d, cursor, results);
    e := Leaving(d, results);
    var p := ParentOf(d, cursor, i);
    var labels := SampleFanOut(d, cursor, pick, p, i);
    SampledAt(d, cursor, pick, i);
    ArrayedFanOutRefused(SampleConfig(d, pick, p, i), labels, d.tool.steps[i], OpOf(d, i).value, RequiredOf(d, i), results[d.tool.steps[i].id]);
    RefusedStep(d, cursor, e, i);
  }

  /** Some execution of a tool that does not fit does not conform. */
  lemma {:induction false} MisfitExecution(d: Definition, cursor: Option<bool>) returns (e: Execution)
    requires Accepted(d, cursor) && !Fits(d)
    ensures Possible(d, e) && !Conforms(d, e)
  {
    AcceptedIds(d, cursor);
    if !d.tool.omitRawSteps && exists i: nat | i < |d.tool.steps| :: d.tool.steps[i].forEach != "" && Misfit(d, i) {
      var i: nat :| i < |d.tool.steps| && d.tool.steps[i].forEach != "" && Misfit(d, i);
      e := MisfitFanOut(d, cursor, i);
    } else {
      SampledConsistent(d, cursor, None);
      LeavingPossible(d, cursor, Sampled(d, None));
      e := Leaving(d, Sampled(d, None));
      if d.tool.omitRawSteps {
        OmittedNeverConforms(d, cursor, e);
      } else {
        var i: nat :| i < |d.tool.steps| && Misfit(d, i);
        UnpagedListNeverConforms(d, cursor, e, i);
      }
    }
  }

  /** Every successful execution of an accepted tool, against every broker that keeps to its specification,
      returns what the tool declares, before trimming and after it, exactly if the tool fits. */
  lemma {:induction false} ConformsIffFits(d: Definition, cursor: Option<bool>)
    requires Accepted(d, cursor)
    ensures AlwaysConforms(d) <==> Fits(d)
  {
    if Fits(d) {
      forall e: Execution | Possible(d, e)
        ensures Conforms(d, e)
      {
        if !Writes(d.tool) {
          ReadsConform(d, e);
        } else {
          RunIsConsistent(d, cursor, e.run);
          SuccessMeansRuns(d, cursor, B.RunAll(e.run, B.Group(d.defs)).value);
          WritesConform(d, cursor, e);
        }
      }
    } else {
      var e := MisfitExecution(d, cursor);
    }
  }

  // ---------------------------------------------------------------------------------------------
  // Three small tools that do not fit
  // ---------------------------------------------------------------------------------------------

  function Plain(id: string, forEach: string, followPages: bool): B.Step {
    B.Step(id, false, forEach, "", if forEach == "" then "" else "name", 0, [], followPages, false, None)
  }

  /** A catalog with one list operation, whose items have a name. */
  function Lister(): Catalog {
    map["config/list" := Operation("getThings", Some(map["name" := TString]), true)]
  }

  /** A single step that lists and does not follow pages. */
  lemma {:induction false} UnpagedListTool()
    ensures var d := Definition(Tool([Step("things", "config/list", "", false, false)], false, false),
                                [Plain("things", "", false)], Lister(), map[]);
            Accepted(d, None) && !Fits(d)
  {
    var d := Definition(Tool([Step("things", "config/list", "", false, false)], false, false),
                        [Plain("things", "", false)], Lister(), map[]);
    assert L.AllOk(d.defs, None, 0);
    assert "config/" <= d.tool.steps[0].operation;
    assert OpOf(d, 0) == Some(Operation("getThings", Some(map["name" := TString]), true));
    assert Misfit(d, 0);
  }

  /** A step that follows pages, under another one that does. */
  lemma {:induction false} PagedFanOutTool()
    ensures var d := Definition(Tool([Step("things", "config/list", "", true, false),
                                      Step("parts", "config/list", "things", true, false)], false, false),
                                [Plain("things", "", true), Plain("parts", "things", true)], Lister(), map[]);
            Accepted(d, None) && !Fits(d)
  {
    var d := Definition(Tool([Step("things", "config/list", "", true, false),
                              Step("parts", "config/list", "things", true, false)], false, false),
                        [Plain("things", "", true), Plain("parts", "things", true)], Lister(), map[]);
    assert L.AllOk(d.defs, None, 0);
    assert d.defs[..0] == [] && d.defs[..1] == [d.defs[0]];
    assert L.AllOk(d.defs, None, 1);
    assert "config/" <= d.tool.steps[0].operation;
    var op := Some(Operation("getThings", Some(map["name" := TString]), true));
    assert OpOf(d, 0) == op && OpOf(d, 1) == op;
    assert d.tool.steps[0].id == d.tool.steps[1].forEach && MayList(d, 0) && KeysTextual(d, 1, 0);
    assert CanCall(d, 1);
    assert Misfit(d, 1);
  }

  /** A tool that shows its summary alone. */
  lemma {:induction false} SummaryOnlyTool()
    ensures var d := Definition(Tool([Step("things", "config/list", "", true, false)], true, true),
                                [Plain("things", "", true)], Lister(), map[]);
            Accepted(d, None) && !Fits(d)
  {
    var d := Definition(Tool([Step("things", "config/list", "", true, false)], true, true),
                        [Plain("things", "", true)], Lister(), map[]);
    assert L.AllOk(d.defs, None, 0);
    assert "config/" <= d.tool.steps[0].operation;
    assert OpOf(d, 0) == Some(Operation("getThings", Some(map["name" := TString]), true));
  }
}
