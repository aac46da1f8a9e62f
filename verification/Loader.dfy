/** What the loader accepts, and what the executor may therefore rely on. */
module Loader {
  import opened Options
  import opened Batches
  import FanOut

  /** `validateFanOut` for one step, given the steps declared before it. */
  predicate FanOutOk(prior: seq<Step>, step: Step) {
    if step.forEach == "" then step.forEachIf == "" && step.forEachKey == "" && step.concurrency == 0
    else
      && !step.parallel
      && step.forEach != step.id
      && Named(prior, step.forEach)
      && step.forEachKey != ""
      && (forall i | 0 <= i < |prior| && prior[i].id == step.forEach ::
            prior[i].select == [] || step.forEachKey in prior[i].select)
      && 0 <= step.concurrency <= FanOut.MAX_CONCURRENCY
  }

  /** `validateResumable`; `cursor` says whether the tool's cursor parameter, if any, is a string. */
  predicate ResumableOk(prior: seq<Step>, step: Step, cursor: Option<bool>) {
    step.resumable ==>
      && step.followPages
      && step.count.Some? && step.count.value > 0
      && step.forEach == ""
      && (forall i | 0 <= i < |prior| :: !prior[i].resumable)
      && cursor == Some(true)
  }

  predicate StepOk(prior: seq<Step>, step: Step, cursor: Option<bool>) {
    && step.id != "" && !Named(prior, step.id)
    && FanOutOk(prior, step) && ResumableOk(prior, step, cursor)
  }

  /** A tool whose steps the loader accepts. */
  predicate Loadable(steps: seq<Step>, cursor: Option<bool>) {
    steps != [] && AllOk(steps, cursor, |steps|)
  }

  /** The result strategy of a tool, as the loader accepts it: leaving the raw steps out needs a summary, and
      no step may take the summary's name. */
  predicate ResultOk(steps: seq<Step>, postProcess: bool, omitRawSteps: bool) {
    if postProcess then !Named(steps, "summary") else !omitRawSteps
  }

  /** The first `n` steps are accepted, each in the light of those before it. */
  predicate AllOk(steps: seq<Step>, cursor: Option<bool>, n: nat)
    requires n <= |steps|
  {
    n == 0 || (AllOk(steps, cursor, n - 1) && StepOk(steps[..n - 1], steps[n - 1], cursor))
  }

  lemma {:induction false} LoadedAt(steps: seq<Step>, cursor: Option<bool>, n: nat, i: nat)
    requires i < n <= |steps| && AllOk(steps, cursor, n)
    ensures StepOk(steps[..i], steps[i], cursor)
  {
    if i < n - 1 { LoadedAt(steps, cursor, n - 1, i); }
  }

  lemma {:induction false} LongerPrefix(steps: seq<Step>, prior: seq<Step>)
    requires prior <= steps && |prior| < |steps|
    ensures prior + [steps[|prior|]] <= steps
  {
  }

  lemma {:induction false} RefusedAt(steps: seq<Step>, cursor: Option<bool>, prior: seq<Step>, ok: bool)
    requires prior <= steps && |prior| < |steps| && ok == StepOk(prior, steps[|prior|], cursor)
    ensures !ok ==> !Loadable(steps, cursor)
    ensures ok && AllOk(steps, cursor, |prior|) ==> AllOk(steps, cursor, |prior| + 1)
  {
    var n := |prior|;
    assert prior == steps[..n];
    if Loadable(steps, cursor) { LoadedAt(steps, cursor, |steps|, n); }
  }

  /** The IDs, selects and resumable step seen so far, as `validateTool` accumulates them. */
  ghost predicate Seen(prior: seq<Step>, ids: set<string>, selects: map<string, seq<string>>, resumable: string) {
    && (forall k :: k in ids <==> Named(prior, k))
    && selects.Keys == ids
    && (forall i | 0 <= i < |prior| :: prior[i].id in selects && selects[prior[i].id] == prior[i].select)
    && (resumable != "" <==> exists i | 0 <= i < |prior| :: prior[i].resumable)
  }

  /** One turn of the loop adds its step to what has been seen. */
  lemma {:induction false} SeenMore(prior: seq<Step>, step: Step, ids: set<string>, selects: map<string, seq<string>>, resumable: string)
    requires Seen(prior, ids, selects, resumable) && step.id !in ids && step.id != ""
    ensures Seen(prior + [step], ids + {step.id}, selects[step.id := step.select],
                 if step.resumable then step.id else resumable)
  {
    forall k
      ensures k in ids + {step.id} <==> Named(prior + [step], k)
    {
      NamedSum(prior, [step], k);
      assert Named([step], k) <==> step.id == k by { assert [step][0] == step; }
    }
    assert forall i | 0 <= i < |prior| :: prior[i].id != step.id by {
      assert !Named(prior, step.id);
    }
    assert (prior + [step])[|prior|] == step;
    assert forall i | 0 <= i < |prior| :: (prior + [step])[i] == prior[i];
  }

  /** `validateTool`, its step loop. */
  method ValidateSteps(steps: seq<Step>, cursor: Option<bool>) returns (ok: bool)
    ensures ok <==> Loadable(steps, cursor)
  {
    var ids: set<string>, selects: map<string, seq<string>>, resumable := {}, map[], "";
    ghost var prior: seq<Step> := [];
    for n := 0 to |steps|
      invariant |prior| == n && prior <= steps && Seen(prior, ids, selects, resumable)
      invariant AllOk(steps, cursor, n)
    {
      ok, ids, selects, resumable := ValidateStep(prior, steps[n], cursor, ids, selects, resumable);
      RefusedAt(steps, cursor, prior, ok);
      LongerPrefix(steps, prior);
      if !ok {
        return;
      }
      prior := prior + [steps[n]];
    }
    return steps != [];
  }

  /** One turn of the loop. */
  method ValidateStep(ghost prior: seq<Step>, step: Step, cursor: Option<bool>, ids: set<string>,
                      selects: map<string, seq<string>>, resumable: string)
    returns (ok: bool, ids': set<string>, selects': map<string, seq<string>>, resumable': string)
    requires Seen(prior, ids, selects, resumable)
    ensures ok <==> StepOk(prior, step, cursor)
    ensures ok ==> Seen(prior + [step], ids', selects', resumable')
  {
    ids', selects', resumable' := ids, selects, resumable;
    if step.id == "" || step.id in ids {
      return false, ids, selects, resumable;
    }
    SeenMore(prior, step, ids, selects, resumable);
    ids', selects' := ids + {step.id}, selects[step.id := step.select];
    assert ids' - {step.id} == ids;
    ok := ValidateOne(prior, step, cursor, ids', selects, resumable);
    if step.resumable {
      resumable' := step.id;
    }
  }

  /** The fan-out and resumable checks, on the accumulated sets; `ids` already holds the step itself. */
  method ValidateOne(ghost prior: seq<Step>, step: Step, cursor: Option<bool>, ids: set<string>,
                     selects: map<string, seq<string>>, resumable: string) returns (ok: bool)
    requires Seen(prior, ids - {step.id}, selects, resumable) && step.id in ids
    ensures ok <==> FanOutOk(prior, step) && ResumableOk(prior, step, cursor)
  {
    if step.forEach == "" {
      if step.forEachIf != "" || step.forEachKey != "" || step.concurrency != 0 {
        return false;
      }
    } else {
      if step.parallel || step.forEach == step.id || step.forEach !in ids || step.forEachKey == "" {
        return false;
      }
      var select := selects[step.forEach];
      if select != [] && step.forEachKey !in select {
        return false;
      }
      if step.concurrency < 0 || step.concurrency > FanOut.MAX_CONCURRENCY {
        return false;
      }
    }
    if step.resumable {
      if !step.followPages || step.count.None? || step.count.value <= 0 || step.forEach != "" || resumable != "" {
        return false;
      }
      return cursor == Some(true);
    }
    return true;
  }

  lemma {:induction false} LoadableUnique(steps: seq<Step>, cursor: Option<bool>)
    requires Loadable(steps, cursor)
    ensures Unique(steps)
  {
    forall i, j | 0 <= i < j < |steps|
      ensures steps[i].id != steps[j].id
    {
      LoadedAt(steps, cursor, |steps|, j);
      assert steps[..j][i] == steps[i];
    }
  }

  /** What the loader asks of step `i`, said of the list as a whole. */
  predicate StepFine(steps: seq<Step>, cursor: Option<bool>, i: nat)
    requires i < |steps|
  {
    var step := steps[i];
    && step.id != "" && (forall j | 0 <= j < i :: steps[j].id != step.id)
    && (if step.forEach == "" then step.forEachIf == "" && step.forEachKey == "" && step.concurrency == 0
        else
          && !step.parallel && step.forEachKey != "" && 0 <= step.concurrency <= 32
          && (exists j | 0 <= j < i :: steps[j].id == step.forEach)
          && (forall j | 0 <= j < i && steps[j].id == step.forEach && steps[j].select != [] :: step.forEachKey in steps[j].select))
    && (step.resumable ==>
          && step.followPages && step.forEach == "" && step.count.Some? && step.count.value > 0
          && cursor == Some(true) && (forall j | 0 <= j < i :: !steps[j].resumable))
  }

  lemma {:induction false} StepFineIff(steps: seq<Step>, cursor: Option<bool>, i: nat)
    requires i < |steps|
    ensures StepFine(steps, cursor, i) <==> StepOk(steps[..i], steps[i], cursor)
  {
    assert forall j | 0 <= j < i :: steps[..i][j] == steps[j];
    if StepFine(steps, cursor, i) && steps[i].forEach != "" {
      var j :| 0 <= j < i && steps[j].id == steps[i].forEach;
      assert steps[..i][j].id == steps[i].forEach;
    }
  }

  lemma {:induction false} AllOkIff(steps: seq<Step>, cursor: Option<bool>, n: nat)
    requires n <= |steps|
    ensures AllOk(steps, cursor, n) <==> forall i: nat | i < n :: StepFine(steps, cursor, i)
  {
    if n > 0 {
      AllOkIff(steps, cursor, n - 1);
      StepFineIff(steps, cursor, n - 1);
    }
  }

  /** The loader accepts exactly the non-empty lists whose steps are all fine: unique names, fan-outs over earlier
      steps with a key those select, bounded and not parallel; and at most one resumable step, which follows
      pages of a fixed size and has a cursor parameter to be resumed with. */
  lemma {:induction false} LoadableExactly(steps: seq<Step>, cursor: Option<bool>)
    ensures Loadable(steps, cursor) <==> steps != [] && forall i: nat | i < |steps| :: StepFine(steps, cursor, i)
  {
    AllOkIff(steps, cursor, |steps|);
  }

  /** The batch that starts after the first `n` declared steps, and a step of it. */
  lemma {:induction false} Placed(steps: seq<Step>, b: nat, i: nat) returns (n: nat)
    requires b < |Group(steps)| && i < |Group(steps)[b].steps|
    ensures n + i < |steps| && Flatten(Group(steps)[..b]) == steps[..n] && steps[n + i] == Group(steps)[b].steps[i]
    ensures WellMade(Group(steps)[b])
  {
    GroupIsProper(steps);
    FlattenAt(Group(steps), b);
    n := |Flatten(Group(steps)[..b])|;
    SliceAt(steps, n, Group(steps)[b].steps, i);
  }

  lemma {:induction false} SliceAt(all: seq<Step>, lo: nat, part: seq<Step>, i: nat)
    requires lo + |part| <= |all| && all[lo..lo + |part|] == part && i < |part|
    ensures part[i] == all[lo + i]
  {
  }

  /** Whenever a run of a loaded tool reaches a fan-out step, its parent's result is there, however parallel
      steps finish and whatever the step itself then does: the parent was declared before it, and so ran in
      an earlier batch. */
  lemma {:induction false} ForEachFindsParent(run: Run, steps: seq<Step>, cursor: Option<bool>, b: nat, i: nat)
    requires Loadable(steps, cursor)
    requires b < |Group(steps)| && i < |Group(steps)[b].steps| && Group(steps)[b].steps[i].forEach != ""
    requires RunAll(run, Group(steps)[..b]).Some?
    ensures Group(steps)[b].steps[i].forEach in RunAll(run, Group(steps)[..b]).value
  {
    LoadableUnique(steps, cursor);
    ReachedSees(run, steps, b);
    var n := Placed(steps, b, i);
    LoadedAt(steps, cursor, |steps|, n + i);
    assert i == 0;
  }

  /** A step that fails only for want of its parent's result. */
  ghost predicate FailsOnlyOrphaned(run: Run, steps: seq<Step>) {
    forall step, seen {:trigger run(step, seen)} | step in steps && (step.forEach == "" || step.forEach in seen) ::
      run(step, seen).Some?
  }

  /** So the missing-parent error is dead code in a loaded tool: if nothing else can fail, the tool succeeds. */
  lemma {:induction false} NeverOrphaned(run: Run, steps: seq<Step>, cursor: Option<bool>, n: nat)
    requires Loadable(steps, cursor) && FailsOnlyOrphaned(run, steps) && n <= |Group(steps)|
    ensures RunAll(run, Group(steps)[..n]).Some?
  {
    if n > 0 {
      var b := n - 1;
      var batches := Group(steps)[..n];
      NeverOrphaned(run, steps, cursor, b);
      assert batches[..b] == Group(steps)[..b];
      var seen := RunAll(run, batches[..b]).value;
      forall i | 0 <= i < |batches[b].steps|
        ensures run(batches[b].steps[i], seen).Some?
      {
        var m := Placed(steps, b, i);
        assert steps[m + i] in steps;
        if batches[b].steps[i].forEach != "" { ForEachFindsParent(run, steps, cursor, b, i); }
      }
    }
  }
}
