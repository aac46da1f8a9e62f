/** A fan-out always comes to its end, and succeeds whenever its rows allow it. */
module FanOutProgress {
  import opened Options
  import opened Json
  import opened FanOut

  /** The loop is over and every call it started is done. */
  predicate Over(s: State) {
    (s.phase.Finished? || s.phase.Broke? || s.phase.Refused?) && forall w | 0 <= w < |s.workers| :: s.workers[w].status.Done?
  }

  /** How far a call is from being done. */
  function Steps(x: Worker): nat {
    match x.status
    case Calling => 3
    case Returned(_) => 2
    case Released(_) => 1
    case Done(_) => 0
  }

  function Work(workers: seq<Worker>): nat {
    if workers == [] then 0 else Work(workers[..|workers| - 1]) + Steps(workers[|workers| - 1])
  }

  lemma {:induction false} WorkUpdate(workers: seq<Worker>, w: nat, x: Worker)
    requires w < |workers|
    ensures Work(workers[w := x]) == Work(workers) - Steps(workers[w]) + Steps(x)
  {
    var n := |workers| - 1;
    if w < n {
      WorkUpdate(workers[..n], w, x);
      assert workers[w := x][..n] == workers[..n][w := x];
    } else {
      assert workers[w := x][..n] == workers[..n];
    }
  }

  lemma {:induction false} HeldBySome(workers: seq<Worker>)
    ensures Holding(workers) > 0 <==> exists w | 0 <= w < |workers| :: Holds(workers[w])
  {
    if workers != [] {
      var n := |workers| - 1;
      HeldBySome(workers[..n]);
      if Holding(workers[..n]) > 0 {
        var w :| 0 <= w < n && Holds(workers[..n][w]);
        assert Holds(workers[w]);
      }
    }
  }

  /** How far the dispatcher is from its end. */
  function Ahead(cfg: Config, s: State): nat {
    (if s.pos < |cfg.rows| then 3 * (|cfg.rows| - s.pos) else 0) +
    match s.phase
    case AtRow => 3
    case Acquiring(_) => 2
    case Checking(_, _) => 1
    case _ => 0
  }

  /** Slots are held by the calls that have not freed theirs, and by the dispatcher that is about to start one. */
  predicate Balanced(s: State) {
    s.held == Holding(s.workers) + if s.phase.Checking? && s.phase.slot then 1 else 0
  }

  ghost predicate Steady(cfg: Config, s: State) {
    SlotsOk(cfg, s) && Dispatched(cfg, s) && (s.phase.Broke? || Balanced(s))
  }

  lemma {:induction false} HeldWorker(s: State, w: nat, l: Label)
    requires w < |s.workers| && Balanced(s)
    ensures Balanced(WorkerStep(s, w, l))
  {
    var x := s.workers[w];
    if l.Return? && x.status.Calling? {
      HoldingUpdate(s.workers, w, Worker(x.key, Returned(l.out)));
    } else if l.Release? && x.status.Returned? {
      HoldingUpdate(s.workers, w, Worker(x.key, Released(x.status.out)));
    } else if l.Report? && x.status.Released? {
      HoldingUpdate(s.workers, w, Worker(x.key, Done(x.status.out)));
    }
  }

  lemma {:induction false} HeldStep(cfg: Config, s: State, l: Label)
    requires Steady(cfg, s)
    ensures var t := Step(cfg, s, l); t.phase.Broke? || Balanced(t)
  {
    if l.Dispatch? {
      if s.phase.Checking? { HoldingAppend(s.workers, Worker(s.phase.key, Calling)); }
    } else if (l.Return? || l.Release? || l.Report?) && l.w < |s.workers| {
      WorkerFrame(s, l.w, l);
      if !s.phase.Broke? { HeldWorker(s, l.w, l); }
    }
  }

  lemma {:induction false} RunSteady(cfg: Config, labels: seq<Label>)
    ensures Steady(cfg, Exec(cfg, labels))
  {
    RunSlots(cfg, labels);
    RunOk(cfg, labels);
    if labels != [] {
      RunSteady(cfg, labels[..|labels| - 1]);
      HeldStep(cfg, Exec(cfg, labels[..|labels| - 1]), labels[|labels| - 1]);
    }
  }

  /** What the broker answers to the call for each key. */
  type Answers = string -> Option<Object>

  /** The step that brings a call closer to its end. */
  function NextOf(answers: Answers, x: Worker, w: nat): Label {
    match x.status
    case Calling => Return(w, answers(x.key))
    case Returned(_) => Release(w)
    case _ => Report(w)
  }

  lemma {:induction false} LessWork(s: State, answers: Answers, w: nat)
    requires w < |s.workers| && !s.workers[w].status.Done? && (Holds(s.workers[w]) ==> s.held > 0)
    ensures Work(WorkerStep(s, w, NextOf(answers, s.workers[w], w)).workers) < Work(s.workers)
  {
    var x := s.workers[w];
    match x.status
    case Calling => WorkUpdate(s.workers, w, Worker(x.key, Returned(answers(x.key))));
    case Returned(out) => WorkUpdate(s.workers, w, Worker(x.key, Released(out)));
    case Released(out) => WorkUpdate(s.workers, w, Worker(x.key, Done(out)));
  }

  lemma {:induction false} WorkerCloser(cfg: Config, s: State, answers: Answers, w: nat)
    requires Steady(cfg, s) && w < |s.workers| && !s.workers[w].status.Done?
    ensures var t := Step(cfg, s, NextOf(answers, s.workers[w], w));
            Ahead(cfg, t) == Ahead(cfg, s) && Work(t.workers) < Work(s.workers)
  {
    HeldBySome(s.workers);
    LessWork(s, answers, w);
    WorkerFrame(s, w, NextOf(answers, s.workers[w], w));
  }

  lemma {:induction false} DispatchCloser(cfg: Config, s: State)
    requires Steady(cfg, s) && !Over(s) && forall w | 0 <= w < |s.workers| :: s.workers[w].status.Done?
    ensures Ahead(cfg, Step(cfg, s, Dispatch)) < Ahead(cfg, s)
  {
    HeldBySome(s.workers);
  }

  /** What this step says about a call is what the broker answers. */
  predicate FromBroker(answers: Answers, s: State, l: Label) {
    l.Return? && l.w < |s.workers| ==> l.out == answers(s.workers[l.w].key)
  }

  /** In these steps every call gets its answer from `answers`. */
  predicate Follows(cfg: Config, answers: Answers, labels: seq<Label>) {
    labels == [] ||
    var before, l := labels[..|labels| - 1], labels[|labels| - 1];
    Follows(cfg, answers, before) && FromBroker(answers, Exec(cfg, before), l)
  }

  lemma {:induction false} FollowsLast(cfg: Config, answers: Answers, labels: seq<Label>, l: Label)
    requires Follows(cfg, answers, labels) && FromBroker(answers, Exec(cfg, labels), l)
    ensures Follows(cfg, answers, labels + [l])
  {
    assert (labels + [l])[..|labels|] == labels;
  }

  lemma {:induction false} NextStep(cfg: Config, s: State, answers: Answers) returns (l: Label)
    requires Steady(cfg, s) && !Over(s)
    ensures !l.CancelCaller? && FromBroker(answers, s, l)
    ensures var t := Step(cfg, s, l); Ahead(cfg, t) < Ahead(cfg, s) || (Ahead(cfg, t) == Ahead(cfg, s) && Work(t.workers) < Work(s.workers))
  {
    if forall w | 0 <= w < |s.workers| :: s.workers[w].status.Done? {
      DispatchCloser(cfg, s);
      l := Dispatch;
    } else {
      var w :| 0 <= w < |s.workers| && !s.workers[w].status.Done?;
      WorkerCloser(cfg, s, answers, w);
      l := NextOf(answers, s.workers[w], w);
    }
  }

  lemma {:induction false} CallerStays(cfg: Config, s: State, l: Label)
    ensures Step(cfg, s, l).callerGone <==> s.callerGone || l.CancelCaller?
  {
    if (l.Return? || l.Release? || l.Report?) && l.w < |s.workers| { WorkerFrame(s, l.w, l); }
  }

  /** One more step brings a run nearer to its end, and keeps it well. */
  ghost predicate Nearer(ahead: seq<Label> -> nat, work: seq<Label> -> nat, well: seq<Label> -> bool, labels: seq<Label>, l: Label) {
    && (ahead(labels + [l]) < ahead(labels) || (ahead(labels + [l]) == ahead(labels) && work(labels + [l]) < work(labels)))
    && (well(labels) ==> well(labels + [l]))
  }

  lemma {:induction false} Descends(
      over: seq<Label> -> bool, ahead: seq<Label> -> nat, work: seq<Label> -> nat, well: seq<Label> -> bool, labels: seq<Label>)
    returns (more: seq<Label>)
    requires forall ls | !over(ls) :: exists l :: Nearer(ahead, work, well, ls, l)
    ensures over(labels + more) && (well(labels) ==> well(labels + more))
    decreases ahead(labels), work(labels)
  {
    if over(labels) {
      more := [];
      assert labels + more == labels;
    } else {
      var l :| Nearer(ahead, work, well, labels, l);
      var rest := Descends(over, ahead, work, well, labels + [l]);
      more := [l] + rest;
      assert labels + more == labels + [l] + rest;
    }
  }

  function OverAt(cfg: Config): seq<Label> -> bool {
    (labels: seq<Label>) => Over(Exec(cfg, labels))
  }

  function AheadAt(cfg: Config): seq<Label> -> nat {
    (labels: seq<Label>) => Ahead(cfg, Exec(cfg, labels))
  }

  function WorkAt(cfg: Config): seq<Label> -> nat {
    (labels: seq<Label>) => Work(Exec(cfg, labels).workers)
  }

  function StaysAt(cfg: Config, answers: Answers): seq<Label> -> bool {
    (labels: seq<Label>) => Follows(cfg, answers, labels) && !Exec(cfg, labels).callerGone
  }

  lemma {:induction false} NextNearer(cfg: Config, answers: Answers, labels: seq<Label>)
    requires !OverAt(cfg)(labels)
    ensures exists l :: Nearer(AheadAt(cfg), WorkAt(cfg), StaysAt(cfg, answers), labels, l)
  {
    var s := Exec(cfg, labels);
    RunSteady(cfg, labels);
    var l := NextStep(cfg, s, answers);
    ExecLast(cfg, labels, l);
    CallerStays(cfg, s, l);
    if Follows(cfg, answers, labels) { FollowsLast(cfg, answers, labels, l); }
    assert Nearer(AheadAt(cfg), WorkAt(cfg), StaysAt(cfg, answers), labels, l);
  }

  /** No deadlock: from every state of every run a fan-out can be brought to its end, whatever the broker answers
      and without the caller leaving. */
  lemma {:induction false} EveryFanOutCanEnd(cfg: Config, labels: seq<Label>, answers: Answers) returns (more: seq<Label>)
    ensures Over(Exec(cfg, labels + more))
    ensures Follows(cfg, answers, labels) && !Exec(cfg, labels).callerGone ==>
              Follows(cfg, answers, labels + more) && !Exec(cfg, labels + more).callerGone
  {
    forall ls | !OverAt(cfg)(ls)
      ensures exists l :: Nearer(AheadAt(cfg), WorkAt(cfg), StaysAt(cfg, answers), ls, l)
    {
      NextNearer(cfg, answers, ls);
    }
    more := Descends(OverAt(cfg), AheadAt(cfg), WorkAt(cfg), StaysAt(cfg, answers), labels);
    assert OverAt(cfg)(labels + more);
    assert StaysAt(cfg, answers)(labels) ==> StaysAt(cfg, answers)(labels + more);
  }

  // ---------------------------------------------------------------------------------------------
  // Success
  // ---------------------------------------------------------------------------------------------

  /** Every row is turned down or has a key, and no two have the same. */
  predicate Sortable(cfg: Config) {
    && (forall i | 0 <= i < |cfg.rows| :: !Judge(cfg, cfg.rows[i]).Bad?)
    && (forall i, j | 0 <= i < j < |cfg.rows| && Judge(cfg, cfg.rows[i]).Keyed? :: Judge(cfg, cfg.rows[i]) != Judge(cfg, cfg.rows[j]))
  }

  predicate FromRow(cfg: Config, n: nat, key: string) {
    exists i | 0 <= i < n && i < |cfg.rows| :: Judge(cfg, cfg.rows[i]) == Keyed(key)
  }

  /** The broker answers the call for every row that has a key. */
  predicate EachAnswered(cfg: Config, answers: Answers) {
    forall i | 0 <= i < |cfg.rows| && Judge(cfg, cfg.rows[i]).Keyed? :: answers(Judge(cfg, cfg.rows[i]).key).Some?
  }

  /** Nothing has gone wrong so far, and every answer is the broker's. */
  ghost predicate WellSoFar(cfg: Config, answers: Answers, s: State) {
    && !s.failed && !s.callerGone && !s.phase.Refused? && !s.phase.Broke?
    && (s.phase.Checking? ==> s.phase.slot)
    && (forall key | key in s.seen :: FromRow(cfg, s.pos + |Pending(s)|, key))
    && forall w | 0 <= w < |s.workers| ::
         answers(s.workers[w].key).Some? && (s.workers[w].status.Calling? || s.workers[w].status.out == answers(s.workers[w].key))
  }

  lemma {:induction false} WellDispatch(cfg: Config, answers: Answers, s: State)
    requires Sortable(cfg) && EachAnswered(cfg, answers) && WellSoFar(cfg, answers, s) && Dispatched(cfg, s)
    ensures WellSoFar(cfg, answers, Step(cfg, s, Dispatch))
  {
    var t := Step(cfg, s, Dispatch);
    forall key | key in s.seen
      ensures FromRow(cfg, t.pos + |Pending(t)|, key)
    {
      var i :| 0 <= i < s.pos + |Pending(s)| && i < |cfg.rows| && Judge(cfg, cfg.rows[i]) == Keyed(key);
    }
  }

  lemma {:induction false} WellWorker(cfg: Config, answers: Answers, s: State, w: nat, l: Label)
    requires WellSoFar(cfg, answers, s) && w < |s.workers| && (l.Return? ==> l.out == answers(s.workers[w].key))
    ensures WellSoFar(cfg, answers, WorkerStep(s, w, l))
  {
    WorkerFrame(s, w, l);
  }

  lemma {:induction false} WellStep(cfg: Config, answers: Answers, s: State, l: Label)
    requires Sortable(cfg) && EachAnswered(cfg, answers) && WellSoFar(cfg, answers, s) && Dispatched(cfg, s)
    requires FromBroker(answers, s, l) && !l.CancelCaller?
    ensures WellSoFar(cfg, answers, Step(cfg, s, l))
  {
    if l.Dispatch? {
      WellDispatch(cfg, answers, s);
    } else if !l.GiveUp? && l.w < |s.workers| {
      WellWorker(cfg, answers, s, l.w, l);
    }
  }

  lemma {:induction false} RunWell(cfg: Config, answers: Answers, labels: seq<Label>)
    requires Sortable(cfg) && EachAnswered(cfg, answers) && Follows(cfg, answers, labels) && !Exec(cfg, labels).callerGone
    ensures WellSoFar(cfg, answers, Exec(cfg, labels))
  {
    if labels != [] {
      var before, l := labels[..|labels| - 1], labels[|labels| - 1];
      CallerStays(cfg, Exec(cfg, before), l);
      RunOk(cfg, before);
      RunWell(cfg, answers, before);
      WellStep(cfg, answers, Exec(cfg, before), l);
    }
  }

  /** Every call that has an answer has the broker's. */
  ghost predicate Told(answers: Answers, workers: seq<Worker>) {
    forall w | 0 <= w < |workers| && !workers[w].status.Calling? :: workers[w].status.out == answers(workers[w].key)
  }

  lemma {:induction false} ToldStep(cfg: Config, answers: Answers, s: State, l: Label)
    requires Told(answers, s.workers) && FromBroker(answers, s, l)
    ensures Told(answers, Step(cfg, s, l).workers)
  {
    if (l.Return? || l.Release? || l.Report?) && l.w < |s.workers| { WorkerFrame(s, l.w, l); }
  }

  lemma {:induction false} RunTold(cfg: Config, answers: Answers, labels: seq<Label>)
    requires Follows(cfg, answers, labels)
    ensures Told(answers, Exec(cfg, labels).workers)
  {
    if labels != [] {
      RunTold(cfg, answers, labels[..|labels| - 1]);
      ToldStep(cfg, answers, Exec(cfg, labels[..|labels| - 1]), labels[|labels| - 1]);
    }
  }

  /** The rows are all readable, those that pass have text under the key field, and no text occurs twice. */
  ghost predicate FineRows(cfg: Config) {
    && (forall row | row in cfg.rows ::
          Readable(cfg, row) && (cfg.passes(row.fields) == Some(true) ==> exists key :: PassesWith(cfg, row, key)))
    && (forall i, j, key | 0 <= i < j < |cfg.rows| && PassesWith(cfg, cfg.rows[i], key) :: !PassesWith(cfg, cfg.rows[j], key))
  }

  lemma {:induction false} FineIsSortable(cfg: Config)
    requires FineRows(cfg)
    ensures Sortable(cfg)
  {
    forall i | 0 <= i < |cfg.rows|
      ensures !Judge(cfg, cfg.rows[i]).Bad?
    {
      var row := cfg.rows[i];
      assert row in cfg.rows;
      if cfg.passes(row.fields) == Some(true) {
        var key :| PassesWith(cfg, row, key);
        JudgedByRow(cfg, row, key);
      }
    }
    forall i, j | 0 <= i < j < |cfg.rows| && Judge(cfg, cfg.rows[i]).Keyed?
      ensures Judge(cfg, cfg.rows[i]) != Judge(cfg, cfg.rows[j])
    {
      var key := Judge(cfg, cfg.rows[i]).key;
      JudgedByRow(cfg, cfg.rows[i], key);
      JudgedByRow(cfg, cfg.rows[j], key);
    }
  }

  /** Every row that passes is answered. */
  ghost predicate RowsAnswered(cfg: Config, answers: Answers) {
    forall row, key | row in cfg.rows && PassesWith(cfg, row, key) :: answers(key).Some?
  }

  lemma {:induction false} RowsEachAnswered(cfg: Config, answers: Answers)
    requires RowsAnswered(cfg, answers)
    ensures EachAnswered(cfg, answers)
  {
    forall i | 0 <= i < |cfg.rows| && Judge(cfg, cfg.rows[i]).Keyed?
      ensures answers(Judge(cfg, cfg.rows[i]).key).Some?
    {
      JudgedByRow(cfg, cfg.rows[i], Judge(cfg, cfg.rows[i]).key);
      assert cfg.rows[i] in cfg.rows;
    }
  }

  lemma {:induction false} AnswersTold(cfg: Config, answers: Answers, labels: seq<Label>)
    requires Follows(cfg, answers, labels)
    ensures var s := Exec(cfg, labels); forall key | key in s.byKey :: Some(s.byKey[key]) == answers(key)
  {
    var s := Exec(cfg, labels);
    RunOk(cfg, labels);
    RunTold(cfg, answers, labels);
    forall key | key in s.byKey
      ensures Some(s.byKey[key]) == answers(key)
    {
      assert Answered(s.workers, key);
      var w :| 0 <= w < |s.workers| && s.workers[w].key == key && Answer(s.workers[w]).Some?;
    }
  }

  /** The schedule does not matter: for any broker and any run that has come to its end with the caller there, the
      fan-out has succeeded if and only if the rows are fine and the broker answers the call of every row that passes;
      and the answers are the broker's. */
  lemma {:induction false} SameForEverySchedule(cfg: Config, answers: Answers, labels: seq<Label>)
    requires Follows(cfg, answers, labels) && Over(Exec(cfg, labels)) && !Exec(cfg, labels).callerGone
    ensures var s := Exec(cfg, labels);
            && (Succeeded(s) <==> FineRows(cfg) && RowsAnswered(cfg, answers))
            && forall key | key in s.byKey :: Some(s.byKey[key]) == answers(key)
  {
    AnswersTold(cfg, answers, labels);
    if Succeeded(Exec(cfg, labels)) { SuccessByRow(cfg, labels); }
    if FineRows(cfg) && RowsAnswered(cfg, answers) {
      FineIsSortable(cfg);
      RowsEachAnswered(cfg, answers);
      RunWell(cfg, answers, labels);
    }
  }
}
