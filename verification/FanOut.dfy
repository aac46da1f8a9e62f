/** One call per row of an earlier step, a bounded number at a time: `fetchFanOut` as a dispatcher and its workers. */
module FanOut {
  import opened Options
  import opened Json
  import Text

  const DEFAULT_CONCURRENCY: nat := 8
  const MAX_CONCURRENCY: nat := 32

  /** A fan-out step over its parent's rows; `passes` is the row predicate, failing on a non-boolean. */
  datatype Config = Config(rows: seq<Json>, keyName: string, passes: Object -> Option<bool>, concurrency: int)

  function Slots(cfg: Config): nat {
    if cfg.concurrency <= 0 then DEFAULT_CONCURRENCY else cfg.concurrency
  }

  datatype Verdict = Bad | Skip | Keyed(key: string)

  /** What the dispatcher makes of one row, before it looks at the other rows. */
  function Judge(cfg: Config, row: Json): Verdict {
    if !row.Obj? then Bad
    else
      match cfg.passes(row.fields)
      case None => Bad
      case Some(false) => Skip
      case Some(true) =>
        if cfg.keyName in row.fields && row.fields[cfg.keyName].Str? then Keyed(row.fields[cfg.keyName].s) else Bad
  }

  datatype Status =
    | Calling
    | Returned(out: Option<Object>)
    | Released(out: Option<Object>)
    | Done(out: Option<Object>)

  /** A spawned per-row call. It returns, then frees its slot, then the group hears of an error. */
  datatype Worker = Worker(key: string, status: Status)

  /** Where the dispatch loop is: at a row; waiting for a slot; about to look at the group's context, with
      or without a slot; or out of the loop. */
  datatype Phase =
    | AtRow
    | Acquiring(key: string)
    | Checking(key: string, slot: bool)
    | Finished
    | Broke
    | Refused

  datatype State = State(
    phase: Phase, pos: nat, seen: set<string>, skipped: nat, held: nat, workers: seq<Worker>,
    byKey: map<string, Object>, failed: bool, callerGone: bool)

  datatype Label =
    | Dispatch
    | GiveUp
    | Return(w: nat, out: Option<Object>)
    | Release(w: nat)
    | Report(w: nat)
    | CancelCaller

  function Start(): State {
    State(AtRow, 0, {}, 0, 0, [], map[], false, false)
  }

  /** The group's context has ended. */
  predicate Ended(s: State) {
    s.failed || s.callerGone
  }

  /** The dispatcher's own next step, if it can take one. */
  function DispatchStep(cfg: Config, s: State): State {
    match s.phase
    case AtRow =>
      if s.pos >= |cfg.rows| then s.(phase := Finished)
      else (
        match Judge(cfg, cfg.rows[s.pos])
        case Bad => s.(phase := Refused)
        case Skip => s.(pos := s.pos + 1, skipped := s.skipped + 1)
        case Keyed(key) =>
          if key in s.seen then s.(phase := Refused) else s.(phase := Acquiring(key), seen := s.seen + {key}))
    case Acquiring(key) =>
      if s.held < Slots(cfg) then s.(phase := Checking(key, true), held := s.held + 1) else s
    case Checking(key, slot) =>
      if Ended(s) || !slot then s.(phase := Broke)
      else s.(phase := AtRow, pos := s.pos + 1, workers := s.workers + [Worker(key, Calling)])
    case _ => s
  }

  function WorkerStep(s: State, w: nat, l: Label): State
    requires w < |s.workers|
  {
    var x := s.workers[w];
    if l.Return? && x.status.Calling? then
      var stored := if l.out.Some? then s.byKey[x.key := l.out.value] else s.byKey;
      s.(workers := s.workers[w := Worker(x.key, Returned(l.out))], byKey := stored)
    else if l.Release? && x.status.Returned? && s.held > 0 then
      s.(workers := s.workers[w := Worker(x.key, Released(x.status.out))], held := s.held - 1)
    else if l.Report? && x.status.Released? then
      s.(workers := s.workers[w := Worker(x.key, Done(x.status.out))], failed := s.failed || x.status.out.None?)
    else s
  }

  /** One step; a label that does not apply changes nothing. */
  function Step(cfg: Config, s: State, l: Label): State {
    if l.Dispatch? then DispatchStep(cfg, s)
    else if l.GiveUp? then
      if s.phase.Acquiring? && Ended(s) then s.(phase := Checking(s.phase.key, false)) else s
    else if l.CancelCaller? then s.(callerGone := true)
    else if l.w < |s.workers| then WorkerStep(s, l.w, l)
    else s
  }

  function Exec(cfg: Config, labels: seq<Label>): State {
    if labels == [] then Start() else Step(cfg, Exec(cfg, labels[..|labels| - 1]), labels[|labels| - 1])
  }

  // ---------------------------------------------------------------------------------------------
  // The semaphore
  // ---------------------------------------------------------------------------------------------

  predicate Holds(x: Worker) { x.status.Calling? || x.status.Returned? }

  function Holding(workers: seq<Worker>): nat {
    if workers == [] then 0
    else Holding(workers[..|workers| - 1]) + if Holds(workers[|workers| - 1]) then 1 else 0
  }

  function CallsInFlight(workers: seq<Worker>): nat {
    if workers == [] then 0
    else CallsInFlight(workers[..|workers| - 1]) + if workers[|workers| - 1].status.Calling? then 1 else 0
  }

  lemma {:induction false} FewerThanHolding(workers: seq<Worker>)
    ensures CallsInFlight(workers) <= Holding(workers)
  {
    if workers != [] { FewerThanHolding(workers[..|workers| - 1]); }
  }

  lemma {:induction false} HoldingUpdate(workers: seq<Worker>, w: nat, x: Worker)
    requires w < |workers|
    ensures Holding(workers[w := x]) ==
            Holding(workers) - (if Holds(workers[w]) then 1 else 0) + (if Holds(x) then 1 else 0)
  {
    var n := |workers| - 1;
    if w < n {
      HoldingUpdate(workers[..n], w, x);
      assert workers[w := x][..n] == workers[..n][w := x];
    } else {
      assert workers[w := x][..n] == workers[..n];
    }
  }

  lemma {:induction false} HoldingAppend(workers: seq<Worker>, x: Worker)
    ensures Holding(workers + [x]) == Holding(workers) + if Holds(x) then 1 else 0
  {
    assert (workers + [x])[..|workers|] == workers;
  }

  /** Slots are held by the workers that have not freed theirs, and by the dispatcher between taking one
      and spawning. A dispatcher that breaks off may keep the slot it took. */
  ghost predicate SlotsOk(cfg: Config, s: State) {
    && s.held <= Slots(cfg)
    && Holding(s.workers) + (if s.phase.Checking? && s.phase.slot then 1 else 0) <= s.held
  }

  lemma {:induction false} SlotsWorker(cfg: Config, s: State, w: nat, l: Label)
    requires SlotsOk(cfg, s) && w < |s.workers|
    ensures SlotsOk(cfg, WorkerStep(s, w, l))
  {
    var x := s.workers[w];
    if l.Return? && x.status.Calling? {
      HoldingUpdate(s.workers, w, Worker(x.key, Returned(l.out)));
    } else if l.Release? && x.status.Returned? {
      HoldingUpdate(s.workers, w, Worker(x.key, Released(x.status.out)));
    } else if l.Report? && x.status.Released? {
      HoldingUpdate(s.workers, w, Worker(x.key, Done(x.status.out)));
    }
  }

  lemma {:induction false} SlotsStep(cfg: Config, s: State, l: Label)
    requires SlotsOk(cfg, s)
    ensures SlotsOk(cfg, Step(cfg, s, l))
  {
    if l.Dispatch? {
      if s.phase.Checking? { HoldingAppend(s.workers, Worker(s.phase.key, Calling)); }
    } else if (l.Return? || l.Release? || l.Report?) && l.w < |s.workers| {
      SlotsWorker(cfg, s, l.w, l);
    }
  }

  lemma {:induction false} RunSlots(cfg: Config, labels: seq<Label>)
    ensures SlotsOk(cfg, Exec(cfg, labels))
  {
    if labels != [] {
      RunSlots(cfg, labels[..|labels| - 1]);
      SlotsStep(cfg, Exec(cfg, labels[..|labels| - 1]), labels[|labels| - 1]);
    }
  }

  /** In every interleaving the number of per-row calls in flight stays within the step's concurrency,
      which for a loaded step is between 1 and 32. */
  lemma {:induction false} BoundedInFlight(cfg: Config, labels: seq<Label>)
    ensures CallsInFlight(Exec(cfg, labels).workers) <= Slots(cfg)
    ensures CallsInFlight(Exec(cfg, labels).workers) <= if cfg.concurrency > 0 then cfg.concurrency else 8
    ensures 0 <= cfg.concurrency <= MAX_CONCURRENCY ==> 1 <= Slots(cfg) <= MAX_CONCURRENCY
  {
    RunSlots(cfg, labels);
    FewerThanHolding(Exec(cfg, labels).workers);
  }

  // ---------------------------------------------------------------------------------------------
  // The partition
  // ---------------------------------------------------------------------------------------------

  /** How many of the first `n` rows the predicate turns away. */
  function Skips(cfg: Config, n: nat): nat
    requires n <= |cfg.rows|
  {
    if n == 0 then 0 else Skips(cfg, n - 1) + if Judge(cfg, cfg.rows[n - 1]).Skip? then 1 else 0
  }

  /** The keys of the first `n` rows that pass, in row order. */
  function Keys(cfg: Config, n: nat): seq<string>
    requires n <= |cfg.rows|
  {
    if n == 0 then []
    else
      match Judge(cfg, cfg.rows[n - 1])
      case Keyed(key) => Keys(cfg, n - 1) + [key]
      case _ => Keys(cfg, n - 1)
  }

  /** The key the dispatcher is working on, if any. */
  function Pending(s: State): seq<string> {
    match s.phase
    case Acquiring(key) => [key]
    case Checking(key, _) => [key]
    case _ => []
  }

  /** Workers were spawned for exactly the first `pos` rows that were not skipped, in order. */
  ghost predicate Spawned(cfg: Config, workers: seq<Worker>, skipped: nat, pos: nat) {
    && pos <= |cfg.rows|
    && |workers| == |Keys(cfg, pos)|
    && (forall w | 0 <= w < |workers| :: workers[w].key == Keys(cfg, pos)[w])
    && skipped == Skips(cfg, pos)
    && |workers| + skipped == pos
  }

  ghost predicate Dispatched(cfg: Config, s: State) {
    && Spawned(cfg, s.workers, s.skipped, s.pos)
    && (s.phase.Finished? ==> s.pos == |cfg.rows|)
    && (s.phase.Broke? ==> s.pos < |cfg.rows| && Judge(cfg, cfg.rows[s.pos]).Keyed? && Ended(s))
    && (Pending(s) != [] ==> s.pos < |cfg.rows| && Judge(cfg, cfg.rows[s.pos]) == Keyed(Pending(s)[0]))
    && (s.phase.Checking? && !s.phase.slot ==> Ended(s))
  }

  /** Keys seen so far are those of the workers and the one in hand, all different. */
  ghost predicate KeysOk(s: State) {
    && (forall w | 0 <= w < |s.workers| :: s.workers[w].key in s.seen)
    && (forall v, w | 0 <= v < w < |s.workers| :: s.workers[v].key != s.workers[w].key)
    && (Pending(s) != [] ==> Pending(s)[0] in s.seen && forall w | 0 <= w < |s.workers| :: s.workers[w].key != Pending(s)[0])
  }

  /** The answer a worker has stored. */
  function Answer(x: Worker): Option<Object> {
    if x.status.Calling? then None else x.status.out
  }

  predicate Answered(workers: seq<Worker>, k: string) {
    exists w | 0 <= w < |workers| :: workers[w].key == k && Answer(workers[w]).Some?
  }

  /** The result map holds each worker's own answer, and an error nobody has heard of yet is on its way. */
  ghost predicate StoredOk(workers: seq<Worker>, byKey: map<string, Object>, failed: bool) {
    && (forall w | 0 <= w < |workers| && Answer(workers[w]).Some? ::
          workers[w].key in byKey && byKey[workers[w].key] == Answer(workers[w]).value)
    && (forall k | k in byKey :: Answered(workers, k))
    && (!failed ==> forall w | 0 <= w < |workers| && workers[w].status.Done? :: workers[w].status.out.Some?)
  }

  /** A worker's step leaves the dispatcher where it is and every worker with its key. */
  lemma {:induction false} WorkerFrame(s: State, w: nat, l: Label)
    requires w < |s.workers|
    ensures var t := WorkerStep(s, w, l);
            && t.phase == s.phase && t.pos == s.pos && t.seen == s.seen && t.skipped == s.skipped
            && t.callerGone == s.callerGone && (s.failed ==> t.failed)
            && |t.workers| == |s.workers|
            && (forall v | 0 <= v < |s.workers| :: t.workers[v].key == s.workers[v].key)
            && (forall v | 0 <= v < |s.workers| && v != w :: t.workers[v] == s.workers[v])
  {
  }

  lemma {:induction false} SpawnedMore(cfg: Config, workers: seq<Worker>, skipped: nat, pos: nat, x: Worker)
    requires Spawned(cfg, workers, skipped, pos) && pos < |cfg.rows| && Judge(cfg, cfg.rows[pos]) == Keyed(x.key)
    ensures Spawned(cfg, workers + [x], skipped, pos + 1)
  {
  }

  lemma {:induction false} SpawnedSkip(cfg: Config, workers: seq<Worker>, skipped: nat, pos: nat)
    requires Spawned(cfg, workers, skipped, pos) && pos < |cfg.rows| && Judge(cfg, cfg.rows[pos]).Skip?
    ensures Spawned(cfg, workers, skipped + 1, pos + 1)
  {
  }

  lemma {:induction false} DispatchedDispatch(cfg: Config, s: State)
    requires Dispatched(cfg, s)
    ensures Dispatched(cfg, DispatchStep(cfg, s))
  {
    if s.phase.AtRow? && s.pos < |cfg.rows| && Judge(cfg, cfg.rows[s.pos]).Skip? {
      SpawnedSkip(cfg, s.workers, s.skipped, s.pos);
    }
    if s.phase.Checking? && !Ended(s) {
      SpawnedMore(cfg, s.workers, s.skipped, s.pos, Worker(s.phase.key, Calling));
    }
  }

  lemma {:induction false} DispatchedStep(cfg: Config, s: State, l: Label)
    requires Dispatched(cfg, s)
    ensures Dispatched(cfg, Step(cfg, s, l))
  {
    if l.Dispatch? {
      DispatchedDispatch(cfg, s);
    } else if !l.GiveUp? && !l.CancelCaller? {
      if l.w < |s.workers| { WorkerFrame(s, l.w, l); }
    }
  }

  lemma {:induction false} KeysDispatch(cfg: Config, s: State)
    requires KeysOk(s)
    ensures KeysOk(DispatchStep(cfg, s))
  {
  }

  lemma {:induction false} KeysStep(cfg: Config, s: State, l: Label)
    requires KeysOk(s)
    ensures KeysOk(Step(cfg, s, l))
  {
    if l.Dispatch? {
      KeysDispatch(cfg, s);
    } else if !l.GiveUp? && !l.CancelCaller? {
      if l.w < |s.workers| { WorkerFrame(s, l.w, l); }
    }
  }

  lemma {:induction false} StoredReturn(workers: seq<Worker>, byKey: map<string, Object>, failed: bool, w: nat, out: Option<Object>)
    requires StoredOk(workers, byKey, failed) && w < |workers| && workers[w].status.Calling?
    requires forall v | 0 <= v < |workers| && v != w :: workers[v].key != workers[w].key
    ensures StoredOk(workers[w := Worker(workers[w].key, Returned(out))],
                     if out.Some? then byKey[workers[w].key := out.value] else byKey, failed)
  {
    var x := Worker(workers[w].key, Returned(out));
    var later := if out.Some? then byKey[x.key := out.value] else byKey;
    forall k | k in later
      ensures Answered(workers[w := x], k)
    {
      if k == x.key && out.Some? {
        assert workers[w := x][w].key == k;
      } else {
        StillAnswered(workers, w, x, k);
      }
    }
  }

  lemma {:induction false} StillAnswered(workers: seq<Worker>, w: nat, x: Worker, k: string)
    requires w < |workers| && Answered(workers, k) && x.key == workers[w].key
    requires Answer(workers[w]).Some? ==> Answer(x).Some?
    ensures Answered(workers[w := x], k)
  {
    var v :| 0 <= v < |workers| && workers[v].key == k && Answer(workers[v]).Some?;
    assert workers[w := x][v].key == k && Answer(workers[w := x][v]).Some?;
  }

  /** A worker moves on without changing its answer. */
  lemma {:induction false} StoredMove(workers: seq<Worker>, byKey: map<string, Object>, failed: bool, w: nat, x: Worker)
    requires StoredOk(workers, byKey, failed) && w < |workers|
    requires x.key == workers[w].key && Answer(x) == Answer(workers[w])
    ensures StoredOk(workers[w := x], byKey, failed || (x.status.Done? && x.status.out.None?))
  {
    forall k | k in byKey
      ensures Answered(workers[w := x], k)
    {
      StillAnswered(workers, w, x, k);
    }
  }

  lemma {:induction false} StoredSpawn(workers: seq<Worker>, byKey: map<string, Object>, failed: bool, x: Worker)
    requires StoredOk(workers, byKey, failed) && x.status.Calling?
    ensures StoredOk(workers + [x], byKey, failed)
  {
    forall k | k in byKey
      ensures Answered(workers + [x], k)
    {
      var v :| 0 <= v < |workers| && workers[v].key == k && Answer(workers[v]).Some?;
      assert (workers + [x])[v] == workers[v];
    }
  }

  lemma {:induction false} StoredWorker(s: State, w: nat, l: Label)
    requires StoredOk(s.workers, s.byKey, s.failed) && KeysOk(s) && w < |s.workers|
    requires (l.Return? || l.Release? || l.Report?) && l.w == w
    ensures var t := WorkerStep(s, w, l); StoredOk(t.workers, t.byKey, t.failed)
  {
    var x := s.workers[w];
    if l.Return? && x.status.Calling? {
      StoredReturn(s.workers, s.byKey, s.failed, w, l.out);
    } else if l.Release? && x.status.Returned? {
      StoredMove(s.workers, s.byKey, s.failed, w, Worker(x.key, Released(x.status.out)));
    } else if l.Report? && x.status.Released? {
      StoredMove(s.workers, s.byKey, s.failed, w, Worker(x.key, Done(x.status.out)));
    }
  }

  lemma {:induction false} StoredStep(cfg: Config, s: State, l: Label)
    requires StoredOk(s.workers, s.byKey, s.failed) && KeysOk(s)
    ensures var t := Step(cfg, s, l); StoredOk(t.workers, t.byKey, t.failed)
  {
    if l.Dispatch? {
      if s.phase.Checking? { StoredSpawn(s.workers, s.byKey, s.failed, Worker(s.phase.key, Calling)); }
    } else if l.Return? || l.Release? || l.Report? {
      if l.w < |s.workers| { StoredWorker(s, l.w, l); }
    }
  }

  lemma {:induction false} RunOk(cfg: Config, labels: seq<Label>)
    ensures var s := Exec(cfg, labels); Dispatched(cfg, s) && KeysOk(s) && StoredOk(s.workers, s.byKey, s.failed)
  {
    if labels != [] {
      var s, l := Exec(cfg, labels[..|labels| - 1]), labels[|labels| - 1];
      RunOk(cfg, labels[..|labels| - 1]);
      DispatchedStep(cfg, s, l);
      KeysStep(cfg, s, l);
      StoredStep(cfg, s, l);
    }
  }

  function ExecFrom(cfg: Config, s: State, labels: seq<Label>): State {
    if labels == [] then s else Step(cfg, ExecFrom(cfg, s, labels[..|labels| - 1]), labels[|labels| - 1])
  }

  lemma {:induction false} EndedStep(cfg: Config, s: State, l: Label)
    requires Ended(s)
    ensures Ended(Step(cfg, s, l)) && |Step(cfg, s, l).workers| == |s.workers|
  {
    if (l.Return? || l.Release? || l.Report?) && l.w < |s.workers| { WorkerFrame(s, l.w, l); }
  }

  /** Fail fast: once a call has failed or the caller has left, no further call is ever started. */
  lemma {:induction false} NoCallAfterEnd(cfg: Config, s: State, labels: seq<Label>)
    requires Ended(s)
    ensures var t := ExecFrom(cfg, s, labels); Ended(t) && |t.workers| == |s.workers|
  {
    if labels != [] {
      var before := ExecFrom(cfg, s, labels[..|labels| - 1]);
      NoCallAfterEnd(cfg, s, labels[..|labels| - 1]);
      EndedStep(cfg, before, labels[|labels| - 1]);
    }
  }

  /** `Wait` has returned without an error: the loop is over, every worker is done, none failed. */
  predicate Succeeded(s: State) {
    (s.phase.Finished? || s.phase.Broke?) && (forall w | 0 <= w < |s.workers| :: s.workers[w].status.Done?) && !s.failed
  }

  predicate OwnAnswers(s: State) {
    forall w | 0 <= w < |s.workers| ::
      s.workers[w].key in s.byKey && Some(s.byKey[s.workers[w].key]) == Answer(s.workers[w])
  }

  /** The answers partition the rows: every row either was skipped or has its own entry under its key,
      holding what its own call returned. */
  ghost predicate Partition(cfg: Config, s: State) {
    && OwnAnswers(s)
    && (forall i | 0 <= i < |cfg.rows| :: !Judge(cfg, cfg.rows[i]).Bad?)
    && (forall k :: k in s.byKey <==> exists i | 0 <= i < |cfg.rows| :: Judge(cfg, cfg.rows[i]) == Keyed(k))
    && (forall i, j | 0 <= i < j < |cfg.rows| :: !(Judge(cfg, cfg.rows[i]).Keyed? && Judge(cfg, cfg.rows[i]) == Judge(cfg, cfg.rows[j])))
    && s.skipped == Skips(cfg, |cfg.rows|)
    && |s.byKey| + s.skipped == |cfg.rows|
  }

  lemma {:induction false} DistinctSize(keys: seq<string>)
    requires Text.Distinct(keys)
    ensures |set k | k in keys| == |keys|
  {
    if keys != [] {
      var n := |keys| - 1;
      DistinctSize(keys[..n]);
      assert (set k | k in keys) == (set k | k in keys[..n]) + {keys[n]};
      assert keys[n] !in keys[..n];
    }
  }

  lemma {:induction false} KeysDistinct(cfg: Config, s: State)
    requires Dispatched(cfg, s) && KeysOk(s)
    ensures Text.Distinct(Keys(cfg, s.pos))
  {
    var keys := Keys(cfg, s.pos);
    forall i, j | 0 <= i < j < |keys|
      ensures keys[i] != keys[j]
    {
      assert s.workers[i].key == keys[i] && s.workers[j].key == keys[j];
    }
  }

  lemma {:induction false} AnsweredAll(cfg: Config, s: State, k: string)
    requires Dispatched(cfg, s) && StoredOk(s.workers, s.byKey, s.failed) && Succeeded(s)
    ensures k in s.byKey <==> k in Keys(cfg, s.pos)
  {
    var keys := Keys(cfg, s.pos);
    if k in keys {
      var w :| 0 <= w < |keys| && keys[w] == k;
      assert s.workers[w].status.Done?;
      assert Answer(s.workers[w]).Some?;
    }
    if k in s.byKey {
      assert Answered(s.workers, k);
    }
  }

  /** Every worker is done without an error, so its answer is in the map, and nothing else is. */
  lemma {:induction false} AllAnswered(cfg: Config, s: State)
    requires Dispatched(cfg, s) && KeysOk(s) && StoredOk(s.workers, s.byKey, s.failed) && Succeeded(s)
    ensures s.byKey.Keys == (set k | k in Keys(cfg, s.pos)) && |s.byKey| == |s.workers| && Text.Distinct(Keys(cfg, s.pos))
  {
    KeysDistinct(cfg, s);
    forall k
      ensures k in s.byKey <==> k in Keys(cfg, s.pos)
    {
      AnsweredAll(cfg, s, k);
    }
    DistinctSize(Keys(cfg, s.pos));
    assert s.byKey.Keys == (set k | k in Keys(cfg, s.pos));
  }

  lemma {:induction false} KeysAre(cfg: Config, n: nat, k: string)
    requires n <= |cfg.rows|
    ensures k in Keys(cfg, n) <==> exists i | 0 <= i < n :: Judge(cfg, cfg.rows[i]) == Keyed(k)
  {
    if n > 0 { KeysAre(cfg, n - 1, k); }
  }

  lemma {:induction false} KeysPrefix(cfg: Config, m: nat, n: nat)
    requires m <= n <= |cfg.rows|
    ensures Keys(cfg, m) <= Keys(cfg, n)
  {
    if m < n { KeysPrefix(cfg, m, n - 1); }
  }

  lemma {:induction false} KeysRepeat(cfg: Config, n: nat, i: nat, j: nat)
    requires i < j < n <= |cfg.rows| && Judge(cfg, cfg.rows[i]).Keyed? && Judge(cfg, cfg.rows[i]) == Judge(cfg, cfg.rows[j])
    ensures !Text.Distinct(Keys(cfg, n))
  {
    var k, before := Judge(cfg, cfg.rows[i]).key, Keys(cfg, j);
    KeysAre(cfg, j, k);
    var p :| 0 <= p < |before| && before[p] == k;
    assert Keys(cfg, j + 1) == before + [k];
    KeysPrefix(cfg, j + 1, n);
    assert (before + [k])[p] == k && (before + [k])[|before|] == k;
    assert Keys(cfg, n)[p] == Keys(cfg, n)[|before|];
  }

  lemma {:induction false} CountsAddUp(cfg: Config, n: nat)
    requires n <= |cfg.rows|
    ensures |Keys(cfg, n)| + Skips(cfg, n) <= n
    ensures |Keys(cfg, n)| + Skips(cfg, n) == n ==> forall i | 0 <= i < n :: !Judge(cfg, cfg.rows[i]).Bad?
  {
    if n > 0 { CountsAddUp(cfg, n - 1); }
  }

  /** A fan-out that reports success has answered every passing row under its own key and counted every
      other row, exactly when its loop ran to the end of the rows; and it always did unless the caller's
      own context ended. */
  lemma {:induction false} SuccessPartitions(cfg: Config, labels: seq<Label>)
    requires Succeeded(Exec(cfg, labels))
    ensures var s := Exec(cfg, labels);
            && (Partition(cfg, s) <==> s.phase.Finished?)
            && (!s.callerGone ==> Partition(cfg, s))
  {
    var s := Exec(cfg, labels);
    RunOk(cfg, labels);
    AllAnswered(cfg, s);
    if s.phase.Finished? {
      FinishedPartitions(cfg, s);
    }
  }

  lemma {:induction false} EachOwnAnswer(s: State)
    requires StoredOk(s.workers, s.byKey, s.failed) && Succeeded(s)
    ensures OwnAnswers(s)
  {
    forall w | 0 <= w < |s.workers|
      ensures s.workers[w].key in s.byKey && Some(s.byKey[s.workers[w].key]) == Answer(s.workers[w])
    {
      assert s.workers[w].status.Done?;
    }
  }

  lemma {:induction false} FinishedPartitions(cfg: Config, s: State)
    requires Dispatched(cfg, s) && KeysOk(s) && StoredOk(s.workers, s.byKey, s.failed) && Succeeded(s) && s.phase.Finished?
    ensures Partition(cfg, s)
  {
    var n := |cfg.rows|;
    EachOwnAnswer(s);
    AllAnswered(cfg, s);
    CountsAddUp(cfg, n);
    forall k
      ensures k in s.byKey <==> exists i | 0 <= i < n :: Judge(cfg, cfg.rows[i]) == Keyed(k)
    {
      KeysAre(cfg, n, k);
    }
    forall i, j | 0 <= i < j < n && Judge(cfg, cfg.rows[i]).Keyed? && Judge(cfg, cfg.rows[i]) == Judge(cfg, cfg.rows[j])
      ensures false
    {
      KeysRepeat(cfg, n, i, j);
    }
  }

  lemma {:induction false} ExecLast(cfg: Config, labels: seq<Label>, l: Label)
    ensures Exec(cfg, labels + [l]) == Step(cfg, Exec(cfg, labels), l)
  {
    assert (labels + [l])[..|labels|] == labels;
  }

  /** Row `i` is the first that is not skipped, and it has a key. */
  predicate FirstKeyed(cfg: Config, i: nat) {
    i < |cfg.rows| && Judge(cfg, cfg.rows[i]).Keyed? && forall j | 0 <= j < i :: Judge(cfg, cfg.rows[j]).Skip?
  }

  /** The caller has left, and the dispatcher has walked over `i` rows that are skipped. */
  function Walked(i: nat): State {
    State(AtRow, i, {}, i, 0, [], map[], false, true)
  }

  lemma {:induction false} WalkGoesOn(cfg: Config, labels: seq<Label>, i: nat)
    requires Exec(cfg, labels) == Walked(i) && i < |cfg.rows| && Judge(cfg, cfg.rows[i]).Skip?
    ensures Exec(cfg, labels + [Dispatch]) == Walked(i + 1)
  {
    ExecLast(cfg, labels, Dispatch);
  }

  lemma {:induction false} WalkSkips(cfg: Config, i: nat) returns (labels: seq<Label>)
    requires i <= |cfg.rows| && forall j | 0 <= j < i :: Judge(cfg, cfg.rows[j]).Skip?
    ensures Exec(cfg, labels) == Walked(i)
  {
    if i == 0 {
      ExecLast(cfg, [], CancelCaller);
      labels := [] + [CancelCaller];
    } else {
      var walk := WalkSkips(cfg, i - 1);
      WalkGoesOn(cfg, walk, i - 1);
      labels := walk + [Dispatch];
    }
  }

  /** A caller that leaves while the first keyed row waits for its slot can be told that the fan-out
      succeeded, with no answers at all. */
  lemma {:induction false} CutShort(cfg: Config, i: nat) returns (labels: seq<Label>)
    requires FirstKeyed(cfg, i)
    ensures var s := Exec(cfg, labels);
            Succeeded(s) && s.callerGone && s.byKey == map[] && s.skipped == i && !Partition(cfg, s)
  {
    var key := Judge(cfg, cfg.rows[i]).key;
    var walk := WalkSkips(cfg, i);
    ExecLast(cfg, walk, Dispatch);
    ExecLast(cfg, walk + [Dispatch], GiveUp);
    ExecLast(cfg, walk + [Dispatch] + [GiveUp], Dispatch);
    assert Exec(cfg, walk + [Dispatch]).phase == Acquiring(key);
    labels := walk + [Dispatch] + [GiveUp] + [Dispatch];
    assert key !in Exec(cfg, labels).byKey && Judge(cfg, cfg.rows[i]) == Keyed(key);
  }

  lemma {:induction false} SomeFirstKeyed(cfg: Config, n: nat) returns (i: nat)
    requires n < |cfg.rows| && Judge(cfg, cfg.rows[n]).Keyed?
    requires forall j | 0 <= j < n :: !Judge(cfg, cfg.rows[j]).Bad?
    ensures FirstKeyed(cfg, i)
  {
    if j: nat :| j < n && Judge(cfg, cfg.rows[j]).Keyed? {
      i := SomeFirstKeyed(cfg, j);
    } else {
      i := n;
    }
  }

  /** However a successful run was scheduled, and whoever left, its answers partition the rows. */
  ghost predicate AlwaysPartitions(cfg: Config) {
    forall labels | Succeeded(Exec(cfg, labels)) :: Partition(cfg, Exec(cfg, labels))
  }

  /** Every successful run of a fan-out partitions its rows exactly when the first row not skipped, if there
      is one, is a bad one: so for rows that are all skipped or that start with an error, and no others. */
  lemma {:induction false} PartitionsExactly(cfg: Config)
    ensures AlwaysPartitions(cfg) <==> !exists i: nat :: FirstKeyed(cfg, i)
  {
    if i: nat :| FirstKeyed(cfg, i) {
      var labels := CutShort(cfg, i);
      assert Succeeded(Exec(cfg, labels));
    } else {
      forall labels | Succeeded(Exec(cfg, labels))
        ensures Partition(cfg, Exec(cfg, labels))
      {
        NeverBreaks(cfg, labels);
        SuccessPartitions(cfg, labels);
      }
    }
  }

  lemma {:induction false} NeverBreaks(cfg: Config, labels: seq<Label>)
    requires !exists i: nat :: FirstKeyed(cfg, i)
    ensures !Exec(cfg, labels).phase.Broke?
  {
    var s := Exec(cfg, labels);
    RunOk(cfg, labels);
    if s.phase.Broke? {
      CountsAddUp(cfg, s.pos);
      var i := SomeFirstKeyed(cfg, s.pos);
    }
  }

  // ---------------------------------------------------------------------------------------------
  // What a successful run says of its rows
  // ---------------------------------------------------------------------------------------------

  /** Where no row has a key, no call is made. */
  lemma {:induction false} NoKeyNoAnswer(cfg: Config, labels: seq<Label>)
    requires Succeeded(Exec(cfg, labels)) && forall i | 0 <= i < |cfg.rows| :: !Judge(cfg, cfg.rows[i]).Keyed?
    ensures Exec(cfg, labels).byKey == map[]
  {
    var s := Exec(cfg, labels);
    RunOk(cfg, labels);
    AllAnswered(cfg, s);
    forall k
      ensures k !in s.byKey
    {
      KeysAre(cfg, s.pos, k);
    }
  }

  /** Even a run that was cut short has looked at the first row and not found it bad. */
  lemma {:induction false} FirstRowFine(cfg: Config, labels: seq<Label>)
    requires Succeeded(Exec(cfg, labels)) && cfg.rows != []
    ensures !Judge(cfg, cfg.rows[0]).Bad?
  {
    RunOk(cfg, labels);
    CountsAddUp(cfg, Exec(cfg, labels).pos);
  }

  /** Runs over no row, over one that is skipped, and over one that is answered. */
  function OneCall(out: Object): seq<Label> {
    [Dispatch, Dispatch, Dispatch, Return(0, Some(out)), Release(0), Report(0), Dispatch]
  }

  lemma {:induction false} NoRowRun(cfg: Config)
    requires cfg.rows == []
    ensures Exec(cfg, [Dispatch]) == Start().(phase := Finished)
  {
    ExecLast(cfg, [], Dispatch);
    assert [] + [Dispatch] == [Dispatch];
  }

  lemma {:induction false} SkipRun(cfg: Config)
    requires |cfg.rows| == 1 && Judge(cfg, cfg.rows[0]).Skip?
    ensures Exec(cfg, [Dispatch, Dispatch]) == State(Finished, 1, {}, 1, 0, [], map[], false, false)
  {
    ExecLast(cfg, [], Dispatch);
    assert [] + [Dispatch] == [Dispatch];
    ExecLast(cfg, [Dispatch], Dispatch);
    assert [Dispatch] + [Dispatch] == [Dispatch, Dispatch];
  }

  lemma {:induction false} CallSpawned(cfg: Config, key: string)
    requires |cfg.rows| == 1 && Judge(cfg, cfg.rows[0]) == Keyed(key)
    ensures Exec(cfg, [Dispatch] + [Dispatch] + [Dispatch]) ==
            State(AtRow, 1, {key}, 0, 1, [Worker(key, Calling)], map[], false, false)
  {
    ExecLast(cfg, [], Dispatch);
    assert [] + [Dispatch] == [Dispatch];
    assert Exec(cfg, [Dispatch]) == State(Acquiring(key), 0, {key}, 0, 0, [], map[], false, false);
    ExecLast(cfg, [Dispatch], Dispatch);
    assert Exec(cfg, [Dispatch] + [Dispatch]) == State(Checking(key, true), 0, {key}, 0, 1, [], map[], false, false);
    ExecLast(cfg, [Dispatch] + [Dispatch], Dispatch);
  }

  lemma {:induction false} CallAnswered(cfg: Config, s: State, key: string, out: Object)
    requires |cfg.rows| == 1 && s == State(AtRow, 1, {key}, 0, 1, [Worker(key, Calling)], map[], false, false)
    ensures Step(cfg, Step(cfg, Step(cfg, Step(cfg, s, Return(0, Some(out))), Release(0)), Report(0)), Dispatch) ==
            State(Finished, 1, {key}, 0, 0, [Worker(key, Done(Some(out)))], map[key := out], false, false)
  {
    var s1 := Step(cfg, s, Return(0, Some(out)));
    assert s1 == State(AtRow, 1, {key}, 0, 1, [Worker(key, Returned(Some(out)))], map[key := out], false, false);
    var s2 := Step(cfg, s1, Release(0));
    assert s2 == State(AtRow, 1, {key}, 0, 0, [Worker(key, Released(Some(out)))], map[key := out], false, false);
    var s3 := Step(cfg, s2, Report(0));
    assert s3 == State(AtRow, 1, {key}, 0, 0, [Worker(key, Done(Some(out)))], map[key := out], false, false);
  }

  lemma {:induction false} OneCallRun(cfg: Config, key: string, out: Object)
    requires |cfg.rows| == 1 && Judge(cfg, cfg.rows[0]) == Keyed(key)
    ensures Exec(cfg, OneCall(out)) ==
            State(Finished, 1, {key}, 0, 0, [Worker(key, Done(Some(out)))], map[key := out], false, false)
  {
    var spawned := [Dispatch] + [Dispatch] + [Dispatch];
    CallSpawned(cfg, key);
    CallAnswered(cfg, Exec(cfg, spawned), key, out);
    ExecLast(cfg, spawned, Return(0, Some(out)));
    ExecLast(cfg, spawned + [Return(0, Some(out))], Release(0));
    ExecLast(cfg, spawned + [Return(0, Some(out))] + [Release(0)], Report(0));
    ExecLast(cfg, spawned + [Return(0, Some(out))] + [Release(0)] + [Report(0)], Dispatch);
    assert spawned + [Return(0, Some(out))] + [Release(0)] + [Report(0)] + [Dispatch] == OneCall(out);
  }

  // ---------------------------------------------------------------------------------------------
  // The same of the rows themselves
  // ---------------------------------------------------------------------------------------------

  /** The row is an object and the predicate says yes or no of it. */
  predicate Readable(cfg: Config, row: Json) {
    row.Obj? && cfg.passes(row.fields).Some?
  }

  /** The row passes, and has this text under the key field. */
  predicate PassesWith(cfg: Config, row: Json, key: string) {
    Readable(cfg, row) && cfg.passes(row.fields) == Some(true) && cfg.keyName in row.fields && row.fields[cfg.keyName] == Str(key)
  }

  function TurnedDown(cfg: Config, rows: seq<Json>): nat {
    if rows == [] then 0
    else
      var n := |rows| - 1;
      TurnedDown(cfg, rows[..n]) + if Readable(cfg, rows[n]) && cfg.passes(rows[n].fields) == Some(false) then 1 else 0
  }

  lemma {:induction false} JudgedByRow(cfg: Config, row: Json, key: string)
    ensures Judge(cfg, row) == Keyed(key) <==> PassesWith(cfg, row, key)
    ensures Judge(cfg, row).Skip? <==> Readable(cfg, row) && cfg.passes(row.fields) == Some(false)
    ensures !Judge(cfg, row).Bad? ==> Readable(cfg, row) && (Judge(cfg, row).Skip? || PassesWith(cfg, row, Judge(cfg, row).key))
  {
  }

  lemma {:induction false} SkipsByRow(cfg: Config, n: nat)
    requires n <= |cfg.rows|
    ensures Skips(cfg, n) == TurnedDown(cfg, cfg.rows[..n])
  {
    if n > 0 {
      SkipsByRow(cfg, n - 1);
      JudgedByRow(cfg, cfg.rows[n - 1], "");
      assert cfg.rows[..n][..n - 1] == cfg.rows[..n - 1];
    }
  }

  /** A fan-out that reports success to a caller still there has found every row readable, with text under the key
      field wherever it passes, no text twice; it has one answer for each such text, and counts the others. */
  lemma {:induction false} SuccessByRow(cfg: Config, labels: seq<Label>)
    requires Succeeded(Exec(cfg, labels)) && !Exec(cfg, labels).callerGone
    ensures var s := Exec(cfg, labels);
            && (forall row | row in cfg.rows ::
                  Readable(cfg, row) && (cfg.passes(row.fields) == Some(true) ==> exists key | key in s.byKey :: PassesWith(cfg, row, key)))
            && (forall key :: key in s.byKey <==> exists row | row in cfg.rows :: PassesWith(cfg, row, key))
            && (forall i, j, key | 0 <= i < j < |cfg.rows| && PassesWith(cfg, cfg.rows[i], key) :: !PassesWith(cfg, cfg.rows[j], key))
            && s.skipped == TurnedDown(cfg, cfg.rows) && |s.byKey| + s.skipped == |cfg.rows|
  {
    var s := Exec(cfg, labels);
    SuccessPartitions(cfg, labels);
    SkipsByRow(cfg, |cfg.rows|);
    assert cfg.rows[..|cfg.rows|] == cfg.rows;
    PartitionByRow(cfg, s);
  }

  lemma {:induction false} PartitionByRow(cfg: Config, s: State)
    requires Partition(cfg, s)
    ensures forall row | row in cfg.rows ::
              Readable(cfg, row) && (cfg.passes(row.fields) == Some(true) ==> exists key | key in s.byKey :: PassesWith(cfg, row, key))
    ensures forall key :: key in s.byKey <==> exists row | row in cfg.rows :: PassesWith(cfg, row, key)
    ensures forall i, j, key | 0 <= i < j < |cfg.rows| && PassesWith(cfg, cfg.rows[i], key) :: !PassesWith(cfg, cfg.rows[j], key)
  {
    forall row | row in cfg.rows
      ensures Readable(cfg, row) && (cfg.passes(row.fields) == Some(true) ==> exists key | key in s.byKey :: PassesWith(cfg, row, key))
    {
      var i :| 0 <= i < |cfg.rows| && cfg.rows[i] == row;
      JudgedByRow(cfg, row, "");
      if Judge(cfg, row).Keyed? { assert Judge(cfg, cfg.rows[i]) == Keyed(Judge(cfg, row).key); }
    }
    forall key
      ensures key in s.byKey <==> exists row | row in cfg.rows :: PassesWith(cfg, row, key)
    {
      KeyByRow(cfg, s, key);
    }
    forall i, j, key | 0 <= i < j < |cfg.rows| && PassesWith(cfg, cfg.rows[i], key)
      ensures !PassesWith(cfg, cfg.rows[j], key)
    {
      JudgedByRow(cfg, cfg.rows[i], key);
      JudgedByRow(cfg, cfg.rows[j], key);
    }
  }

  lemma {:induction false} KeyByRow(cfg: Config, s: State, key: string)
    requires Partition(cfg, s)
    ensures key in s.byKey <==> exists row | row in cfg.rows :: PassesWith(cfg, row, key)
  {
    if key in s.byKey {
      var i :| 0 <= i < |cfg.rows| && Judge(cfg, cfg.rows[i]) == Keyed(key);
      JudgedByRow(cfg, cfg.rows[i], key);
      assert cfg.rows[i] in cfg.rows;
    }
    if row :| row in cfg.rows && PassesWith(cfg, row, key) {
      var i :| 0 <= i < |cfg.rows| && cfg.rows[i] == row;
      JudgedByRow(cfg, row, key);
    }
  }
}
