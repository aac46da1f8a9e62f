/**
 * The token exchanger as a protocol: callers, shared in-flight exchanges, a token cache and the
 * Retry-After gate, advanced one observable step at a time in any interleaving.
 */
module Exchange {
  import opened Options
  import opened DedupKey
  import Breaker
  import Gate
  import RetryAfter

  /** A broker token. `issuedFor` names the logical exchange the identity provider was asked for, and
      `exchange` the flight that asked. */
  datatype Token = Token(value: string, issuedFor: Input, exchange: nat)

  datatype Result = Ok(token: Token) | Failed(error: Breaker.Error)

  /** What one call of `Exchange` returns. */
  datatype Outcome = GotToken(token: Token) | GotError(error: Breaker.Error) | Abandoned

  datatype Pc =
    | Entering
    | Looking
    | Hit(token: Token)
    | Missed
    | Waiting(flight: nat)
    | Returned(outcome: Outcome)

  /** One call of `Exchange`. `gone`: its context has ended. `joined`: the in-flight exchange it
      dispatched or joined. `ran`: its own closure is the one that runs. */
  datatype Caller = Caller(input: Input, gone: bool, pc: Pc, joined: Option<nat>, ran: bool)

  datatype Phase =
    | AtGate
    | AtBreaker
    | AtProvider
    | Storing(token: Token)
    | Leaving(result: Result)
    | Landed(result: Result)

  /** One run of the shared closure, with the calls it made to the provider and the outcomes the breaker
      recorded for it. */
  datatype Flight = Flight(
    key: string, input: Input, winner: nat, phase: Phase, calls: nat, verdicts: seq<Breaker.Outcome>)

  datatype Config = Config(ceiling: int, breakerOn: bool)

  datatype State = State(
    callers: seq<Caller>, flights: seq<Flight>, inflight: map<string, nat>, cache: map<string, Token>,
    gate: int, now: int)

  datatype Reply = Issued(value: string) | Refused(error: Breaker.Error, attempts: nat)

  /** The choices the scheduler, the clock, the cache and the identity provider make. */
  datatype Label =
    | Arrive(input: Input)
    | Cancel(c: nat)
    | Enter(c: nat)
    | Lookup(c: nat, found: bool)
    | Recheck(c: nat)
    | Dispatch(c: nat)
    | Take(c: nat)
    | NoticeDone(c: nat)
    | CheckGate(f: nat)
    | Admit(f: nat, admitted: bool)
    | Answer(f: nat, reply: Reply)
    | Store(f: nat, kept: bool)
    | Land(f: nat)
    | Invalidate(input: Input)
    | Evict(key: string)
    | Tick(elapsed: nat)

  const RATE_LIMITED: Breaker.Error := Breaker.Exchange(Breaker.RateLimitedByGate, 0, Breaker.NoClass, None)
  const CIRCUIT_OPEN: Breaker.Error := Breaker.Exchange(Breaker.CircuitOpen, 0, Breaker.NoClass, None)

  function Delivered(r: Result): Outcome {
    match r
    case Ok(t) => GotToken(t)
    case Failed(e) => GotError(e)
  }

  /** What a caller does on its own, given the cache and the flights as they are. */
  function CallerStep(s: State, x: Caller, l: Label): Caller {
    match l
    case Cancel(_) => x.(gone := true)
    case Enter(_) =>
      if !x.pc.Entering? then x
      else if x.gone then x.(pc := Returned(Abandoned))
      else x.(pc := Looking)
    case Lookup(_, found) =>
      if !x.pc.Looking? then x
      else if found && Key(x.input) in s.cache then x.(pc := Hit(s.cache[Key(x.input)]))
      else x.(pc := Missed)
    case Recheck(_) =>
      if !x.pc.Hit? then x
      else x.(pc := Returned(if x.gone then Abandoned else GotToken(x.pc.token)))
    case Take(_) =>
      if x.pc.Waiting? && x.pc.flight < |s.flights| && s.flights[x.pc.flight].phase.Landed? then
        x.(pc := Returned(if x.gone then Abandoned else Delivered(s.flights[x.pc.flight].phase.result)))
      else x
    case NoticeDone(_) => if x.pc.Waiting? && x.gone then x.(pc := Returned(Abandoned)) else x
    case _ => x
  }

  /** `DoChan`: join the exchange in flight for this key, or start one. */
  function Dispatched(s: State, c: nat): State
    requires c < |s.callers|
  {
    var x := s.callers[c];
    var key := Key(x.input);
    if !x.pc.Missed? then s
    else if key in s.inflight then
      s.(callers := s.callers[c := x.(pc := Waiting(s.inflight[key]), joined := Some(s.inflight[key]), ran := false)])
    else
      s.(callers := s.callers[c := x.(pc := Waiting(|s.flights|), joined := Some(|s.flights|), ran := true)],
         flights := s.flights + [Flight(key, x.input, c, AtGate, 0, [])],
         inflight := s.inflight[key := |s.flights|])
  }

  /** The breaker records one outcome, after the whole protected section. */
  function Recorded(cfg: Config, y: Flight, o: Breaker.Outcome): seq<Breaker.Outcome> {
    if cfg.breakerOn then y.verdicts + [o] else y.verdicts
  }

  /** `runProtectedExchange` and `runExchangeOnce`, seen from the flight itself. */
  function FlightStep(cfg: Config, s: State, y: Flight, l: Label): Flight {
    match l
    case CheckGate(_) =>
      if !y.phase.AtGate? then y
      else if Gate.Gated(s.gate, s.now) then y.(phase := Leaving(Failed(RATE_LIMITED)))
      else if cfg.breakerOn then y.(phase := AtBreaker)
      else y.(phase := AtProvider, calls := y.calls + 1)
    case Admit(_, admitted) =>
      if !y.phase.AtBreaker? then y
      else if admitted then y.(phase := AtProvider, calls := y.calls + 1)
      else y.(phase := Leaving(Failed(CIRCUIT_OPEN)))
    case Answer(f, reply) =>
      if !y.phase.AtProvider? then y
      else (
        match reply
        case Issued(value) => y.(phase := Storing(Token(value, y.input, f)))
        case Refused(e, attempts) =>
          var classified := Breaker.Classified(e, attempts);
          y.(phase := Leaving(Failed(classified)), verdicts := Recorded(cfg, y, Some(classified))))
    case Store(_, _) =>
      if !y.phase.Storing? then y
      else y.(phase := Leaving(Ok(y.phase.token)), verdicts := Recorded(cfg, y, None))
    case Land(_) => if y.phase.Leaving? then y.(phase := Landed(y.phase.result)) else y
    case _ => y
  }

  function Max(a: int, b: int): int { if a < b then b else a }

  /** The gate after an exchange failed with `e`. The raise is one step here: module Gate shows that
      interleaved compare-and-swap loops leave exactly this maximum. */
  function RaisedGate(cfg: Config, s: State, e: Breaker.Error): int {
    match Gate.Asked(e)
    case Some(delay) =>
      var d := Gate.Clamp(cfg.ceiling, delay);
      if d <= 0 then s.gate else Max(s.gate, RetryAfter.Wrap64(s.now + d))
    case None => s.gate
  }

  /** What a flight's step does to the state it shares. */
  function Shared(cfg: Config, s: State, y: Flight, l: Label): State {
    match l
    case Answer(_, reply) =>
      if y.phase.AtProvider? && reply.Refused? then
        s.(gate := RaisedGate(cfg, s, Breaker.Classified(reply.error, reply.attempts)))
      else s
    case Store(_, kept) =>
      if y.phase.Storing? && kept then s.(cache := s.cache[y.key := y.phase.token]) else s
    case Land(_) => if y.phase.Leaving? then s.(inflight := s.inflight - {y.key}) else s
    case _ => s
  }

  /** One step of the protocol; a label that does not apply changes nothing. */
  function Step(cfg: Config, s: State, l: Label): State {
    if ByCaller(l) then
      if l.c < |s.callers| then s.(callers := s.callers[l.c := CallerStep(s, s.callers[l.c], l)]) else s
    else if ByFlight(l) then
      if l.f < |s.flights| then
        var y := s.flights[l.f];
        Shared(cfg, s, y, l).(flights := s.flights[l.f := FlightStep(cfg, s, y, l)])
      else s
    else if l.Dispatch? then
      if l.c < |s.callers| then Dispatched(s, l.c) else s
    else if l.Arrive? then s.(callers := s.callers + [Caller(l.input, false, Entering, None, false)])
    else if l.Invalidate? then s.(cache := s.cache - {Key(l.input)})
    else if l.Evict? then s.(cache := s.cache - {l.key})
    else s.(now := s.now + l.elapsed)
  }

  /** Steps of one caller alone. */
  predicate ByCaller(l: Label) {
    l.Cancel? || l.Enter? || l.Lookup? || l.Recheck? || l.Take? || l.NoticeDone?
  }

  /** Steps of one flight. */
  predicate ByFlight(l: Label) {
    l.CheckGate? || l.Admit? || l.Answer? || l.Store? || l.Land?
  }

  function Exec(cfg: Config, s: State, labels: seq<Label>): State {
    if labels == [] then s else Step(cfg, Exec(cfg, s, labels[..|labels| - 1]), labels[|labels| - 1])
  }

  function Idle(gate: int, now: int): State {
    State([], [], map[], map[], gate, now)
  }

  // ---------------------------------------------------------------------------------------------
  // The invariant
  // ---------------------------------------------------------------------------------------------

  predicate Matches(t: Token, i: Input) {
    Key(t.issuedFor) == Key(i)
  }

  /** What a caller holds belongs to its key, and what it took from a flight is that flight's result. */
  predicate CallerOk(x: Caller, flights: seq<Flight>) {
    && (x.joined.Some? ==> x.joined.value < |flights| && flights[x.joined.value].key == Key(x.input))
    && (x.joined.None? ==> !x.ran)
    && match x.pc
       case Hit(t) => x.joined.None? && Matches(t, x.input)
       case Waiting(f) => x.joined == Some(f)
       case Returned(GotToken(t)) =>
         && Matches(t, x.input)
         && (x.joined.Some? ==> flights[x.joined.value].phase == Landed(Ok(t)))
       case Returned(GotError(e)) => x.joined.Some? && flights[x.joined.value].phase == Landed(Failed(e))
       case Returned(Abandoned) => x.gone
       case _ => x.joined.None?
  }

  /** What a finished protected section reported to the breaker. */
  predicate Reported(cfg: Config, y: Flight, r: Result) {
    && y.calls <= 1
    && (r.Ok? ==> y.calls == 1 && r.token.issuedFor == y.input)
    && (y.calls == 0 ==> r == Failed(RATE_LIMITED) || r == Failed(CIRCUIT_OPEN))
    && y.verdicts ==
         if cfg.breakerOn && y.calls == 1
         then [if r.Ok? then None else Some(r.error)]
         else []
  }

  predicate FlightOk(cfg: Config, y: Flight) {
    && y.key == Key(y.input)
    && match y.phase
       case AtGate => y.calls == 0 && y.verdicts == []
       case AtBreaker => y.calls == 0 && y.verdicts == [] && cfg.breakerOn
       case AtProvider => y.calls == 1 && y.verdicts == []
       case Storing(t) => y.calls == 1 && y.verdicts == [] && t.issuedFor == y.input
       case Leaving(r) => Reported(cfg, y, r)
       case Landed(r) => Reported(cfg, y, r)
  }

  /** The in-flight table holds exactly the unfinished flights, each under its own key. */
  ghost predicate Tracked(flights: seq<Flight>, inflight: map<string, nat>) {
    && (forall k | k in inflight :: inflight[k] < |flights| && flights[inflight[k]].key == k
                                    && !flights[inflight[k]].phase.Landed?)
    && (forall f | 0 <= f < |flights| && !flights[f].phase.Landed? ::
          flights[f].key in inflight && inflight[flights[f].key] == f)
  }

  /** The winner of a flight is the one caller of it whose closure runs. */
  ghost predicate Winners(callers: seq<Caller>, flights: seq<Flight>) {
    && (forall f | 0 <= f < |flights| ::
          && flights[f].winner < |callers|
          && callers[flights[f].winner].joined == Some(f)
          && callers[flights[f].winner].ran)
    && (forall i | 0 <= i < |callers| && callers[i].ran ::
          && callers[i].joined.Some? && callers[i].joined.value < |flights|
          && flights[callers[i].joined.value].winner == i)
  }

  ghost predicate CacheOk(cache: map<string, Token>) {
    forall k | k in cache :: Key(cache[k].issuedFor) == k
  }

  ghost predicate Sound(cfg: Config, s: State) {
    && (forall i | 0 <= i < |s.callers| :: CallerOk(s.callers[i], s.flights))
    && (forall f | 0 <= f < |s.flights| :: FlightOk(cfg, s.flights[f]))
    && Tracked(s.flights, s.inflight)
    && Winners(s.callers, s.flights)
    && CacheOk(s.cache)
  }

  lemma {:induction false} CallerStepOk(s: State, x: Caller, l: Label)
    requires CallerOk(x, s.flights) && CacheOk(s.cache) && ByCaller(l)
    requires forall f | 0 <= f < |s.flights| && s.flights[f].phase.Landed? && s.flights[f].phase.result.Ok? ::
               Key(s.flights[f].phase.result.token.issuedFor) == s.flights[f].key
    ensures CallerOk(CallerStep(s, x, l), s.flights)
    ensures CallerStep(s, x, l).joined == x.joined && CallerStep(s, x, l).ran == x.ran
    ensures CallerStep(s, x, l).input == x.input
  {
  }

  lemma {:induction false} FlightStepOk(cfg: Config, s: State, y: Flight, l: Label)
    requires FlightOk(cfg, y)
    ensures FlightOk(cfg, FlightStep(cfg, s, y, l))
    ensures var z := FlightStep(cfg, s, y, l);
            && z.key == y.key && z.input == y.input && z.winner == y.winner
            && (y.phase.Landed? ==> z == y)
            && (z.phase.Landed? <==> y.phase.Landed? || (l.Land? && y.phase.Leaving?))
  {
  }

  lemma {:induction false} SoundCaller(cfg: Config, s: State, l: Label)
    requires Sound(cfg, s) && ByCaller(l)
    ensures Sound(cfg, Step(cfg, s, l))
  {
    if l.c < |s.callers| {
      forall f | 0 <= f < |s.flights| && s.flights[f].phase.Landed? && s.flights[f].phase.result.Ok?
        ensures Key(s.flights[f].phase.result.token.issuedFor) == s.flights[f].key
      {
        assert FlightOk(cfg, s.flights[f]);
      }
      CallerStepOk(s, s.callers[l.c], l);
    }
  }

  /** A step of flight `f` leaves every caller, and every other flight, as they were. */
  lemma {:induction false} CallerOkKept(x: Caller, flights: seq<Flight>, f: nat, z: Flight)
    requires CallerOk(x, flights) && f < |flights|
    requires z.key == flights[f].key && (flights[f].phase.Landed? ==> z == flights[f])
    ensures CallerOk(x, flights[f := z])
  {
  }

  lemma {:induction false} TrackedKept(flights: seq<Flight>, inflight: map<string, nat>, f: nat, z: Flight, landing: bool)
    requires Tracked(flights, inflight) && f < |flights| && z.key == flights[f].key
    requires landing <==> z.phase.Landed? && !flights[f].phase.Landed?
    requires flights[f].phase.Landed? ==> z == flights[f]
    ensures Tracked(flights[f := z], if landing then inflight - {z.key} else inflight)
  {
  }

  lemma {:induction false} WinnersKept(callers: seq<Caller>, flights: seq<Flight>, f: nat, z: Flight)
    requires Winners(callers, flights) && f < |flights| && z.winner == flights[f].winner
    ensures Winners(callers, flights[f := z])
  {
  }

  /** What a flight's step changes, part by part. */
  lemma {:induction false} FlightFrame(cfg: Config, s: State, l: Label)
    requires ByFlight(l) && l.f < |s.flights|
    ensures var t := Step(cfg, s, l); var y := s.flights[l.f];
            && t.callers == s.callers && t.now == s.now
            && t.flights == s.flights[l.f := FlightStep(cfg, s, y, l)]
            && t.inflight == (if l.Land? && y.phase.Leaving? then s.inflight - {y.key} else s.inflight)
            && t.cache == (if l.Store? && l.kept && y.phase.Storing? then s.cache[y.key := y.phase.token] else s.cache)
  {
  }

  lemma {:induction false} SoundFlight(cfg: Config, s: State, l: Label)
    requires Sound(cfg, s) && ByFlight(l) && l.f < |s.flights|
    ensures Sound(cfg, Step(cfg, s, l))
  {
    var y := s.flights[l.f];
    var z := FlightStep(cfg, s, y, l);
    FlightFrame(cfg, s, l);
    FlightStepOk(cfg, s, y, l);
    SoundFlightParts(cfg, s, Step(cfg, s, l), l.f, z, l.Land? && y.phase.Leaving?);
  }

  lemma {:induction false} SoundFlightParts(cfg: Config, s: State, t: State, f: nat, z: Flight, landing: bool)
    requires Sound(cfg, s) && f < |s.flights|
    requires t.callers == s.callers && t.flights == s.flights[f := z]
    requires t.inflight == if landing then s.inflight - {z.key} else s.inflight
    requires t.cache == s.cache ||
             (s.flights[f].phase.Storing? && t.cache == s.cache[s.flights[f].key := s.flights[f].phase.token])
    requires FlightOk(cfg, z) && z.key == s.flights[f].key && z.winner == s.flights[f].winner
    requires landing <==> z.phase.Landed? && !s.flights[f].phase.Landed?
    requires s.flights[f].phase.Landed? ==> z == s.flights[f]
    ensures Sound(cfg, t)
  {
    forall i | 0 <= i < |t.callers|
      ensures CallerOk(t.callers[i], t.flights)
    {
      CallerOkKept(s.callers[i], s.flights, f, z);
    }
    TrackedKept(s.flights, s.inflight, f, z, landing);
    WinnersKept(s.callers, s.flights, f, z);
    assert FlightOk(cfg, s.flights[f]);
    assert CacheOk(t.cache);
  }

  lemma {:induction false} CallerOkMore(x: Caller, flights: seq<Flight>, z: Flight)
    requires CallerOk(x, flights)
    ensures CallerOk(x, flights + [z])
  {
  }

  lemma {:induction false} TrackedMore(flights: seq<Flight>, inflight: map<string, nat>, z: Flight)
    requires Tracked(flights, inflight) && z.key !in inflight && z.phase.AtGate?
    ensures Tracked(flights + [z], inflight[z.key := |flights|])
  {
  }

  lemma {:induction false} WinnersMore(callers: seq<Caller>, flights: seq<Flight>, c: nat, x: Caller, z: Flight)
    requires Winners(callers, flights) && c < |callers| && !callers[c].ran && callers[c].joined.None?
    requires x.ran && x.joined == Some(|flights|) && z.winner == c
    ensures Winners(callers[c := x], flights + [z])
  {
  }

  lemma {:induction false} SoundDispatch(cfg: Config, s: State, c: nat)
    requires Sound(cfg, s) && c < |s.callers|
    ensures Sound(cfg, Dispatched(s, c))
  {
    var x := s.callers[c];
    var key := Key(x.input);
    assert CallerOk(x, s.flights);
    if x.pc.Missed? {
      if key in s.inflight {
        SoundJoin(cfg, s, c, x.(pc := Waiting(s.inflight[key]), joined := Some(s.inflight[key]), ran := false));
      } else {
        SoundLaunch(cfg, s, c, x.(pc := Waiting(|s.flights|), joined := Some(|s.flights|), ran := true),
                    Flight(key, x.input, c, AtGate, 0, []));
      }
    }
  }

  lemma {:induction false} SoundJoin(cfg: Config, s: State, c: nat, x: Caller)
    requires Sound(cfg, s) && c < |s.callers| && !s.callers[c].ran && !x.ran
    requires CallerOk(x, s.flights)
    ensures Sound(cfg, s.(callers := s.callers[c := x]))
  {
  }

  lemma {:induction false} SoundLaunch(cfg: Config, s: State, c: nat, x: Caller, z: Flight)
    requires Sound(cfg, s) && c < |s.callers| && !s.callers[c].ran && s.callers[c].joined.None?
    requires FlightOk(cfg, z) && z.phase.AtGate? && z.winner == c && z.key !in s.inflight
    requires x.ran && x.joined == Some(|s.flights|) && CallerOk(x, s.flights + [z])
    ensures Sound(cfg, s.(callers := s.callers[c := x], flights := s.flights + [z],
                          inflight := s.inflight[z.key := |s.flights|]))
  {
    forall i | 0 <= i < |s.callers| && i != c
      ensures CallerOk(s.callers[i], s.flights + [z])
    {
      CallerOkMore(s.callers[i], s.flights, z);
    }
    TrackedMore(s.flights, s.inflight, z);
    WinnersMore(s.callers, s.flights, c, x, z);
  }

  lemma {:induction false} SoundStep(cfg: Config, s: State, l: Label)
    requires Sound(cfg, s)
    ensures Sound(cfg, Step(cfg, s, l))
  {
    if ByCaller(l) {
      SoundCaller(cfg, s, l);
    } else if ByFlight(l) {
      if l.f < |s.flights| { SoundFlight(cfg, s, l); }
    } else if l.Dispatch? {
      if l.c < |s.callers| { SoundDispatch(cfg, s, l.c); }
    }
  }

  /** Every state of every run is sound. */
  lemma {:induction false} RunSound(cfg: Config, gate: int, now: int, labels: seq<Label>)
    ensures Sound(cfg, Exec(cfg, Idle(gate, now), labels))
  {
    if labels != [] {
      RunSound(cfg, gate, now, labels[..|labels| - 1]);
      SoundStep(cfg, Exec(cfg, Idle(gate, now), labels[..|labels| - 1]), labels[|labels| - 1]);
    }
  }
}
