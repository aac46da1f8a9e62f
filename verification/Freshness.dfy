/** Which tokens a caller can still be given after its key has been invalidated. */
module Freshness {
  import opened Options
  import opened DedupKey
  import opened Exchange
  import opened ExchangeSafety

  /** The token an exchange has been given, if the provider has answered with one. */
  function TokenOf(y: Flight): Option<Token> {
    match y.phase
    case Storing(t) => Some(t)
    case Leaving(Ok(t)) => Some(t)
    case Landed(Ok(t)) => Some(t)
    case _ => None
  }

  /** Every token a flight carries is its own. */
  ghost predicate Stamped(flights: seq<Flight>) {
    forall f: nat | f < |flights| && TokenOf(flights[f]).Some? :: TokenOf(flights[f]).value.exchange == f
  }

  lemma {:induction false} StampedFlight(cfg: Config, s: State, f: nat, l: Label)
    requires Stamped(s.flights) && f < |s.flights| && ByFlight(l) && l.f == f
    ensures Stamped(s.flights[f := FlightStep(cfg, s, s.flights[f], l)])
  {
    var y := s.flights[f];
    var z := FlightStep(cfg, s, y, l);
    assert TokenOf(z).Some? ==> TokenOf(z).value.exchange == f;
  }

  lemma {:induction false} StampedStep(cfg: Config, s: State, l: Label)
    requires Stamped(s.flights)
    ensures Stamped(Step(cfg, s, l).flights)
  {
    if ByFlight(l) && l.f < |s.flights| {
      FlightFrame(cfg, s, l);
      StampedFlight(cfg, s, l.f, l);
    }
  }

  lemma {:induction false} RunStamped(cfg: Config, s: State, labels: seq<Label>)
    requires Stamped(s.flights)
    ensures Stamped(Exec(cfg, s, labels).flights)
  {
    if labels != [] {
      RunStamped(cfg, s, labels[..|labels| - 1]);
      StampedStep(cfg, Exec(cfg, s, labels[..|labels| - 1]), labels[|labels| - 1]);
    }
  }

  /** The provider had answered with this token by the time the flights stood at `base`. */
  predicate Old(base: seq<Flight>, t: Token) {
    t.exchange < |base| && TokenOf(base[t.exchange]).Some?
  }

  /** The call has not begun, or has neither a cached token nor an exchange to wait for. */
  predicate Late(base: seq<Caller>, c: nat) {
    c < |base| ==> base[c].pc.Entering? || base[c].pc.Looking? || base[c].pc.Missed?
  }

  /** An exchange for this key has its token and has not handed it out yet. */
  predicate Carrying(y: Flight, key: string) {
    y.key == key && TokenOf(y).Some? && !y.phase.Landed?
  }

  ghost predicate InTransit(s: State, key: string) {
    exists f: nat | f < |s.flights| :: Carrying(s.flights[f], key)
  }

  /** The flights go on from `base`: none is lost, each keeps its key, and what has landed has landed. */
  ghost predicate Onward(base: seq<Flight>, flights: seq<Flight>) {
    && |base| <= |flights|
    && forall f: nat | f < |base| :: flights[f].key == base[f].key && (base[f].phase.Landed? ==> flights[f] == base[f])
  }

  /** What a call holds, or waits for, is not old. */
  predicate HoldsNew(base: seq<Flight>, x: Caller) {
    match x.pc
    case Hit(t) => !Old(base, t)
    case Waiting(f) => f < |base| ==> !base[f].phase.Landed?
    case Returned(GotToken(t)) => !Old(base, t)
    case _ => true
  }

  /** No late call under this key, and no cache entry for it, has an old token. */
  ghost predicate Fresh(s: State, key: string, t: State) {
    && Onward(s.flights, t.flights)
    && Stamped(t.flights)
    && (key in t.cache ==> !Old(s.flights, t.cache[key]))
    && (forall c: nat | c < |t.callers| && Late(s.callers, c) && Key(t.callers[c].input) == key :: HoldsNew(s.flights, t.callers[c]))
  }

  /** With nothing in transit at `s`, what a flight for the key carries later is new, unless it had landed. */
  lemma {:induction false} CarriesNew(s: State, key: string, flights: seq<Flight>, f: nat)
    requires !InTransit(s, key) && Onward(s.flights, flights) && Stamped(flights)
    requires f < |flights| && flights[f].key == key && TokenOf(flights[f]).Some?
    requires f < |s.flights| ==> !s.flights[f].phase.Landed?
    ensures !Old(s.flights, TokenOf(flights[f]).value)
  {
    if f < |s.flights| {
      assert !Carrying(s.flights[f], key);
    }
  }

  lemma {:induction false} NewCaller(cfg: Config, s: State, key: string, t: State, x: Caller, l: Label)
    requires !InTransit(s, key) && Fresh(s, key, t) && HoldsNew(s.flights, x) && Key(x.input) == key && ByCaller(l)
    requires CallerOk(x, t.flights)
    ensures HoldsNew(s.flights, CallerStep(t, x, l))
  {
    if l.Take? && x.pc.Waiting? && x.pc.flight < |t.flights| && TokenOf(t.flights[x.pc.flight]).Some? {
      CarriesNew(s, key, t.flights, x.pc.flight);
    }
  }

  lemma {:induction false} FreshCaller(cfg: Config, s: State, key: string, t: State, l: Label)
    requires !InTransit(s, key) && Fresh(s, key, t) && Sound(cfg, t) && ByCaller(l) && l.c < |t.callers|
    ensures Fresh(s, key, Step(cfg, t, l))
  {
    var x := t.callers[l.c];
    assert CallerOk(x, t.flights);
    assert CallerStep(t, x, l).input == x.input;
    if Late(s.callers, l.c) && Key(x.input) == key {
      NewCaller(cfg, s, key, t, x, l);
    }
  }

  lemma {:induction false} OnwardFlight(cfg: Config, base: seq<Flight>, t: State, f: nat, l: Label)
    requires Onward(base, t.flights) && f < |t.flights| && FlightOk(cfg, t.flights[f])
    ensures Onward(base, t.flights[f := FlightStep(cfg, t, t.flights[f], l)])
  {
    FlightStepOk(cfg, t, t.flights[f], l);
  }

  lemma {:induction false} FreshFlight(cfg: Config, s: State, key: string, t: State, l: Label)
    requires !InTransit(s, key) && Fresh(s, key, t) && Sound(cfg, t) && ByFlight(l) && l.f < |t.flights|
    ensures Fresh(s, key, Step(cfg, t, l))
  {
    FlightFrame(cfg, t, l);
    StampedFlight(cfg, t, l.f, l);
    OnwardFlight(cfg, s.flights, t, l.f, l);
    if t.flights[l.f].phase.Storing? && t.flights[l.f].key == key {
      CarriesNew(s, key, t.flights, l.f);
    }
  }

  lemma {:induction false} FreshDispatch(cfg: Config, s: State, key: string, t: State, c: nat)
    requires Fresh(s, key, t) && Sound(cfg, t) && c < |t.callers|
    ensures Fresh(s, key, Dispatched(t, c))
  {
    var k := Key(t.callers[c].input);
    if t.callers[c].pc.Missed? && k in t.inflight {
      assert !t.flights[t.inflight[k]].phase.Landed?;
    }
  }

  lemma {:induction false} FreshStep(cfg: Config, s: State, key: string, t: State, l: Label)
    requires !InTransit(s, key) && Fresh(s, key, t) && Sound(cfg, t)
    ensures Fresh(s, key, Step(cfg, t, l))
  {
    if ByCaller(l) {
      if l.c < |t.callers| { FreshCaller(cfg, s, key, t, l); }
    } else if ByFlight(l) {
      if l.f < |t.flights| { FreshFlight(cfg, s, key, t, l); }
    } else if l.Dispatch? {
      if l.c < |t.callers| { FreshDispatch(cfg, s, key, t, l.c); }
    }
  }

  lemma {:induction false} FreshRun(cfg: Config, s: State, key: string, t: State, labels: seq<Label>)
    requires !InTransit(s, key) && Fresh(s, key, t) && Sound(cfg, t)
    ensures Fresh(s, key, Exec(cfg, t, labels))
  {
    if labels != [] {
      FreshRun(cfg, s, key, t, labels[..|labels| - 1]);
      SoundRun(cfg, t, labels[..|labels| - 1]);
      FreshStep(cfg, s, key, Exec(cfg, t, labels[..|labels| - 1]), labels[|labels| - 1]);
    }
  }

  /** The state in which the token for `input` has just been invalidated, in a run that began with `before`. */
  function Invalidated(cfg: Config, gate: int, now: int, before: seq<Label>, input: Input): State {
    Step(cfg, Exec(cfg, Idle(gate, now), before), Invalidate(input))
  }

  /** In the run that goes on from `s` with `after`, a call under this key that was late at `s` has been
      given a token that the provider had issued before `s`. */
  ghost predicate GivenOld(cfg: Config, s: State, key: string, after: seq<Label>) {
    var t := Exec(cfg, s, after);
    exists c: nat | c < |t.callers| && Late(s.callers, c) && Key(t.callers[c].input) == key ::
      t.callers[c].pc.Returned? && t.callers[c].pc.outcome.GotToken? && Old(s.flights, t.callers[c].pc.outcome.token)
  }

  /** A new call misses; it joins exchange `f`; and that finishes. */
  function MissRun(input: Input, c: nat): seq<Label> {
    [Arrive(input), Enter(c), Lookup(c, false)]
  }

  function JoinRun(c: nat, f: nat): seq<Label> {
    [Dispatch(c), Store(f, false), Land(f), Take(c)]
  }

  lemma {:induction false} NewCallMisses(cfg: Config, s: State, input: Input)
    ensures Exec(cfg, s, MissRun(input, |s.callers|)) == s.(callers := s.callers + [Caller(input, false, Missed, None, false)])
  {
    var c := |s.callers|;
    var l := MissRun(input, c);
    var s1 := Step(cfg, s, l[0]);
    var s2 := Step(cfg, s1, l[1]);
    ExecFirst(cfg, s, l);
    ExecFirst(cfg, s1, l[1..]);
    ExecFirst(cfg, s2, l[2..]);
  }

  /** What one more step of exchange `f` leaves of it, once it has its token. */
  lemma {:induction false} Finishing(cfg: Config, s: State, f: nat)
    requires f < |s.flights| && TokenOf(s.flights[f]).Some? && !s.flights[f].phase.Landed?
    ensures var stored := Step(cfg, s, Store(f, false));
            var landed := Step(cfg, stored, Land(f));
            && landed.callers == s.callers && f < |landed.flights|
            && landed.flights[f].phase == Landed(Ok(TokenOf(s.flights[f]).value))
  {
    var stored := Step(cfg, s, Store(f, false));
    assert stored.flights[f].phase == Leaving(Ok(TokenOf(s.flights[f]).value));
  }

  lemma {:induction false} JoinRunSteps(cfg: Config, s: State, c: nat, f: nat)
    ensures Exec(cfg, s, JoinRun(c, f)) ==
            Step(cfg, Step(cfg, Step(cfg, Step(cfg, s, Dispatch(c)), Store(f, false)), Land(f)), Take(c))
  {
    var l := JoinRun(c, f);
    var s1 := Step(cfg, s, l[0]);
    var s2 := Step(cfg, s1, l[1]);
    var s3 := Step(cfg, s2, l[2]);
    ExecFirst(cfg, s, l);
    ExecFirst(cfg, s1, l[1..]);
    ExecFirst(cfg, s2, l[2..]);
    ExecFirst(cfg, s3, l[3..]);
  }

  lemma {:induction false} JoinTakes(cfg: Config, s: State, input: Input, c: nat, f: nat)
    requires f < |s.flights| && TokenOf(s.flights[f]).Some? && !s.flights[f].phase.Landed?
    requires c < |s.callers| && s.callers[c] == Caller(input, false, Missed, None, false)
    requires Key(input) in s.inflight && s.inflight[Key(input)] == f
    ensures var t := Exec(cfg, s, JoinRun(c, f));
            |t.callers| == |s.callers| && t.callers[c].input == input
            && t.callers[c].pc == Returned(GotToken(TokenOf(s.flights[f]).value))
  {
    JoinRunSteps(cfg, s, c, f);
    var s1 := Step(cfg, s, Dispatch(c));
    assert s1.flights == s.flights && s1.callers[c] == Caller(input, false, Waiting(f), Some(f), false);
    Finishing(cfg, s1, f);
  }

  lemma {:induction false} TransitGivesOld(cfg: Config, s: State, input: Input, f: nat)
    requires Sound(cfg, s) && Stamped(s.flights) && f < |s.flights| && Carrying(s.flights[f], Key(input))
    ensures GivenOld(cfg, s, Key(input), MissRun(input, |s.callers|) + JoinRun(|s.callers|, f))
  {
    var c := |s.callers|;
    ExecThen(cfg, s, MissRun(input, c), JoinRun(c, f));
    NewCallMisses(cfg, s, input);
    JoinTakes(cfg, Exec(cfg, s, MissRun(input, c)), input, c, f);
  }

  lemma {:induction false} GivesOnlyNew(cfg: Config, s: State, key: string, after: seq<Label>)
    requires Sound(cfg, s) && Stamped(s.flights) && key !in s.cache && !InTransit(s, key)
    ensures !GivenOld(cfg, s, key, after)
  {
    FreshRun(cfg, s, key, s, after);
  }

  /** After any run and an invalidation, some continuation gives a call that had not got beyond its lookup
      a token issued before the invalidation, exactly when an exchange for that key was then past its
      answer and had not finished. In every other case such a call only ever gets a newer token. */
  lemma {:induction false} OldTokenIffInTransit(cfg: Config, gate: int, now: int, before: seq<Label>, input: Input)
    ensures var s := Invalidated(cfg, gate, now, before, input);
            (exists after :: GivenOld(cfg, s, Key(input), after)) <==> InTransit(s, Key(input))
  {
    var s := Invalidated(cfg, gate, now, before, input);
    var key := Key(input);
    RunSound(cfg, gate, now, before);
    RunStamped(cfg, Idle(gate, now), before);
    SoundStep(cfg, Exec(cfg, Idle(gate, now), before), Invalidate(input));
    if f: nat :| f < |s.flights| && Carrying(s.flights[f], key) {
      TransitGivesOld(cfg, s, input, f);
    } else {
      forall after
        ensures !GivenOld(cfg, s, key, after)
      {
        GivesOnlyNew(cfg, s, key, after);
      }
    }
  }
}
