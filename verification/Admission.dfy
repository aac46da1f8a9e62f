/** Which exchanges reach the identity provider: the gate, the breaker and the provider's answer, over whole runs. */
module Admission {
  import opened Options
  import opened DedupKey
  import opened Exchange
  import opened ExchangeSafety
  import Breaker
  import RetryAfter

  // ---------------------------------------------------------------------------------------------
  // An exchange that is over
  // ---------------------------------------------------------------------------------------------

  /** The flight has ended with this result, after this many provider calls and these verdicts. */
  predicate Over(s: State, f: nat, r: Result, calls: nat, verdicts: seq<Breaker.Outcome>) {
    && f < |s.flights|
    && s.flights[f].calls == calls && s.flights[f].verdicts == verdicts
    && (s.flights[f].phase == Leaving(r) || s.flights[f].phase == Landed(r))
  }

  lemma {:induction false} OverStep(cfg: Config, s: State, f: nat, r: Result, calls: nat, verdicts: seq<Breaker.Outcome>, l: Label)
    requires Over(s, f, r, calls, verdicts)
    ensures Over(Step(cfg, s, l), f, r, calls, verdicts)
  {
    if ByFlight(l) && l.f < |s.flights| { FlightFrame(cfg, s, l); }
  }

  lemma {:induction false} StaysOver(
      cfg: Config, s: State, f: nat, r: Result, calls: nat, verdicts: seq<Breaker.Outcome>, labels: seq<Label>)
    requires Over(s, f, r, calls, verdicts)
    ensures Over(Exec(cfg, s, labels), f, r, calls, verdicts)
  {
    if labels != [] {
      StaysOver(cfg, s, f, r, calls, verdicts, labels[..|labels| - 1]);
      OverStep(cfg, Exec(cfg, s, labels[..|labels| - 1]), f, r, calls, verdicts, labels[|labels| - 1]);
    }
  }

  lemma {:induction false} ExecMiddle(cfg: Config, s: State, before: seq<Label>, l: Label, after: seq<Label>)
    ensures Exec(cfg, s, before + [l] + after) == Exec(cfg, Step(cfg, Exec(cfg, s, before), l), after)
  {
    ExecThen(cfg, s, before + [l], after);
    assert (before + [l])[..|before|] == before;
  }

  /** In any run, an exchange the breaker refuses makes no provider call and records nothing, and everyone who
      shares it is told that the circuit is open, whatever happens before or after. */
  lemma {:induction false} RefusedMakesNoCall(cfg: Config, gate: int, now: int, before: seq<Label>, f: nat, after: seq<Label>)
    requires var s := Exec(cfg, Idle(gate, now), before); f < |s.flights| && s.flights[f].phase.AtBreaker?
    ensures Over(Exec(cfg, Idle(gate, now), before + [Admit(f, false)] + after), f, Failed(CIRCUIT_OPEN), 0, [])
  {
    var s := Exec(cfg, Idle(gate, now), before);
    RunSound(cfg, gate, now, before);
    assert FlightOk(cfg, s.flights[f]);
    ExecMiddle(cfg, Idle(gate, now), before, Admit(f, false), after);
    StaysOver(cfg, Step(cfg, s, Admit(f, false)), f, Failed(CIRCUIT_OPEN), 0, [], after);
  }

  /** In any run, an exchange the provider refuses ends with the classified error, and with that one only. */
  lemma {:induction false} RefusalIsResult(
      cfg: Config, gate: int, now: int, before: seq<Label>, f: nat, e: Breaker.Error, attempts: nat, after: seq<Label>)
    requires var s := Exec(cfg, Idle(gate, now), before); f < |s.flights| && s.flights[f].phase.AtProvider?
    ensures var c := Breaker.Classified(e, attempts);
            Over(Exec(cfg, Idle(gate, now), before + [Answer(f, Refused(e, attempts))] + after), f, Failed(c), 1,
                 if cfg.breakerOn then [Some(c)] else [])
  {
    var s, l, c := Exec(cfg, Idle(gate, now), before), Answer(f, Refused(e, attempts)), Breaker.Classified(e, attempts);
    RunSound(cfg, gate, now, before);
    assert FlightOk(cfg, s.flights[f]);
    ExecMiddle(cfg, Idle(gate, now), before, l, after);
    StaysOver(cfg, Step(cfg, s, l), f, Failed(c), 1, if cfg.breakerOn then [Some(c)] else [], after);
  }

  /** The flight holds this token, and will hand out no other. */
  predicate Bears(s: State, f: nat, t: Token) {
    && f < |s.flights|
    && (s.flights[f].phase == Storing(t) || s.flights[f].phase == Leaving(Ok(t)) || s.flights[f].phase == Landed(Ok(t)))
  }

  lemma {:induction false} BearsStep(cfg: Config, s: State, f: nat, t: Token, l: Label)
    requires Bears(s, f, t)
    ensures Bears(Step(cfg, s, l), f, t)
  {
    if ByFlight(l) && l.f < |s.flights| { FlightFrame(cfg, s, l); }
  }

  lemma {:induction false} StillBears(cfg: Config, s: State, f: nat, t: Token, labels: seq<Label>)
    requires Bears(s, f, t)
    ensures Bears(Exec(cfg, s, labels), f, t)
  {
    if labels != [] {
      StillBears(cfg, s, f, t, labels[..|labels| - 1]);
      BearsStep(cfg, Exec(cfg, s, labels[..|labels| - 1]), f, t, labels[|labels| - 1]);
    }
  }

  /** In any run, the token the provider issues is the one every caller that takes a result of the exchange gets. */
  lemma {:induction false} IssuedIsResult(
      cfg: Config, gate: int, now: int, before: seq<Label>, f: nat, value: string, after: seq<Label>, c: nat)
    requires var s := Exec(cfg, Idle(gate, now), before); f < |s.flights| && s.flights[f].phase.AtProvider?
    ensures var t := Exec(cfg, Idle(gate, now), before + [Answer(f, Issued(value))] + after);
            && f < |t.flights|
            && Bears(t, f, Token(value, t.flights[f].input, f))
            && (c < |t.callers| && t.callers[c].joined == Some(f) && t.callers[c].pc.Returned? && t.callers[c].pc.outcome != Abandoned
                ==> t.callers[c].pc.outcome == GotToken(Token(value, t.flights[f].input, f)))
  {
    var run := before + [Answer(f, Issued(value))] + after;
    var s, t := Exec(cfg, Idle(gate, now), before), Exec(cfg, Idle(gate, now), run);
    var token := Token(value, s.flights[f].input, f);
    ExecMiddle(cfg, Idle(gate, now), before, Answer(f, Issued(value)), after);
    StillBears(cfg, Step(cfg, s, Answer(f, Issued(value))), f, token, after);
    RunSound(cfg, gate, now, run);
    assert FlightOk(cfg, t.flights[f]);
    if c < |t.callers| { assert CallerOk(t.callers[c], t.flights); }
  }

  /** A caller that waits and whose context ends may leave at once, whatever the exchange does. */
  lemma {:induction false} WaitingMayLeave(cfg: Config, s: State, c: nat, f: nat)
    requires c < |s.callers| && s.callers[c].pc == Waiting(f)
    ensures var t := Step(cfg, Step(cfg, s, Cancel(c)), NoticeDone(c));
            t.callers[c].pc == Returned(Abandoned) && t.flights == s.flights && t.inflight == s.inflight && t.cache == s.cache
  {
    var s1 := Step(cfg, s, Cancel(c));
    assert s1.callers[c].gone && s1.callers[c].pc == Waiting(f);
  }

  // ---------------------------------------------------------------------------------------------
  // How an exchange is let through or kept out
  // ---------------------------------------------------------------------------------------------

  datatype Decision = InsideGate | ByBreaker | LetThrough

  /** This step decides the fate of flight `f`, by the clock and the breaker alone. */
  predicate Decides(cfg: Config, s: State, l: Label, f: nat, d: Decision) {
    && f < |s.flights|
    && match d
       case InsideGate => l == CheckGate(f) && s.flights[f].phase.AtGate? && 0 < s.gate && s.now < s.gate
       case ByBreaker => l == Admit(f, false) && s.flights[f].phase.AtBreaker?
       case LetThrough =>
         || (l == CheckGate(f) && s.flights[f].phase.AtGate? && !(0 < s.gate && s.now < s.gate) && !cfg.breakerOn)
         || (l == Admit(f, true) && s.flights[f].phase.AtBreaker?)
  }

  /** At step `k` of the run this happened. */
  ghost predicate At(cfg: Config, s: State, labels: seq<Label>, p: (State, Label) -> bool, k: nat) {
    k < |labels| && p(Exec(cfg, s, labels[..k]), labels[k])
  }

  /** At some step of the run it did. */
  ghost predicate Happened(cfg: Config, s: State, labels: seq<Label>, p: (State, Label) -> bool) {
    exists k: nat :: At(cfg, s, labels, p, k)
  }

  lemma {:induction false} AtPrefix(cfg: Config, s: State, labels: seq<Label>, p: (State, Label) -> bool, n: nat, k: nat)
    requires k < n <= |labels|
    ensures At(cfg, s, labels[..n], p, k) <==> At(cfg, s, labels, p, k)
  {
    assert labels[..n][..k] == labels[..k];
  }

  lemma {:induction false} HappenedMore(cfg: Config, s: State, labels: seq<Label>, p: (State, Label) -> bool)
    requires labels != []
    ensures var n := |labels| - 1;
            Happened(cfg, s, labels, p) <==> Happened(cfg, s, labels[..n], p) || p(Exec(cfg, s, labels[..n]), labels[n])
  {
    var n := |labels| - 1;
    if k: nat :| At(cfg, s, labels[..n], p, k) {
      AtPrefix(cfg, s, labels, p, n, k);
    }
    if k: nat :| At(cfg, s, labels, p, k) {
      if k < n { AtPrefix(cfg, s, labels, p, n, k); }
    }
    if p(Exec(cfg, s, labels[..n]), labels[n]) {
      assert At(cfg, s, labels, p, n);
    }
  }

  function Deciding(cfg: Config, f: nat, d: Decision): (State, Label) -> bool {
    (s: State, l: Label) => Decides(cfg, s, l, f, d)
  }

  ghost predicate Decided(cfg: Config, s: State, labels: seq<Label>, f: nat, d: Decision) {
    Happened(cfg, s, labels, Deciding(cfg, f, d))
  }

  /** What has been decided about a flight in this phase: `gate`, `breaker` and `through` say which decisions
      have been taken. */
  predicate Agrees(y: Flight, gate: bool, breaker: bool, through: bool) {
    match y.phase
    case AtGate => !gate && !breaker && !through
    case AtBreaker => !gate && !breaker && !through
    case AtProvider => !gate && !breaker && through
    case Storing(_) => !gate && !breaker && through
    case Leaving(r) => Settled(r, y.calls, gate, breaker, through)
    case Landed(r) => Settled(r, y.calls, gate, breaker, through)
  }

  /** Exactly one decision, and the result that goes with it. */
  predicate Settled(r: Result, calls: nat, gate: bool, breaker: bool, through: bool) {
    || (gate && !breaker && !through && calls == 0 && r == Failed(RATE_LIMITED))
    || (!gate && breaker && !through && calls == 0 && r == Failed(CIRCUIT_OPEN))
    || (!gate && !breaker && through && calls == 1)
  }

  ghost predicate Fated(cfg: Config, s: State, labels: seq<Label>, f: nat) {
    var t := Exec(cfg, s, labels);
    var gate, breaker, through := Decided(cfg, s, labels, f, InsideGate), Decided(cfg, s, labels, f, ByBreaker), Decided(cfg, s, labels, f, LetThrough);
    if f < |t.flights| then Agrees(t.flights[f], gate, breaker, through) else !gate && !breaker && !through
  }

  /** One step of the flight itself. */
  lemma {:induction false} AgreesStep(cfg: Config, s: State, f: nat, l: Label, gate: bool, breaker: bool, through: bool)
    requires f < |s.flights| && FlightOk(cfg, s.flights[f]) && Agrees(s.flights[f], gate, breaker, through)
    requires ByFlight(l) && l.f == f
    ensures Agrees(FlightStep(cfg, s, s.flights[f], l),
                   gate || Decides(cfg, s, l, f, InsideGate), breaker || Decides(cfg, s, l, f, ByBreaker),
                   through || Decides(cfg, s, l, f, LetThrough))
  {
  }

  /** Any other step leaves the flight alone. */
  lemma {:induction false} ElsewhereStep(cfg: Config, s: State, f: nat, l: Label)
    requires f < |s.flights| && !(ByFlight(l) && l.f == f)
    ensures f < |Step(cfg, s, l).flights| && Step(cfg, s, l).flights[f] == s.flights[f]
    ensures forall d :: !Decides(cfg, s, l, f, d)
  {
    if ByFlight(l) && l.f < |s.flights| { FlightFrame(cfg, s, l); }
  }

  lemma {:induction false} NewFlight(cfg: Config, s: State, f: nat, l: Label)
    requires f >= |s.flights| && f < |Step(cfg, s, l).flights|
    ensures Step(cfg, s, l).flights[f].phase.AtGate?
  {
  }

  lemma {:induction false} FatedStep(cfg: Config, s: State, f: nat, l: Label, gate: bool, breaker: bool, through: bool)
    requires Sound(cfg, s)
    requires if f < |s.flights| then Agrees(s.flights[f], gate, breaker, through) else !gate && !breaker && !through
    ensures var t := Step(cfg, s, l);
            var g, b, a := gate || Decides(cfg, s, l, f, InsideGate), breaker || Decides(cfg, s, l, f, ByBreaker),
                           through || Decides(cfg, s, l, f, LetThrough);
            if f < |t.flights| then Agrees(t.flights[f], g, b, a) else !g && !b && !a
  {
    if f >= |s.flights| {
      if f < |Step(cfg, s, l).flights| { NewFlight(cfg, s, f, l); }
    } else if ByFlight(l) && l.f == f {
      FlightFrame(cfg, s, l);
      assert FlightOk(cfg, s.flights[f]);
      AgreesStep(cfg, s, f, l, gate, breaker, through);
    } else {
      ElsewhereStep(cfg, s, f, l);
    }
  }

  lemma {:induction false} RunFated(cfg: Config, gate: int, now: int, labels: seq<Label>, f: nat)
    ensures Fated(cfg, Idle(gate, now), labels, f)
  {
    if labels != [] {
      var n, s := |labels| - 1, Idle(gate, now);
      RunFated(cfg, gate, now, labels[..n], f);
      RunSound(cfg, gate, now, labels[..n]);
      HappenedMore(cfg, s, labels, Deciding(cfg, f, InsideGate));
      HappenedMore(cfg, s, labels, Deciding(cfg, f, ByBreaker));
      HappenedMore(cfg, s, labels, Deciding(cfg, f, LetThrough));
      FatedStep(cfg, Exec(cfg, s, labels[..n]), f, labels[n], Decided(cfg, s, labels[..n], f, InsideGate),
                Decided(cfg, s, labels[..n], f, ByBreaker), Decided(cfg, s, labels[..n], f, LetThrough));
    }
  }

  /** An exchange that is over has made no provider call exactly if its gate check fell inside the gate or the
      breaker refused it; it then failed as rate limited in the first case and with an open circuit in the
      second; and it has made one call exactly if it was let through. */
  lemma {:induction false} NoCallExactly(cfg: Config, gate: int, now: int, labels: seq<Label>, f: nat, r: Result)
    requires var s := Exec(cfg, Idle(gate, now), labels);
             f < |s.flights| && (s.flights[f].phase == Leaving(r) || s.flights[f].phase == Landed(r))
    ensures var y := Exec(cfg, Idle(gate, now), labels).flights[f];
            var inside, refused := Decided(cfg, Idle(gate, now), labels, f, InsideGate), Decided(cfg, Idle(gate, now), labels, f, ByBreaker);
            && (y.calls == 0 <==> inside || refused)
            && (y.calls == 1 <==> Decided(cfg, Idle(gate, now), labels, f, LetThrough))
            && (inside ==> r == Failed(RATE_LIMITED))
            && (refused ==> r == Failed(CIRCUIT_OPEN))
  {
    RunFated(cfg, gate, now, labels, f);
  }

  // ---------------------------------------------------------------------------------------------
  // When the gate is closed, and that it opens again
  // ---------------------------------------------------------------------------------------------

  /** An exhausted rate limit with a usable, positive Retry-After: the only kind of refusal that closes the gate. */
  predicate Throttling(e: Breaker.Error, attempts: nat) {
    && e.Exchange? && e.failure == Breaker.RateLimited
    && (e.sentinel == Breaker.RetriesExhausted || (e.sentinel == Breaker.Transport && attempts >= 1))
    && e.retryAfter.Some? && e.retryAfter.value.ok && e.retryAfter.value.delay > 0
  }

  /** The most that is honoured: the configured ceiling, or a minute where none is. */
  function MostHonoured(cfg: Config): int {
    if cfg.ceiling <= 0 then 60 * RetryAfter.SECOND else cfg.ceiling
  }

  /** The delay that is honoured. */
  function Honoured(cfg: Config, e: Breaker.Error, attempts: nat): int
    requires Throttling(e, attempts)
  {
    if e.retryAfter.value.delay > MostHonoured(cfg) then MostHonoured(cfg) else e.retryAfter.value.delay
  }

  /** This step is a refusal that holds exchanges back until after `instant`. */
  predicate HoldsPast(cfg: Config, s: State, l: Label, instant: int) {
    && l.Answer? && l.f < |s.flights| && s.flights[l.f].phase.AtProvider?
    && l.reply.Refused? && Throttling(l.reply.error, l.reply.attempts)
    && instant < s.now + Honoured(cfg, l.reply.error, l.reply.attempts)
  }

  function HoldingPast(cfg: Config, instant: int): (State, Label) -> bool {
    (s: State, l: Label) => HoldsPast(cfg, s, l, instant)
  }

  lemma {:induction false} RaisedExactly(cfg: Config, s: State, e: Breaker.Error, attempts: nat)
    requires 0 <= s.now && s.now + MostHonoured(cfg) <= RetryAfter.MAX_INT64
    ensures RaisedGate(cfg, s, Breaker.Classified(e, attempts)) ==
            if Throttling(e, attempts) then Max(s.gate, s.now + Honoured(cfg, e, attempts)) else s.gate
  {
    if Throttling(e, attempts) {
      var until := s.now + Honoured(cfg, e, attempts);
      assert RetryAfter.Int64(until);
      assert RetryAfter.Wrap64(until) == until;
    }
  }

  lemma {:induction false} GatePastStep(cfg: Config, s: State, l: Label, instant: int)
    requires 0 <= s.now && s.now + MostHonoured(cfg) <= RetryAfter.MAX_INT64
    ensures Step(cfg, s, l).gate > instant <==> s.gate > instant || HoldsPast(cfg, s, l, instant)
    ensures Step(cfg, s, l).now >= s.now
  {
    if l.Answer? && l.f < |s.flights| && l.reply.Refused? {
      RaisedExactly(cfg, s, l.reply.error, l.reply.attempts);
    }
  }

  lemma {:induction false} ClockForward(cfg: Config, s: State, labels: seq<Label>)
    ensures Exec(cfg, s, labels).now >= s.now
  {
    if labels != [] { ClockForward(cfg, s, labels[..|labels| - 1]); }
  }

  /** In any run that starts with an open gate, the gate lies past an instant exactly if some refusal held
      exchanges back until after it. */
  lemma {:induction false} GatePast(cfg: Config, now: int, labels: seq<Label>, instant: int)
    requires 0 <= now && 0 <= instant && Exec(cfg, Idle(0, now), labels).now + MostHonoured(cfg) <= RetryAfter.MAX_INT64
    ensures Exec(cfg, Idle(0, now), labels).gate > instant <==> Happened(cfg, Idle(0, now), labels, HoldingPast(cfg, instant))
  {
    if labels != [] {
      var n := |labels| - 1;
      var s := Exec(cfg, Idle(0, now), labels[..n]);
      ClockForward(cfg, Idle(0, now), labels[..n]);
      StepForward(cfg, s, labels[n]);
      GatePast(cfg, now, labels[..n], instant);
      GatePastStep(cfg, s, labels[n], instant);
      HappenedMore(cfg, Idle(0, now), labels, HoldingPast(cfg, instant));
    }
  }

  lemma {:induction false} StepForward(cfg: Config, s: State, l: Label)
    ensures Step(cfg, s, l).now >= s.now
  {
  }

  /** In any run that starts with an open gate, an exchange at the gate is turned away exactly if some earlier
      refusal holds exchanges back until after this instant; otherwise it goes on to the breaker, or to the
      provider where there is none. So once the clock has reached the last honoured instant, no exchange is
      turned away. */
  lemma {:induction false} TurnedAwayExactly(cfg: Config, now: int, labels: seq<Label>, f: nat)
    requires 0 <= now && Exec(cfg, Idle(0, now), labels).now + MostHonoured(cfg) <= RetryAfter.MAX_INT64
    requires f < |Exec(cfg, Idle(0, now), labels).flights| && Exec(cfg, Idle(0, now), labels).flights[f].phase.AtGate?
    ensures var s := Exec(cfg, Idle(0, now), labels);
            var y := Step(cfg, s, CheckGate(f)).flights[f];
            if Happened(cfg, Idle(0, now), labels, HoldingPast(cfg, s.now)) then y.phase == Leaving(Failed(RATE_LIMITED)) && y.calls == 0
            else if cfg.breakerOn then y.phase == AtBreaker && y.calls == 0
            else y.phase == AtProvider && y.calls == 1
  {
    var s := Exec(cfg, Idle(0, now), labels);
    ClockForward(cfg, Idle(0, now), labels);
    GatePast(cfg, now, labels, s.now);
    RunSound(cfg, 0, now, labels);
    assert FlightOk(cfg, s.flights[f]);
  }
}
