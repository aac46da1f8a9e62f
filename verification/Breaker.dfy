/** Classified exchange errors, their rewrapping when retries run out, and the circuit breaker's verdicts on them. */
module Breaker {
  import opened Options

  datatype FailureClass = NoClass | Network | Upstream5xx | RateLimited | BodyRead | Config

  datatype Sentinel =
    | Rejected | Transport | InvalidResponse | MissingSubject | RequestBuild
    | RetriesExhausted | CircuitOpen | RateLimitedByGate

  /** The parsed Retry-After header of a 429: a delay in nanoseconds, or nothing usable. */
  datatype RetryAfter = RetryAfter(delay: int, ok: bool)

  /** An error as the breaker and the rewrap see it through `errors.Is` and `errors.As`: an
      `*ExchangeError`, one of the two context errors, or anything else. */
  datatype Error =
    | Exchange(sentinel: Sentinel, httpStatus: int, failure: FailureClass, retryAfter: Option<RetryAfter>)
    | Canceled
    | DeadlineExceeded
    | Other

  function ClassOf(e: Error): FailureClass {
    if e.Exchange? then e.failure else NoClass
  }

  /** `isBreakerExcluded`: outcomes that are neither success nor failure. */
  predicate Excluded(e: Error) {
    || e.Canceled? || e.DeadlineExceeded?
    || (e.Exchange? && e.sentinel in {RequestBuild, MissingSubject})
    || ClassOf(e) in {RateLimited, Config}
  }

  /** `isBreakerFailure`. */
  predicate Failure(e: Error) {
    ClassOf(e) in {Network, Upstream5xx, BodyRead}
  }

  /** `classifyRetryOutcome`: what an error becomes once the retry loop has given up. */
  function Classified(e: Error, attempts: nat): Error {
    if attempts < 1 then e
    else if e.Exchange? && e.sentinel == Transport then
      Exchange(RetriesExhausted, e.httpStatus, e.failure, e.retryAfter)
    else if e.DeadlineExceeded? then
      Exchange(RetriesExhausted, 0, Network, None)
    else e
  }

  /** Running out of retries never changes what the breaker makes of a transport failure, nor what the
      gate reads from it; a chain deadline counts as a failure once an attempt was made and is excluded
      when none was; and nothing else is rewrapped. */
  lemma {:induction false} RewrapKeepsVerdict(e: Error, attempts: nat)
    ensures var c := Classified(e, attempts);
            && (!e.DeadlineExceeded? ==> (Excluded(c) <==> Excluded(e)) && (Failure(c) <==> Failure(e)))
            && (e.Exchange? ==> c.Exchange? && c.retryAfter == e.retryAfter && c.failure == e.failure && c.httpStatus == e.httpStatus)
            && (e.DeadlineExceeded? ==> (Failure(c) <==> attempts >= 1) && (Excluded(c) <==> attempts == 0))
            && (c != e ==> attempts >= 1 && c.Exchange? && c.sentinel == RetriesExhausted)
  {
  }

  // ---------------------------------------------------------------------------------------------
  // The consecutive-failure rule
  // ---------------------------------------------------------------------------------------------

  /** One finished exchange: a token, or an error. */
  type Outcome = Option<Error>

  datatype Verdict = Skipped | Succeeded | FailedVerdict

  /** The order in which the breaker consults its callbacks: excluded first, then success or failure. */
  function VerdictOf(o: Outcome): Verdict {
    if o.Some? && Excluded(o.value) then Skipped
    else if o.Some? && Failure(o.value) then FailedVerdict
    else Succeeded
  }

  /** Counted failures since the last counted success: what the counter is for. */
  function Streak(history: seq<Outcome>): nat {
    if history == [] then 0
    else
      var before := Streak(history[..|history| - 1]);
      match VerdictOf(history[|history| - 1])
      case Skipped => before
      case Succeeded => 0
      case FailedVerdict => before + 1
  }

  const WRAP: nat := 0x1_0000_0000

  /** The counter the breaker's callbacks keep: an unsigned 32-bit number. */
  class StreakCounter {
    var value: nat
    ghost var history: seq<Outcome>

    ghost predicate Valid()
      reads this
    {
      value == Streak(history) % WRAP
    }

    constructor ()
      ensures Valid() && history == []
    {
      value, history := 0, [];
    }

    /** Records one outcome as `afterRequest` does: an excluded one never reaches the counter. */
    method Record(o: Outcome)
      requires Valid()
      modifies this
      ensures Valid() && history == old(history) + [o]
    {
      if VerdictOf(o) == Succeeded {
        value := 0;
      } else if VerdictOf(o) == FailedVerdict {
        value := (value + 1) % WRAP;
      }
      history := history + [o];
      assert history[..|history| - 1] == old(history);
    }
  }

  /** The consecutive rule of `newReadyToTrip`; a zero threshold disables it. */
  predicate ConsecutiveTrips(counter: nat, threshold: nat) {
    threshold > 0 && counter >= threshold
  }

  datatype Settings = Settings(consecutiveThreshold: nat, minimumRequests: nat, failureRatePercent: real)

  /** `newReadyToTrip`: the consecutive rule, or the failure rate over a large enough sample. */
  predicate ReadyToTrip(cfg: Settings, counter: nat, successes: nat, failures: nat)
    requires cfg.minimumRequests >= 1
  {
    || ConsecutiveTrips(counter, cfg.consecutiveThreshold)
    || (successes + failures >= cfg.minimumRequests &&
        failures as real / (successes + failures) as real * 100.0 >= cfg.failureRatePercent)
  }

  /** With the consecutive rule off, the breaker is ready to trip exactly when the sample is large enough
      and failures make up at least the configured share of it. */
  lemma {:induction false} RateRule(cfg: Settings, counter: nat, successes: nat, failures: nat)
    requires cfg.minimumRequests >= 1 && cfg.consecutiveThreshold == 0
    ensures ReadyToTrip(cfg, counter, successes, failures) <==>
            && successes + failures >= cfg.minimumRequests
            && 100.0 * failures as real >= cfg.failureRatePercent * (successes + failures) as real
  {
    if successes + failures >= cfg.minimumRequests {
      Scaled(failures as real, (successes + failures) as real, cfg.failureRatePercent);
    }
  }

  lemma {:induction false} Scaled(f: real, n: real, percent: real)
    requires n > 0.0
    ensures f / n * 100.0 >= percent <==> 100.0 * f >= percent * n
  {
    var rate := f / n;
    assert rate * n == f;
    assert rate * 100.0 >= percent ==> rate * 100.0 * n >= percent * n;
    assert rate * 100.0 < percent ==> rate * 100.0 * n < percent * n;
    assert rate * 100.0 * n == 100.0 * f;
  }

  /** Under the rate rule and the consecutive rule alike, one more failure never closes what would have
      opened, and one more success never opens what would have stayed closed on a full sample. */
  lemma {:induction false} TripIsMonotone(cfg: Settings, counter: nat, successes: nat, failures: nat)
    requires cfg.minimumRequests >= 1 && cfg.failureRatePercent >= 0.0
    ensures ReadyToTrip(cfg, counter, successes, failures) ==> ReadyToTrip(cfg, counter + 1, successes, failures + 1)
    ensures !ReadyToTrip(cfg, counter, successes, failures) && successes + failures >= cfg.minimumRequests ==>
              !ReadyToTrip(cfg, 0, successes + 1, failures)
  {
    if successes + failures >= cfg.minimumRequests {
      RateRises(successes as real, failures as real);
      RateFalls(successes as real, failures as real);
    }
  }

  lemma {:induction false} RateRises(s: real, f: real)
    requires s >= 0.0 && f >= 0.0 && s + f > 0.0
    ensures f / (s + f) <= (f + 1.0) / (s + f + 1.0)
  {
    CrossMultiplied(f, s + f, f + 1.0, s + f + 1.0);
  }

  lemma {:induction false} RateFalls(s: real, f: real)
    requires s >= 0.0 && f >= 0.0 && s + f > 0.0
    ensures f / (s + f + 1.0) <= f / (s + f)
  {
    CrossMultiplied(f, s + f + 1.0, f, s + f);
  }

  lemma {:induction false} CrossMultiplied(a: real, b: real, c: real, d: real)
    requires b > 0.0 && d > 0.0 && a * d <= c * b
    ensures a / b <= c / d
  {
  }

  /** One exchange as the retry loop sees it: what it ended with, and how many attempts it made. */
  datatype Chain = Chain(outcome: Outcome, attempts: nat)

  function Seen(run: seq<Chain>): seq<Outcome> {
    seq(|run|, i requires 0 <= i < |run| =>
      if run[i].outcome.Some? then Some(Classified(run[i].outcome.value, run[i].attempts)) else None)
  }

  /** The same exchanges unrewrapped, a deadline that cut a started chain short standing for a network failure. */
  function Raw(run: seq<Chain>): seq<Outcome> {
    seq(|run|, i requires 0 <= i < |run| =>
      if run[i].outcome == Some(DeadlineExceeded) && run[i].attempts >= 1
      then Some(Exchange(Transport, 0, Network, None)) else run[i].outcome)
  }

  /** So over any run the streak counted on rewrapped errors is the streak of the errors themselves. */
  lemma {:induction false} RewrapKeepsStreak(run: seq<Chain>)
    ensures Streak(Seen(run)) == Streak(Raw(run))
  {
    if run != [] {
      var n := |run| - 1;
      RewrapKeepsStreak(run[..n]);
      assert Seen(run)[..n] == Seen(run[..n]);
      assert Raw(run)[..n] == Raw(run[..n]);
      if run[n].outcome.Some? {
        RewrapKeepsVerdict(run[n].outcome.value, run[n].attempts);
      }
    }
  }

  /** The history without its excluded outcomes. */
  function Counted(history: seq<Outcome>): seq<Outcome> {
    if history == [] then []
    else
      var last := history[|history| - 1];
      Counted(history[..|history| - 1]) + if VerdictOf(last) == Skipped then [] else [last]
  }

  /** Erasing excluded outcomes changes no streak, so it changes no decision of the consecutive rule. */
  lemma {:induction false} ErasingExcluded(history: seq<Outcome>, threshold: nat)
    ensures Streak(Counted(history)) == Streak(history)
    ensures ConsecutiveTrips(Streak(Counted(history)) % WRAP, threshold) <==> ConsecutiveTrips(Streak(history) % WRAP, threshold)
  {
    if history != [] {
      var before, last := history[..|history| - 1], history[|history| - 1];
      ErasingExcluded(before, threshold);
      if VerdictOf(last) == Skipped {
        assert Counted(history) == Counted(before);
      } else {
        var c := Counted(before) + [last];
        assert c[..|c| - 1] == Counted(before);
      }
    }
  }

  /** From `k` on the history holds no counted success, and `k` is where that begins. */
  predicate SinceSuccess(history: seq<Outcome>, k: nat) {
    && k <= |history|
    && (k == 0 || VerdictOf(history[k - 1]) == Succeeded)
    && forall i | k <= i < |history| :: VerdictOf(history[i]) != Succeeded
  }

  /** The streak is the number of counted failures since the last counted success. */
  lemma {:induction false} StreakMeaning(history: seq<Outcome>) returns (k: nat)
    ensures SinceSuccess(history, k) && Streak(history) == Failures(history[k..])
  {
    if history == [] {
      k := 0;
    } else {
      var before, last := history[..|history| - 1], history[|history| - 1];
      if VerdictOf(last) == Succeeded {
        k := |history|;
      } else {
        k := StreakMeaning(before);
        assert history[k..] == before[k..] + [last];
        FailuresAppend(before[k..], last);
      }
    }
  }

  /** How many counted failures a history holds. */
  function Failures(history: seq<Outcome>): nat {
    if history == [] then 0 else (if VerdictOf(history[0]) == FailedVerdict then 1 else 0) + Failures(history[1..])
  }

  lemma {:induction false} FailuresAppend(history: seq<Outcome>, o: Outcome)
    ensures Failures(history + [o]) == Failures(history) + if VerdictOf(o) == FailedVerdict then 1 else 0
  {
    if history != [] {
      FailuresAppend(history[1..], o);
      assert (history + [o])[1..] == history[1..] + [o];
    }
  }

  /** The rule trips on the true streak exactly when the 32-bit counter has not wrapped below the threshold. */
  lemma {:induction false} WrappedTrip(history: seq<Outcome>, threshold: nat)
    requires 0 < threshold < WRAP
    ensures ConsecutiveTrips(Streak(history) % WRAP, threshold) == ConsecutiveTrips(Streak(history), threshold)
       <==> Streak(history) < WRAP || Streak(history) % WRAP >= threshold
  {
  }

  function Outage(n: nat): (r: seq<Outcome>)
    ensures |r| == n
  {
    seq(n, _ => Some(Exchange(Transport, 0, Network, None)))
  }

  lemma {:induction false} OutageStreak(n: nat)
    ensures Streak(Outage(n)) == n
  {
    if n > 0 {
      OutageStreak(n - 1);
      assert Outage(n)[..n - 1] == Outage(n - 1);
    }
  }

  /** It can wrap: after 2^32 failures in a row the counter reads zero and the rule is silent. */
  lemma {:induction false} CounterWraps(threshold: nat)
    ensures Streak(Outage(WRAP)) == WRAP && !ConsecutiveTrips(Streak(Outage(WRAP)) % WRAP, threshold)
  {
    OutageStreak(WRAP);
  }

  // ---------------------------------------------------------------------------------------------
  // What counts, by kind of error
  // ---------------------------------------------------------------------------------------------

  /** The failure is this server's own: no request could be built, or there was no subject. */
  predicate OwnFault(e: Error) {
    e.Exchange? && (e.sentinel == RequestBuild || e.sentinel == MissingSubject)
  }

  /** The provider is down: unreachable, failing, or breaking off its answer. */
  predicate Down(o: Outcome) {
    && o.Some? && o.value.Exchange? && !OwnFault(o.value)
    && (o.value.failure == Network || o.value.failure == Upstream5xx || o.value.failure == BodyRead)
  }

  /** The outcome says nothing about the provider: a caller that left, a deadline before any attempt, a rate
      limit, a configuration fault, or a fault of this server. */
  predicate NoSignal(o: Outcome) {
    && o.Some?
    && (|| o.value.Canceled? || o.value.DeadlineExceeded? || OwnFault(o.value)
        || (o.value.Exchange? && (o.value.failure == RateLimited || o.value.failure == Config)))
  }

  /** The provider is up: it gave a token, or an answer that is an error of another kind. */
  predicate Up(o: Outcome) {
    || o.None? || o.value.Other?
    || (o.value.Exchange? && !OwnFault(o.value) && o.value.failure == NoClass)
  }

  /** Every outcome is one of the three, and is judged accordingly. */
  lemma {:induction false} JudgedByKind(o: Outcome)
    ensures Down(o) <==> VerdictOf(o) == FailedVerdict
    ensures NoSignal(o) <==> VerdictOf(o) == Skipped
    ensures Up(o) <==> VerdictOf(o) == Succeeded
  {
  }

  function Downs(history: seq<Outcome>): nat {
    if history == [] then 0
    else Downs(history[..|history| - 1]) + if Down(history[|history| - 1]) then 1 else 0
  }

  /** Over a stretch in which the provider is never up, the streak grows by the outcomes that say it is down,
      whatever else comes between them; and one outcome that says it is up ends it. */
  lemma {:induction false} OutageGrowsStreak(before: seq<Outcome>, outage: seq<Outcome>, up: Outcome)
    requires forall o | o in outage :: Down(o) || NoSignal(o)
    requires Up(up)
    ensures Streak(before + outage) == Streak(before) + Downs(outage)
    ensures Streak(before + outage + [up]) == 0
  {
    JudgedByKind(up);
    assert (before + outage + [up])[..|before + outage|] == before + outage;
    if outage == [] {
      assert before + outage == before;
    } else {
      var n := |outage| - 1;
      assert outage[n] in outage;
      JudgedByKind(outage[n]);
      OutageGrowsStreak(before, outage[..n], up);
      assert (before + outage)[..|before| + n] == before + outage[..n];
    }
  }

  lemma {:induction false} TripsBelowWrap(n: nat, threshold: nat)
    requires n < WRAP
    ensures ConsecutiveTrips(n % WRAP, threshold) <==> 0 < threshold <= n
  {
  }

  /** So as many failures as the threshold, after any history and with any number of outcomes that say nothing in
      between, trip the consecutive rule; and after an answer, fewer do not. */
  lemma {:induction false} OutageTrips(before: seq<Outcome>, up: Outcome, outage: seq<Outcome>, threshold: nat)
    requires forall o | o in outage :: Down(o) || NoSignal(o)
    requires Up(up) && threshold > 0 && Streak(before) + Downs(outage) < WRAP
    ensures Downs(outage) >= threshold ==> ConsecutiveTrips(Streak(before + outage) % WRAP, threshold)
    ensures Downs(outage) < threshold ==> !ConsecutiveTrips(Streak(before + [up] + outage) % WRAP, threshold)
  {
    OutageGrowsStreak(before, outage, up);
    OutageGrowsStreak(before + [up], outage, up);
    OutageGrowsStreak(before, [], up);
    assert before + [] + [up] == before + [up];
    TripsBelowWrap(Streak(before + outage), threshold);
    TripsBelowWrap(Streak(before + [up] + outage), threshold);
  }
}
