/** What every run of the token exchanger promises its callers. */
module ExchangeSafety {
  import opened Options
  import opened DedupKey
  import opened Exchange
  import Breaker
  import Gate
  import RetryAfter

  // ---------------------------------------------------------------------------------------------
  // Collapsing
  // ---------------------------------------------------------------------------------------------

  /** In every run at most one exchange per key is in flight; each has made at most one provider call;
      and of the callers sharing it exactly one, its winner, ran it. */
  lemma {:induction false} OneExchangePerKey(cfg: Config, gate: int, now: int, labels: seq<Label>)
    ensures var s := Exec(cfg, Idle(gate, now), labels);
            && (forall f, g | 0 <= f < |s.flights| && 0 <= g < |s.flights| && s.flights[f].key == s.flights[g].key
                              && !s.flights[f].phase.Landed? && !s.flights[g].phase.Landed? :: f == g)
            && (forall f | 0 <= f < |s.flights| ::
                  && s.flights[f].calls <= 1
                  && s.flights[f].winner < |s.callers|
                  && forall i | 0 <= i < |s.callers| && s.callers[i].joined == Some(f) ::
                       s.callers[i].ran <==> i == s.flights[f].winner)
  {
    var s := Exec(cfg, Idle(gate, now), labels);
    RunSound(cfg, gate, now, labels);
    forall f | 0 <= f < |s.flights|
      ensures s.flights[f].calls <= 1
    {
      assert FlightOk(cfg, s.flights[f]);
    }
  }

  /** Whoever takes a result takes the one result of the exchange it joined. */
  lemma {:induction false} ResultsShared(cfg: Config, gate: int, now: int, labels: seq<Label>, i: nat, j: nat)
    requires var s := Exec(cfg, Idle(gate, now), labels);
             && i < |s.callers| && j < |s.callers|
             && s.callers[i].joined.Some? && s.callers[i].joined == s.callers[j].joined
             && s.callers[i].pc.Returned? && s.callers[j].pc.Returned?
             && s.callers[i].pc.outcome != Abandoned && s.callers[j].pc.outcome != Abandoned
    ensures var s := Exec(cfg, Idle(gate, now), labels);
            s.callers[i].pc.outcome == s.callers[j].pc.outcome
  {
    var s := Exec(cfg, Idle(gate, now), labels);
    RunSound(cfg, gate, now, labels);
    assert CallerOk(s.callers[i], s.flights) && CallerOk(s.callers[j], s.flights);
  }

  /** The breaker hears exactly once of every exchange that reached the provider, after it is over, and
      what it hears is the classified result; it hears nothing of any other exchange. */
  lemma {:induction false} OneVerdict(cfg: Config, gate: int, now: int, labels: seq<Label>, f: nat)
    requires f < |Exec(cfg, Idle(gate, now), labels).flights|
    ensures var y := Exec(cfg, Idle(gate, now), labels).flights[f];
            && |y.verdicts| <= y.calls
            && (y.phase.Landed? ==>
                  y.verdicts == if cfg.breakerOn && y.calls == 1
                                then [if y.phase.result.Ok? then None else Some(y.phase.result.error)] else [])
  {
    RunSound(cfg, gate, now, labels);
    assert FlightOk(cfg, Exec(cfg, Idle(gate, now), labels).flights[f]);
  }

  // ---------------------------------------------------------------------------------------------
  // Whose token
  // ---------------------------------------------------------------------------------------------

  /** Every input that arrives can be read back from its key. */
  predicate CleanInputs(labels: seq<Label>) {
    forall l | l in labels && l.Arrive? :: NulFree(l.input)
  }

  predicate CleanPhase(p: Phase) {
    match p
    case Storing(t) => NulFree(t.issuedFor)
    case Leaving(r) => r.Ok? ==> NulFree(r.token.issuedFor)
    case Landed(r) => r.Ok? ==> NulFree(r.token.issuedFor)
    case _ => true
  }

  predicate CleanPc(p: Pc) {
    match p
    case Hit(t) => NulFree(t.issuedFor)
    case Returned(GotToken(t)) => NulFree(t.issuedFor)
    case _ => true
  }

  predicate CleanCaller(x: Caller) { NulFree(x.input) && CleanPc(x.pc) }

  predicate CleanFlight(y: Flight) { NulFree(y.input) && CleanPhase(y.phase) }

  ghost predicate Clean(s: State) {
    && (forall i | 0 <= i < |s.callers| :: CleanCaller(s.callers[i]))
    && (forall f | 0 <= f < |s.flights| :: CleanFlight(s.flights[f]))
    && (forall k | k in s.cache :: NulFree(s.cache[k].issuedFor))
  }

  lemma {:induction false} CleanCallerStep(s: State, x: Caller, l: Label)
    requires Clean(s) && CleanCaller(x)
    ensures CleanCaller(CallerStep(s, x, l))
  {
    if l.Take? && x.pc.Waiting? && x.pc.flight < |s.flights| {
      assert CleanFlight(s.flights[x.pc.flight]);
    }
  }

  lemma {:induction false} CleanFlightStep(cfg: Config, s: State, y: Flight, l: Label)
    requires CleanFlight(y)
    ensures CleanFlight(FlightStep(cfg, s, y, l))
  {
  }

  lemma {:induction false} CleanStep(cfg: Config, s: State, l: Label)
    requires Clean(s) && (l.Arrive? ==> NulFree(l.input))
    ensures Clean(Step(cfg, s, l))
  {
    if ByCaller(l) {
      if l.c < |s.callers| { CleanCallerStep(s, s.callers[l.c], l); }
    } else if ByFlight(l) {
      if l.f < |s.flights| {
        FlightFrame(cfg, s, l);
        CleanFlightStep(cfg, s, s.flights[l.f], l);
        assert CleanFlight(s.flights[l.f]);
      }
    } else if l.Dispatch? && l.c < |s.callers| {
      assert CleanCaller(s.callers[l.c]);
    }
  }

  lemma {:induction false} RunClean(cfg: Config, gate: int, now: int, labels: seq<Label>)
    requires CleanInputs(labels)
    ensures Clean(Exec(cfg, Idle(gate, now), labels))
  {
    if labels != [] {
      assert labels[|labels| - 1] in labels;
      RunClean(cfg, gate, now, labels[..|labels| - 1]);
      CleanStep(cfg, Exec(cfg, Idle(gate, now), labels[..|labels| - 1]), labels[|labels| - 1]);
    }
  }

  /** When subjects and aliases hold no NUL, every token a caller is given was issued for that caller's
      own subject, broker and target, and a cached token is found only under the input it was issued for. */
  lemma {:induction false} OwnToken(cfg: Config, gate: int, now: int, labels: seq<Label>)
    requires CleanInputs(labels)
    ensures var s := Exec(cfg, Idle(gate, now), labels);
            && (forall i | 0 <= i < |s.callers| && s.callers[i].pc.Returned? && s.callers[i].pc.outcome.GotToken? ::
                  s.callers[i].pc.outcome.token.issuedFor == s.callers[i].input)
            && (forall x | NulFree(x) && Key(x) in s.cache :: s.cache[Key(x)].issuedFor == x)
  {
    var s := Exec(cfg, Idle(gate, now), labels);
    RunSound(cfg, gate, now, labels);
    RunClean(cfg, gate, now, labels);
    forall i | 0 <= i < |s.callers| && s.callers[i].pc.Returned? && s.callers[i].pc.outcome.GotToken?
      ensures s.callers[i].pc.outcome.token.issuedFor == s.callers[i].input
    {
      assert CallerOk(s.callers[i], s.flights) && CleanCaller(s.callers[i]);
      KeyInjective(s.callers[i].pc.outcome.token.issuedFor, s.callers[i].input);
    }
    forall x | NulFree(x) && Key(x) in s.cache
      ensures s.cache[Key(x)].issuedFor == x
    {
      KeyInjective(s.cache[Key(x)].issuedFor, x);
    }
  }

  /** A caller asking for `b` was given a token issued for `a`. */
  predicate Served(s: State, a: Input, b: Input) {
    exists i | 0 <= i < |s.callers| ::
      s.callers[i].input == b && s.callers[i].pc.Returned? && s.callers[i].pc.outcome.GotToken?
      && s.callers[i].pc.outcome.token.issuedFor == a
  }

  predicate ServedIn(cfg: Config, now: int, labels: seq<Label>, a: Input, b: Input) {
    Served(Exec(cfg, Idle(0, now), labels), a, b)
  }

  /** One caller fetches a token for `a`; a second, asking for `b`, finds it in the cache. */
  function SharedKeyRun(a: Input, b: Input, value: string): seq<Label> {
    FetchRun(a, value) + ReuseRun(b)
  }

  function FetchRun(a: Input, value: string): seq<Label> {
    [Arrive(a), Enter(0), Lookup(0, false), Dispatch(0), CheckGate(0), Admit(0, true),
     Answer(0, Issued(value)), Store(0, true)]
  }

  function ReuseRun(b: Input): seq<Label> {
    [Arrive(b), Enter(1), Lookup(1, true), Recheck(1)]
  }

  lemma {:induction false} ExecThen(cfg: Config, s: State, before: seq<Label>, after: seq<Label>)
    ensures Exec(cfg, s, before + after) == Exec(cfg, Exec(cfg, s, before), after)
  {
    if after == [] {
      assert before + after == before;
    } else {
      var all := before + after;
      assert all[..|all| - 1] == before + after[..|after| - 1];
      ExecThen(cfg, s, before, after[..|after| - 1]);
    }
  }

  lemma {:induction false} ExecFirst(cfg: Config, s: State, labels: seq<Label>)
    requires labels != []
    ensures Exec(cfg, s, labels) == Exec(cfg, Step(cfg, s, labels[0]), labels[1..])
  {
    assert labels == [labels[0]] + labels[1..];
    ExecThen(cfg, s, [labels[0]], labels[1..]);
    assert Exec(cfg, s, [labels[0]]) == Step(cfg, s, labels[0]) by {
      assert [labels[0]][..0] == [];
    }
  }

  /** Across all runs, a token issued for `a` can reach a caller asking for `b` exactly when the two have
      the same key, so isolation between callers rests on the key encoding and on nothing else. */
  lemma {:induction false} ServedIffSameKey(cfg: Config, now: int, a: Input, b: Input)
    ensures (exists labels :: ServedIn(cfg, now, labels, a, b)) <==> Key(a) == Key(b)
  {
    forall labels | ServedIn(cfg, now, labels, a, b)
      ensures Key(a) == Key(b)
    {
      ServedUnderKey(cfg, now, labels, a, b);
    }
    if Key(a) == Key(b) {
      SharedKeyServes(cfg, now, a, b);
      var run := SharedKeyRun(a, b, "t");
      assert ServedIn(cfg, now, run, a, b);
    }
  }

  lemma {:induction false} ServedUnderKey(cfg: Config, now: int, labels: seq<Label>, a: Input, b: Input)
    requires Served(Exec(cfg, Idle(0, now), labels), a, b)
    ensures Key(a) == Key(b)
  {
    var s := Exec(cfg, Idle(0, now), labels);
    RunSound(cfg, 0, now, labels);
    var i :| 0 <= i < |s.callers| && s.callers[i].input == b && s.callers[i].pc.Returned? &&
             s.callers[i].pc.outcome.GotToken? && s.callers[i].pc.outcome.token.issuedFor == a;
    assert CallerOk(s.callers[i], s.flights);
  }

  lemma {:induction false} SharedKeyServes(cfg: Config, now: int, a: Input, b: Input)
    requires Key(a) == Key(b)
    ensures Served(Exec(cfg, Idle(0, now), SharedKeyRun(a, b, "t")), a, b)
  {
    ExecThen(cfg, Idle(0, now), FetchRun(a, "t"), ReuseRun(b));
    var s := Exec(cfg, Idle(0, now), FetchRun(a, "t"));
    FetchRunCaches(cfg, now, a);
    ReuseRunHits(cfg, s, a, b);
  }

  lemma {:induction false} FetchRunCaches(cfg: Config, now: int, a: Input)
    ensures var s := Exec(cfg, Idle(0, now), FetchRun(a, "t"));
            |s.callers| == 1 && Key(a) in s.cache && s.cache[Key(a)].issuedFor == a
  {
    var l := FetchRun(a, "t");
    assert l == l[..4] + l[4..];
    ExecThen(cfg, Idle(0, now), l[..4], l[4..]);
    Launches(cfg, now, a);
    Fetches(cfg, Exec(cfg, Idle(0, now), l[..4]), a);
  }

  lemma {:induction false} Launches(cfg: Config, now: int, a: Input)
    ensures var s := Exec(cfg, Idle(0, now), FetchRun(a, "t")[..4]);
            |s.callers| == 1 && s.flights == [Flight(Key(a), a, 0, AtGate, 0, [])] && s.gate == 0
  {
    var l := FetchRun(a, "t")[..4];
    var s0 := Idle(0, now);
    var s1 := Step(cfg, s0, l[0]);
    var s2 := Step(cfg, s1, l[1]);
    var s3 := Step(cfg, s2, l[2]);
    ExecFirst(cfg, s0, l);
    ExecFirst(cfg, s1, l[1..]);
    ExecFirst(cfg, s2, l[2..]);
    ExecFirst(cfg, s3, l[3..]);
  }

  lemma {:induction false} Fetches(cfg: Config, s: State, a: Input)
    requires |s.callers| == 1 && s.flights == [Flight(Key(a), a, 0, AtGate, 0, [])] && s.gate == 0
    ensures var t := Exec(cfg, s, FetchRun(a, "t")[4..]);
            |t.callers| == 1 && Key(a) in t.cache && t.cache[Key(a)].issuedFor == a
  {
    var l := FetchRun(a, "t")[4..];
    var s1 := Step(cfg, s, l[0]);
    var s2 := Step(cfg, s1, l[1]);
    Reaches(cfg, s, a);
    ExecFirst(cfg, s, l);
    ExecFirst(cfg, s1, l[1..]);
    ExecFirst(cfg, s2, l[2..]);
    ExecFirst(cfg, Step(cfg, s2, l[2]), l[3..]);
  }

  lemma {:induction false} Reaches(cfg: Config, s: State, a: Input)
    requires |s.callers| == 1 && s.flights == [Flight(Key(a), a, 0, AtGate, 0, [])] && s.gate == 0
    ensures var t := Step(cfg, Step(cfg, s, CheckGate(0)), Admit(0, true));
            t.flights == [Flight(Key(a), a, 0, AtProvider, 1, [])] && t.callers == s.callers
  {
  }

  lemma {:induction false} ReuseRunHits(cfg: Config, s: State, a: Input, b: Input)
    requires |s.callers| == 1 && Key(b) in s.cache && s.cache[Key(b)].issuedFor == a
    ensures Served(Exec(cfg, s, ReuseRun(b)), a, b)
  {
    var l := ReuseRun(b);
    var s1 := Step(cfg, s, l[0]);
    var s2 := Step(cfg, s1, l[1]);
    var s3 := Step(cfg, s2, l[2]);
    var s4 := Step(cfg, s3, l[3]);
    ExecFirst(cfg, s, l);
    ExecFirst(cfg, s1, l[1..]);
    ExecFirst(cfg, s2, l[2..]);
    ExecFirst(cfg, s3, l[3..]);
    assert s4.callers[1].input == b;
  }

  // ---------------------------------------------------------------------------------------------
  // Invalidation
  // ---------------------------------------------------------------------------------------------

  /** No exchange for this key stores a token in these steps. */
  predicate NoStore(cfg: Config, s: State, key: string, labels: seq<Label>) {
    labels == [] ||
    var before, l := labels[..|labels| - 1], labels[|labels| - 1];
    NoStore(cfg, s, key, before) &&
    var t := Exec(cfg, s, before);
    !(l.Store? && l.f < |t.flights| && t.flights[l.f].key == key)
  }

  lemma {:induction false} StaysOut(cfg: Config, s: State, key: string, l: Label)
    requires key !in s.cache && !(l.Store? && l.f < |s.flights| && s.flights[l.f].key == key)
    ensures key !in Step(cfg, s, l).cache
  {
    if ByFlight(l) && l.f < |s.flights| { FlightFrame(cfg, s, l); }
  }

  lemma {:induction false} OutUntilStored(cfg: Config, s: State, key: string, labels: seq<Label>)
    requires key !in s.cache && NoStore(cfg, s, key, labels)
    ensures key !in Exec(cfg, s, labels).cache
  {
    if labels != [] {
      OutUntilStored(cfg, s, key, labels[..|labels| - 1]);
      StaysOut(cfg, Exec(cfg, s, labels[..|labels| - 1]), key, labels[|labels| - 1]);
    }
  }

  /** After an invalidation, until some exchange for that key stores a token, every caller that looks the
      key up misses and goes on to an exchange; tokens under other keys are not affected. Which tokens it
      may then be given is the subject of module Freshness. */
  lemma {:induction false} InvalidateForcesExchange(cfg: Config, s: State, input: Input, labels: seq<Label>, c: nat, found: bool)
    requires var t := Exec(cfg, Step(cfg, s, Invalidate(input)), labels);
             && NoStore(cfg, Step(cfg, s, Invalidate(input)), Key(input), labels)
             && c < |t.callers| && t.callers[c].pc.Looking? && Key(t.callers[c].input) == Key(input)
    ensures var t := Exec(cfg, Step(cfg, s, Invalidate(input)), labels);
            Step(cfg, t, Lookup(c, found)).callers[c].pc == Missed
    ensures forall k | k in s.cache && k != Key(input) ::
              k in Step(cfg, s, Invalidate(input)).cache && Step(cfg, s, Invalidate(input)).cache[k] == s.cache[k]
  {
    OutUntilStored(cfg, Step(cfg, s, Invalidate(input)), Key(input), labels);
  }

  /** Nothing is stored under this key, invalidated or evicted in these steps. */
  predicate Undisturbed(cfg: Config, s: State, key: string, labels: seq<Label>) {
    labels == [] ||
    var before, l := labels[..|labels| - 1], labels[|labels| - 1];
    Undisturbed(cfg, s, key, before) &&
    var t := Exec(cfg, s, before);
    && !(l.Store? && l.f < |t.flights| && t.flights[l.f].key == key)
    && !(l.Invalidate? && Key(l.input) == key) && !(l.Evict? && l.key == key)
  }

  lemma {:induction false} StaysIn(cfg: Config, s: State, key: string, labels: seq<Label>)
    requires key in s.cache && Undisturbed(cfg, s, key, labels)
    ensures var t := Exec(cfg, s, labels); key in t.cache && t.cache[key] == s.cache[key]
  {
    if labels != [] {
      var t, l := Exec(cfg, s, labels[..|labels| - 1]), labels[|labels| - 1];
      StaysIn(cfg, s, key, labels[..|labels| - 1]);
      if ByFlight(l) && l.f < |t.flights| { FlightFrame(cfg, t, l); }
    }
  }

  /** And the other way round: a token that was stored is given to every caller of its key that looks it up
      and stays, without an exchange, until it is replaced, invalidated or evicted. */
  lemma {:induction false} StoredIsServed(cfg: Config, s: State, f: nat, labels: seq<Label>, c: nat)
    requires f < |s.flights| && s.flights[f].phase.Storing?
    requires var stored := Step(cfg, s, Store(f, true)); var t := Exec(cfg, stored, labels);
             && Undisturbed(cfg, stored, s.flights[f].key, labels)
             && c < |t.callers| && t.callers[c].pc.Looking? && !t.callers[c].gone && Key(t.callers[c].input) == s.flights[f].key
    ensures var t := Exec(cfg, Step(cfg, s, Store(f, true)), labels);
            var u := Step(cfg, Step(cfg, t, Lookup(c, true)), Recheck(c));
            && u == t.(callers := t.callers[c := t.callers[c].(pc := Returned(GotToken(s.flights[f].phase.token)))])
  {
    FlightFrame(cfg, s, Store(f, true));
    StaysIn(cfg, Step(cfg, s, Store(f, true)), s.flights[f].key, labels);
  }

  // ---------------------------------------------------------------------------------------------
  // Cancellation
  // ---------------------------------------------------------------------------------------------

  /** The caller's context has ended and it has not been given a token. */
  predicate Doomed(s: State, c: nat) {
    c < |s.callers| && s.callers[c].gone && !(s.callers[c].pc.Returned? && s.callers[c].pc.outcome.GotToken?)
  }

  lemma {:induction false} DoomedStep(cfg: Config, s: State, c: nat, l: Label)
    requires Doomed(s, c)
    ensures Doomed(Step(cfg, s, l), c)
  {
    if ByFlight(l) && l.f < |s.flights| { FlightFrame(cfg, s, l); }
  }

  /** A caller whose context ended before it was given a token never is. */
  lemma {:induction false} GoneGetsNoToken(cfg: Config, s: State, c: nat, labels: seq<Label>)
    requires Doomed(s, c)
    ensures Doomed(Exec(cfg, s, labels), c)
  {
    if labels != [] {
      GoneGetsNoToken(cfg, s, c, labels[..|labels| - 1]);
      DoomedStep(cfg, Exec(cfg, s, labels[..|labels| - 1]), c, labels[|labels| - 1]);
    }
  }

  /** Nothing this caller still has to do touches what is shared. */
  predicate Inert(x: Caller) {
    x.pc.Hit? || x.pc.Waiting? || x.pc.Returned? || (x.pc.Entering? && x.gone)
  }

  /** The two calls differ, if at all, only in the caller's own standing. */
  predicate Alike(x: Caller, y: Caller) {
    && x.input == y.input && x.joined == y.joined && x.ran == y.ran
    && (x.pc == y.pc || (Inert(x) && Inert(y)))
    && (x.pc.Entering? || y.pc.Entering? ==> x.gone == y.gone)
  }

  /** The two states agree on everything but how caller `c` itself stands. */
  ghost predicate SameBut(c: nat, s: State, t: State) {
    && |s.callers| == |t.callers| && c < |s.callers|
    && (forall i | 0 <= i < |s.callers| && i != c :: s.callers[i] == t.callers[i])
    && Alike(s.callers[c], t.callers[c])
    && s.flights == t.flights && s.inflight == t.inflight && s.cache == t.cache
    && s.gate == t.gate && s.now == t.now
  }

  lemma {:induction false} AlikeStep(s: State, t: State, x: Caller, y: Caller, l: Label)
    requires Alike(x, y) && s.flights == t.flights && s.cache == t.cache && ByCaller(l)
    requires l.Cancel? ==> !x.pc.Entering? && !y.pc.Entering?
    ensures Alike(CallerStep(s, x, l), CallerStep(t, y, l))
  {
  }

  lemma {:induction false} SameCallerStep(s: State, t: State, x: Caller, l: Label)
    requires s.flights == t.flights && s.cache == t.cache
    ensures CallerStep(s, x, l) == CallerStep(t, x, l)
  {
  }

  lemma {:induction false} SameButCaller(c: nat, cfg: Config, s: State, t: State, l: Label)
    requires SameBut(c, s, t) && ByCaller(l) && l.c < |s.callers|
    requires l == Cancel(c) ==> !s.callers[c].pc.Entering? && !t.callers[c].pc.Entering?
    ensures SameBut(c, Step(cfg, s, l), Step(cfg, t, l))
  {
    if l.c == c {
      AlikeStep(s, t, s.callers[c], t.callers[c], l);
    } else {
      SameCallerStep(s, t, s.callers[l.c], l);
    }
  }

  lemma {:induction false} SameButFlight(c: nat, cfg: Config, s: State, t: State, l: Label)
    requires SameBut(c, s, t) && ByFlight(l) && l.f < |s.flights|
    ensures SameBut(c, Step(cfg, s, l), Step(cfg, t, l))
  {
    FlightFrame(cfg, s, l);
    FlightFrame(cfg, t, l);
  }

  lemma {:induction false} SameButDispatch(c: nat, s: State, t: State, d: nat)
    requires SameBut(c, s, t) && d < |s.callers|
    ensures SameBut(c, Dispatched(s, d), Dispatched(t, d))
  {
    if s.callers[d].pc != t.callers[d].pc {
      assert Dispatched(s, d) == s && Dispatched(t, d) == t;
    }
  }

  lemma {:induction false} SameButStep(c: nat, cfg: Config, s: State, t: State, l: Label)
    requires SameBut(c, s, t)
    requires l == Cancel(c) ==> !s.callers[c].pc.Entering? && !t.callers[c].pc.Entering?
    ensures SameBut(c, Step(cfg, s, l), Step(cfg, t, l))
  {
    if ByCaller(l) {
      if l.c < |s.callers| { SameButCaller(c, cfg, s, t, l); }
    } else if ByFlight(l) {
      if l.f < |s.flights| { SameButFlight(c, cfg, s, t, l); }
    } else if l.Dispatch? {
      if l.c < |s.callers| { SameButDispatch(c, s, t, l.c); }
    }
  }

  /** Past its entry guard. */
  predicate Entered(s: State, c: nat) {
    c < |s.callers| && !s.callers[c].pc.Entering?
  }

  lemma {:induction false} EnteredStep(cfg: Config, s: State, c: nat, l: Label)
    requires Entered(s, c)
    ensures Entered(Step(cfg, s, l), c)
  {
    if ByFlight(l) && l.f < |s.flights| { FlightFrame(cfg, s, l); }
  }

  lemma {:induction false} SameButRun(c: nat, cfg: Config, s: State, t: State, labels: seq<Label>)
    requires SameBut(c, s, t) && Entered(s, c) && Entered(t, c)
    ensures SameBut(c, Exec(cfg, s, labels), Exec(cfg, t, labels))
    ensures Entered(Exec(cfg, s, labels), c) && Entered(Exec(cfg, t, labels), c)
  {
    if labels != [] {
      var before, l := labels[..|labels| - 1], labels[|labels| - 1];
      SameButRun(c, cfg, s, t, before);
      SameButStep(c, cfg, Exec(cfg, s, before), Exec(cfg, t, before), l);
      EnteredStep(cfg, Exec(cfg, s, before), c, l);
      EnteredStep(cfg, Exec(cfg, t, before), c, l);
    }
  }

  /** Cancelling a caller past its entry guard, at any point of any run, changes nothing for anyone
      else: every other call, every exchange, the cache and the gate end as they would have. */
  lemma {:induction false} CancelUnseen(cfg: Config, gate: int, now: int, before: seq<Label>, c: nat, after: seq<Label>)
    requires Entered(Exec(cfg, Idle(gate, now), before), c)
    ensures SameBut(c, Exec(cfg, Idle(gate, now), before + after),
                    Exec(cfg, Idle(gate, now), before + [Cancel(c)] + after))
  {
    var s := Exec(cfg, Idle(gate, now), before);
    var t := Step(cfg, s, Cancel(c));
    CancelAlike(cfg, s, c);
    ExecThen(cfg, Idle(gate, now), before, after);
    ExecThen(cfg, Idle(gate, now), before + [Cancel(c)], after);
    ExecThen(cfg, Idle(gate, now), before, [Cancel(c)]);
    assert [Cancel(c)][..0] == [];
    assert Exec(cfg, s, [Cancel(c)]) == t;
    SameButRun(c, cfg, s, t, after);
  }

  lemma {:induction false} CancelAlike(cfg: Config, s: State, c: nat)
    requires Entered(s, c)
    ensures SameBut(c, s, Step(cfg, s, Cancel(c))) && Entered(Step(cfg, s, Cancel(c)), c)
  {
  }

  /** A caller cancelled before its entry guard, whether or not it has noticed. */
  predicate Absent(s: State, c: nat) {
    && c < |s.callers| && s.callers[c].gone && s.callers[c].joined.None? && !s.callers[c].ran
    && (s.callers[c].pc.Entering? || s.callers[c].pc == Returned(Abandoned))
  }

  /** The steps in which caller `c` has no part. */
  predicate Others(l: Label, c: nat) {
    (ByCaller(l) || l.Dispatch?) ==> l.c != c
  }

  function Without(labels: seq<Label>, c: nat): seq<Label> {
    if labels == [] then []
    else Without(labels[..|labels| - 1], c) +
         if Others(labels[|labels| - 1], c) then [labels[|labels| - 1]] else []
  }

  lemma {:induction false} AbsentOwnStep(cfg: Config, s: State, t: State, c: nat, l: Label)
    requires SameBut(c, s, t) && Absent(s, c) && Absent(t, c) && !Others(l, c)
    ensures SameBut(c, Step(cfg, s, l), t) && Absent(Step(cfg, s, l), c)
  {
  }

  lemma {:induction false} AbsentOtherStep(cfg: Config, s: State, c: nat, l: Label)
    requires Absent(s, c) && Others(l, c)
    ensures Absent(Step(cfg, s, l), c)
  {
    if ByFlight(l) && l.f < |s.flights| { FlightFrame(cfg, s, l); }
  }

  /** A caller cancelled before its entry guard takes no further part: the run is, for everyone else,
      the run in which it never takes another step. */
  lemma {:induction false} EarlyCancelIsAbsence(cfg: Config, s: State, c: nat, labels: seq<Label>)
    requires Absent(s, c)
    ensures SameBut(c, Exec(cfg, s, labels), Exec(cfg, s, Without(labels, c)))
    ensures Absent(Exec(cfg, s, labels), c) && Absent(Exec(cfg, s, Without(labels, c)), c)
  {
    if labels != [] {
      var before, l := labels[..|labels| - 1], labels[|labels| - 1];
      EarlyCancelIsAbsence(cfg, s, c, before);
      var u, v := Exec(cfg, s, before), Exec(cfg, s, Without(before, c));
      if Others(l, c) {
        var kept := Without(labels, c);
        assert kept[..|kept| - 1] == Without(before, c);
        SameButStep(c, cfg, u, v, l);
        AbsentOtherStep(cfg, u, c, l);
        AbsentOtherStep(cfg, v, c, l);
      } else {
        assert Without(labels, c) == Without(before, c);
        AbsentOwnStep(cfg, u, v, c, l);
      }
    }
  }

  // ---------------------------------------------------------------------------------------------
  // The gate
  // ---------------------------------------------------------------------------------------------

  /** Turned away by the gate: no provider call, nothing recorded, and every joiner is told so. */
  predicate TurnedAway(s: State, f: nat) {
    && f < |s.flights|
    && s.flights[f].calls == 0 && s.flights[f].verdicts == []
    && (s.flights[f].phase == Leaving(Failed(RATE_LIMITED)) || s.flights[f].phase == Landed(Failed(RATE_LIMITED)))
  }

  lemma {:induction false} TurnedAwayStep(cfg: Config, s: State, f: nat, l: Label)
    requires TurnedAway(s, f)
    ensures TurnedAway(Step(cfg, s, l), f)
  {
    if ByFlight(l) && l.f < |s.flights| { FlightFrame(cfg, s, l); }
  }

  lemma {:induction false} StaysTurnedAway(cfg: Config, s: State, f: nat, labels: seq<Label>)
    requires TurnedAway(s, f)
    ensures TurnedAway(Exec(cfg, s, labels), f)
  {
    if labels != [] {
      StaysTurnedAway(cfg, s, f, labels[..|labels| - 1]);
      TurnedAwayStep(cfg, Exec(cfg, s, labels[..|labels| - 1]), f, labels[|labels| - 1]);
    }
  }

  /** In any run, an exchange whose gate check comes before the gate's instant never calls the provider and never
      reaches the breaker, whatever happens before or after. Module Admission says when that is. */
  lemma {:induction false} GatedMakesNoCall(cfg: Config, gate: int, now: int, before: seq<Label>, f: nat, after: seq<Label>)
    requires var s := Exec(cfg, Idle(gate, now), before);
             f < |s.flights| && s.flights[f].phase.AtGate? && 0 < s.gate && s.now < s.gate
    ensures TurnedAway(Exec(cfg, Idle(gate, now), before + [CheckGate(f)] + after), f)
  {
    var s := Exec(cfg, Idle(gate, now), before);
    RunSound(cfg, gate, now, before);
    assert FlightOk(cfg, s.flights[f]);
    var t := Step(cfg, s, CheckGate(f));
    assert TurnedAway(t, f);
    ExecThen(cfg, Idle(gate, now), before + [CheckGate(f)], after);
    ExecThen(cfg, Idle(gate, now), before, [CheckGate(f)]);
    assert [CheckGate(f)][..0] == [];
    assert Exec(cfg, s, [CheckGate(f)]) == t;
    StaysTurnedAway(cfg, t, f, after);
  }

  lemma {:induction false} GateForward(cfg: Config, s: State, l: Label)
    ensures Step(cfg, s, l).gate >= s.gate
  {
  }

  lemma {:induction false} GateRunsForward(cfg: Config, s: State, labels: seq<Label>)
    ensures Exec(cfg, s, labels).gate >= s.gate
  {
    if labels != [] {
      GateRunsForward(cfg, s, labels[..|labels| - 1]);
      GateForward(cfg, Exec(cfg, s, labels[..|labels| - 1]), labels[|labels| - 1]);
    }
  }

  /** The exchange ends in a rate limit that asks for a positive delay. */
  predicate Throttled(cfg: Config, s: State, f: nat, e: Breaker.Error, attempts: nat) {
    && f < |s.flights| && s.flights[f].phase.AtProvider?
    && Gate.Asked(Breaker.Classified(e, attempts)).Some?
    && Gate.Clamp(cfg.ceiling, Gate.Asked(Breaker.Classified(e, attempts)).value) > 0
  }

  function HonouredUntil(cfg: Config, s: State, e: Breaker.Error, attempts: nat): int
    requires Gate.Asked(Breaker.Classified(e, attempts)).Some?
  {
    s.now + Gate.Clamp(cfg.ceiling, Gate.Asked(Breaker.Classified(e, attempts)).value)
  }

  lemma {:induction false} ThrottleRaises(cfg: Config, s: State, f: nat, e: Breaker.Error, attempts: nat)
    requires Throttled(cfg, s, f, e, attempts) && 0 <= s.now
    requires HonouredUntil(cfg, s, e, attempts) <= RetryAfter.MAX_INT64
    ensures Step(cfg, s, Answer(f, Refused(e, attempts))).gate >= HonouredUntil(cfg, s, e, attempts)
  {
    var until := HonouredUntil(cfg, s, e, attempts);
    assert RetryAfter.Int64(until);
    assert RetryAfter.Wrap64(until) == until;
  }

  /** Once one exchange has been throttled, whatever happens in between, every exchange whose gate check
      comes before the honoured delay is over is turned away without a provider call. */
  lemma {:induction false} ThrottleHoldsEveryoneBack(
      cfg: Config, s: State, f: nat, e: Breaker.Error, attempts: nat, between: seq<Label>, g: nat)
    requires Throttled(cfg, s, f, e, attempts) && 0 <= s.now && Sound(cfg, s)
    requires HonouredUntil(cfg, s, e, attempts) <= RetryAfter.MAX_INT64
    requires var t := Exec(cfg, Step(cfg, s, Answer(f, Refused(e, attempts))), between);
             g < |t.flights| && t.flights[g].phase.AtGate? && t.now < HonouredUntil(cfg, s, e, attempts)
    ensures TurnedAway(Step(cfg, Exec(cfg, Step(cfg, s, Answer(f, Refused(e, attempts))), between), CheckGate(g)), g)
  {
    var after := Step(cfg, s, Answer(f, Refused(e, attempts)));
    ThrottleRaises(cfg, s, f, e, attempts);
    GateRunsForward(cfg, after, between);
    SoundStep(cfg, s, Answer(f, Refused(e, attempts)));
    SoundRun(cfg, after, between);
    TurnsAway(cfg, Exec(cfg, after, between), g);
  }

  lemma {:induction false} SoundRun(cfg: Config, s: State, labels: seq<Label>)
    requires Sound(cfg, s)
    ensures Sound(cfg, Exec(cfg, s, labels))
  {
    if labels != [] {
      SoundRun(cfg, s, labels[..|labels| - 1]);
      SoundStep(cfg, Exec(cfg, s, labels[..|labels| - 1]), labels[|labels| - 1]);
    }
  }

  lemma {:induction false} TurnsAway(cfg: Config, s: State, g: nat)
    requires Sound(cfg, s) && g < |s.flights| && s.flights[g].phase.AtGate? && Gate.Gated(s.gate, s.now)
    ensures TurnedAway(Step(cfg, s, CheckGate(g)), g)
  {
    assert FlightOk(cfg, s.flights[g]);
  }
}
