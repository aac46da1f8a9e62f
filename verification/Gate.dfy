/** The Retry-After gate: one shared instant that concurrent exchanges push forward with compare-and-swap loops. */
module Gate {
  import opened Options
  import opened RetryAfter
  import Breaker

  const DEFAULT_CEILING: int := 60 * SECOND

  /** The ceiling in force: a non-positive setting means the shipped default. */
  function Ceiling(setting: int): (r: int)
    ensures r > 0
  {
    if setting <= 0 then DEFAULT_CEILING else setting
  }

  /** `clampRetryAfter`. */
  function Clamp(setting: int, delay: int): (r: int)
    ensures r <= delay && r <= Ceiling(setting) && (r == delay || r == Ceiling(setting))
  {
    if delay > Ceiling(setting) then Ceiling(setting) else delay
  }

  /** `gateCheck`. */
  predicate Gated(gate: int, now: int) {
    gate > 0 && now < gate
  }

  /** `raiseGateOnExhaustedRateLimit`: the delay an outcome asks for, if it asks at all. */
  function Asked(e: Breaker.Error): Option<int> {
    if e.Exchange? && e.sentinel == Breaker.RetriesExhausted && e.failure == Breaker.RateLimited
       && e.retryAfter.Some? && e.retryAfter.value.ok
    then Some(e.retryAfter.value.delay) else None
  }

  // ---------------------------------------------------------------------------------------------
  // raiseGate, one atomic access at a time
  // ---------------------------------------------------------------------------------------------

  datatype Pc = Fresh | Looping | Loaded(cur: int) | Done(raised: bool)

  /** One call of `raiseGate`: the delay the header asked for, the clamped delay it was given, the clock
      it read and the instant it wants. */
  datatype Raiser = Raiser(asked: int, delay: int, readAt: int, wants: Option<int>, pc: Pc)

  datatype State = State(now: int, gate: int, raisers: seq<Raiser>)

  datatype Label =
    | Tick(elapsed: nat)
    | Arrive(delay: int)
    | Begin(i: nat)
    | Load(i: nat)
    | CompareAndSwap(i: nat)

  /** One step; a label that does not apply changes nothing. */
  function Step(setting: int, s: State, l: Label): State {
    match l
    case Tick(elapsed) => s.(now := s.now + elapsed)
    case Arrive(delay) => s.(raisers := s.raisers + [Raiser(delay, Clamp(setting, delay), 0, None, Fresh)])
    case Begin(i) =>
      if i < |s.raisers| && s.raisers[i].pc.Fresh? then
        var r := s.raisers[i];
        s.(raisers := s.raisers[i :=
          if r.delay <= 0 then r.(readAt := s.now, pc := Done(false))
          else r.(readAt := s.now, wants := Some(Wrap64(s.now + r.delay)), pc := Looping)])
      else s
    case Load(i) =>
      if i < |s.raisers| && s.raisers[i].pc.Looping? && s.raisers[i].wants.Some? then
        var r := s.raisers[i];
        s.(raisers := s.raisers[i := r.(pc := if r.wants.value <= s.gate then Done(false) else Loaded(s.gate))])
      else s
    case CompareAndSwap(i) =>
      if i < |s.raisers| && s.raisers[i].pc.Loaded? && s.raisers[i].wants.Some? then
        var r := s.raisers[i];
        if s.gate == r.pc.cur then s.(gate := r.wants.value, raisers := s.raisers[i := r.(pc := Done(true))])
        else s.(raisers := s.raisers[i := r.(pc := Looping)])
      else s
  }

  function Exec(setting: int, s: State, labels: seq<Label>): State {
    if labels == [] then s else Step(setting, Exec(setting, s, labels[..|labels| - 1]), labels[|labels| - 1])
  }

  function Start(now: int, gate: int): State {
    State(now, gate, [])
  }

  /** What every raiser knows, and has done, at every point of a run. */
  predicate Honest(setting: int, s: State, r: Raiser) {
    && r.delay == Clamp(setting, r.asked)
    && (r.wants.Some? ==>
          && r.delay > 0 && r.readAt <= s.now
          && r.wants.value == Wrap64(r.readAt + r.delay)
          && (r.pc.Done? ==> r.wants.value <= s.gate))
    && (r.pc.Loaded? ==> r.wants.Some? && r.pc.cur <= s.gate && r.pc.cur < r.wants.value)
    && (r.pc.Looping? ==> r.wants.Some?)
    && (r.pc.Fresh? ==> r.wants.None?)
    && (r.pc.Done? && r.wants.None? ==> r.delay <= 0)
  }

  predicate WantedBy(s: State, until: int) {
    exists i | 0 <= i < |s.raisers| :: s.raisers[i].wants == Some(until) && s.raisers[i].pc == Done(true)
  }

  ghost predicate Sound(setting: int, start: int, s: State) {
    && (forall r | r in s.raisers :: Honest(setting, s, r))
    && start <= s.gate
    && (s.gate == start || WantedBy(s, s.gate))
  }

  /** Time and the gate only move forward, whoever steps. */
  lemma {:induction false} StepForward(setting: int, start: int, s: State, l: Label)
    requires Sound(setting, start, s)
    ensures Step(setting, s, l).gate >= s.gate && Step(setting, s, l).now >= s.now
  {
    match l
    case CompareAndSwap(i) => if i < |s.raisers| { assert Honest(setting, s, s.raisers[i]); }
    case _ =>
  }

  lemma {:induction false} HonestLater(setting: int, s: State, t: State, r: Raiser)
    requires Honest(setting, s, r) && s.now <= t.now && s.gate <= t.gate
    ensures Honest(setting, t, r)
  {
  }

  /** A step changes at most one raiser, or appends one. */
  lemma {:induction false} StepRaisers(setting: int, s: State, l: Label)
    ensures var t := Step(setting, s, l);
            && |s.raisers| <= |t.raisers| <= |s.raisers| + 1
            && (|t.raisers| > |s.raisers| ==> l.Arrive?)
            && (forall j | 0 <= j < |s.raisers| :: t.raisers[j] == s.raisers[j] ||
                  ((l.Begin? || l.Load? || l.CompareAndSwap?) && l.i == j && !s.raisers[j].pc.Done?))
  {
  }

  /** The one raiser a step touches is left honest. */
  lemma {:induction false} StepHonest(setting: int, start: int, s: State, l: Label, i: nat)
    requires Sound(setting, start, s)
    requires i < |Step(setting, s, l).raisers|
    ensures Honest(setting, Step(setting, s, l), Step(setting, s, l).raisers[i])
  {
    var t := Step(setting, s, l);
    StepForward(setting, start, s, l);
    if i < |s.raisers| {
      assert Honest(setting, s, s.raisers[i]);
      if t.raisers[i] == s.raisers[i] { HonestLater(setting, s, t, s.raisers[i]); }
    }
  }

  lemma {:induction false} StepSound(setting: int, start: int, s: State, l: Label)
    requires Sound(setting, start, s)
    ensures Sound(setting, start, Step(setting, s, l))
  {
    var t := Step(setting, s, l);
    forall r | r in t.raisers
      ensures Honest(setting, t, r)
    {
      var i :| 0 <= i < |t.raisers| && t.raisers[i] == r;
      StepHonest(setting, start, s, l, i);
    }
    StepForward(setting, start, s, l);
    StepWanted(setting, start, s, l);
  }

  lemma {:induction false} StepWanted(setting: int, start: int, s: State, l: Label)
    requires Sound(setting, start, s)
    ensures var t := Step(setting, s, l);
            t.gate == start || WantedBy(t, t.gate)
  {
    var t := Step(setting, s, l);
    if t.gate != s.gate {
      assert l.CompareAndSwap?;
      assert t.raisers[l.i].wants == Some(t.gate) && t.raisers[l.i].pc == Done(true);
    } else if s.gate != start {
      var i :| 0 <= i < |s.raisers| && s.raisers[i].wants == Some(s.gate) && s.raisers[i].pc == Done(true);
      StepRaisers(setting, s, l);
      assert t.raisers[i].wants == Some(t.gate) && t.raisers[i].pc == Done(true);
    }
  }

  lemma {:induction false} RunSound(setting: int, now: int, start: int, labels: seq<Label>)
    ensures Sound(setting, start, Exec(setting, Start(now, start), labels))
    ensures Exec(setting, Start(now, start), labels).now >= now
  {
    if labels != [] {
      var before := labels[..|labels| - 1];
      RunSound(setting, now, start, before);
      var s := Exec(setting, Start(now, start), before);
      StepForward(setting, start, s, labels[|labels| - 1]);
      StepSound(setting, start, s, labels[|labels| - 1]);
    }
  }

  /** The gate never decreases between any two points of any run. */
  lemma {:induction false} NeverDecreases(setting: int, now: int, start: int, labels: seq<Label>, k: nat)
    requires k <= |labels|
    ensures Exec(setting, Start(now, start), labels[..k]).gate <= Exec(setting, Start(now, start), labels).gate
    ensures Exec(setting, Start(now, start), labels[..k]).now <= Exec(setting, Start(now, start), labels).now
  {
    if k == |labels| {
      assert labels[..k] == labels;
    } else {
      var before := labels[..|labels| - 1];
      assert before[..k] == labels[..k];
      NeverDecreases(setting, now, start, before, k);
      RunSound(setting, now, start, before);
      StepForward(setting, start, Exec(setting, Start(now, start), before), labels[|labels| - 1]);
    }
  }

  /** Nobody is still inside `raiseGate`. */
  predicate Quiet(s: State) {
    forall r | r in s.raisers :: r.pc.Done?
  }

  /** `until` is the largest of `start` and every instant some raiser asked for. */
  ghost predicate Maximum(s: State, start: int, until: int) {
    && start <= until
    && (forall r | r in s.raisers && r.wants.Some? :: r.wants.value <= until)
    && (until == start || exists r | r in s.raisers :: r.wants == Some(until))
  }

  /** However the loops interleave, once they have all returned the gate is exactly the maximum of where
      it started and what they wanted, and every positive delay asked for wanted an instant. */
  lemma {:induction false} EndsAtMaximum(setting: int, now: int, start: int, labels: seq<Label>)
    requires Quiet(Exec(setting, Start(now, start), labels))
    ensures var s := Exec(setting, Start(now, start), labels);
            && Maximum(s, start, s.gate)
            && (forall r | r in s.raisers :: r.wants.Some? <==> r.asked > 0)
  {
    var s := Exec(setting, Start(now, start), labels);
    RunSound(setting, now, start, labels);
    forall r | r in s.raisers
      ensures r.wants.Some? ==> r.wants.value <= s.gate
      ensures r.wants.Some? <==> r.asked > 0
    {
      assert Honest(setting, s, r);
    }
    if s.gate != start {
      var i :| 0 <= i < |s.raisers| && s.raisers[i].wants == Some(s.gate) && s.raisers[i].pc == Done(true);
      assert s.raisers[i] in s.raisers;
    }
  }

  /** A raiser that nobody interrupts returns after one turn of its loop, and leaves the gate at the later of
      where it was and what the raiser asked for, as far as that is honoured. */
  lemma {:induction false} Undisturbed(setting: int, s: State, i: nat)
    requires i < |s.raisers| && s.raisers[i].pc.Fresh? && Honest(setting, s, s.raisers[i])
    ensures var t := Step(setting, Step(setting, Step(setting, s, Begin(i)), Load(i)), CompareAndSwap(i));
            var asked := s.raisers[i].asked;
            var most := if setting <= 0 then 60 * SECOND else setting;
            var until := Wrap64(s.now + if asked > most then most else asked);
            && t.raisers[i].pc.Done?
            && t.gate == if asked > 0 && until > s.gate then until else s.gate
  {
    var s1 := Step(setting, s, Begin(i));
    var s2 := Step(setting, s1, Load(i));
    assert s1.gate == s.gate && s2.gate == s.gate;
    if s.raisers[i].asked > 0 {
      assert s1.raisers[i].pc == Looping;
    }
  }

  /** At every point of every run, for any delays, the gate is at most one ceiling past the clock unless
      it started later, and no 64-bit instant has wrapped while the clock stays one ceiling below the end
      of representable time. */
  lemma {:induction false} WithinCeiling(setting: int, now: int, start: int, labels: seq<Label>)
    requires 0 <= now
    requires Exec(setting, Start(now, start), labels).now + Ceiling(setting) <= MAX_INT64
    ensures var s := Exec(setting, Start(now, start), labels);
            && (s.gate <= s.now + Ceiling(setting) || s.gate == start)
            && (forall r | r in s.raisers && r.wants.Some? ::
                  && r.wants.value <= r.readAt + Ceiling(setting)
                  && r.wants.value == r.readAt + if r.asked <= Ceiling(setting) then r.asked else Ceiling(setting))
  {
    var s := Exec(setting, Start(now, start), labels);
    RunSound(setting, now, start, labels);
    ReadAfterStart(setting, now, start, labels);
    forall r | r in s.raisers && r.wants.Some?
      ensures r.wants.value == r.readAt + r.delay && r.delay == Clamp(setting, r.asked)
    {
      assert Honest(setting, s, r);
      assert Int64(r.readAt + r.delay);
    }
    if s.gate != start {
      var i :| 0 <= i < |s.raisers| && s.raisers[i].wants == Some(s.gate) && s.raisers[i].pc == Done(true);
      assert Honest(setting, s, s.raisers[i]);
    }
  }

  ghost predicate ReadSince(now: int, s: State) {
    s.now >= now && forall i | 0 <= i < |s.raisers| :: s.raisers[i].wants.Some? ==> now <= s.raisers[i].readAt
  }

  lemma {:induction false} ReadSinceStep(setting: int, now: int, s: State, l: Label)
    requires ReadSince(now, s)
    ensures ReadSince(now, Step(setting, s, l))
  {
  }

  lemma {:induction false} ReadAfterStart(setting: int, now: int, start: int, labels: seq<Label>)
    ensures ReadSince(now, Exec(setting, Start(now, start), labels))
  {
    if labels != [] {
      ReadAfterStart(setting, now, start, labels[..|labels| - 1]);
      ReadSinceStep(setting, now, Exec(setting, Start(now, start), labels[..|labels| - 1]), labels[|labels| - 1]);
    }
  }
}
