/** No caller of the token exchanger is ever stuck. */
module ExchangeProgress {
  import opened Options
  import opened DedupKey
  import opened Exchange
  import opened ExchangeSafety

  /** How far an exchange is from being over, and the step that brings it closer. */
  function Left(p: Phase): nat {
    match p
    case AtGate => 5
    case AtBreaker => 4
    case AtProvider => 3
    case Storing(_) => 2
    case Leaving(_) => 1
    case Landed(_) => 0
  }

  function NextFor(p: Phase, f: nat): Label {
    match p
    case AtGate => CheckGate(f)
    case AtBreaker => Admit(f, true)
    case AtProvider => Answer(f, Issued(""))
    case Storing(_) => Store(f, true)
    case _ => Land(f)
  }

  lemma {:induction false} FlightCloser(cfg: Config, s: State, f: nat)
    requires f < |s.flights| && !s.flights[f].phase.Landed?
    ensures var t := Step(cfg, s, NextFor(s.flights[f].phase, f));
            t.callers == s.callers && |t.flights| == |s.flights| && Left(t.flights[f].phase) < Left(s.flights[f].phase)
  {
    FlightFrame(cfg, s, NextFor(s.flights[f].phase, f));
  }

  /** An exchange can always be brought to its end without anyone else. */
  lemma {:induction false} FlightEnds(cfg: Config, s: State, f: nat) returns (labels: seq<Label>)
    requires f < |s.flights|
    ensures var t := Exec(cfg, s, labels); t.callers == s.callers && f < |t.flights| && t.flights[f].phase.Landed?
    decreases Left(s.flights[f].phase)
  {
    if s.flights[f].phase.Landed? {
      labels := [];
    } else {
      var l := NextFor(s.flights[f].phase, f);
      FlightCloser(cfg, s, f);
      var rest := FlightEnds(cfg, Step(cfg, s, l), f);
      labels := [l] + rest;
      ExecFirst(cfg, s, labels);
      assert labels[1..] == rest;
    }
  }

  /** How far a caller is from waiting or having returned, and its next step. */
  function Ahead(p: Pc): nat {
    match p
    case Entering => 3
    case Looking => 2
    case Missed => 1
    case Hit(_) => 1
    case _ => 0
  }

  function NextOf(p: Pc, c: nat): Label {
    match p
    case Entering => Enter(c)
    case Looking => Lookup(c, true)
    case Missed => Dispatch(c)
    case _ => Recheck(c)
  }

  lemma {:induction false} CallerCloser(cfg: Config, s: State, c: nat)
    requires c < |s.callers| && Ahead(s.callers[c].pc) > 0
    ensures var t := Step(cfg, s, NextOf(s.callers[c].pc, c));
            |t.callers| == |s.callers| && Ahead(t.callers[c].pc) < Ahead(s.callers[c].pc)
  {
  }

  lemma {:induction false} CallerWaits(cfg: Config, s: State, c: nat) returns (labels: seq<Label>)
    requires c < |s.callers|
    ensures var t := Exec(cfg, s, labels); c < |t.callers| && (t.callers[c].pc.Waiting? || t.callers[c].pc.Returned?)
    decreases Ahead(s.callers[c].pc)
  {
    if Ahead(s.callers[c].pc) == 0 {
      labels := [];
    } else {
      var l := NextOf(s.callers[c].pc, c);
      CallerCloser(cfg, s, c);
      var rest := CallerWaits(cfg, Step(cfg, s, l), c);
      labels := [l] + rest;
      ExecFirst(cfg, s, labels);
      assert labels[1..] == rest;
    }
  }

  lemma {:induction false} Takes(cfg: Config, s: State, c: nat)
    requires c < |s.callers| && s.callers[c].pc.Waiting?
    requires s.callers[c].pc.flight < |s.flights| && s.flights[s.callers[c].pc.flight].phase.Landed?
    ensures var t := Step(cfg, s, Take(c)); c < |t.callers| && t.callers[c].pc.Returned?
  {
  }

  /** In every state of every run, every caller has a continuation in which it returns. */
  lemma {:induction false} EveryCallerCanReturn(cfg: Config, gate: int, now: int, labels: seq<Label>, c: nat)
    returns (more: seq<Label>)
    requires c < |Exec(cfg, Idle(gate, now), labels).callers|
    ensures var t := Exec(cfg, Idle(gate, now), labels + more); c < |t.callers| && t.callers[c].pc.Returned?
  {
    var s := Exec(cfg, Idle(gate, now), labels);
    more := CallerWaits(cfg, s, c);
    ExecThen(cfg, Idle(gate, now), labels, more);
    var t := Exec(cfg, s, more);
    if t.callers[c].pc.Waiting? {
      RunSound(cfg, gate, now, labels + more);
      assert CallerOk(t.callers[c], t.flights);
      var rest := FlightEnds(cfg, t, t.callers[c].pc.flight);
      Takes(cfg, Exec(cfg, t, rest), c);
      ExecThen(cfg, t, rest, [Take(c)]);
      assert [Take(c)][..0] == [];
      more := more + (rest + [Take(c)]);
      ExecThen(cfg, s, more[..|more| - |rest| - 1], rest + [Take(c)]);
      assert more[..|more| - |rest| - 1] + (rest + [Take(c)]) == more;
      ExecThen(cfg, Idle(gate, now), labels, more);
    }
  }
}
