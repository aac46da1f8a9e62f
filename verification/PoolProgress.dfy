/** No call of the client pool is ever stuck behind its lock. */
module PoolProgress {
  import opened Options
  import opened Pool

  /** A run that goes on from any state. */
  function RunFrom(lower: char -> char, known: set<string>, s: State, labels: seq<Label>): State
    decreases |labels|
  {
    if labels == [] then s else RunFrom(lower, known, Step(lower, known, s, labels[0]), labels[1..])
  }

  lemma {:induction false} RunThen(lower: char -> char, known: set<string>, s: State, a: seq<Label>, b: seq<Label>)
    ensures RunFrom(lower, known, s, a + b) == RunFrom(lower, known, RunFrom(lower, known, s, a), b)
    decreases |a|
  {
    if a == [] {
      assert a + b == b;
    } else {
      assert (a + b)[1..] == a[1..] + b;
      RunThen(lower, known, Step(lower, known, s, a[0]), a[1..], b);
    }
  }

  lemma {:induction false} SoundFrom(lower: char -> char, known: set<string>, s: State, labels: seq<Label>)
    requires Sound(known, s)
    ensures Sound(known, RunFrom(lower, known, s, labels))
    decreases |labels|
  {
    if labels != [] {
      SoundStep(lower, known, s, labels[0]);
      SoundFrom(lower, known, Step(lower, known, s, labels[0]), labels[1..]);
    }
  }

  lemma {:induction false} RunFirst(lower: char -> char, known: set<string>, s: State, l: Label, rest: seq<Label>)
    ensures RunFrom(lower, known, s, [l] + rest) == RunFrom(lower, known, Step(lower, known, s, l), rest)
  {
    assert ([l] + rest)[1..] == rest;
  }

  /** Nobody holds the lock. */
  predicate Free(s: State) {
    s.writer.None? && s.readers == {}
  }

  /** The other calls, and what call `i` asks for, are the same as before. */
  predicate Untouched(s: State, t: State, i: nat) {
    |t.callers| == |s.callers| && forall j | 0 <= j < |s.callers| && j != i :: t.callers[j] == s.callers[j]
  }

  /** How far a call is from leaving the lock it holds. */
  function Distance(pc: Pc): nat {
    match pc
    case Reading => 2
    case ReadDone(_) => 1
    case Writing => 4
    case Creating => 3
    case Storing(_) => 2
    case WriteDone(_) => 1
    case _ => 0
  }

  /** The step that brings it closer. */
  function Next(pc: Pc, i: nat): Label {
    match pc
    case Reading => ReadCheck(i)
    case Writing => WriteCheck(i)
    case Creating => Create(i, true)
    case Storing(_) => Put(i)
    case WriteDone(_) => Unlock(i)
    case _ => RUnlock(i)
  }

  /** It is closer, or it has left the lock and has returned or waits for the write lock. */
  predicate Closer(s: State, t: State, i: nat)
    requires i < |s.callers|
  {
    && Untouched(s, t, i) && t.callers[i].key == s.callers[i].key
    && (if Distance(s.callers[i].pc) == 1
        then t.writer == (if s.writer == Some(i) then None else s.writer) && t.readers == s.readers - {i}
             && (t.callers[i].pc.Returned? || (t.callers[i].pc.Slow? && Reads(s.callers[i].pc)))
        else t.writer == s.writer && t.readers == s.readers && (Reads(t.callers[i].pc) ==> Reads(s.callers[i].pc))
             && 0 < Distance(t.callers[i].pc) < Distance(s.callers[i].pc))
  }

  lemma {:induction false} NextCloser(lower: char -> char, known: set<string>, s: State, i: nat)
    requires Locked(s) && i < |s.callers| && Distance(s.callers[i].pc) > 0
    ensures Closer(s, Step(lower, known, s, Next(s.callers[i].pc, i)), i)
  {
    assert Reads(s.callers[i].pc) <==> i in s.readers;
    assert Writes(s.callers[i].pc) <==> s.writer == Some(i);
  }

  /** A call inside the lock leaves it, whatever the others do. */
  lemma {:induction false} Leaves(lower: char -> char, known: set<string>, s: State, i: nat) returns (labels: seq<Label>)
    requires Sound(known, s) && i < |s.callers| && Distance(s.callers[i].pc) > 0
    ensures var t := RunFrom(lower, known, s, labels);
            && Sound(known, t) && Untouched(s, t, i) && t.callers[i].key == s.callers[i].key
            && t.writer == (if s.writer == Some(i) then None else s.writer) && t.readers == s.readers - {i}
            && (t.callers[i].pc.Returned? || (t.callers[i].pc.Slow? && Reads(s.callers[i].pc)))
    decreases Distance(s.callers[i].pc)
  {
    var l := Next(s.callers[i].pc, i);
    var t := Step(lower, known, s, l);
    NextCloser(lower, known, s, i);
    SoundStep(lower, known, s, l);
    var rest: seq<Label> := [];
    if Distance(s.callers[i].pc) > 1 { rest := Leaves(lower, known, t, i); }
    RunFirst(lower, known, s, l, rest);
    labels := [l] + rest;
  }

  /** Calls that have not begun or wait for the write lock may wait on; all others come out. */
  predicate Onward(s: State, t: State) {
    && |t.callers| == |s.callers|
    && forall j | 0 <= j < |s.callers| ::
         t.callers[j].key == s.callers[j].key &&
         (t.callers[j] == s.callers[j] || t.callers[j].pc.Returned? || t.callers[j].pc.Slow?)
  }

  lemma {:induction false} ReadersLeave(lower: char -> char, known: set<string>, s: State) returns (labels: seq<Label>)
    requires Sound(known, s) && s.writer.None?
    ensures var t := RunFrom(lower, known, s, labels); Free(t) && Sound(known, t) && Onward(s, t)
    decreases |s.readers|
  {
    if s.readers == {} {
      labels := [];
    } else {
      var i :| i in s.readers;
      assert Reads(s.callers[i].pc);
      var first := Leaves(lower, known, s, i);
      var t := RunFrom(lower, known, s, first);
      assert |t.readers| < |s.readers|;
      var rest := ReadersLeave(lower, known, t);
      RunThen(lower, known, s, first, rest);
      labels := first + rest;
    }
  }

  lemma {:induction false} LockComesFree(lower: char -> char, known: set<string>, s: State) returns (labels: seq<Label>)
    requires Sound(known, s)
    ensures var t := RunFrom(lower, known, s, labels); Free(t) && Sound(known, t) && Onward(s, t)
  {
    if s.writer.None? {
      labels := ReadersLeave(lower, known, s);
    } else {
      assert Writes(s.callers[s.writer.value].pc);
      labels := Leaves(lower, known, s, s.writer.value);
    }
  }

  /** With the lock free, a call takes it, and leaves it again. */
  lemma {:induction false} TakesAndLeaves(lower: char -> char, known: set<string>, s: State, i: nat) returns (labels: seq<Label>)
    requires Sound(known, s) && Free(s) && i < |s.callers| && (s.callers[i].pc.Slow? || s.callers[i].pc.Start?)
    ensures var t := RunFrom(lower, known, s, labels);
            && Sound(known, t) && Free(t) && i < |t.callers|
            && (t.callers[i].pc.Returned? || (s.callers[i].pc.Start? && t.callers[i].pc.Slow?))
  {
    var l := if s.callers[i].pc.Slow? then Lock(i) else RLock(i);
    var t := Step(lower, known, s, l);
    SoundStep(lower, known, s, l);
    var rest := Leaves(lower, known, t, i);
    RunFirst(lower, known, s, l, rest);
    labels := [l] + rest;
  }

  /** Nobody is ever stuck: in every state of every run, every call has a continuation in which it returns. */
  lemma {:induction false} EveryCallCanReturn(lower: char -> char, known: set<string>, labels: seq<Label>, i: nat)
    returns (more: seq<Label>)
    requires i < |Exec(lower, known, labels).callers|
    ensures var t := RunFrom(lower, known, Exec(lower, known, labels), more); i < |t.callers| && t.callers[i].pc.Returned?
  {
    var s := Exec(lower, known, labels);
    RunSound(lower, known, labels);
    more := LockComesFree(lower, known, s);
    var t := RunFrom(lower, known, s, more);
    assert Reads(t.callers[i].pc) <==> i in t.readers;
    assert Writes(t.callers[i].pc) <==> t.writer == Some(i);
    if t.callers[i].pc.Start? {
      var begin := TakesAndLeaves(lower, known, t, i);
      RunThen(lower, known, s, more, begin);
      more := more + begin;
      t := RunFrom(lower, known, s, more);
    }
    if t.callers[i].pc.Slow? {
      var finish := TakesAndLeaves(lower, known, t, i);
      RunThen(lower, known, s, more, finish);
      more := more + finish;
    }
  }
}
