/** The client pool: lazy creation under a read/write lock, checked twice. */
module Pool {
  import opened Options
  import Brokers

  /** A created client, numbered in order of creation. */
  type Client = nat

  datatype Result = Ok(client: Client) | Failed

  /** Where one call of `getOrCreate` is. */
  datatype Pc =
    | Start
    | Reading
    | ReadDone(found: Option<Client>)
    | Slow
    | Writing
    | Creating
    | Storing(client: Client)
    | WriteDone(result: Result)
    | Returned(result: Result)

  /** A call for one broker, in whatever casing; `key` is the lowercase alias. */
  datatype Caller = Caller(alias: string, key: string, pc: Pc)

  datatype State = State(
    callers: seq<Caller>, clients: map<string, Client>, created: nat, stored: seq<string>,
    readers: set<nat>, writer: Option<nat>)

  datatype Label =
    | Arrive(alias: string)
    | RLock(i: nat)
    | ReadCheck(i: nat)
    | RUnlock(i: nat)
    | Lock(i: nat)
    | WriteCheck(i: nat)
    | Create(i: nat, works: bool)
    | Put(i: nat)
    | Unlock(i: nat)

  function Found(s: State, key: string): Option<Client> {
    if key in s.clients then Some(s.clients[key]) else None
  }

  function Moved(s: State, i: nat, pc: Pc): State
    requires i < |s.callers|
  {
    s.(callers := s.callers[i := s.callers[i].(pc := pc)])
  }

  /** One step of call `i`; `known` is the configured brokers' lowercase aliases. Locks block. */
  function CallerStep(known: set<string>, s: State, i: nat, l: Label): State
    requires i < |s.callers|
  {
    var x := s.callers[i];
    if l.RLock? && x.pc.Start? && s.writer.None? then Moved(s, i, Reading).(readers := s.readers + {i})
    else if l.ReadCheck? && x.pc.Reading? then Moved(s, i, ReadDone(Found(s, x.key)))
    else if l.RUnlock? && x.pc.ReadDone? then
      Moved(s, i, if x.pc.found.Some? then Returned(Ok(x.pc.found.value)) else Slow).(readers := s.readers - {i})
    else if l.Lock? && x.pc.Slow? && s.writer.None? && s.readers == {} then Moved(s, i, Writing).(writer := Some(i))
    else if l.WriteCheck? && x.pc.Writing? then
      Moved(s, i, if x.key in s.clients then WriteDone(Ok(s.clients[x.key])) else Creating)
    else if l.Create? && x.pc.Creating? then
      if x.key !in known || !l.works then Moved(s, i, WriteDone(Failed))
      else Moved(s, i, Storing(s.created)).(created := s.created + 1)
    else if l.Put? && x.pc.Storing? then
      Moved(s, i, WriteDone(Ok(x.pc.client))).(clients := s.clients[x.key := x.pc.client], stored := s.stored + [x.key])
    else if l.Unlock? && x.pc.WriteDone? then Moved(s, i, Returned(x.pc.result)).(writer := None)
    else s
  }

  function Step(lower: char -> char, known: set<string>, s: State, l: Label): State {
    if l.Arrive? then s.(callers := s.callers + [Caller(l.alias, Brokers.Low(lower, l.alias), Start)])
    else if l.i < |s.callers| then CallerStep(known, s, l.i, l)
    else s
  }

  function Idle(): State {
    State([], map[], 0, [], {}, None)
  }

  function Exec(lower: char -> char, known: set<string>, labels: seq<Label>): State {
    if labels == [] then Idle() else Step(lower, known, Exec(lower, known, labels[..|labels| - 1]), labels[|labels| - 1])
  }

  // ---------------------------------------------------------------------------------------------
  // The invariant
  // ---------------------------------------------------------------------------------------------

  predicate Reads(pc: Pc) { pc.Reading? || pc.ReadDone? }

  predicate Writes(pc: Pc) { pc.Writing? || pc.Creating? || pc.Storing? || pc.WriteDone? }

  /** The client a call holds, if any. */
  function Held(pc: Pc): Option<Client> {
    match pc
    case ReadDone(found) => found
    case WriteDone(Ok(c)) => Some(c)
    case Returned(Ok(c)) => Some(c)
    case _ => None
  }

  /** The lock excludes: one writer and no reader, or readers and no writer. */
  ghost predicate Locked(s: State) {
    && (forall i | 0 <= i < |s.callers| :: Reads(s.callers[i].pc) <==> i in s.readers)
    && (forall i | i in s.readers :: i < |s.callers|)
    && (forall i | 0 <= i < |s.callers| :: Writes(s.callers[i].pc) <==> s.writer == Some(i))
    && (s.writer.Some? ==> s.readers == {} && s.writer.value < |s.callers|)
  }

  /** Every call holds the pool's client for its key, and one about to create has found none. */
  predicate CallerOk(x: Caller, clients: map<string, Client>) {
    && (Held(x.pc).Some? ==> x.key in clients && clients[x.key] == Held(x.pc).value)
    && (x.pc.Creating? || x.pc.Storing? ==> x.key !in clients)
  }

  ghost predicate Sound(known: set<string>, s: State) {
    && Locked(s)
    && (forall i | 0 <= i < |s.callers| :: CallerOk(s.callers[i], s.clients))
    && (forall i | 0 <= i < |s.callers| && s.callers[i].pc.Storing? :: s.callers[i].key in known)
    && (forall k | k in s.clients :: k in s.stored && k in known)
    && (forall i | 0 <= i < |s.stored| :: s.stored[i] in s.clients)
    && (forall i, j | 0 <= i < j < |s.stored| :: s.stored[i] != s.stored[j])
  }

  lemma {:induction false} LockedStep(known: set<string>, s: State, i: nat, l: Label)
    requires Locked(s) && i < |s.callers|
    ensures Locked(CallerStep(known, s, i, l))
  {
  }

  /** A step other than a store leaves the map alone and every other call as it was. */
  lemma {:induction false} QuietStep(known: set<string>, s: State, i: nat, l: Label)
    requires i < |s.callers| && !(l.Put? && s.callers[i].pc.Storing?)
    ensures var t := CallerStep(known, s, i, l);
            && t.clients == s.clients && t.stored == s.stored && |t.callers| == |s.callers|
            && (forall j | 0 <= j < |s.callers| && j != i :: t.callers[j] == s.callers[j])
            && t.callers[i].key == s.callers[i].key
  {
  }

  lemma {:induction false} OwnStep(known: set<string>, s: State, i: nat, l: Label)
    requires i < |s.callers| && !(l.Put? && s.callers[i].pc.Storing?) && CallerOk(s.callers[i], s.clients)
    requires s.callers[i].pc.Storing? ==> s.callers[i].key in known
    ensures var x := CallerStep(known, s, i, l).callers[i];
            CallerOk(x, s.clients) && (x.pc.Storing? ==> x.key in known)
  {
  }

  lemma {:induction false} SoundQuiet(known: set<string>, s: State, i: nat, l: Label)
    requires Sound(known, s) && i < |s.callers| && !(l.Put? && s.callers[i].pc.Storing?)
    ensures Sound(known, CallerStep(known, s, i, l))
  {
    LockedStep(known, s, i, l);
    QuietStep(known, s, i, l);
    OwnStep(known, s, i, l);
  }

  /** A store happens under the write lock, so nobody else is between a check and a store. */
  lemma {:induction false} SoundPut(known: set<string>, s: State, i: nat)
    requires Sound(known, s) && i < |s.callers| && s.callers[i].pc.Storing?
    ensures Sound(known, CallerStep(known, s, i, Put(i)))
  {
    var t, x := CallerStep(known, s, i, Put(i)), s.callers[i];
    LockedStep(known, s, i, Put(i));
    assert CallerOk(x, s.clients);
    forall j | 0 <= j < |t.callers|
      ensures CallerOk(t.callers[j], t.clients)
    {
      assert CallerOk(s.callers[j], s.clients);
      assert j != i ==> !Writes(s.callers[j].pc);
    }
    forall j | 0 <= j < |s.stored|
      ensures s.stored[j] != x.key
    {
      assert s.stored[j] in s.clients;
    }
  }

  lemma {:induction false} SoundStep(lower: char -> char, known: set<string>, s: State, l: Label)
    requires Sound(known, s)
    ensures Sound(known, Step(lower, known, s, l))
  {
    if !l.Arrive? && l.i < |s.callers| {
      if l.Put? && s.callers[l.i].pc.Storing? { SoundPut(known, s, l.i); } else { SoundQuiet(known, s, l.i, l); }
    }
  }

  lemma {:induction false} RunSound(lower: char -> char, known: set<string>, labels: seq<Label>)
    ensures Sound(known, Exec(lower, known, labels))
  {
    if labels != [] {
      RunSound(lower, known, labels[..|labels| - 1]);
      SoundStep(lower, known, Exec(lower, known, labels[..|labels| - 1]), labels[|labels| - 1]);
    }
  }

  lemma {:induction false} KeysAreLow(lower: char -> char, known: set<string>, labels: seq<Label>)
    ensures forall x | x in Exec(lower, known, labels).callers :: x.key == Brokers.Low(lower, x.alias)
  {
    if labels != [] {
      var before := labels[..|labels| - 1];
      KeysAreLow(lower, known, before);
      var s, t := Exec(lower, known, before), Exec(lower, known, labels);
      forall x | x in t.callers
        ensures x.key == Brokers.Low(lower, x.alias)
      {
        var i :| 0 <= i < |t.callers| && t.callers[i] == x;
        assert i < |s.callers| ==> x.key == s.callers[i].key && x.alias == s.callers[i].alias;
        assert i < |s.callers| ==> s.callers[i] in s.callers;
      }
    }
  }

  predicate Got(s: State, i: nat, c: Client) {
    i < |s.callers| && s.callers[i].pc == Returned(Ok(c))
  }

  /** In every interleaving at most one client is ever stored for a lowercase alias; any two calls that
      succeed for it, in whatever casing they asked, get that same one; and only configured brokers get any. */
  lemma {:induction false} OneClientPerBroker(lower: char -> char, known: set<string>, labels: seq<Label>)
    ensures var s := Exec(lower, known, labels);
            && (forall i, j | 0 <= i < j < |s.stored| :: s.stored[i] != s.stored[j])
            && (forall i: nat, c: Client | Got(s, i, c) ::
                  Brokers.Low(lower, s.callers[i].alias) in known && Brokers.Low(lower, s.callers[i].alias) in s.stored)
            && (forall i: nat, j: nat, c: Client, d: Client | Got(s, i, c) && Got(s, j, d) &&
                                    Brokers.Low(lower, s.callers[i].alias) == Brokers.Low(lower, s.callers[j].alias) :: c == d)
  {
    var s := Exec(lower, known, labels);
    RunSound(lower, known, labels);
    KeysAreLow(lower, known, labels);
    forall i: nat, c: Client | Got(s, i, c)
      ensures s.callers[i].key == Brokers.Low(lower, s.callers[i].alias)
      ensures s.callers[i].key in s.clients && s.clients[s.callers[i].key] == c
    {
      assert CallerOk(s.callers[i], s.clients);
    }
  }

  /** Once stored, a client stays for good: what an early call was given, a late call is given too. */
  lemma {:induction false} ClientStays(lower: char -> char, known: set<string>, labels: seq<Label>, n: nat, key: string)
    requires n <= |labels| && key in Exec(lower, known, labels[..n]).clients
    ensures key in Exec(lower, known, labels).clients && Exec(lower, known, labels).clients[key] == Exec(lower, known, labels[..n]).clients[key]
  {
    if n == |labels| {
      assert labels[..n] == labels;
    } else {
      var before := labels[..|labels| - 1];
      assert before[..n] == labels[..n];
      ClientStays(lower, known, before, n, key);
      RunSound(lower, known, before);
      ClientKept(lower, known, Exec(lower, known, before), labels[|labels| - 1], key);
    }
  }

  lemma {:induction false} ClientKept(lower: char -> char, known: set<string>, s: State, l: Label, key: string)
    requires Sound(known, s) && key in s.clients
    ensures var t := Step(lower, known, s, l); key in t.clients && t.clients[key] == s.clients[key]
  {
    if !l.Arrive? && l.i < |s.callers| {
      assert CallerOk(s.callers[l.i], s.clients);
    }
  }

  // ---------------------------------------------------------------------------------------------
  // When a call fails
  // ---------------------------------------------------------------------------------------------

  /** This step is call `i` failing to create a client: the broker is not configured, or its client cannot be made. */
  predicate CreateFails(lower: char -> char, known: set<string>, s: State, l: Label, i: nat) {
    && l.Create? && l.i == i && i < |s.callers| && s.callers[i].pc.Creating?
    && (Brokers.Low(lower, s.callers[i].alias) !in known || !l.works)
  }

  ghost predicate CreateFailsAt(lower: char -> char, known: set<string>, labels: seq<Label>, i: nat, k: nat) {
    k < |labels| && CreateFails(lower, known, Exec(lower, known, labels[..k]), labels[k], i)
  }

  /** At some step of the run it did. */
  ghost predicate CreateFailed(lower: char -> char, known: set<string>, labels: seq<Label>, i: nat) {
    exists k: nat :: CreateFailsAt(lower, known, labels, i, k)
  }

  lemma {:induction false} CreateFailsEarlier(lower: char -> char, known: set<string>, labels: seq<Label>, i: nat, n: nat, k: nat)
    requires k < n <= |labels|
    ensures CreateFailsAt(lower, known, labels[..n], i, k) <==> CreateFailsAt(lower, known, labels, i, k)
  {
    assert labels[..n][..k] == labels[..k];
  }

  lemma {:induction false} CreateFailedMore(lower: char -> char, known: set<string>, labels: seq<Label>, i: nat)
    requires labels != []
    ensures var n := |labels| - 1;
            CreateFailed(lower, known, labels, i) <==>
            CreateFailed(lower, known, labels[..n], i) || CreateFails(lower, known, Exec(lower, known, labels[..n]), labels[n], i)
  {
    var n := |labels| - 1;
    if k: nat :| CreateFailsAt(lower, known, labels[..n], i, k) {
      CreateFailsEarlier(lower, known, labels, i, n, k);
    }
    if k: nat :| CreateFailsAt(lower, known, labels, i, k) {
      if k < n { CreateFailsEarlier(lower, known, labels, i, n, k); }
    }
    if CreateFails(lower, known, Exec(lower, known, labels[..n]), labels[n], i) {
      assert CreateFailsAt(lower, known, labels, i, n);
    }
  }

  predicate HasFailed(s: State, i: nat) {
    i < |s.callers| && (s.callers[i].pc == WriteDone(Failed) || s.callers[i].pc == Returned(Failed))
  }

  lemma {:induction false} HasFailedStep(lower: char -> char, known: set<string>, s: State, l: Label, i: nat)
    requires forall x | x in s.callers :: x.key == Brokers.Low(lower, x.alias)
    ensures HasFailed(Step(lower, known, s, l), i) <==> HasFailed(s, i) || CreateFails(lower, known, s, l, i)
  {
    assert i < |s.callers| ==> s.callers[i] in s.callers;
  }

  lemma {:induction false} FailedExactly(lower: char -> char, known: set<string>, labels: seq<Label>, i: nat)
    ensures HasFailed(Exec(lower, known, labels), i) <==> CreateFailed(lower, known, labels, i)
  {
    if labels != [] {
      var before := labels[..|labels| - 1];
      FailedExactly(lower, known, before, i);
      KeysAreLow(lower, known, before);
      CreateFailedMore(lower, known, labels, i);
      HasFailedStep(lower, known, Exec(lower, known, before), labels[|labels| - 1], i);
    }
  }

  lemma {:induction false} ReturnedIs(s: State, known: set<string>, i: nat)
    requires Sound(known, s) && i < |s.callers| && s.callers[i].pc.Returned?
    ensures if HasFailed(s, i) then s.callers[i].pc.result == Failed
            else s.callers[i].key in s.clients && s.callers[i].pc.result == Ok(s.clients[s.callers[i].key])
  {
    assert CallerOk(s.callers[i], s.clients);
  }

  /** In every interleaving a call that has returned failed exactly if its own attempt to create a client did,
      because the broker is not configured or its client cannot be made; otherwise it has the pool's client. */
  lemma {:induction false} ReturnsClientUnlessCreateFailed(lower: char -> char, known: set<string>, labels: seq<Label>, i: nat)
    requires i < |Exec(lower, known, labels).callers| && Exec(lower, known, labels).callers[i].pc.Returned?
    ensures var s := Exec(lower, known, labels);
            var r, key := s.callers[i].pc.result, Brokers.Low(lower, s.callers[i].alias);
            if CreateFailed(lower, known, labels, i) then r == Failed else key in s.clients && r == Ok(s.clients[key])
  {
    var s := Exec(lower, known, labels);
    FailedExactly(lower, known, labels, i);
    KeysAreLow(lower, known, labels);
    RunSound(lower, known, labels);
    ReturnedIs(s, known, i);
    assert s.callers[i] in s.callers;
  }
}
