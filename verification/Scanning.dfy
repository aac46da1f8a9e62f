/** What a paginated scan is, against any broker at all: its requests and its outcome in terms of the replies. */
module Scanning {
  import opened Json
  import opened Options
  import opened Pagination

  function ReplyAt(world: World, t: nat, calls: seq<Call>, i: nat): Reply
    requires i < |calls|
  {
    world.broker(t + i, calls[i].args)
  }

  /** The rows and the link of a reply; a failed request has neither. */
  function RowsOf(reply: Reply): seq<Json> {
    if reply.Failed? then [] else ArrayAt(reply.data, "data")
  }

  function LinkOf(reply: Reply): string {
    if reply.Failed? then "" else ExtractNextPageURI(reply.data)
  }

  /** The link can be followed: it parses, and has a cursor. */
  predicate Leads(world: World, link: string) {
    link != "" && world.parse(link).Some? && world.parse(link).value != ""
  }

  /** All rows of all replies, in order. */
  function Collected(world: World, t: nat, calls: seq<Call>): seq<Json> {
    if calls == [] then []
    else
      var n := |calls| - 1;
      Collected(world, t, calls[..n]) + RowsOf(ReplyAt(world, t, calls, n))
  }

  /** A reply with rows, but fewer than are wanted, and a link that leads on. */
  predicate GoesOn(world: World, reply: Reply, wanted: int) {
    reply.Answer? && 0 < |RowsOf(reply)| < wanted && Leads(world, LinkOf(reply))
  }

  /** The first request is made at the caller's cursor, every other one at the cursor of the reply before it,
      which led on; each for the page size, or for what is still wanted if the step can be resumed and that
      is less. */
  predicate RequestOk(world: World, step: PagedStep, maxResults: nat, t: nat, seed: string, calls: seq<Call>, i: nat)
    requires i < |calls|
  {
    && calls[i].remaining == maxResults - |Collected(world, t, calls[..i])| > 0
    && (i > 0 ==> GoesOn(world, ReplyAt(world, t, calls, i - 1), calls[i - 1].remaining))
    && calls[i].args.cursor == (if i == 0 then seed else world.parse(LinkOf(ReplyAt(world, t, calls, i - 1))).value)
    && calls[i].args.count == if step.resumable && calls[i].remaining < step.count then calls[i].remaining else step.count
  }

  ghost predicate Requests(world: World, step: PagedStep, maxResults: nat, t: nat, seed: string, calls: seq<Call>) {
    forall i: nat | i < |calls| :: RequestOk(world, step, maxResults, t, seed, calls, i)
  }

  /** A reply whose link had to be followed, or offered to the caller, and yields no cursor. */
  predicate Stuck(world: World, step: PagedStep, reply: Reply, wanted: int) {
    && RowsOf(reply) != [] && LinkOf(reply) != "" && !Leads(world, LinkOf(reply))
    && (|RowsOf(reply)| < wanted || (step.resumable && |RowsOf(reply)| == wanted))
  }

  /** Nothing is left to fetch: an empty reply, or one without a link and no longer than wanted. */
  predicate Exhausted(reply: Reply, wanted: int) {
    RowsOf(reply) == [] || (LinkOf(reply) == "" && |RowsOf(reply)| <= wanted)
  }

  /** The outcome, from the last reply and what was still wanted of it. */
  predicate Ending(world: World, step: PagedStep, maxResults: nat, all: seq<Json>, reply: Reply, wanted: int, o: Outcome) {
    && (o.Broken? <==> reply.Failed? || Stuck(world, step, reply, wanted))
    && (o.Fetched? ==>
          && !o.pageLimitHit && !GoesOn(world, reply, wanted)
          && o.data == all[..if |all| <= maxResults then |all| else maxResults]
          && (o.truncated <==> !Exhausted(reply, wanted))
          && o.nextCursor == if step.resumable && |RowsOf(reply)| == wanted && LinkOf(reply) != ""
                             then Text(world.parse(LinkOf(reply))) else "")
  }

  function Text(o: Option<string>): string {
    if o.Some? then o.value else ""
  }

  /** What a scan is: at most `maxPages` requests, each as it should be; and either the page cap is reached with
      a reply that still led on, and everything collected is returned as incomplete, or the last reply decides. */
  ghost predicate ScanIs(world: World, step: PagedStep, maxPages: nat, maxResults: nat, t: nat, seed: string, s: Scan) {
    var n, all := |s.calls|, Collected(world, t, s.calls);
    && Requests(world, step, maxResults, t, seed, s.calls) && n <= maxPages
    && if n == maxPages && (n == 0 || GoesOn(world, ReplyAt(world, t, s.calls, n - 1), s.calls[n - 1].remaining))
       then s.outcome == Fetched(all, true, true, "")
       else n > 0 && Ending(world, step, maxResults, all, ReplyAt(world, t, s.calls, n - 1), s.calls[n - 1].remaining, s.outcome)
  }

  // ---------------------------------------------------------------------------------------------
  // The proof, request by request
  // ---------------------------------------------------------------------------------------------

  lemma {:induction false} CollectedMore(world: World, t: nat, calls: seq<Call>, call: Call)
    ensures Collected(world, t, calls + [call]) == Collected(world, t, calls) + RowsOf(world.broker(t + |calls|, call.args))
  {
    assert (calls + [call])[..|calls|] == calls;
  }

  /** The scan so far: the rows collected, fewer than wanted, and the arguments the next request starts from. */
  ghost predicate SoFar(world: World, step: PagedStep, maxResults: nat, t: nat, seed: string, args: Args, got: seq<Json>, calls: seq<Call>) {
    && Requests(world, step, maxResults, t, seed, calls)
    && got == Collected(world, t, calls) && |got| < maxResults
    && args.count == step.count
    && (if calls == [] then args.cursor == seed
        else
          var n := |calls| - 1;
          GoesOn(world, ReplyAt(world, t, calls, n), calls[n].remaining)
          && args.cursor == world.parse(LinkOf(ReplyAt(world, t, calls, n))).value)
  }

  lemma {:induction false} RequestKept(
      world: World, step: PagedStep, maxResults: nat, t: nat, seed: string, calls: seq<Call>, call: Call, i: nat)
    requires i < |calls|
    ensures RequestOk(world, step, maxResults, t, seed, calls + [call], i) <==> RequestOk(world, step, maxResults, t, seed, calls, i)
  {
    assert (calls + [call])[..i] == calls[..i];
  }

  lemma {:induction false} RequestsMore(
      world: World, step: PagedStep, maxResults: nat, t: nat, seed: string, args: Args, got: seq<Json>, calls: seq<Call>, call: Call)
    requires SoFar(world, step, maxResults, t, seed, args, got, calls)
    requires call == Call(Asked(step, args, maxResults - |got|), maxResults - |got|)
    ensures Requests(world, step, maxResults, t, seed, calls + [call])
  {
    var more := calls + [call];
    forall i: nat | i < |more|
      ensures RequestOk(world, step, maxResults, t, seed, more, i)
    {
      if i < |calls| {
        RequestKept(world, step, maxResults, t, seed, calls, call, i);
      } else {
        assert more[..i] == calls;
        assert i > 0 ==> more[i - 1] == calls[i - 1];
      }
    }
  }

  /** One reply: the scan ends as it says, or goes on. */
  lemma {:induction false} ReplyTaken(world: World, step: PagedStep, maxResults: nat, got: seq<Json>, reply: Reply)
    requires |got| < maxResults && reply.Answer?
    ensures var wanted := maxResults - |got|;
            match TakePage(world, step, wanted, got, reply.data)
            case Stop(o) => !GoesOn(world, reply, wanted) && Ending(world, step, maxResults, got + RowsOf(reply), reply, wanted, o)
            case More(c, got') => GoesOn(world, reply, wanted) && got' == got + RowsOf(reply) && c == Text(world.parse(LinkOf(reply)))
  {
    var items, wanted := RowsOf(reply), maxResults - |got|;
    if |items| >= wanted {
      assert (got + items)[..maxResults] == got + items[..wanted];
    } else {
      assert (got + items)[..|got + items|] == got + items;
    }
    assert items == [] ==> got + items == got;
  }

  lemma {:induction false} PagesStop(
      world: World, step: PagedStep, maxPages: nat, maxResults: nat, t: nat, args: Args, got: seq<Json>, calls: seq<Call>)
    requires |got| < maxResults
    ensures |calls| >= maxPages ==>
              Pages(world, step, maxPages, maxResults, t, args, got, calls) == Scan(Fetched(got, true, true, ""), calls)
    ensures var asked := Asked(step, args, maxResults - |got|);
            |calls| < maxPages && world.broker(t + |calls|, asked).Failed? ==>
              Pages(world, step, maxPages, maxResults, t, args, got, calls) == Scan(Broken, calls + [Call(asked, maxResults - |got|)])
  {
  }

  /** The page cap stops a scan that would have gone on. */
  lemma {:induction false} CapIs(
      world: World, step: PagedStep, maxResults: nat, t: nat, seed: string, args: Args, got: seq<Json>, calls: seq<Call>)
    requires SoFar(world, step, maxResults, t, seed, args, got, calls)
    ensures ScanIs(world, step, |calls|, maxResults, t, seed, Scan(Fetched(got, true, true, ""), calls))
  {
  }

  /** A last reply that does not lead on decides. */
  lemma {:induction false} EndIs(
      world: World, step: PagedStep, maxPages: nat, maxResults: nat, t: nat, seed: string,
      got: seq<Json>, calls: seq<Call>, call: Call, reply: Reply, o: Outcome)
    requires Requests(world, step, maxResults, t, seed, calls + [call]) && |calls| < maxPages
    requires got == Collected(world, t, calls) && reply == world.broker(t + |calls|, call.args)
    requires !GoesOn(world, reply, call.remaining) && Ending(world, step, maxResults, got + RowsOf(reply), reply, call.remaining, o)
    ensures ScanIs(world, step, maxPages, maxResults, t, seed, Scan(o, calls + [call]))
  {
    CollectedMore(world, t, calls, call);
    assert (calls + [call])[|calls|] == call;
  }

  lemma {:induction false} SoFarMore(
      world: World, step: PagedStep, maxResults: nat, t: nat, seed: string,
      got: seq<Json>, calls: seq<Call>, call: Call, reply: Reply, cursor: string)
    requires Requests(world, step, maxResults, t, seed, calls + [call])
    requires got == Collected(world, t, calls) && reply == world.broker(t + |calls|, call.args)
    requires GoesOn(world, reply, call.remaining) && cursor == world.parse(LinkOf(reply)).value && |got + RowsOf(reply)| < maxResults
    ensures SoFar(world, step, maxResults, t, seed, Args(cursor, step.count), got + RowsOf(reply), calls + [call])
  {
    CollectedMore(world, t, calls, call);
    assert (calls + [call])[|calls|] == call;
  }

  lemma {:induction false} PagesAre(
      world: World, step: PagedStep, maxPages: nat, maxResults: nat, t: nat, seed: string, args: Args, got: seq<Json>, calls: seq<Call>)
    requires SoFar(world, step, maxResults, t, seed, args, got, calls) && |calls| <= maxPages
    ensures ScanIs(world, step, maxPages, maxResults, t, seed, Pages(world, step, maxPages, maxResults, t, args, got, calls))
    decreases maxResults - |got|
  {
    PagesStop(world, step, maxPages, maxResults, t, args, got, calls);
    if |calls| == maxPages {
      CapIs(world, step, maxResults, t, seed, args, got, calls);
    } else {
      var wanted := maxResults - |got|;
      var call := Call(Asked(step, args, wanted), wanted);
      var reply := world.broker(t + |calls|, call.args);
      RequestsMore(world, step, maxResults, t, seed, args, got, calls, call);
      if reply.Failed? {
        EndIs(world, step, maxPages, maxResults, t, seed, got, calls, call, reply, Broken);
      } else {
        var turn := TakePage(world, step, wanted, got, reply.data);
        ReplyTaken(world, step, maxResults, got, reply);
        PagesUnfolds(world, step, maxPages, maxResults, t, args, got, calls, turn);
        if turn.Stop? {
          EndIs(world, step, maxPages, maxResults, t, seed, got, calls, call, reply, turn.outcome);
        } else {
          SoFarMore(world, step, maxResults, t, seed, got, calls, call, reply, turn.cursor);
          PagesAre(world, step, maxPages, maxResults, t, seed, Args(turn.cursor, step.count), turn.got, calls + [call]);
        }
      }
    }
  }

  /** A scan against any broker whatsoever: which requests it makes; that it breaks exactly if its last request
      failed or the last link had to be followed or offered and yields no cursor; that otherwise it returns
      the first rows of the replies put together, and says they are all exactly if the last reply was empty,
      or had no link and no more rows than were wanted; and which cursor it offers. */
  lemma {:induction false} AnyBrokerExact(world: World, step: PagedStep, maxPages: nat, params: Object, t: nat)
    ensures ScanIs(world, step, maxPages, ResolveMaxResults(params), t, Seed(step, params), Fetch(world, step, maxPages, params, t))
  {
    PagesAre(world, step, maxPages, ResolveMaxResults(params), t, Seed(step, params), Args(Seed(step, params), step.count), [], []);
  }

  // ---------------------------------------------------------------------------------------------
  // There is no other
  // ---------------------------------------------------------------------------------------------

  lemma {:induction false} SameRequests(
      world: World, step: PagedStep, maxResults: nat, t: nat, seed: string, a: seq<Call>, b: seq<Call>, k: nat)
    requires Requests(world, step, maxResults, t, seed, a) && Requests(world, step, maxResults, t, seed, b)
    requires k <= |a| && k <= |b|
    ensures a[..k] == b[..k]
  {
    if k > 0 {
      SameRequests(world, step, maxResults, t, seed, a, b, k - 1);
      assert RequestOk(world, step, maxResults, t, seed, a, k - 1) && RequestOk(world, step, maxResults, t, seed, b, k - 1);
      assert a[..k] == a[..k - 1] + [a[k - 1]] && b[..k] == b[..k - 1] + [b[k - 1]];
      if k > 1 { assert a[..k - 1][k - 2] == a[k - 2] && b[..k - 1][k - 2] == b[k - 2]; }
    }
  }

  /** Where one list of requests goes on after the end of another, the last reply of the other led on. */
  lemma {:induction false} LongerLedOn(
      world: World, step: PagedStep, maxResults: nat, t: nat, seed: string, a: seq<Call>, b: seq<Call>)
    requires Requests(world, step, maxResults, t, seed, a) && Requests(world, step, maxResults, t, seed, b)
    requires 0 < |a| < |b|
    ensures GoesOn(world, ReplyAt(world, t, a, |a| - 1), a[|a| - 1].remaining)
  {
    var n := |a|;
    SameRequests(world, step, maxResults, t, seed, a, b, n);
    assert RequestOk(world, step, maxResults, t, seed, b, n);
    assert a[..n][n - 1] == a[n - 1] && b[..n][n - 1] == b[n - 1];
  }

  lemma {:induction false} NotLonger(
      world: World, step: PagedStep, maxPages: nat, maxResults: nat, t: nat, seed: string, a: Scan, b: Scan)
    requires ScanIs(world, step, maxPages, maxResults, t, seed, a) && ScanIs(world, step, maxPages, maxResults, t, seed, b)
    ensures |b.calls| <= |a.calls|
  {
    if 0 < |a.calls| < |b.calls| {
      LongerLedOn(world, step, maxResults, t, seed, a.calls, b.calls);
    }
  }

  lemma {:induction false} EndingUnique(
      world: World, step: PagedStep, maxResults: nat, all: seq<Json>, reply: Reply, wanted: int, a: Outcome, b: Outcome)
    requires Ending(world, step, maxResults, all, reply, wanted, a) && Ending(world, step, maxResults, all, reply, wanted, b)
    ensures a == b
  {
  }

  lemma {:induction false} SameOutcome(
      world: World, step: PagedStep, maxPages: nat, maxResults: nat, t: nat, seed: string, a: Scan, b: Scan)
    requires ScanIs(world, step, maxPages, maxResults, t, seed, a) && ScanIs(world, step, maxPages, maxResults, t, seed, b)
    requires a.calls == b.calls
    ensures a.outcome == b.outcome
  {
    var n, all := |a.calls|, Collected(world, t, a.calls);
    if n > 0 && !GoesOn(world, ReplyAt(world, t, a.calls, n - 1), a.calls[n - 1].remaining) {
      EndingUnique(world, step, maxResults, all, ReplyAt(world, t, a.calls, n - 1), a.calls[n - 1].remaining, a.outcome, b.outcome);
    }
  }

  /** That description leaves nothing open: it fits one scan only. */
  lemma {:induction false} ScanUnique(
      world: World, step: PagedStep, maxPages: nat, maxResults: nat, t: nat, seed: string, a: Scan, b: Scan)
    requires ScanIs(world, step, maxPages, maxResults, t, seed, a) && ScanIs(world, step, maxPages, maxResults, t, seed, b)
    ensures a == b
  {
    NotLonger(world, step, maxPages, maxResults, t, seed, a, b);
    NotLonger(world, step, maxPages, maxResults, t, seed, b, a);
    SameRequests(world, step, maxResults, t, seed, a.calls, b.calls, |a.calls|);
    assert a.calls[..|a.calls|] == a.calls && b.calls[..|b.calls|] == b.calls;
    SameOutcome(world, step, maxPages, maxResults, t, seed, a, b);
  }
}
