/** Paged scans of a broker collection: `fetchPaginated` and the cursor protocol around it. */
module Pagination {
  import opened Json
  import opened Options
  import opened Notes

  const DEFAULT_MAX: nat := 100
  const CAP_MAX: nat := 500
  const DEFAULT_MAX_PAGES: nat := 1000

  /** Go's conversion of a float64 to an integer: truncation toward zero. */
  function Truncated(r: real): int {
    if r >= 0.0 then r.Floor else -((-r).Floor)
  }

  /** `resolveMaxResults`: absent, non-numeric and non-positive requests fall back to the default. */
  function ResolveMaxResults(params: Object): (n: nat)
    ensures 1 <= n <= CAP_MAX
    ensures "maxResults" in params && params["maxResults"].Number? &&
            1.0 <= params["maxResults"].value < CAP_MAX as real + 1.0 ==>
              n as real <= params["maxResults"].value < n as real + 1.0
    ensures "maxResults" !in params || !params["maxResults"].Number? || params["maxResults"].value < 1.0 ==> n == DEFAULT_MAX
    ensures "maxResults" in params && params["maxResults"].Number? && params["maxResults"].value > CAP_MAX as real ==> n == CAP_MAX
  {
    if "maxResults" !in params || !params["maxResults"].Number? then DEFAULT_MAX
    else
      var n := Truncated(params["maxResults"].value);
      if n <= 0 then DEFAULT_MAX else if n > CAP_MAX then CAP_MAX else n
  }

  /** The two request arguments a scan varies. An empty cursor means none is sent. */
  datatype Args = Args(cursor: string, count: nat)

  datatype Reply = Failed | Answer(data: Object)

  /** The outside world of one scan. `broker(t, args)` answers the t-th request, so the same
      request may be answered differently every time; `parse` extracts the cursor query parameter
      of a URI and yields `None` when the URI does not parse. */
  datatype World = World(broker: (nat, Args) -> Reply, parse: string -> Option<string>)

  /** The parts of a step definition a scan reads: `count` is the declared page size. */
  datatype PagedStep = PagedStep(resumable: bool, count: nat)

  datatype Call = Call(args: Args, remaining: int)

  datatype Outcome =
    | Broken
    | Fetched(data: seq<Json>, truncated: bool, pageLimitHit: bool, nextCursor: string)

  datatype Scan = Scan(outcome: Outcome, calls: seq<Call>)

  function ExtractDataItems(data: Object): seq<Json> {
    ArrayAt(data, "data")
  }

  function ExtractNextPageURI(data: Object): string {
    if "meta" in data && data["meta"].Obj? then
      var meta := data["meta"].fields;
      if "paging" in meta && meta["paging"].Obj? then StringAt(meta["paging"].fields, "nextPageUri") else ""
    else ""
  }

  /** `cursorFromNextURI`: an unparseable URI and an empty cursor are both errors. */
  function CursorFromNextURI(world: World, uri: string): (r: Option<string>)
    ensures r.Some? ==> r.value != "" && world.parse(uri) == r
  {
    match world.parse(uri)
    case Some(c) => if c == "" then None else Some(c)
    case None => None
  }

  /** A resumable step asks for no more than is still wanted. */
  function Asked(step: PagedStep, args: Args, remaining: nat): Args {
    if step.resumable && remaining < step.count then args.(count := remaining) else args
  }

  /** What one answered page leads to: the scan ends, or goes on from a cursor with more rows. */
  datatype Turn = Stop(outcome: Outcome) | More(cursor: string, got: seq<Json>)

  function TakePage(world: World, step: PagedStep, remaining: nat, got: seq<Json>, data: Object): (r: Turn)
    requires remaining > 0
    ensures r.More? ==> |got| < |r.got| < |got| + remaining
  {
    var items := ExtractDataItems(data);
    var next := ExtractNextPageURI(data);
    if items == [] then Stop(Fetched(got, false, false, ""))
    else if |items| >= remaining then
      var all := got + items[..remaining];
      if step.resumable && |items| == remaining && next != "" then
        match CursorFromNextURI(world, next)
        case None => Stop(Broken)
        case Some(c) => Stop(Fetched(all, true, false, c))
      else Stop(Fetched(all, |items| > remaining || next != "", false, ""))
    else if next == "" then Stop(Fetched(got + items, false, false, ""))
    else
      match CursorFromNextURI(world, next)
      case None => Stop(Broken)
      case Some(c) => More(c, got + items)
  }

  /** The scan from the point where `got` rows were collected by the requests in `calls`. */
  function Pages(world: World, step: PagedStep, maxPages: nat, maxResults: nat, t: nat, args: Args,
                 got: seq<Json>, calls: seq<Call>): Scan
    requires |got| < maxResults
    decreases maxResults - |got|
  {
    if |calls| >= maxPages then Scan(Fetched(got, true, true, ""), calls)
    else
      var remaining := maxResults - |got|;
      var asked := Asked(step, args, remaining);
      var calls' := calls + [Call(asked, remaining)];
      match world.broker(t + |calls|, asked)
      case Failed => Scan(Broken, calls')
      case Answer(data) =>
        match TakePage(world, step, remaining, got, data)
        case Stop(o) => Scan(o, calls')
        case More(c, got') => Pages(world, step, maxPages, maxResults, t, Args(c, step.count), got', calls')
  }

  lemma {:induction false} PagesUnfolds(world: World, step: PagedStep, maxPages: nat, maxResults: nat, t: nat, args: Args,
                     got: seq<Json>, calls: seq<Call>, turn: Turn)
    requires |got| < maxResults && |calls| < maxPages
    requires var asked := Asked(step, args, maxResults - |got|);
             var reply := world.broker(t + |calls|, asked);
             reply.Answer? && turn == TakePage(world, step, maxResults - |got|, got, reply.data)
    ensures Pages(world, step, maxPages, maxResults, t, args, got, calls)
         == var calls' := calls + [Call(Asked(step, args, maxResults - |got|), maxResults - |got|)];
            if turn.Stop? then Scan(turn.outcome, calls')
            else Pages(world, step, maxPages, maxResults, t, Args(turn.cursor, step.count), turn.got, calls')
  {
  }

  /** The cursor the caller supplied; only a resumable step reads it. */
  function Seed(step: PagedStep, params: Object): string {
    if step.resumable then StringAt(params, "cursor") else ""
  }

  function Fetch(world: World, step: PagedStep, maxPages: nat, params: Object, t: nat): Scan {
    Pages(world, step, maxPages, ResolveMaxResults(params), t, Args(Seed(step, params), step.count), [], [])
  }

  /** `fetchPaginated`, as the loop the executor runs. */
  method FetchPaginated(world: World, step: PagedStep, maxPages: nat, params: Object, t: nat) returns (s: Scan)
    ensures s == Fetch(world, step, maxPages, params, t)
  {
    var maxResults := ResolveMaxResults(params);
    var allItems: seq<Json> := [];
    var calls: seq<Call> := [];
    var args := Args("", step.count);
    if step.resumable && StringAt(params, "cursor") != "" {
      args := args.(cursor := StringAt(params, "cursor"));
    }
    while true
      invariant |allItems| < maxResults
      invariant Pages(world, step, maxPages, maxResults, t, args, allItems, calls) == Fetch(world, step, maxPages, params, t)
      decreases maxResults - |allItems|
    {
      if |calls| >= maxPages {
        return Scan(Fetched(allItems, true, true, ""), calls);
      }
      var remaining := maxResults - |allItems|;
      if step.resumable && remaining < step.count {
        args := args.(count := remaining);
      }
      var reply := world.broker(t + |calls|, args);
      calls := calls + [Call(args, remaining)];
      if reply.Failed? {
        return Scan(Broken, calls);
      }
      var items := ExtractDataItems(reply.data);
      if |items| == 0 {
        return Scan(Fetched(allItems, false, false, ""), calls);
      }
      var nextURI := ExtractNextPageURI(reply.data);
      if |items| >= remaining {
        allItems := allItems + items[..remaining];
        var nextCursor := "";
        if step.resumable && |items| == remaining && nextURI != "" {
          var c := CursorFromNextURI(world, nextURI);
          if c.None? {
            return Scan(Broken, calls);
          }
          nextCursor := c.value;
        }
        return Scan(Fetched(allItems, |items| > remaining || nextURI != "", false, nextCursor), calls);
      }
      allItems := allItems + items;
      if nextURI == "" {
        return Scan(Fetched(allItems, false, false, ""), calls);
      }
      var cursor := CursorFromNextURI(world, nextURI);
      if cursor.None? {
        return Scan(Broken, calls);
      }
      args := Args(cursor.value, step.count);
    }
  }

  // ---------------------------------------------------------------------------------------------
  // Against any broker at all
  // ---------------------------------------------------------------------------------------------

  /** What every request of a scan satisfies. */
  predicate Sound(step: PagedStep, maxResults: nat, calls: seq<Call>) {
    && (forall i | 0 <= i < |calls| ::
          1 <= calls[i].remaining <= maxResults && (step.resumable ==> calls[i].args.count <= calls[i].remaining))
    && (forall i, j | 0 <= i < j < |calls| :: calls[i].remaining > calls[j].remaining)
  }

  lemma {:induction false} SoundExtends(step: PagedStep, maxResults: nat, calls: seq<Call>, call: Call)
    requires Sound(step, maxResults, calls)
    requires 1 <= call.remaining <= maxResults && (step.resumable ==> call.args.count <= call.remaining)
    requires forall i | 0 <= i < |calls| :: calls[i].remaining > call.remaining
    ensures Sound(step, maxResults, calls + [call])
  {
  }

  lemma {:induction false} PagesBounded(world: World, step: PagedStep, maxPages: nat, maxResults: nat, t: nat, args: Args,
                                        got: seq<Json>, calls: seq<Call>)
    requires |got| < maxResults && |calls| <= |got| && |calls| <= maxPages
    requires args.count == step.count
    requires Sound(step, maxResults, calls)
    requires forall i | 0 <= i < |calls| :: calls[i].remaining > maxResults - |got|
    ensures var s := Pages(world, step, maxPages, maxResults, t, args, got, calls);
            && Sound(step, maxResults, s.calls)
            && |s.calls| <= maxPages && |s.calls| <= maxResults
            && (s.outcome.Fetched? ==> |s.outcome.data| <= maxResults)
            && (s.outcome.Fetched? && s.outcome.pageLimitHit ==> maxPages < maxResults)
    decreases maxResults - |got|
  {
    if |calls| < maxPages {
      var remaining := maxResults - |got|;
      var asked := Asked(step, args, remaining);
      SoundExtends(step, maxResults, calls, Call(asked, remaining));
      var reply := world.broker(t + |calls|, asked);
      if reply.Answer? {
        var turn := TakePage(world, step, remaining, got, reply.data);
        PagesUnfolds(world, step, maxPages, maxResults, t, args, got, calls, turn);
        if turn.More? {
          PagesBounded(world, step, maxPages, maxResults, t, Args(turn.cursor, step.count), turn.got,
                       calls + [Call(asked, remaining)]);
        }
      }
    }
  }

  /** However the broker behaves, a scan sends at most min(maxResults, maxPages) requests, wants at
      least one row and strictly fewer rows at each, and returns at most maxResults rows, 1 to 500. */
  lemma {:induction false} AnyBrokerBounded(world: World, step: PagedStep, maxPages: nat, params: Object, t: nat)
    ensures var s, m := Fetch(world, step, maxPages, params, t), ResolveMaxResults(params);
            && 1 <= m <= CAP_MAX
            && Sound(step, m, s.calls)
            && |s.calls| <= maxPages && |s.calls| <= m
            && (s.outcome.Fetched? ==> |s.outcome.data| <= m)
            && (s.outcome.Fetched? && s.outcome.pageLimitHit ==> maxPages < m)
  {
    PagesBounded(world, step, maxPages, ResolveMaxResults(params), t, Args(Seed(step, params), step.count), [], []);
  }

  ghost predicate HitsPageCap(world: World, step: PagedStep, maxPages: nat, params: Object, t: nat) {
    var o := Fetch(world, step, maxPages, params, t).outcome;
    o.Fetched? && o.pageLimitHit
  }

  /** A broker with a perpetual `nextPageUri`, one row a page. */
  function Perpetual(): World {
    World((t: nat, a: Args) => Answer(map["data" := Arr([Null]),
              "meta" := Obj(map["paging" := Obj(map["nextPageUri" := Str("u")])])]),
          (u: string) => Some("c"))
  }

  lemma {:induction false} PerpetualPages(step: PagedStep, maxPages: nat, maxResults: nat, t: nat, args: Args,
                                          got: seq<Json>, calls: seq<Call>)
    requires maxPages < maxResults && |calls| == |got| <= maxPages
    ensures var o := Pages(Perpetual(), step, maxPages, maxResults, t, args, got, calls).outcome;
            o.Fetched? && o.pageLimitHit
    decreases maxPages - |calls|
  {
    if |calls| < maxPages {
      var remaining := maxResults - |got|;
      var asked := Asked(step, args, remaining);
      var data := Perpetual().broker(t + |calls|, asked).data;
      assert ExtractDataItems(data) == [Null];
      assert ExtractNextPageURI(data) == "u";
      assert CursorFromNextURI(Perpetual(), "u") == Some("c");
      PerpetualPages(step, maxPages, maxResults, t, Args("c", step.count), got + [Null], calls + [Call(asked, remaining)]);
    }
  }

  /** The page cap is out of reach of every broker exactly when it is at least the row cap of the call. */
  lemma {:induction false} PageCapUnreachable(step: PagedStep, maxPages: nat, params: Object)
    ensures (forall world, t: nat :: !HitsPageCap(world, step, maxPages, params, t))
       <==> maxPages >= ResolveMaxResults(params)
  {
    if maxPages >= ResolveMaxResults(params) {
      forall world, t: nat
        ensures !HitsPageCap(world, step, maxPages, params, t)
      {
        AnyBrokerBounded(world, step, maxPages, params, t);
      }
    } else {
      PerpetualPages(step, maxPages, ResolveMaxResults(params), 0, Args(Seed(step, params), step.count), [], []);
      assert HitsPageCap(Perpetual(), step, maxPages, params, 0);
    }
  }

  /** The cap the server runs with is out of reach of every request. */
  lemma {:induction false} ShippedCapUnreachable(step: PagedStep, params: Object, world: World, t: nat)
    ensures !HitsPageCap(world, step, DEFAULT_MAX_PAGES, params, t)
  {
    PageCapUnreachable(step, DEFAULT_MAX_PAGES, params);
  }

  // ---------------------------------------------------------------------------------------------
  // Against a broker whose cursors are positions
  // ---------------------------------------------------------------------------------------------

  /** A reply to a request at position `p` of `full`: a run of rows from `p`, of any length but not empty
      before the end, with a link to the position after it unless nothing is left (a link to the very end
      is tolerated). */
  predicate HonestReply(world: World, full: seq<Json>, pos: string -> nat, args: Args, reply: Reply)
    requires pos(args.cursor) <= |full|
  {
    reply.Answer? &&
    var items, next, p := ExtractDataItems(reply.data), ExtractNextPageURI(reply.data), pos(args.cursor);
    && p + |items| <= |full|
    && items == full[p..p + |items|]
    && (p < |full| ==> items != [])
    && (p + |items| < |full| ==> next != "")
    && (next != "" ==> var c := CursorFromNextURI(world, next); c.Some? && pos(c.value) == p + |items|)
  }

  /** The assumption written beside the clamp in `fetchPaginated`: a cursor marks a position, not a page size. */
  ghost predicate Positional(world: World, full: seq<Json>, pos: string -> nat) {
    && pos("") == 0
    && forall t: nat, args: Args {:trigger HonestReply(world, full, pos, args, world.broker(t, args))}
         | pos(args.cursor) <= |full| && args.count > 0 :: HonestReply(world, full, pos, args, world.broker(t, args))
  }

  /** A broker that never answers a request of this step with more rows than the call still wants. */
  ghost predicate Counted(world: World, step: PagedStep, full: seq<Json>, pos: string -> nat) {
    forall t: nat, cursor: string, n: nat {:trigger Within(world, step, t, cursor, n)}
      | pos(cursor) <= |full| && 1 <= n <= CAP_MAX :: Within(world, step, t, cursor, n)
  }

  predicate Within(world: World, step: PagedStep, t: nat, cursor: string, n: nat) {
    var reply := world.broker(t, Asked(step, Args(cursor, step.count), n));
    reply.Answer? ==> |ExtractDataItems(reply.data)| <= n
  }

  /** The outcome of a call that starts at position `p`: rows from `p` on, and all that are left unless it
      says truncated; any cursor it offers points right after the last of them. */
  predicate RunOf(full: seq<Json>, pos: string -> nat, p: nat, maxResults: nat, o: Outcome) {
    && o.Fetched? && !o.pageLimitHit
    && |o.data| <= maxResults
    && p + |o.data| <= |full| && o.data == full[p..p + |o.data|]
    && (o.truncated ==> |o.data| == maxResults)
    && (!o.truncated ==> p + |o.data| == |full|)
    && (o.nextCursor != "" ==> o.truncated && pos(o.nextCursor) == p + |o.data|)
  }

  /** The same, with a cursor whenever it is truncated. */
  predicate ExactFrom(full: seq<Json>, pos: string -> nat, p: nat, maxResults: nat, o: Outcome) {
    RunOf(full, pos, p, maxResults, o) && (o.truncated ==> o.nextCursor != "")
  }

  predicate Ends(step: PagedStep, counted: bool, full: seq<Json>, pos: string -> nat, p: nat, maxResults: nat, o: Outcome) {
    && RunOf(full, pos, p, maxResults, o)
    && (!step.resumable ==> o.nextCursor == "")
    && (step.resumable && counted ==> ExactFrom(full, pos, p, maxResults, o))
  }

  /** A run of the list goes on with any part of the rows that follow it. */
  lemma {:induction false} RunGrows(full: seq<Json>, p: nat, got: seq<Json>, items: seq<Json>, n: nat)
    requires p + |got| + |items| <= |full| && got == full[p..p + |got|]
    requires items == full[p + |got|..p + |got| + |items|] && n <= |items|
    ensures got + items[..n] == full[p..p + |got| + n]
  {
  }

  lemma {:induction false} TurnRuns(world: World, step: PagedStep, remaining: nat, got: seq<Json>, asked: Args, reply: Reply,
                                    full: seq<Json>, pos: string -> nat, p: nat)
    requires remaining > 0
    requires p + |got| <= |full| && got == full[p..p + |got|] && pos(asked.cursor) == p + |got|
    requires HonestReply(world, full, pos, asked, reply)
    ensures match TakePage(world, step, remaining, got, reply.data)
            case Stop(o) => Ends(step, |ExtractDataItems(reply.data)| <= remaining, full, pos, p, |got| + remaining, o)
            case More(c, got') => p + |got'| <= |full| && got' == full[p..p + |got'|] && pos(c) == p + |got'|
  {
    var items := ExtractDataItems(reply.data);
    RunGrows(full, p, got, items, if |items| >= remaining then remaining else |items|);
    assert items[..|items|] == items;
  }

  predicate RunFrom(full: seq<Json>, pos: string -> nat, p: nat, got: seq<Json>, cursor: string) {
    p + |got| <= |full| && got == full[p..p + |got|] && pos(cursor) == p + |got|
  }

  /** What is asked next, and what is known of the reply. */
  lemma {:induction false} HonestTurn(world: World, step: PagedStep, t: nat, args: Args, remaining: nat,
                                      full: seq<Json>, pos: string -> nat, counted: bool)
    returns (asked: Args, reply: Reply)
    requires Positional(world, full, pos) && step.count > 0 && args.count == step.count && (counted ==> Counted(world, step, full, pos))
    requires 1 <= remaining <= CAP_MAX && pos(args.cursor) <= |full|
    ensures asked == Asked(step, args, remaining) && asked.cursor == args.cursor && reply == world.broker(t, asked)
    ensures HonestReply(world, full, pos, asked, reply)
    ensures step.resumable && counted ==> |ExtractDataItems(reply.data)| <= remaining
  {
    asked := Asked(step, args, remaining);
    reply := world.broker(t, asked);
    assert HonestReply(world, full, pos, asked, reply);
    assert counted ==> Within(world, step, t, args.cursor, remaining);
  }

  lemma {:induction false} NextTurn(world: World, step: PagedStep, maxPages: nat, maxResults: nat, t: nat, args: Args,
                 got: seq<Json>, calls: seq<Call>, full: seq<Json>, pos: string -> nat, p: nat, counted: bool)
    returns (turn: Turn, calls': seq<Call>)
    requires Positional(world, full, pos) && step.count > 0 && args.count == step.count && (counted ==> Counted(world, step, full, pos))
    requires |got| < maxResults <= CAP_MAX && |calls| < maxPages
    requires RunFrom(full, pos, p, got, args.cursor)
    ensures |calls'| == |calls| + 1
    ensures turn.Stop? ==> Ends(step, counted, full, pos, p, maxResults, turn.outcome)
    ensures turn.More? ==> |got| < |turn.got| < maxResults && RunFrom(full, pos, p, turn.got, turn.cursor)
    ensures Pages(world, step, maxPages, maxResults, t, args, got, calls)
         == if turn.Stop? then Scan(turn.outcome, calls')
            else Pages(world, step, maxPages, maxResults, t, Args(turn.cursor, step.count), turn.got, calls')
  {
    var remaining := maxResults - |got|;
    var asked, reply := HonestTurn(world, step, t + |calls|, args, remaining, full, pos, counted);
    TurnRuns(world, step, remaining, got, asked, reply, full, pos, p);
    turn := TakePage(world, step, remaining, got, reply.data);
    calls' := calls + [Call(asked, remaining)];
    PagesUnfolds(world, step, maxPages, maxResults, t, args, got, calls, turn);
  }

  lemma {:induction false} PagesExact(world: World, step: PagedStep, maxPages: nat, maxResults: nat, t: nat, args: Args,
                                      got: seq<Json>, calls: seq<Call>, full: seq<Json>, pos: string -> nat, p: nat, counted: bool)
    requires Positional(world, full, pos) && step.count > 0 && args.count == step.count && (counted ==> Counted(world, step, full, pos))
    requires |got| < maxResults <= maxPages && maxResults <= CAP_MAX && |calls| <= |got|
    requires RunFrom(full, pos, p, got, args.cursor)
    ensures Ends(step, counted, full, pos, p, maxResults, Pages(world, step, maxPages, maxResults, t, args, got, calls).outcome)
    decreases maxResults - |got|
  {
    var turn, calls' := NextTurn(world, step, maxPages, maxResults, t, args, got, calls, full, pos, p, counted);
    if turn.More? {
      PagesExact(world, step, maxPages, maxResults, t, Args(turn.cursor, step.count), turn.got, calls', full, pos, p, counted);
    }
  }

  lemma {:induction false} CallEnds(
      world: World, step: PagedStep, maxPages: nat, params: Object, t: nat, full: seq<Json>, pos: string -> nat, counted: bool)
    requires Positional(world, full, pos) && step.count > 0 && (counted ==> Counted(world, step, full, pos))
    requires maxPages >= ResolveMaxResults(params) && pos(Seed(step, params)) <= |full|
    ensures Ends(step, counted, full, pos, pos(Seed(step, params)), ResolveMaxResults(params),
                 Fetch(world, step, maxPages, params, t).outcome)
  {
    PagesExact(world, step, maxPages, ResolveMaxResults(params), t, Args(Seed(step, params), step.count), [], [],
               full, pos, pos(Seed(step, params)), counted);
  }

  /** One call of a resumable tool returns exactly the rows from its cursor on; a broker that keeps to the
      count it is asked for gets a cursor whenever the call is truncated. */
  lemma {:induction false} CallExact(
      world: World, step: PagedStep, maxPages: nat, params: Object, t: nat, full: seq<Json>, pos: string -> nat)
    requires Positional(world, full, pos) && step.resumable && step.count > 0
    requires maxPages >= ResolveMaxResults(params)
    requires pos(Seed(step, params)) <= |full|
    ensures var p, n, o := pos(Seed(step, params)), ResolveMaxResults(params), Fetch(world, step, maxPages, params, t).outcome;
            RunOf(full, pos, p, n, o) && (Counted(world, step, full, pos) ==> ExactFrom(full, pos, p, n, o))
  {
    CallEnds(world, step, maxPages, params, t, full, pos, false);
    if Counted(world, step, full, pos) { CallEnds(world, step, maxPages, params, t, full, pos, true); }
  }

  /** One call of a tool that cannot be resumed returns the first rows of the list, says so whenever it
      leaves any out, and offers no cursor. */
  lemma {:induction false} PlainCallExact(
      world: World, step: PagedStep, maxPages: nat, params: Object, t: nat, full: seq<Json>, pos: string -> nat)
    requires Positional(world, full, pos) && !step.resumable && step.count > 0
    requires maxPages >= ResolveMaxResults(params)
    ensures var o := Fetch(world, step, maxPages, params, t).outcome;
            RunOf(full, pos, 0, ResolveMaxResults(params), o) && o.nextCursor == ""
  {
    CallEnds(world, step, maxPages, params, t, full, pos, false);
  }

  /** The parameters of a follow-up call: whatever the caller asks for, resumed at `cursor`. */
  function At(ask: Object, cursor: string): Object {
    if cursor == "" then ask - {"cursor"} else ask["cursor" := Str(cursor)]
  }

  /** One tool call: the caller's parameters, made as the t-th request. */
  type Tool = (Object, nat) -> Scan

  function ToolOf(world: World, step: PagedStep, maxPages: nat): Tool {
    (params: Object, t: nat) => Fetch(world, step, maxPages, params, t)
  }

  /** A caller that follows `nextCursor` for as long as it is given one and it has calls left to make. */
  function Chain(tool: Tool, cursor: string, asks: seq<Object>, t: nat): seq<Outcome>
    decreases |asks|
  {
    if asks == [] then [] else
      var s := tool(At(asks[0], cursor), t);
      if s.outcome.Fetched? && s.outcome.nextCursor != "" then
        [s.outcome] + Chain(tool, s.outcome.nextCursor, asks[1..], t + |s.calls|)
      else [s.outcome]
  }

  function Rows(chain: seq<Outcome>): seq<Json> {
    if chain == [] then [] else (if chain[0].Fetched? then chain[0].data else []) + Rows(chain[1..])
  }

  /** Each call starts where the one before it ended, up to one without a cursor or `calls` calls. */
  predicate Linked(full: seq<Json>, p: nat, calls: nat, c: seq<Outcome>)
    decreases |c|
  {
    if c == [] then calls == 0 && p <= |full|
    else
      var o := c[0];
      && calls > 0 && o.Fetched? && p + |o.data| <= |full| && o.data == full[p..p + |o.data|]
      && (!o.truncated ==> p + |o.data| == |full|)
      && if o.nextCursor != "" then o.truncated && o.data != [] && Linked(full, p + |o.data|, calls - 1, c[1..])
         else |c| == 1
  }

  /** The rows are a run of the list; every call but the last is truncated and has a cursor, and the last one
      has none unless the caller ran out of calls; if it is not truncated, the rows are the rest of the list. */
  predicate Gapless(full: seq<Json>, p: nat, calls: nat, c: seq<Outcome>) {
    && |c| <= calls && p <= |full|
    && (forall i | 0 <= i < |c| :: c[i].Fetched? && (i < |c| - 1 ==> c[i].truncated && c[i].nextCursor != ""))
    && Rows(c) <= full[p..]
    && (|c| > 0 && !c[|c| - 1].truncated ==> Rows(c) == full[p..])
    && (calls > |full| - p ==> |c| > 0 && c[|c| - 1].nextCursor == "")
  }

  lemma {:induction false} LinkedIsGapless(full: seq<Json>, p: nat, calls: nat, c: seq<Outcome>)
    requires Linked(full, p, calls, c)
    ensures Gapless(full, p, calls, c)
    decreases |c|
  {
    if c != [] {
      var o, rest := c[0], c[1..];
      assert c == [o] + rest;
      assert full[p..] == o.data + full[p + |o.data|..];
      if o.nextCursor != "" {
        LinkedIsGapless(full, p + |o.data|, calls - 1, rest);
        assert rest != [] ==> c[|c| - 1] == rest[|rest| - 1];
      } else {
        assert rest == [] && Rows(rest) == [];
      }
    }
  }

  /** No call is truncated without a cursor. */
  predicate Cursored(c: seq<Outcome>) {
    forall i | 0 <= i < |c| && c[i].Fetched? && c[i].truncated :: c[i].nextCursor != ""
  }

  /** Every call answers as `Ends` says, wherever its cursor points. */
  ghost predicate EveryCallEnds(tool: Tool, step: PagedStep, counted: bool, full: seq<Json>, pos: string -> nat) {
    forall params: Object, t: nat
      {:trigger Ends(step, counted, full, pos, pos(Seed(step, params)), ResolveMaxResults(params), tool(params, t).outcome)}
      | pos(Seed(step, params)) <= |full| ::
      Ends(step, counted, full, pos, pos(Seed(step, params)), ResolveMaxResults(params), tool(params, t).outcome)
  }

  lemma {:induction false} FirstCall(
      tool: Tool, step: PagedStep, counted: bool, ask: Object, cursor: string, t: nat, full: seq<Json>, pos: string -> nat)
    returns (maxResults: nat)
    requires EveryCallEnds(tool, step, counted, full, pos) && step.resumable
    requires pos(cursor) <= |full|
    ensures maxResults >= 1 && Ends(step, counted, full, pos, pos(cursor), maxResults, tool(At(ask, cursor), t).outcome)
  {
    var params := At(ask, cursor);
    assert Seed(step, params) == cursor;
    maxResults := ResolveMaxResults(params);
    assert Ends(step, counted, full, pos, pos(Seed(step, params)), maxResults, tool(params, t).outcome);
  }

  lemma {:induction false} ChainUnfolds(tool: Tool, cursor: string, asks: seq<Object>, t: nat, s: Scan)
    requires asks != [] && s == tool(At(asks[0], cursor), t) && s.outcome.Fetched?
    ensures Chain(tool, cursor, asks, t)
         == if s.outcome.nextCursor == "" then [s.outcome]
            else [s.outcome] + Chain(tool, s.outcome.nextCursor, asks[1..], t + |s.calls|)
  {
  }

  lemma {:induction false} LinkedMore(full: seq<Json>, p: nat, calls: nat, o: Outcome, rest: seq<Outcome>)
    requires calls > 0 && o.Fetched? && o.truncated && o.nextCursor != "" && o.data != []
    requires p + |o.data| <= |full| && o.data == full[p..p + |o.data|] && Linked(full, p + |o.data|, calls - 1, rest)
    ensures Linked(full, p, calls, [o] + rest)
    ensures Cursored(rest) ==> Cursored([o] + rest)
  {
    assert ([o] + rest)[1..] == rest;
    assert forall i | 0 < i < |[o] + rest| :: ([o] + rest)[i] == rest[i - 1];
  }

  lemma {:induction false} ChainLinked(tool: Tool, step: PagedStep, counted: bool, cursor: string, asks: seq<Object>, t: nat,
                                       full: seq<Json>, pos: string -> nat)
    requires EveryCallEnds(tool, step, counted, full, pos) && step.resumable
    requires pos(cursor) <= |full|
    ensures Linked(full, pos(cursor), |asks|, Chain(tool, cursor, asks, t))
    ensures counted ==> Cursored(Chain(tool, cursor, asks, t))
    decreases |asks|
  {
    if asks != [] {
      var maxResults := FirstCall(tool, step, counted, asks[0], cursor, t, full, pos);
      var s := tool(At(asks[0], cursor), t);
      ChainUnfolds(tool, cursor, asks, t, s);
      if s.outcome.nextCursor != "" {
        var rest := Chain(tool, s.outcome.nextCursor, asks[1..], t + |s.calls|);
        ChainLinked(tool, step, counted, s.outcome.nextCursor, asks[1..], t + |s.calls|, full, pos);
        LinkedMore(full, pos(cursor), |asks|, s.outcome, rest);
      }
    }
  }

  lemma {:induction false} ToolEnds(world: World, step: PagedStep, maxPages: nat, full: seq<Json>, pos: string -> nat, counted: bool)
    requires Positional(world, full, pos) && step.count > 0 && maxPages >= CAP_MAX && (counted ==> Counted(world, step, full, pos))
    ensures EveryCallEnds(ToolOf(world, step, maxPages), step, counted, full, pos)
  {
    forall params: Object, t: nat | pos(Seed(step, params)) <= |full|
      ensures Ends(step, counted, full, pos, pos(Seed(step, params)), ResolveMaxResults(params),
                   ToolOf(world, step, maxPages)(params, t).outcome)
    {
      CallEnds(world, step, maxPages, params, t, full, pos, counted);
    }
  }

  /** Resumable scans lose and repeat nothing. Whatever each call asks for and however long the broker's pages,
      the rows returned are a run of the list from the first cursor on; every call but the last says truncated;
      and given as many calls as there are rows left plus one, the last offers no cursor. A broker that keeps
      to the count it is asked for has then returned the whole rest of the list. */
  lemma {:induction false} ChainExact(world: World, step: PagedStep, maxPages: nat, cursor: string, asks: seq<Object>, t: nat,
                   full: seq<Json>, pos: string -> nat)
    requires Positional(world, full, pos) && step.resumable && step.count > 0 && maxPages >= CAP_MAX
    requires pos(cursor) <= |full|
    ensures var c := Chain(ToolOf(world, step, maxPages), cursor, asks, t);
            && Gapless(full, pos(cursor), |asks|, c)
            && (Counted(world, step, full, pos) ==> Cursored(c))
            && (Counted(world, step, full, pos) && |asks| > |full| - pos(cursor) ==> Rows(c) == full[pos(cursor)..])
  {
    var tool := ToolOf(world, step, maxPages);
    ToolEnds(world, step, maxPages, full, pos, false);
    ChainLinked(tool, step, false, cursor, asks, t, full, pos);
    LinkedIsGapless(full, pos(cursor), |asks|, Chain(tool, cursor, asks, t));
    if Counted(world, step, full, pos) {
      ToolEnds(world, step, maxPages, full, pos, true);
      ChainLinked(tool, step, true, cursor, asks, t, full, pos);
    }
  }

  predicate OffersCursor(o: Outcome) {
    o.Fetched? && o.truncated ==> o.nextCursor != ""
  }

  ghost predicate AlwaysOffersCursor(world: World, step: PagedStep, maxPages: nat, full: seq<Json>, pos: string -> nat) {
    forall params: Object, t: nat {:trigger Fetch(world, step, maxPages, params, t)} | pos(Seed(step, params)) <= |full| ::
      OffersCursor(Fetch(world, step, maxPages, params, t).outcome)
  }

  /** The call for `n` rows from `cursor`. */
  function WantingFrom(cursor: string, n: nat): Object {
    At(map["maxResults" := Number(n as real)], cursor)
  }

  /** If a reply is larger than that call still wants, it is truncated and has no cursor. */
  lemma {:induction false} LargeReply(world: World, step: PagedStep, maxPages: nat, t: nat, cursor: string, n: nat)
    requires step.resumable && maxPages > 0 && 1 <= n <= CAP_MAX && !Within(world, step, t, cursor, n)
    ensures Seed(step, WantingFrom(cursor, n)) == cursor
    ensures !OffersCursor(Fetch(world, step, maxPages, WantingFrom(cursor, n), t).outcome)
  {
    var params, args := WantingFrom(cursor, n), Args(cursor, step.count);
    assert params["maxResults"] == Number(n as real) && ResolveMaxResults(params) == n;
    var reply := world.broker(t, Asked(step, args, n));
    PagesUnfolds(world, step, maxPages, n, t, args, [], [], TakePage(world, step, n, [], reply.data));
  }

  /** Every truncated call of a resumable step offers a cursor exactly if no reply is larger than its call
      still wants. */
  lemma {:induction false} CursorIffCounted(world: World, step: PagedStep, maxPages: nat, full: seq<Json>, pos: string -> nat)
    requires Positional(world, full, pos) && step.resumable && step.count > 0 && maxPages >= CAP_MAX
    ensures AlwaysOffersCursor(world, step, maxPages, full, pos) <==> Counted(world, step, full, pos)
  {
    if Counted(world, step, full, pos) {
      forall params: Object, t: nat | pos(Seed(step, params)) <= |full|
        ensures OffersCursor(Fetch(world, step, maxPages, params, t).outcome)
      {
        CallExact(world, step, maxPages, params, t, full, pos);
      }
    } else {
      var t: nat, cursor: string, n: nat :| pos(cursor) <= |full| && 1 <= n <= CAP_MAX && !Within(world, step, t, cursor, n);
      LargeReply(world, step, maxPages, t, cursor, n);
    }
  }

  /** A broker that ignores the count: it answers a first request with the whole list. */
  function Greedy(full: seq<Json>): World {
    World((t: nat, args: Args) => Answer(map["data" := Arr(if args.cursor == "" then full else [])]), (uri: string) => None)
  }

  /** Against it a caller that wants fewer rows gets them, is told there are more, and is offered no cursor,
      however many calls it has left to make. */
  lemma {:induction false} GreedyEndsTruncated(step: PagedStep, maxPages: nat, ask: Object, asks: seq<Object>, t: nat, full: seq<Json>)
    requires step.resumable && maxPages >= CAP_MAX
    requires |full| > ResolveMaxResults(At(ask, ""))
    ensures Positional(Greedy(full), full, c => if c == "" then 0 else |full|)
    ensures Chain(ToolOf(Greedy(full), step, maxPages), "", [ask] + asks, t) ==
            [Fetched(full[..ResolveMaxResults(At(ask, ""))], true, false, "")]
  {
    var world, params := Greedy(full), At(ask, "");
    var n := ResolveMaxResults(params);
    var asked := Asked(step, Args("", step.count), n);
    assert Seed(step, params) == "";
    var reply := world.broker(t, asked);
    assert ExtractDataItems(reply.data) == full && ExtractNextPageURI(reply.data) == "";
    var turn := TakePage(world, step, n, [], reply.data);
    assert turn == Stop(Fetched(full[..n], true, false, "")) by { assert [] + full[..n] == full[..n]; }
    PagesUnfolds(world, step, maxPages, n, t, Args("", step.count), [], [], turn);
    ChainUnfolds(ToolOf(world, step, maxPages), "", [ask] + asks, t, Fetch(world, step, maxPages, params, t));
  }

  // ---------------------------------------------------------------------------------------------
  // The step result
  // ---------------------------------------------------------------------------------------------

  /** The map `fetchPaginated` returns for a finished scan. */
  function Assemble(w: Wording, o: Outcome, maxResults: nat, maxPages: nat, resumed: bool): (r: Object)
    requires o.Fetched?
    ensures r.Keys <= {"data", "truncated", "resumed", "nextCursor", "truncatedMessage"}
    ensures "data" in r && r["data"] == Arr(o.data)
    ensures "truncated" in r && r["truncated"] == Bool(o.truncated)
    ensures "nextCursor" in r <==> o.truncated && o.nextCursor != ""
    ensures "truncatedMessage" in r <==> o.truncated
    ensures "truncatedMessage" in r ==> r["truncatedMessage"].Str?
    ensures o.truncated && o.nextCursor != "" ==> r["truncatedMessage"] == Str(w.limitedTo(maxResults) + w.cursorAdvice)
    ensures o.truncated && o.nextCursor == "" && o.pageLimitHit ==> r["truncatedMessage"] == Str(w.pageCap(maxPages))
    ensures o.truncated && o.nextCursor == "" && !o.pageLimitHit && maxResults >= CAP_MAX ==>
              r["truncatedMessage"] == Str(w.capReached(CAP_MAX))
    ensures o.truncated && o.nextCursor == "" && !o.pageLimitHit && maxResults < CAP_MAX ==>
              r["truncatedMessage"] == Str(w.limitedTo(maxResults) + w.maxResultsAdvice)
    ensures "nextCursor" in r ==> r["nextCursor"] == Str(o.nextCursor)
    ensures "resumed" in r <==> resumed
    ensures "resumed" in r ==> r["resumed"] == Bool(true)
  {
    var base: Object := map["data" := Arr(o.data), "truncated" := Bool(o.truncated)];
    var seeded := if resumed then base["resumed" := Bool(true)] else base;
    if !o.truncated then seeded
    else if o.nextCursor != "" then
      seeded["nextCursor" := Str(o.nextCursor)]["truncatedMessage" := Str(w.limitedTo(maxResults) + w.cursorAdvice)]
    else if o.pageLimitHit then seeded["truncatedMessage" := Str(w.pageCap(maxPages))]
    else if maxResults >= CAP_MAX then seeded["truncatedMessage" := Str(w.capReached(CAP_MAX))]
    else seeded["truncatedMessage" := Str(w.limitedTo(maxResults) + w.maxResultsAdvice)]
  }
}
