/** The size valve and the cursor protocol together: a page the valve cut short can be paged on from,
    without losing or repeating a row, by following the advice the valve leaves in the step. */
module Resume {
  import opened Json
  import opened Options
  import opened Pagination
  import Notes
  import Text
  import Valve

  /** A repeated call returns exactly the first rows of an earlier one and says there are more; any cursor it
      offers points right after the last of them, and a broker that keeps to the count it is asked for gets one. */
  predicate Repeats(o: Outcome, earlier: Outcome, counted: bool, pos: string -> nat, p: nat, m: nat)
    requires earlier.Fetched?
  {
    && o.Fetched? && m <= |earlier.data|
    && o.data == earlier.data[..m] && o.truncated
    && (o.nextCursor != "" ==> pos(o.nextCursor) == p + m)
    && (counted ==> o.nextCursor != "")
  }

  lemma {:induction false} RunRepeats(
      o: Outcome, o': Outcome, counted: bool, full: seq<Json>, pos: string -> nat, p: nat, n: nat, m: nat)
    requires RunOf(full, pos, p, n, o) && RunOf(full, pos, p, m, o') && (counted ==> ExactFrom(full, pos, p, m, o'))
    requires m < |o.data|
    ensures Repeats(o', o, counted, pos, p, m)
  {
    assert full[p..p + m] == full[p..p + |o.data|][..m];
  }

  lemma {:induction false} SmallerCallRepeats(
      world: World, step: PagedStep, maxPages: nat, params: Object, t: nat, again: Object, t': nat,
      full: seq<Json>, pos: string -> nat, kept: nat)
    requires Positional(world, full, pos) && step.resumable && step.count > 0 && maxPages >= CAP_MAX
    requires pos(Seed(step, params)) <= |full|
    requires Seed(step, again) == Seed(step, params)
    requires var o := Fetch(world, step, maxPages, params, t).outcome; o.Fetched? ==> kept < |o.data|
    requires ResolveMaxResults(again) <= kept
    ensures Fetch(world, step, maxPages, params, t).outcome.Fetched?
    ensures Repeats(Fetch(world, step, maxPages, again, t').outcome, Fetch(world, step, maxPages, params, t).outcome,
                    Counted(world, step, full, pos), pos, pos(Seed(step, params)), ResolveMaxResults(again))
  {
    CallExact(world, step, maxPages, params, t, full, pos);
    CallExact(world, step, maxPages, again, t', full, pos);
    RunRepeats(Fetch(world, step, maxPages, params, t).outcome, Fetch(world, step, maxPages, again, t').outcome,
               Counted(world, step, full, pos), full, pos, pos(Seed(step, params)), ResolveMaxResults(params), ResolveMaxResults(again));
  }

  /** When the valve cuts a resumable step, it keeps a proper prefix of the rows fetched and no cursor;
      and if it kept any row, repeating the call with the same cursor and any smaller maxResults, at any
      later time, returns the first of exactly those rows, and a cursor, if the broker keeps to the count it
      is asked for, that resumes right after them. */
  lemma {:induction false} TrimThenResume(world: World, step: PagedStep, maxPages: nat, params: Object, t: nat,
                       full: seq<Json>, pos: string -> nat,
                       setting: Valve.Setting, out: Object, order: seq<string>, size: nat, id: string, resumed: bool)
    returns (kept: nat)
    requires Positional(world, full, pos) && step.resumable && step.count > 0 && maxPages >= CAP_MAX
    requires pos(Seed(step, params)) <= |full|
    requires var o := Fetch(world, step, maxPages, params, t).outcome;
             o.Fetched? && id in out &&
             out[id] == Obj(Assemble(setting.wording, o, ResolveMaxResults(params), maxPages, resumed))
    requires Text.Distinct(order)
    requires var report := Valve.BoundResponse(setting, out, order, size).1; report.truncated && id in report.trimmedSteps
    ensures var o := Fetch(world, step, maxPages, params, t).outcome;
            var out' := Valve.BoundResponse(setting, out, order, size).0;
            && kept < |o.data|
            && id in out' && out'[id].Obj?
            && "nextCursor" !in out'[id].fields
            && "data" in out'[id].fields && out'[id].fields["data"] == Arr(o.data[..kept])
            && (forall again, t' | Seed(step, again) == Seed(step, params) && ResolveMaxResults(again) <= kept ::
                  Repeats(Fetch(world, step, maxPages, again, t').outcome, o, Counted(world, step, full, pos), pos, pos(Seed(step, params)),
                          ResolveMaxResults(again)))
  {
    var o := Fetch(world, step, maxPages, params, t).outcome;
    var c, k := Valve.TrimmedStepIs(setting, out, order, size, id);
    kept := k;
    Valve.TrimmedStepFields(setting, c, kept);
    forall again, t' | Seed(step, again) == Seed(step, params) && ResolveMaxResults(again) <= kept
      ensures Repeats(Fetch(world, step, maxPages, again, t').outcome, o, Counted(world, step, full, pos), pos, pos(Seed(step, params)),
                      ResolveMaxResults(again))
    {
      SmallerCallRepeats(world, step, maxPages, params, t, again, t', full, pos, kept);
    }
  }

  // ---------------------------------------------------------------------------------------------
  // A caller that pages through the list
  // ---------------------------------------------------------------------------------------------

  /** What may differ from one call to the next: when it is made, what the caller asks for, the valve's
      setting, the rest of the result, the order its keys are visited in, and its size. */
  datatype Round = Round(
    at: nat, ask: Object, setting: Valve.Setting, others: Object, order: seq<string>, size: nat)

  /** A tool call as its caller sees it: the resumable step of the result, once the valve is done with it. */
  type View = (Round, Object) -> Option<Object>

  /** The result of a call before the valve: the scan's step beside whatever else there is. */
  function Unbounded(step: PagedStep, maxPages: nat, id: string, round: Round, params: Object, o: Outcome): Object
    requires o.Fetched?
  {
    round.others[id := Obj(Assemble(round.setting.wording, o, ResolveMaxResults(params), maxPages, Seed(step, params) != ""))]
  }

  function Seen(world: World, step: PagedStep, maxPages: nat, id: string, round: Round, params: Object): Option<Object> {
    var o := Fetch(world, step, maxPages, params, round.at).outcome;
    if o.Broken? then None
    else
      var out := Valve.BoundResponse(round.setting, Unbounded(step, maxPages, id, round, params, o), round.order, round.size).0;
      if id in out && out[id].Obj? then Some(out[id].fields) else None
  }

  function ViewOf(world: World, step: PagedStep, maxPages: nat, id: string): View {
    (round: Round, params: Object) => Seen(world, step, maxPages, id, round, params)
  }

  predicate Trimmed(page: Object) {
    "omittedItems" in page
  }

  predicate Incomplete(page: Object) {
    "truncated" in page && page["truncated"] == Bool(true)
  }

  /** The same request for no more than `cap` rows. */
  function Capped(ask: Object, cap: nat): (r: Object)
    ensures 1 <= cap <= CAP_MAX ==> ResolveMaxResults(r) <= cap
  {
    if ResolveMaxResults(ask) <= cap then ask else ask["maxResults" := Number(cap as real)]
  }

  datatype End = Done | NoCursor | NoRowsKept | Refused | OutOfCalls

  datatype Trail = Trail(rows: seq<Json>, end: End)

  /** A caller that does as it is told. A trimmed page that kept rows it drops, and repeats the call with the
      same cursor and no more rows than were kept; any other page it keeps, and follows its cursor. */
  function Follow(view: View, cursor: string, cap: nat, rounds: seq<Round>): Trail
    decreases |rounds|
  {
    if rounds == [] then Trail([], OutOfCalls)
    else
      match view(rounds[0], At(Capped(rounds[0].ask, cap), cursor))
      case None => Trail([], Refused)
      case Some(page) =>
        var rows := ArrayAt(page, "data");
        if Trimmed(page) then
          if rows == [] then Trail([], NoRowsKept) else Follow(view, cursor, |rows|, rounds[1..])
        else
          var next := StringAt(page, "nextCursor");
          if next == "" then Trail(rows, if Incomplete(page) then NoCursor else Done)
          else
            var rest := Follow(view, next, CAP_MAX, rounds[1..]);
            Trail(rows + rest.rows, rest.end)
  }

  /** A page of a call at position `p` for `n` rows: trimmed to fewer than `n`, or exactly the rows from `p` on
      with a cursor right behind the last of them, or none if they are the rest of the list or the page says
      it is incomplete; and that only if the broker does not keep to the count it is asked for. */
  predicate PageAt(full: seq<Json>, counted: bool, pos: string -> nat, p: nat, n: nat, page: Object) {
    var rows, next := ArrayAt(page, "data"), StringAt(page, "nextCursor");
    if Trimmed(page) then |rows| < n
    else
      && p + |rows| <= |full| && rows == full[p..p + |rows|]
      && (if next != "" then rows != [] && pos(next) == p + |rows|
          else if Incomplete(page) then !counted else p + |rows| == |full|)
  }

  /** A scan's step as it is shows such a page. */
  lemma {:induction false} WholePage(
      full: seq<Json>, counted: bool, pos: string -> nat, p: nat, n: nat, o: Outcome, w: Notes.Wording, maxPages: nat, resumed: bool)
    requires n > 0 && RunOf(full, pos, p, n, o) && (counted ==> ExactFrom(full, pos, p, n, o))
    ensures PageAt(full, counted, pos, p, n, Assemble(w, o, n, maxPages, resumed))
  {
  }

  lemma {:induction false} PageSeen(
      world: World, step: PagedStep, maxPages: nat, id: string, round: Round, params: Object, full: seq<Json>, pos: string -> nat)
    requires Positional(world, full, pos) && step.resumable && step.count > 0 && maxPages >= CAP_MAX
    requires Text.Distinct(round.order) && pos(Seed(step, params)) <= |full|
    ensures var page := Seen(world, step, maxPages, id, round, params);
            page.Some? && PageAt(full, Counted(world, step, full, pos), pos, pos(Seed(step, params)), ResolveMaxResults(params), page.value)
  {
    var n, p := ResolveMaxResults(params), pos(Seed(step, params));
    var o := Fetch(world, step, maxPages, params, round.at).outcome;
    CallExact(world, step, maxPages, params, round.at, full, pos);
    WholePage(full, Counted(world, step, full, pos), pos, p, n, o, round.setting.wording, maxPages, Seed(step, params) != "");
    ValveShows(round.setting, Unbounded(step, maxPages, id, round, params, o), round.order, round.size, id);
  }

  /** A step the valve has cut: flagged, and with fewer rows. */
  predicate Cut(before: Json, after: Json) {
    before.Obj? && after.Obj? && Trimmed(after.fields) && |ArrayAt(after.fields, "data")| < |ArrayAt(before.fields, "data")|
  }

  lemma {:induction false} CutOfIsCut(setting: Valve.Setting, c: Valve.Candidate, keep: nat)
    requires keep < |c.items| && "data" in c.step && c.step["data"] == Arr(c.items)
    ensures Cut(Obj(c.step), Valve.CutOf(setting)(c, keep))
  {
    Valve.TrimmedStepFields(setting, c, keep);
  }

  /** The valve shows a step as it was, or cut. */
  lemma {:induction false} ValveShows(setting: Valve.Setting, out: Object, order: seq<string>, size: nat, id: string)
    requires Text.Distinct(order) && id in out
    ensures var out' := Valve.BoundResponse(setting, out, order, size).0;
            id in out' && (out'[id] == out[id] || Cut(out[id], out'[id]))
  {
    var bound := Valve.BoundResponse(setting, out, order, size);
    if bound.1.truncated {
      var keep := Valve.ValveTrims(setting, out, order, size);
      if id in bound.1.trimmedSteps {
        var c, kept := Valve.TrimmedStepIs(setting, out, order, size, id);
        CutOfIsCut(setting, c, kept);
      }
    } else {
      Valve.UntouchedWhen(setting, out, order, size);
    }
  }

  /** Every call shows a page as `PageAt` says, wherever its cursor points. */
  ghost predicate ShowsPages(
      view: View, step: PagedStep, counted: bool, full: seq<Json>, pos: string -> nat, rounds: seq<Round>) {
    forall i: nat, params: Object {:trigger view(rounds[i], params)} | i < |rounds| && pos(Seed(step, params)) <= |full| ::
      var page := view(rounds[i], params);
      page.Some? && PageAt(full, counted, pos, pos(Seed(step, params)), ResolveMaxResults(params), page.value)
  }

  lemma {:induction false} FirstPage(
      view: View, step: PagedStep, counted: bool, cursor: string, cap: nat, rounds: seq<Round>, full: seq<Json>, pos: string -> nat)
    returns (page: Object)
    requires ShowsPages(view, step, counted, full, pos, rounds) && step.resumable && rounds != []
    requires pos(cursor) <= |full| && 1 <= cap <= CAP_MAX
    ensures view(rounds[0], At(Capped(rounds[0].ask, cap), cursor)) == Some(page)
    ensures PageAt(full, counted, pos, pos(cursor), cap, page)
  {
    var ask := Capped(rounds[0].ask, cap);
    var params := At(ask, cursor);
    assert Seed(step, params) == cursor;
    assert ResolveMaxResults(params) == ResolveMaxResults(ask);
    page := view(rounds[0], params).value;
  }

  /** What the caller ends up with after a page, given what repeating the call and following the cursor come to. */
  function AfterPage(page: Object, again: Trail, on: Trail): Trail {
    var rows := ArrayAt(page, "data");
    if Trimmed(page) then if rows == [] then Trail([], NoRowsKept) else again
    else if StringAt(page, "nextCursor") == "" then Trail(rows, if Incomplete(page) then NoCursor else Done)
    else Trail(rows + on.rows, on.end)
  }

  lemma {:induction false} FollowUnfolds(view: View, cursor: string, cap: nat, rounds: seq<Round>, page: Object)
    requires rounds != [] && view(rounds[0], At(Capped(rounds[0].ask, cap), cursor)) == Some(page)
    ensures Follow(view, cursor, cap, rounds) ==
            AfterPage(page, Follow(view, cursor, |ArrayAt(page, "data")|, rounds[1..]),
                      Follow(view, StringAt(page, "nextCursor"), CAP_MAX, rounds[1..]))
  {
  }

  /** The rows are a run of the list; they are the rest of it when the caller is done; and with enough calls
      it is done, unless the valve once kept no row at all or a page had neither a cursor nor all the rows. */
  predicate Complete(full: seq<Json>, counted: bool, p: nat, enough: bool, t: Trail) {
    && p + |t.rows| <= |full| && t.rows == full[p..p + |t.rows|]
    && (t.end.Done? ==> p + |t.rows| == |full|)
    && !t.end.Refused? && (counted ==> !t.end.NoCursor?)
    && (enough ==> !t.end.OutOfCalls?)
  }

  /** Calls enough: up to `CAP_MAX` for each row left, and `cap` for the page the caller is at. */
  predicate Enough(calls: nat, left: int, cap: nat) {
    calls >= CAP_MAX * left + cap
  }

  lemma {:induction false} CompleteMore(full: seq<Json>, counted: bool, p: nat, rows: seq<Json>, enough: bool, later: bool, t: Trail)
    requires p + |rows| <= |full| && rows == full[p..p + |rows|]
    requires Complete(full, counted, p + |rows|, later, t) && (enough ==> later)
    ensures Complete(full, counted, p, enough, Trail(rows + t.rows, t.end))
  {
    RunGrows(full, p, rows, t.rows, |t.rows|);
    assert t.rows[..|t.rows|] == t.rows;
  }

  lemma {:induction false} ShowsLater(view: View, step: PagedStep, counted: bool, full: seq<Json>, pos: string -> nat, rounds: seq<Round>)
    requires ShowsPages(view, step, counted, full, pos, rounds) && rounds != []
    ensures ShowsPages(view, step, counted, full, pos, rounds[1..])
  {
    assert forall i: nat | i < |rounds[1..]| :: rounds[1..][i] == rounds[i + 1];
  }

  /** A repeated call for fewer rows leaves calls enough. */
  lemma {:induction false} EnoughAgain(full: seq<Json>, counted: bool, p: nat, calls: nat, cap: nat, kept: nat, t: Trail)
    requires calls > 0 && kept < cap && Complete(full, counted, p, Enough(calls - 1, |full| - p, kept), t)
    ensures Complete(full, counted, p, Enough(calls, |full| - p, cap), t)
  {
  }

  /** So does a page with rows in it. */
  lemma {:induction false} EnoughNext(full: seq<Json>, counted: bool, p: nat, calls: nat, cap: nat, rows: seq<Json>, t: Trail)
    requires calls > 0 && cap >= 1 && rows != [] && p + |rows| <= |full| && rows == full[p..p + |rows|]
    requires Complete(full, counted, p + |rows|, Enough(calls - 1, |full| - (p + |rows|), CAP_MAX), t)
    ensures Complete(full, counted, p, Enough(calls, |full| - p, cap), Trail(rows + t.rows, t.end))
  {
    CompleteMore(full, counted, p, rows, Enough(calls, |full| - p, cap), Enough(calls - 1, |full| - (p + |rows|), CAP_MAX), t);
  }

  lemma {:induction false} PageComplete(
      full: seq<Json>, counted: bool, pos: string -> nat, p: nat, cap: nat, calls: nat, page: Object, again: Trail, on: Trail)
    requires p <= |full| && cap >= 1 && calls > 0 && PageAt(full, counted, pos, p, cap, page)
    requires var rows, next := ArrayAt(page, "data"), StringAt(page, "nextCursor");
             && (Trimmed(page) && rows != [] ==> Complete(full, counted, p, Enough(calls - 1, |full| - p, |rows|), again))
             && (!Trimmed(page) && next != "" ==> Complete(full, counted, pos(next), Enough(calls - 1, |full| - pos(next), CAP_MAX), on))
    ensures Complete(full, counted, p, Enough(calls, |full| - p, cap), AfterPage(page, again, on))
  {
    var rows := ArrayAt(page, "data");
    if Trimmed(page) {
      if rows != [] { EnoughAgain(full, counted, p, calls, cap, |rows|, again); }
    } else if StringAt(page, "nextCursor") != "" {
      EnoughNext(full, counted, p, calls, cap, rows, on);
    }
  }

  lemma {:induction false} FollowComplete(
      view: View, step: PagedStep, counted: bool, cursor: string, cap: nat, rounds: seq<Round>, full: seq<Json>, pos: string -> nat)
    requires ShowsPages(view, step, counted, full, pos, rounds) && step.resumable
    requires pos(cursor) <= |full| && 1 <= cap <= CAP_MAX
    ensures Complete(full, counted, pos(cursor), Enough(|rounds|, |full| - pos(cursor), cap), Follow(view, cursor, cap, rounds))
    decreases |rounds|
  {
    if rounds != [] {
      var page := FirstPage(view, step, counted, cursor, cap, rounds, full, pos);
      var rows, next, rest := ArrayAt(page, "data"), StringAt(page, "nextCursor"), rounds[1..];
      FollowUnfolds(view, cursor, cap, rounds, page);
      ShowsLater(view, step, counted, full, pos, rounds);
      if Trimmed(page) {
        if rows != [] { FollowComplete(view, step, counted, cursor, |rows|, rest, full, pos); }
      } else if next != "" {
        FollowComplete(view, step, counted, next, CAP_MAX, rest, full, pos);
      }
      PageComplete(full, counted, pos, pos(cursor), cap, |rounds|, page, Follow(view, cursor, |rows|, rest), Follow(view, next, CAP_MAX, rest));
    }
  }

  /** Paging through a list with the valve in the way loses and repeats nothing. Whatever each call asks for,
      whatever else is in its result and wherever the valve cuts, a caller that does as the results say
      collects a run of the list from its first cursor on; when it is done it has the rest of the list; and
      given 500 calls for each row left and 500 more it is done, unless the valve once kept no row at all or
      the broker returned more rows than it was asked for. */
  lemma {:induction false} FollowGapless(
      world: World, step: PagedStep, maxPages: nat, id: string, cursor: string, rounds: seq<Round>, full: seq<Json>, pos: string -> nat)
    requires Positional(world, full, pos) && step.resumable && step.count > 0 && maxPages >= CAP_MAX
    requires pos(cursor) <= |full|
    requires forall i | 0 <= i < |rounds| :: Text.Distinct(rounds[i].order)
    ensures Complete(full, Counted(world, step, full, pos), pos(cursor), Enough(|rounds|, |full| - pos(cursor), CAP_MAX),
                     Follow(ViewOf(world, step, maxPages, id), cursor, CAP_MAX, rounds))
  {
    var view := ViewOf(world, step, maxPages, id);
    forall i: nat, params: Object | i < |rounds| && pos(Seed(step, params)) <= |full|
      ensures var page := view(rounds[i], params);
              page.Some? && PageAt(full, Counted(world, step, full, pos), pos, pos(Seed(step, params)), ResolveMaxResults(params), page.value)
    {
      PageSeen(world, step, maxPages, id, rounds[i], params, full, pos);
    }
    FollowComplete(view, step, Counted(world, step, full, pos), cursor, CAP_MAX, rounds, full, pos);
  }
}
