/** What the executor makes of a broker's answers, step by step, and how it compares with the declared schema. */
module Conformance {
  import opened Json
  import opened Options
  import opened Schema
  import opened Results
  import B = Batches
  import F = FanOut
  import Notes
  import P = Pagination
  import Text
  import V = Valve

  /** A SEMP envelope with conforming data. */
  predicate GoodEnvelope(env: Object, item: Schema) {
    "data" in env && Valid(env["data"], item) && ("meta" in env ==> env["meta"].Obj?)
  }

  predicate AllValid(rows: seq<Json>, item: Schema) {
    forall i | 0 <= i < |rows| :: Valid(rows[i], item)
  }

  /** A map `fetchPaginated` or the valve may return: rows of the item schema, and bookkeeping of the
      right types under known names. */
  ghost predicate GoodPage(r: Object, item: Schema, resumable: bool) {
    && r.Keys <= {"data", "truncated", "truncatedMessage", "omittedItems"} + (if resumable then {"nextCursor", "resumed"} else {})
    && "data" in r && r["data"].Arr? && AllValid(r["data"].items, item)
    && "truncated" in r && r["truncated"].Bool?
    && ("truncatedMessage" in r ==> r["truncatedMessage"].Str?)
    && ("omittedItems" in r ==> Typed(r["omittedItems"], TInteger))
    && ("nextCursor" in r ==> r["nextCursor"].Str?)
    && ("resumed" in r ==> r["resumed"].Bool?)
  }

  // ---------------------------------------------------------------------------------------------
  // What the broker answers, and what the executor makes of it
  // ---------------------------------------------------------------------------------------------

  predicate AllResources(rows: seq<Json>, fields: map<string, Type>, required: seq<string>) {
    forall i | 0 <= i < |rows| :: Resource(rows[i], fields, required)
  }

  /** An answer as a broker that keeps to its specification gives it: a described resource, or an array of them
      from a list operation, and metadata that is an object if it is there at all. Of an operation whose
      response could not be resolved nothing is known. */
  predicate Honest(env: Object, op: Operation, required: seq<string>) {
    op.fields.Some? ==>
      && "data" in env
      && (if op.list then env["data"].Arr? && AllResources(env["data"].items, op.fields.value, required)
          else Resource(env["data"], op.fields.value, required))
      && ("meta" in env ==> env["meta"].Obj?)
  }

  /** Every answer of this broker to this operation is such an answer. */
  ghost predicate HonestWorld(world: P.World, op: Operation, required: seq<string>) {
    forall t, args {:trigger world.broker(t, args)} | world.broker(t, args).Answer? ::
      Honest(world.broker(t, args).data, op, required)
  }

  /** Every row it ever lists is a described resource. */
  ghost predicate HonestRows(world: P.World, fields: map<string, Type>, required: seq<string>) {
    forall t, args {:trigger world.broker(t, args)} | world.broker(t, args).Answer? ::
      AllResources(P.ExtractDataItems(world.broker(t, args).data), fields, required)
  }

  /** One paginated call: the wording, the broker, the step, the page cap, the caller's parameters, the time. */
  datatype Scanned = Scanned(
    wording: Notes.Wording, world: P.World, step: P.PagedStep, maxPages: nat, params: Object, t: nat)

  function OutcomeOf(c: Scanned): P.Outcome {
    P.Fetch(c.world, c.step, c.maxPages, c.params, c.t).outcome
  }

  /** `r` is what this call of `fetchPaginated` returns. */
  ghost predicate ScanReturns(c: Scanned, resumable: bool, r: Object) {
    && c.step.resumable == resumable && OutcomeOf(c).Fetched?
    && r == P.Assemble(c.wording, OutcomeOf(c), P.ResolveMaxResults(c.params), c.maxPages, P.Seed(c.step, c.params) != "")
  }

  /** `r` is what this run of `fetchFanOut` returns. */
  ghost predicate FanOutReturns(cfg: F.Config, labels: seq<F.Label>, r: Object) {
    F.Succeeded(F.Exec(cfg, labels)) && r == FanOutResult(F.Exec(cfg, labels).byKey, F.Exec(cfg, labels).skipped)
  }

  /** A fan-out step whose caller stays accounts for every row of its parent: by its answers, each under its
      own key, and by the number it says it skipped, which it leaves out when there is none. */
  lemma {:induction false} RowsAccountedFor(cfg: F.Config, labels: seq<F.Label>, r: Object)
    requires FanOutReturns(cfg, labels, r) && !F.Exec(cfg, labels).callerGone
    ensures r.Keys <= {"byKey", "skipped"} && "byKey" in r && r["byKey"].Obj?
    ensures "skipped" in r ==> r["skipped"].Number? && r["skipped"].value > 0.0
    ensures |r["byKey"].fields| as real + (if "skipped" in r then r["skipped"].value else 0.0) == |cfg.rows| as real
    ensures forall key | key in r["byKey"].fields ::
              key in F.Exec(cfg, labels).byKey && r["byKey"].fields[key] == Obj(F.Exec(cfg, labels).byKey[key])
  {
    F.SuccessPartitions(cfg, labels);
    FanOutCounts(F.Exec(cfg, labels).byKey, F.Exec(cfg, labels).skipped);
  }

  /** What `runSingle` returns: the answer itself, or what some finished scan returns. */
  ghost predicate Single(step: Step, op: Operation, required: seq<string>, r: Object) {
    if step.followPages then exists c: Scanned :: ScanReturns(c, step.resumable, r) && HonestWorld(c.world, op, required)
    else Honest(r, op, required)
  }

  /** The rows a fan-out goes over; a parent whose data is neither absent nor an array is an error. */
  function ParentRows(parent: Object): Option<seq<Json>> {
    if "data" !in parent || parent["data"].Null? then Some([])
    else if parent["data"].Arr? then Some(parent["data"].items) else None
  }

  /** The fan-out `cfg` is the one this step makes of the results it sees. */
  ghost predicate Configured(def: B.Step, seen: B.StepResults, cfg: F.Config) {
    && def.forEach in seen && ParentRows(seen[def.forEach]) == Some(cfg.rows)
    && cfg.keyName == def.forEachKey && cfg.concurrency == def.concurrency
    && (def.forEachIf == "" ==> forall row :: cfg.passes(row) == Some(true))
  }

  /** Every per-row call that succeeds returns what `runSingle` does. */
  ghost predicate HonestAnswers(labels: seq<F.Label>, step: Step, op: Operation, required: seq<string>) {
    forall l | l in labels && l.Return? && l.out.Some? :: Single(step, op, required, l.out.value)
  }

  ghost predicate ByFanOut(step: Step, def: B.Step, op: Operation, required: seq<string>, seen: B.StepResults, r: Object) {
    exists cfg, labels ::
      Configured(def, seen, cfg) && FanOutReturns(cfg, labels, r) && HonestAnswers(labels, step, op, required)
  }

  /** What `runStep` returns for one step that sees `seen`, against a broker that keeps to its specification. */
  ghost predicate Returned(
      step: Step, def: B.Step, op: Option<Operation>, required: seq<string>, seen: B.StepResults, r: Object) {
    op.Some? &&
    if step.forEach != "" then ByFanOut(step, def, op.value, required, seen, r) else Single(step, op.value, required, r)
  }

  // ---------------------------------------------------------------------------------------------
  // The answers of a fan-out come from the broker
  // ---------------------------------------------------------------------------------------------

  ghost predicate AllSingle(byKey: map<string, Object>, step: Step, op: Operation, required: seq<string>) {
    forall k | k in byKey :: Single(step, op, required, byKey[k])
  }

  lemma {:induction false} StepAnswers(cfg: F.Config, s: F.State, l: F.Label, step: Step, op: Operation, required: seq<string>)
    requires AllSingle(s.byKey, step, op, required)
    requires l.Return? && l.out.Some? ==> Single(step, op, required, l.out.value)
    ensures AllSingle(F.Step(cfg, s, l).byKey, step, op, required)
  {
  }

  lemma {:induction false} RunAnswers(cfg: F.Config, labels: seq<F.Label>, step: Step, op: Operation, required: seq<string>)
    requires HonestAnswers(labels, step, op, required)
    ensures AllSingle(F.Exec(cfg, labels).byKey, step, op, required)
  {
    if labels != [] {
      var before, l := labels[..|labels| - 1], labels[|labels| - 1];
      assert l in labels;
      RunAnswers(cfg, before, step, op, required);
      StepAnswers(cfg, F.Exec(cfg, before), l, step, op, required);
    }
  }

  // ---------------------------------------------------------------------------------------------
  // Rows of a scan come from the broker
  // ---------------------------------------------------------------------------------------------

  lemma {:induction false} HonestPage(world: P.World, t: nat, args: P.Args, fields: map<string, Type>, required: seq<string>)
    requires HonestRows(world, fields, required) && world.broker(t, args).Answer?
    ensures AllValid(P.ExtractDataItems(world.broker(t, args).data), ItemSchema(fields, required))
  {
    var rows := P.ExtractDataItems(world.broker(t, args).data);
    forall i | 0 <= i < |rows|
      ensures Valid(rows[i], ItemSchema(fields, required))
    {
      ItemExact(rows[i], fields, required);
    }
  }

  lemma {:induction false} TakePageRows(world: P.World, step: P.PagedStep, remaining: nat, got: seq<Json>, data: Object, item: Schema)
    requires remaining > 0 && AllValid(got, item) && AllValid(P.ExtractDataItems(data), item)
    ensures var turn := P.TakePage(world, step, remaining, got, data);
            && (turn.More? ==> AllValid(turn.got, item))
            && (turn.Stop? && turn.outcome.Fetched? ==>
                  AllValid(turn.outcome.data, item) && (turn.outcome.nextCursor != "" ==> step.resumable))
  {
  }

  lemma {:induction false} PagesRows(
      world: P.World, step: P.PagedStep, maxPages: nat, maxResults: nat, t: nat, args: P.Args,
      got: seq<Json>, calls: seq<P.Call>, fields: map<string, Type>, required: seq<string>)
    requires |got| < maxResults && AllValid(got, ItemSchema(fields, required)) && HonestRows(world, fields, required)
    ensures var o := P.Pages(world, step, maxPages, maxResults, t, args, got, calls).outcome;
            o.Fetched? ==> AllValid(o.data, ItemSchema(fields, required)) && (o.nextCursor != "" ==> step.resumable)
    decreases maxResults - |got|
  {
    if |calls| < maxPages {
      var remaining := maxResults - |got|;
      var asked := P.Asked(step, args, remaining);
      var reply := world.broker(t + |calls|, asked);
      if reply.Answer? {
        var turn := P.TakePage(world, step, remaining, got, reply.data);
        HonestPage(world, t + |calls|, asked, fields, required);
        TakePageRows(world, step, remaining, got, reply.data, ItemSchema(fields, required));
        P.PagesUnfolds(world, step, maxPages, maxResults, t, args, got, calls, turn);
        if turn.More? {
          PagesRows(world, step, maxPages, maxResults, t, P.Args(turn.cursor, step.count), turn.got,
                    calls + [P.Call(asked, remaining)], fields, required);
        }
      }
    }
  }

  /** The map a finished scan is returned as, whatever the broker's paging does. */
  lemma {:induction false} ScanProduced(
      c: Scanned, fields: map<string, Type>, required: seq<string>, resumable: bool, r: Object)
    requires HonestRows(c.world, fields, required) && ScanReturns(c, resumable, r)
    ensures GoodPage(r, ItemSchema(fields, required), resumable)
  {
    PagesRows(c.world, c.step, c.maxPages, P.ResolveMaxResults(c.params), c.t,
              P.Args(P.Seed(c.step, c.params), c.step.count), [], [], fields, required);
    AssembledIsGood(c.wording, OutcomeOf(c), P.ResolveMaxResults(c.params), c.maxPages, P.Seed(c.step, c.params) != "",
                    ItemSchema(fields, required), resumable);
  }

  lemma {:induction false} AssembledIsGood(
      w: Notes.Wording, o: P.Outcome, maxResults: nat, maxPages: nat, resumed: bool, item: Schema, resumable: bool)
    requires o.Fetched? && AllValid(o.data, item)
    requires (o.nextCursor != "" ==> resumable) && (resumed ==> resumable)
    ensures GoodPage(P.Assemble(w, o, maxResults, maxPages, resumed), item, resumable)
  {
  }

  // ---------------------------------------------------------------------------------------------
  // One step against its schema
  // ---------------------------------------------------------------------------------------------

  lemma {:induction false} EnvelopeValid(env: Object, item: Schema)
    requires GoodEnvelope(env, item)
    ensures Valid(Obj(env), Envelope(item))
  {
    var s := Envelope(item);
    assert s.properties.Keys == {"data", "meta"};
    assert s.properties["data"] == item && s.properties["meta"] == Leaf(TObject);
  }

  lemma {:induction false} ScrubbedEnvelope(env: Object, item: Schema)
    requires GoodEnvelope(env, item)
    ensures Scrub(Obj(env)).Obj? && GoodEnvelope(Scrub(Obj(env)).fields, item)
  {
    ScrubKeeps(env);
  }

  lemma {:induction false} PageValid(r: Object, item: Schema, resumable: bool)
    requires GoodPage(r, item, resumable)
    ensures Valid(Obj(r), PagedSchema(item, resumable))
  {
    var s := PagedSchema(item, resumable);
    PagedFields(item, resumable);
    forall k | k in r
      ensures k in s.properties && Valid(r[k], s.properties[k])
    {
    }
    assert forall k | k in s.required :: k in r;
  }

  /** The properties a paginated step declares, by name. */
  lemma {:induction false} PagedFields(item: Schema, resumable: bool)
    ensures var p := PagedProperties(item, resumable);
            && p.Keys == {"data", "truncated", "truncatedMessage", "omittedItems"} +
                           (if resumable then {"nextCursor", "resumed"} else {})
            && p["data"] == ListOf(item) && p["truncated"] == Leaf(TBoolean)
            && p["truncatedMessage"] == Leaf(TString) && p["omittedItems"] == Leaf(TInteger)
            && (resumable ==> p["nextCursor"] == Leaf(TString) && p["resumed"] == Leaf(TBoolean))
  {
  }

  lemma {:induction false} ListExact(j: Json, item: Schema)
    ensures Valid(j, ListOf(item)) <==> j.Arr? && AllValid(j.items, item)
  {
  }

  lemma {:induction false} PageFieldValid(r: Object, item: Schema, resumable: bool, k: string)
    requires Valid(Obj(r), PagedSchema(item, resumable))
    ensures "data" in r && "truncated" in r
    ensures k in r ==> k in PagedProperties(item, resumable) && Valid(r[k], PagedProperties(item, resumable)[k])
  {
    var s := PagedSchema(item, resumable);
    ClosedExact(Obj(r), s.properties, s.required);
    assert "data" in s.required && "truncated" in s.required;
  }

  lemma {:induction false} PageIsGood(r: Object, item: Schema, resumable: bool)
    requires Valid(Obj(r), PagedSchema(item, resumable))
    ensures GoodPage(r, item, resumable)
  {
    PagedFields(item, resumable);
    forall k | k in r
      ensures k in PagedProperties(item, resumable) && Valid(r[k], PagedProperties(item, resumable)[k])
    {
      PageFieldValid(r, item, resumable, k);
    }
    PageFieldValid(r, item, resumable, "data");
    ListExact(r["data"], item);
  }

  /** A paginated step is accepted exactly when it is a page of valid rows with bookkeeping of the right
      types, a cursor only where the step can be resumed, and no key the engine does not write. */
  lemma {:induction false} PageExact(r: Object, item: Schema, resumable: bool)
    ensures Valid(Obj(r), PagedSchema(item, resumable)) <==> GoodPage(r, item, resumable)
  {
    if GoodPage(r, item, resumable) { PageValid(r, item, resumable); }
    if Valid(Obj(r), PagedSchema(item, resumable)) { PageIsGood(r, item, resumable); }
  }

  lemma {:induction false} RowsExact(j: Json, item: Schema)
    ensures Valid(j, Record(map[], [], Matching(Envelope(item)))) <==>
            j.Obj? && forall k | k in j.fields :: Valid(j.fields[k], Envelope(item))
  {
    var s := Record(map[], [], Matching(Envelope(item)));
    assert s.properties == map[] && s.required == [];
  }

  /** A fan-out step is accepted exactly when every row is a valid envelope under its key, and the only
      other thing it may say is how many rows were skipped. */
  lemma {:induction false} FanOutExact(j: Json, item: Schema)
    ensures Valid(j, FanOutSchema(item)) <==>
            && j.Obj?
            && j.fields.Keys <= {"byKey", "skipped"}
            && "byKey" in j.fields && j.fields["byKey"].Obj?
            && (forall k | k in j.fields["byKey"].fields :: Valid(j.fields["byKey"].fields[k], Envelope(item)))
            && ("skipped" in j.fields ==> Typed(j.fields["skipped"], TInteger))
  {
    var s := FanOutSchema(item);
    assert s.properties.Keys == {"byKey", "skipped"};
    assert s.properties["byKey"] == Record(map[], [], Matching(Envelope(item))) && s.properties["skipped"] == Leaf(TInteger);
    assert s.required == ["byKey"];
    ClosedExact(j, s.properties, s.required);
    if j.Obj? && "byKey" in j.fields { RowsExact(j.fields["byKey"], item); }
    if j.Obj? && "skipped" in j.fields { LeafExact(j.fields["skipped"], TInteger); }
  }

  lemma {:induction false} FanOutValid(rows: map<string, Object>, skipped: nat, item: Schema)
    requires forall k | k in rows :: GoodEnvelope(rows[k], item)
    ensures var r := Scrub(Obj(FanOutResult(rows, skipped)));
            r.Obj? && "data" !in r.fields && Valid(r, FanOutSchema(item))
  {
    var raw := FanOutResult(rows, skipped);
    ScrubKeeps(raw);
    var r, s := Scrub(Obj(raw)).fields, FanOutSchema(item);
    RowsValid(raw["byKey"], rows, item);
    assert r["byKey"] == ScrubRows(raw["byKey"]);
    assert r.Keys <= {"byKey", "skipped"} == s.properties.Keys;
    assert s.properties["byKey"] == Record(map[], [], Matching(Envelope(item))) && s.properties["skipped"] == Leaf(TInteger);
    assert s.required == ["byKey"] && "byKey" in r;
    assert "skipped" in r ==> Valid(r["skipped"], s.properties["skipped"]);
    ClosedValid(r, s);
  }

  lemma {:induction false} ClosedValid(r: Object, s: Schema)
    requires s == Record(s.properties, s.required, NoExtra)
    requires forall k | k in s.required :: k in r
    requires forall k | k in r :: k in s.properties && Valid(r[k], s.properties[k])
    ensures Valid(Obj(r), s)
  {
  }

  lemma {:induction false} RowsValid(byKey: Json, rows: map<string, Object>, item: Schema)
    requires byKey == Obj(map k | k in rows :: Obj(rows[k]))
    requires forall k | k in rows :: GoodEnvelope(rows[k], item)
    ensures Valid(ScrubRows(byKey), Record(map[], [], Matching(Envelope(item))))
  {
    var r, s := ScrubRows(byKey).fields, Record(map[], [], Matching(Envelope(item)));
    forall k | k in r
      ensures Valid(r[k], Envelope(item))
    {
      ScrubbedEnvelope(rows[k], item);
      EnvelopeValid(Scrub(Obj(rows[k])).fields, item);
    }
    assert s.properties == map[] && s.required == [];
  }

  /** The shape of one step in a result: what its schema accepts, and what trimming keeps. */
  ghost predicate Shaped(step: Step, op: Option<Operation>, required: seq<string>, r: Object) {
    if op.None? || op.value.fields.None? then true
    else
      var item := ItemSchema(op.value.fields.value, required);
      if step.forEach != "" then "data" !in r && Valid(Obj(r), FanOutSchema(item))
      else if step.followPages then GoodPage(r, item, step.resumable)
      else GoodEnvelope(r, item)
  }

  lemma {:induction false} PageUnscrubbed(r: Object, item: Schema, resumable: bool)
    requires GoodPage(r, item, resumable)
    ensures Scrub(Obj(r)) == Obj(r)
  {
    assert "links" !in r && "meta" !in r && "byKey" !in r;
    assert r - {"links"} == r;
  }

  /** A step whose schema asks for one resource where an honest answer is, or holds, a list: a list operation
      whose pages are not followed, or a fan-out whose calls return lists or pages. */
  predicate Arrayed(step: Step, op: Operation) {
    op.fields.Some? && if step.forEach == "" then op.list && !step.followPages else op.list || step.followPages
  }

  /** One call: a page where pages are followed, one resource or a list of them where they are not. */
  lemma {:induction false} SingleShaped(step: Step, op: Operation, required: seq<string>, r: Object)
    requires Single(step, op, required, r) && op.fields.Some?
    ensures var item := ItemSchema(op.fields.value, required);
            && (step.followPages ==> GoodPage(r, item, step.resumable))
            && (!step.followPages && !op.list ==> GoodEnvelope(r, item))
            && (step.followPages || op.list ==>
                  "data" in r && r["data"].Arr? && AllResources(r["data"].items, op.fields.value, required))
  {
    var fields := op.fields.value;
    if step.followPages {
      var c: Scanned :| ScanReturns(c, step.resumable, r) && HonestWorld(c.world, op, required);
      WorldRows(c.world, op, required);
      ScanProduced(c, fields, required, step.resumable, r);
      RowsAreResources(r["data"].items, fields, required);
    } else if !op.list {
      ItemExact(r["data"], fields, required);
    }
  }

  lemma {:induction false} WorldRows(world: P.World, op: Operation, required: seq<string>)
    requires HonestWorld(world, op, required) && op.fields.Some?
    ensures HonestRows(world, op.fields.value, required)
  {
  }

  lemma {:induction false} RowsAreResources(rows: seq<Json>, fields: map<string, Type>, required: seq<string>)
    requires AllValid(rows, ItemSchema(fields, required))
    ensures AllResources(rows, fields, required)
  {
    forall i | 0 <= i < |rows|
      ensures Resource(rows[i], fields, required)
    {
      ItemExact(rows[i], fields, required);
    }
  }

  /** A fan-out whose answers are single resources, or that has no answers. */
  lemma {:induction false} FanOutShaped(
      cfg: F.Config, labels: seq<F.Label>, step: Step, op: Operation, required: seq<string>, r: Object)
    requires FanOutReturns(cfg, labels, r) && HonestAnswers(labels, step, op, required) && op.fields.Some?
    requires (!op.list && !step.followPages) || F.Exec(cfg, labels).byKey == map[]
    ensures var item := ItemSchema(op.fields.value, required);
            Scrub(Obj(r)).Obj? && "data" !in Scrub(Obj(r)).fields && Valid(Scrub(Obj(r)), FanOutSchema(item))
  {
    var rows := F.Exec(cfg, labels).byKey;
    RunAnswers(cfg, labels, step, op, required);
    forall k | k in rows
      ensures GoodEnvelope(rows[k], ItemSchema(op.fields.value, required))
    {
      SingleShaped(step, op, required, rows[k]);
    }
    FanOutValid(rows, F.Exec(cfg, labels).skipped, ItemSchema(op.fields.value, required));
  }

  /** Every other step: what it returns has, once scrubbed, the shape its schema asks for. */
  lemma {:induction false} ProducedShaped(
      step: Step, def: B.Step, op: Operation, required: seq<string>, seen: B.StepResults, r: Object)
    requires Returned(step, def, Some(op), required, seen, r) && !Arrayed(step, op)
    ensures Scrub(Obj(r)).Obj? && Shaped(step, Some(op), required, Scrub(Obj(r)).fields)
  {
    ScrubKeeps(r);
    if op.fields.Some? {
      var item := ItemSchema(op.fields.value, required);
      if step.forEach != "" {
        var cfg, labels :| Configured(def, seen, cfg) && FanOutReturns(cfg, labels, r) && HonestAnswers(labels, step, op, required);
        FanOutShaped(cfg, labels, step, op, required, r);
      } else {
        SingleShaped(step, op, required, r);
        if step.followPages { PageUnscrubbed(r, item, step.resumable); } else { ScrubbedEnvelope(r, item); }
      }
    }
  }

  /** A list where one resource is asked for is refused. */
  lemma {:induction false} ListRefused(env: Object, item: Schema)
    requires item.kind == Some(TObject) && "data" in env && env["data"].Arr?
    ensures !Valid(Scrub(Obj(env)), Envelope(item))
  {
    ScrubKeeps(env);
    EnvelopeExact(Scrub(Obj(env)), item);
  }

  /** So a list operation whose pages are not followed never returns what its schema asks for. */
  lemma {:induction false} UnpagedListRefused(step: Step, op: Operation, required: seq<string>, r: Object)
    requires Arrayed(step, op) && step.forEach == "" && Single(step, op, required, r)
    ensures !Valid(Scrub(Obj(r)), StepSchema(step, Some(op), required))
  {
    SingleShaped(step, op, required, r);
    ListRefused(r, ItemSchema(op.fields.value, required));
  }

  /** And neither does a fan-out over a list operation, or with followed pages, that has made a call. */
  lemma {:induction false} ArrayedFanOutRefused(
      cfg: F.Config, labels: seq<F.Label>, step: Step, op: Operation, required: seq<string>, r: Object)
    requires Arrayed(step, op) && step.forEach != ""
    requires FanOutReturns(cfg, labels, r) && HonestAnswers(labels, step, op, required) && F.Exec(cfg, labels).byKey != map[]
    ensures !Valid(Scrub(Obj(r)), StepSchema(step, Some(op), required))
  {
    var rows, item := F.Exec(cfg, labels).byKey, ItemSchema(op.fields.value, required);
    var k :| k in rows;
    RunAnswers(cfg, labels, step, op, required);
    SingleShaped(step, op, required, rows[k]);
    ListRefused(rows[k], item);
    FanOutExact(Scrub(Obj(r)), item);
    ScrubbedRow(rows, F.Exec(cfg, labels).skipped, k);
  }

  lemma {:induction false} ScrubbedRow(rows: map<string, Object>, skipped: nat, k: string)
    requires k in rows
    ensures var r := Scrub(Obj(FanOutResult(rows, skipped)));
            r.Obj? && "byKey" in r.fields && r.fields["byKey"].Obj? && k in r.fields["byKey"].fields
            && r.fields["byKey"].fields[k] == Scrub(Obj(rows[k]))
  {
    var raw := FanOutResult(rows, skipped);
    assert raw["byKey"].fields[k] == Obj(rows[k]);
    assert Scrub(Obj(raw)).fields["byKey"] == ScrubRows(raw["byKey"]);
  }

  lemma {:induction false} ShapedValid(step: Step, op: Option<Operation>, required: seq<string>, r: Object)
    requires Shaped(step, op, required, r)
    ensures Valid(Obj(r), StepSchema(step, op, required))
  {
    if op.Some? && op.value.fields.Some? {
      var item := ItemSchema(op.value.fields.value, required);
      if step.forEach != "" {
      } else if step.followPages {
        PageValid(r, item, step.resumable);
      } else {
        EnvelopeValid(r, item);
      }
    }
  }

  lemma {:induction false} PageTrimmed(setting: V.Setting, c: V.Candidate, keep: nat, item: Schema, resumable: bool)
    requires keep <= |c.items| && "data" in c.step && c.step["data"] == Arr(c.items)
    requires GoodPage(c.step, item, resumable)
    ensures GoodPage(V.TrimmedStep(setting, c, keep), item, resumable)
  {
    V.TrimmedStepFields(setting, c, keep);
    assert AllValid(c.items, item);
    assert AllValid(c.items[..keep], item);
  }

  /** Trimming keeps a step's shape; a step that is not a list of rows is never trimmed. */
  lemma {:induction false} ShapedTrimmed(step: Step, op: Option<Operation>, required: seq<string>, setting: V.Setting, c: V.Candidate, keep: nat)
    requires Shaped(step, op, required, c.step)
    requires keep <= |c.items| && "data" in c.step && c.step["data"] == Arr(c.items)
    ensures Shaped(step, op, required, V.TrimmedStep(setting, c, keep))
  {
    if op.Some? && op.value.fields.Some? && step.forEach == "" && step.followPages {
      PageTrimmed(setting, c, keep, ItemSchema(op.value.fields.value, required), step.resumable);
    }
  }

  // ---------------------------------------------------------------------------------------------
  // The whole result
  // ---------------------------------------------------------------------------------------------

  predicate IsSummary(tool: Tool, id: string) {
    tool.postProcess && id == SUMMARY
  }

  ghost predicate ShapedAt(tool: Tool, catalog: Catalog, required: map<string, seq<string>>, i: nat, out: Object)
    requires i < |tool.steps|
  {
    var step := tool.steps[i];
    IsSummary(tool, step.id) ||
    (step.id in out && out[step.id].Obj? &&
     Shaped(step, Lookup(catalog, step.operation), RequiredFor(required, step.id), out[step.id].fields))
  }

  /** A result with one well-shaped value per step, an object summary if there is one, and nothing else. */
  ghost predicate GoodResult(tool: Tool, catalog: Catalog, required: map<string, seq<string>>, out: Object) {
    && (forall k | k in out :: k in Ids(tool.steps) || IsSummary(tool, k))
    && (tool.postProcess ==> SUMMARY in out && out[SUMMARY].Obj?)
    && forall i | 0 <= i < |tool.steps| :: ShapedAt(tool, catalog, required, i, out)
  }

  lemma {:induction false} GoodResultValid(tool: Tool, catalog: Catalog, required: map<string, seq<string>>, out: Object)
    requires Text.Distinct(Ids(tool.steps)) && GoodResult(tool, catalog, required, out)
    ensures Valid(Obj(out), Strict(tool, catalog, required))
  {
    var s, at := Strict(tool, catalog, required), StepSchemas(catalog, required);
    forall k | k in out
      ensures k in s.properties && Valid(out[k], s.properties[k])
    {
      if !IsSummary(tool, k) {
        var i :| 0 <= i < |tool.steps| && Ids(tool.steps)[i] == k;
        PropertyOf(tool.steps, at, |tool.steps|, i);
        assert ShapedAt(tool, catalog, required, i, out);
        ShapedValid(tool.steps[i], Lookup(catalog, tool.steps[i].operation), RequiredFor(required, k), out[k].fields);
        assert at(tool.steps[i]) == StepSchemaIn(tool.steps[i], catalog, required);
      }
    }
    forall k | k in s.required
      ensures k in out
    {
      if k in Ids(tool.steps) && !IsSummary(tool, k) {
        var i :| 0 <= i < |tool.steps| && Ids(tool.steps)[i] == k;
        assert ShapedAt(tool, catalog, required, i, out);
      }
    }
    ClosedValid(out, s);
  }

  /** Step results, one per step, that are well-shaped once scrubbed, and a summary that is an object exactly
      when the tool post-processes. */
  ghost predicate ShapedResults(
      tool: Tool, catalog: Catalog, required: map<string, seq<string>>, steps: map<string, Object>, summary: Option<Json>) {
    && steps.Keys == (set i | 0 <= i < |tool.steps| :: tool.steps[i].id)
    && (summary.Some? <==> tool.postProcess)
    && (summary.Some? ==> summary.value.Obj?)
    && forall i | 0 <= i < |tool.steps| ::
         Scrub(Obj(steps[tool.steps[i].id])).Obj? &&
         Shaped(tool.steps[i], Lookup(catalog, tool.steps[i].operation), RequiredFor(required, tool.steps[i].id),
                Scrub(Obj(steps[tool.steps[i].id])).fields)
  }

  lemma {:induction false} ApplyIsGood(
      tool: Tool, catalog: Catalog, required: map<string, seq<string>>, steps: map<string, Object>, summary: Option<Json>)
    requires ShapedResults(tool, catalog, required, steps, summary)
    ensures GoodResult(tool, catalog, required, Apply(steps, summary, false))
  {
    var out := Apply(steps, summary, false);
    forall i | 0 <= i < |tool.steps|
      ensures ShapedAt(tool, catalog, required, i, out)
    {
      var step := tool.steps[i];
      assert !IsSummary(tool, step.id) ==> out[step.id] == Scrub(Obj(steps[step.id]));
    }
    forall k | k in out
      ensures k in Ids(tool.steps) || IsSummary(tool, k)
    {
      if k in steps {
        var i :| 0 <= i < |tool.steps| && tool.steps[i].id == k;
        assert Ids(tool.steps)[i] == k;
      }
    }
  }

  lemma {:induction false} TrimmedIsGood(
      tool: Tool, catalog: Catalog, required: map<string, seq<string>>, out: Object,
      setting: V.Setting, order: seq<string>, size: nat)
    requires GoodResult(tool, catalog, required, out)
    requires Text.Distinct(order) && setting.hasSummary == tool.postProcess
    ensures GoodResult(tool, catalog, required, V.BoundResponse(setting, out, order, size).0)
  {
    var (out', report) := V.BoundResponse(setting, out, order, size);
    V.UntouchedWhen(setting, out, order, size);
    if report.truncated {
      var keep := V.ValveTrims(setting, out, order, size);
      if tool.postProcess { V.SummaryKept(setting, out, order, size); }
      forall i | 0 <= i < |tool.steps|
        ensures ShapedAt(tool, catalog, required, i, out')
      {
        assert ShapedAt(tool, catalog, required, i, out);
        if !IsSummary(tool, tool.steps[i].id) {
          TrimmedAt(tool, catalog, required, i, out, setting, order, size, keep, out', report);
        }
      }
    }
  }

  lemma {:induction false} TrimmedAt(
      tool: Tool, catalog: Catalog, required: map<string, seq<string>>, i: nat, out: Object,
      setting: V.Setting, order: seq<string>, size: nat, keep: seq<nat>, out': Object, report: V.Report)
    requires i < |tool.steps| && ShapedAt(tool, catalog, required, i, out) && !IsSummary(tool, tool.steps[i].id)
    requires V.TrimmedTo(setting, V.CutOf(setting), out, V.CandidatesOf(setting, out, order), size, keep, out', report)
    ensures ShapedAt(tool, catalog, required, i, out')
  {
    var step, cands := tool.steps[i], V.CandidatesOf(setting, out, order);
    if step.id in report.trimmedSteps {
      var j :| 0 <= j < |cands| && cands[j].id == step.id && keep[j] < |cands[j].items|;
      assert V.CandidateAt(setting, out, cands[j].id) == Some(cands[j]);
      ShapedTrimmed(step, Lookup(catalog, step.operation), RequiredFor(required, step.id), setting, cands[j], keep[j]);
      assert out'[step.id] == V.CutOf(setting)(cands[j], keep[j]);
    }
  }

  /** A result whose steps are all well-shaped satisfies the schema the tool declares, before the size valve
      and after it, for any limit and any measure; and it does so through the strict branch alone. */
  lemma {:induction false} ResultsConform(
      tool: Tool, catalog: Catalog, required: map<string, seq<string>>, steps: map<string, Object>, summary: Option<Json>,
      setting: V.Setting, order: seq<string>, size: nat)
    requires Text.Distinct(Ids(tool.steps)) && ShapedResults(tool, catalog, required, steps, summary)
    requires Text.Distinct(order) && setting.hasSummary == tool.postProcess
    ensures var out := Apply(steps, summary, false);
            var trimmed := V.BoundResponse(setting, out, order, size).0;
            && Valid(Obj(out), Declared(tool, catalog, required))
            && Valid(Obj(trimmed), Declared(tool, catalog, required))
            && !Valid(Obj(out), DesiredState()) && !Valid(Obj(trimmed), DesiredState())
  {
    var out := Apply(steps, summary, false);
    var trimmed := V.BoundResponse(setting, out, order, size).0;
    ApplyIsGood(tool, catalog, required, steps, summary);
    TrimmedIsGood(tool, catalog, required, out, setting, order, size);
    GoodResultValid(tool, catalog, required, out);
    GoodResultValid(tool, catalog, required, trimmed);
    DeclaredAccepts(tool, catalog, required, Obj(out));
    DeclaredAccepts(tool, catalog, required, Obj(trimmed));
    BranchesDisjoint(tool, catalog, required, Obj(out));
    BranchesDisjoint(tool, catalog, required, Obj(trimmed));
  }
}
