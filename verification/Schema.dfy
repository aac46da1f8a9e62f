/** The JSON Schema a composite tool declares for its results, and what it means for a value to satisfy it. */
module Schema {
  import opened Json
  import opened Options
  import Text

  datatype Type = TString | TInteger | TNumber | TBoolean | TArray | TObject

  datatype Extra = AnyExtra | NoExtra | Matching(schema: Schema)

  /** The keywords the generator uses. An absent `enum`, `oneOf` or `required` is an empty sequence. */
  datatype Schema = Schema(
    kind: Option<Type>,
    properties: map<string, Schema>,
    required: seq<string>,
    extra: Extra,
    items: Option<Schema>,
    values: seq<Json>,
    oneOf: seq<Schema>)

  predicate Typed(j: Json, t: Type) {
    match t
    case TString => j.Str?
    case TInteger => j.Number? && j.value.Floor as real == j.value
    case TNumber => j.Number?
    case TBoolean => j.Bool?
    case TArray => j.Arr?
    case TObject => j.Obj?
  }

  /** JSON Schema validation of these keywords. */
  predicate Valid(j: Json, s: Schema)
    decreases s
  {
    && (s.kind.Some? ==> Typed(j, s.kind.value))
    && (s.values != [] ==> j in s.values)
    && (j.Obj? ==>
          && (forall r | r in s.required :: r in j.fields)
          && forall k | k in j.fields ::
               if k in s.properties then Valid(j.fields[k], s.properties[k])
               else match s.extra
                    case AnyExtra => true
                    case NoExtra => false
                    case Matching(e) => Valid(j.fields[k], e))
    && (j.Arr? && s.items.Some? ==> forall i | 0 <= i < |j.items| :: Valid(j.items[i], s.items.value))
    && (s.oneOf != [] ==>
          exists i | 0 <= i < |s.oneOf| ::
            Valid(j, s.oneOf[i]) && forall k | 0 <= k < |s.oneOf| && k != i :: !Valid(j, s.oneOf[k]))
  }

  // ---------------------------------------------------------------------------------------------
  // The generator
  // ---------------------------------------------------------------------------------------------

  /** The parts of a step and of an operation the generator reads; `fields` is absent when the response
      shape could not be resolved, and `list` says that it was the shape of each item of an array. */
  datatype Step = Step(id: string, operation: string, forEach: string, followPages: bool, resumable: bool)

  datatype Operation = Operation(id: string, fields: Option<map<string, Type>>, list: bool)

  datatype Tool = Tool(steps: seq<Step>, postProcess: bool, omitRawSteps: bool)

  type Catalog = map<string, Operation>

  function Leaf(t: Type): Schema {
    Schema(Some(t), map[], [], AnyExtra, None, [], [])
  }

  function Record(properties: map<string, Schema>, required: seq<string>, extra: Extra): Schema {
    Schema(Some(TObject), properties, required, extra, None, [], [])
  }

  /** `fieldPropertiesSchema`: declared fields are typed, undeclared ones tolerated. */
  function ItemSchema(fields: map<string, Type>, required: seq<string>): Schema {
    Record(map f | f in fields :: Leaf(fields[f]), required, AnyExtra)
  }

  function Envelope(item: Schema): Schema {
    Record(map["data" := item, "meta" := Leaf(TObject)], ["data"], AnyExtra)
  }

  function FanOutSchema(item: Schema): Schema {
    Record(map["byKey" := Record(map[], [], Matching(Envelope(item))), "skipped" := Leaf(TInteger)],
           ["byKey"], NoExtra)
  }

  function ListOf(item: Schema): Schema {
    Schema(Some(TArray), map[], [], AnyExtra, Some(item), [], [])
  }

  function PagedProperties(item: Schema, resumable: bool): map<string, Schema> {
    var properties :=
      map["data" := ListOf(item), "truncated" := Leaf(TBoolean), "truncatedMessage" := Leaf(TString),
          "omittedItems" := Leaf(TInteger)];
    if resumable then properties["nextCursor" := Leaf(TString)]["resumed" := Leaf(TBoolean)] else properties
  }

  function PagedSchema(item: Schema, resumable: bool): Schema {
    Record(PagedProperties(item, resumable), ["data", "truncated"], NoExtra)
  }

  /** `buildStepSchema`. */
  function StepSchema(step: Step, op: Option<Operation>, required: seq<string>): (r: Schema)
    ensures r.kind == Some(TObject)
  {
    if op.None? || op.value.fields.None? then Leaf(TObject)
    else
      var item := ItemSchema(op.value.fields.value, required);
      if step.forEach != "" then FanOutSchema(item)
      else if step.followPages then PagedSchema(item, step.resumable)
      else Envelope(item)
  }

  function Lookup<V>(m: map<string, V>, k: string): Option<V> {
    if k in m then Some(m[k]) else None
  }

  function RequiredFor(required: map<string, seq<string>>, id: string): seq<string> {
    if id in required then required[id] else []
  }

  function StepSchemaIn(step: Step, catalog: Catalog, required: map<string, seq<string>>): (r: Schema)
    ensures r.kind == Some(TObject)
  {
    StepSchema(step, Lookup(catalog, step.operation), RequiredFor(required, step.id))
  }

  /** The properties of the first `n` steps, `at` giving each step's schema; a repeated ID takes the
      later step. */
  function StepProperties(steps: seq<Step>, at: Step -> Schema, n: nat): map<string, Schema>
    requires n <= |steps|
  {
    if n == 0 then map[] else StepProperties(steps, at, n - 1)[steps[n - 1].id := at(steps[n - 1])]
  }

  function StepSchemas(catalog: Catalog, required: map<string, seq<string>>): Step -> Schema {
    (step: Step) => StepSchemaIn(step, catalog, required)
  }

  function Ids(steps: seq<Step>): (r: seq<string>)
    ensures |r| == |steps|
  {
    seq(|steps|, i requires 0 <= i < |steps| => steps[i].id)
  }

  const SUMMARY := "summary"

  /** The closed, step-keyed schema over given step schemas. */
  function StrictOver(steps: seq<Step>, at: Step -> Schema, summary: bool): Schema {
    var properties := StepProperties(steps, at, |steps|);
    if summary then Record(properties[SUMMARY := Leaf(TObject)], Ids(steps) + [SUMMARY], NoExtra)
    else Record(properties, Ids(steps), NoExtra)
  }

  /** `BuildStrictOutputSchema`. */
  function Strict(tool: Tool, catalog: Catalog, required: map<string, seq<string>>): Schema {
    StrictOver(tool.steps, StepSchemas(catalog, required), tool.postProcess)
  }

  /** The declared fields among `done`. */
  function FieldSchemas(fields: map<string, Type>, done: set<string>): map<string, Schema> {
    map f | f in fields && f in done :: Leaf(fields[f])
  }

  lemma {:induction false} FieldSchemasGrow(fields: map<string, Type>, done: set<string>, f: string)
    requires f in fields
    ensures FieldSchemas(fields, done)[f := Leaf(fields[f])] == FieldSchemas(fields, done + {f})
  {
  }

  lemma {:induction false} FieldSchemasWhole(fields: map<string, Type>, done: set<string>)
    requires fields.Keys <= done
    ensures FieldSchemas(fields, done) == map f | f in fields :: Leaf(fields[f])
  {
  }

  /** `fieldPropertiesSchema`, for any walk of the field map. */
  method FieldPropertiesSchema(fields: map<string, Type>, required: seq<string>, order: seq<string>) returns (s: Schema)
    requires Text.Visits(order, fields.Keys)
    ensures s == ItemSchema(fields, required)
  {
    var properties: map<string, Schema> := map[];
    ghost var done: set<string> := {};
    for i := 0 to |order|
      invariant properties == FieldSchemas(fields, done)
      invariant forall j | 0 <= j < i :: order[j] in done
    {
      assert order[i] in order;
      FieldSchemasGrow(fields, done, order[i]);
      properties := properties[order[i] := Leaf(fields[order[i]])];
      done := done + {order[i]};
    }
    assert fields.Keys <= done by {
      forall f | f in fields ensures f in done { assert f in order; }
    }
    FieldSchemasWhole(fields, done);
    s := Record(properties, required, AnyExtra);
  }

  /** `BuildStrictOutputSchema`, as the loop that fills its maps. */
  method BuildStrictOutputSchema(tool: Tool, catalog: Catalog, requiredFields: map<string, seq<string>>)
    returns (s: Schema)
    ensures s == Strict(tool, catalog, requiredFields)
  {
    var properties: map<string, Schema> := map[];
    var required: seq<string> := [];
    for i := 0 to |tool.steps|
      invariant properties == StepProperties(tool.steps, StepSchemas(catalog, requiredFields), i)
      invariant |required| == i && forall j | 0 <= j < i :: required[j] == tool.steps[j].id
    {
      var step := tool.steps[i];
      properties := properties[step.id := StepSchemaIn(step, catalog, requiredFields)];
      required := required + [step.id];
    }
    assert required == Ids(tool.steps);
    if tool.postProcess {
      properties := properties[SUMMARY := Leaf(TObject)];
      required := required + [SUMMARY];
    }
    s := Record(properties, required, NoExtra);
  }

  /** The schema declared under a step's ID is that step's, when IDs are unique. */
  lemma {:induction false} PropertyOf(steps: seq<Step>, at: Step -> Schema, n: nat, i: nat)
    requires i < n <= |steps| && Text.Distinct(Ids(steps))
    ensures var p := StepProperties(steps, at, n); steps[i].id in p && p[steps[i].id] == at(steps[i])
  {
    if i < n - 1 {
      PropertyOf(steps, at, n - 1, i);
      assert Ids(steps)[i] != Ids(steps)[n - 1];
    }
  }

  lemma {:induction false} PropertiesAreSteps(steps: seq<Step>, at: Step -> Schema, n: nat, k: string) returns (i: nat)
    requires n <= |steps| && k in StepProperties(steps, at, n)
    ensures i < n && k == steps[i].id && StepProperties(steps, at, n)[k] == at(steps[i])
  {
    if k == steps[n - 1].id {
      i := n - 1;
    } else {
      i := PropertiesAreSteps(steps, at, n - 1, k);
    }
  }

  // ---------------------------------------------------------------------------------------------
  // What the generated schemas accept, without reference to schemas
  // ---------------------------------------------------------------------------------------------

  /** A resource as the specification describes it: an object that names what it must and whose declared
      fields, where present, have their declared types. Fields the specification does not know are let in. */
  predicate Resource(j: Json, fields: map<string, Type>, required: seq<string>) {
    && j.Obj?
    && (forall r | r in required :: r in j.fields)
    && (forall f | f in fields && f in j.fields :: Typed(j.fields[f], fields[f]))
  }

  /** The item schema accepts exactly the resources the specification describes. */
  lemma {:induction false} ItemExact(j: Json, fields: map<string, Type>, required: seq<string>)
    ensures Valid(j, ItemSchema(fields, required)) <==> Resource(j, fields, required)
  {
    var s := ItemSchema(fields, required);
    assert s.properties.Keys == fields.Keys;
    forall f | f in fields && j.Obj? && f in j.fields
      ensures Valid(j.fields[f], s.properties[f]) <==> Typed(j.fields[f], fields[f])
    {
      LeafExact(j.fields[f], fields[f]);
    }
  }

  lemma {:induction false} LeafExact(j: Json, t: Type)
    ensures Valid(j, Leaf(t)) <==> Typed(j, t)
  {
  }

  /** An envelope is accepted exactly when it holds conforming data, and any metadata is an object. */
  lemma {:induction false} EnvelopeExact(j: Json, item: Schema)
    ensures Valid(j, Envelope(item)) <==>
            && j.Obj?
            && "data" in j.fields && Valid(j.fields["data"], item)
            && ("meta" in j.fields ==> j.fields["meta"].Obj?)
  {
    var s := Envelope(item);
    assert s.properties.Keys == {"data", "meta"};
    assert s.properties["data"] == item && s.properties["meta"] == Leaf(TObject);
    assert s.required == ["data"];
    if j.Obj? && "meta" in j.fields { LeafExact(j.fields["meta"], TObject); }
  }

  /** A closed record is accepted exactly when nothing is missing and everything is declared and valid. */
  lemma {:induction false} ClosedExact(j: Json, properties: map<string, Schema>, required: seq<string>)
    ensures Valid(j, Record(properties, required, NoExtra)) <==>
            && j.Obj?
            && (forall r | r in required :: r in j.fields)
            && (forall k | k in j.fields :: k in properties && Valid(j.fields[k], properties[k]))
  {
  }

  /** An object with the ID of every step, and the summary when there is one, and with no other key, each
      step's value being what that step's own schema accepts. */
  predicate StepKeyed(j: Json, steps: seq<Step>, at: Step -> Schema, summary: bool) {
    && j.Obj?
    && (forall i | 0 <= i < |steps| :: steps[i].id in j.fields && Valid(j.fields[steps[i].id], at(steps[i])))
    && (summary ==> SUMMARY in j.fields && j.fields[SUMMARY].Obj?)
    && (forall k | k in j.fields :: k in Ids(steps) || (summary && k == SUMMARY))
  }

  /** The properties and the required keys of the strict schema, step by step. */
  lemma {:induction false} StrictParts(steps: seq<Step>, at: Step -> Schema, summary: bool, i: nat)
    requires Text.Distinct(Ids(steps)) && (summary ==> SUMMARY !in Ids(steps)) && i < |steps|
    ensures var s := StrictOver(steps, at, summary);
            steps[i].id in s.required && steps[i].id in s.properties && s.properties[steps[i].id] == at(steps[i])
  {
    PropertyOf(steps, at, |steps|, i);
    assert Ids(steps)[i] in Ids(steps);
  }

  lemma {:induction false} StrictKeys(steps: seq<Step>, at: Step -> Schema, summary: bool, k: string)
    requires k in StrictOver(steps, at, summary).properties || k in StrictOver(steps, at, summary).required
    ensures k in Ids(steps) || (summary && k == SUMMARY)
  {
    if k in StepProperties(steps, at, |steps|) {
      var i := PropertiesAreSteps(steps, at, |steps|, k);
      assert Ids(steps)[i] == k;
    }
  }

  lemma {:induction false} StrictSound(steps: seq<Step>, at: Step -> Schema, summary: bool, j: Json)
    requires Text.Distinct(Ids(steps)) && (summary ==> SUMMARY !in Ids(steps))
    requires Valid(j, StrictOver(steps, at, summary))
    ensures StepKeyed(j, steps, at, summary)
  {
    var s := StrictOver(steps, at, summary);
    ClosedExact(j, s.properties, s.required);
    forall i | 0 <= i < |steps|
      ensures steps[i].id in j.fields && Valid(j.fields[steps[i].id], at(steps[i]))
    {
      StrictParts(steps, at, summary, i);
    }
    forall k | k in j.fields
      ensures k in Ids(steps) || (summary && k == SUMMARY)
    {
      StrictKeys(steps, at, summary, k);
    }
    if summary { LeafExact(j.fields[SUMMARY], TObject); }
  }

  lemma {:induction false} StrictComplete(steps: seq<Step>, at: Step -> Schema, summary: bool, j: Json)
    requires Text.Distinct(Ids(steps)) && (summary ==> SUMMARY !in Ids(steps))
    requires StepKeyed(j, steps, at, summary)
    ensures Valid(j, StrictOver(steps, at, summary))
  {
    var s := StrictOver(steps, at, summary);
    forall k | k in j.fields
      ensures k in s.properties && Valid(j.fields[k], s.properties[k])
    {
      if k in Ids(steps) {
        var i :| 0 <= i < |steps| && Ids(steps)[i] == k;
        StrictParts(steps, at, summary, i);
      } else {
        LeafExact(j.fields[k], TObject);
      }
    }
    forall k | k in s.required
      ensures k in j.fields
    {
      StrictKeys(steps, at, summary, k);
      if k in Ids(steps) {
        var i :| 0 <= i < |steps| && Ids(steps)[i] == k;
      }
    }
    ClosedExact(j, s.properties, s.required);
  }

  /** The strict schema accepts exactly the step-keyed results: nothing missing, nothing added, and each
      step's value valid for that step. */
  lemma {:induction false} StrictExact(tool: Tool, catalog: Catalog, required: map<string, seq<string>>, j: Json)
    requires Text.Distinct(Ids(tool.steps)) && (tool.postProcess ==> SUMMARY !in Ids(tool.steps))
    ensures Valid(j, Strict(tool, catalog, required)) <==>
            StepKeyed(j, tool.steps, StepSchemas(catalog, required), tool.postProcess)
  {
    var at := StepSchemas(catalog, required);
    if Valid(j, Strict(tool, catalog, required)) { StrictSound(tool.steps, at, tool.postProcess, j); }
    if StepKeyed(j, tool.steps, at, tool.postProcess) { StrictComplete(tool.steps, at, tool.postProcess, j); }
  }

  // ---------------------------------------------------------------------------------------------
  // Desired-state outcomes
  // ---------------------------------------------------------------------------------------------

  const ALREADY_EXISTS := "already_exists"
  const ALREADY_ABSENT := "already_absent"

  /** `desiredStateOutcomeSchema`. */
  function DesiredState(): Schema {
    Record(map["outcome" := Leaf(TString).(values := [Str(ALREADY_EXISTS), Str(ALREADY_ABSENT)]),
               "changed" := Leaf(TBoolean).(values := [Bool(false)]),
               "message" := Leaf(TString),
               "attributes_verified" := Leaf(TBoolean)],
           ["outcome", "changed", "message"], NoExtra)
  }

  /** `desiredStateStructuredContent`. */
  function DesiredStateContent(exists': bool, message: string, verified: bool): Object {
    var content: Object :=
      map["outcome" := Str(if exists' then ALREADY_EXISTS else ALREADY_ABSENT), "changed" := Bool(false),
          "message" := Str(message)];
    if exists' then content["attributes_verified" := Bool(verified)] else content
  }

  /** A SEMP error as the classification reads it. */
  datatype SempError = SempError(operation: string, status: string, code: int)

  predicate IsStatus(e: SempError, status: string, code: int) {
    if e.status != "" then e.status == status else e.code == code
  }

  /** `classifyDesiredStateOutcome`: whether the error says the object is already there, or already gone. */
  function Classified(e: SempError): Option<bool> {
    if IsStatus(e, "ALREADY_EXISTS", 10) && "create" <= e.operation then Some(true)
    else if IsStatus(e, "NOT_FOUND", 6) && "delete" <= e.operation then Some(false)
    else None
  }

  /** `hasDesiredStateEligibleStep`. */
  predicate Eligible(tool: Tool, catalog: Catalog) {
    exists i | 0 <= i < |tool.steps| ::
      tool.steps[i].operation in catalog &&
      ("create" <= catalog[tool.steps[i].operation].id || "delete" <= catalog[tool.steps[i].operation].id)
  }

  /** The schema of a tool with a config or action step. */
  function Declared(tool: Tool, catalog: Catalog, required: map<string, seq<string>>): Schema {
    if Eligible(tool, catalog) then Either(Strict(tool, catalog, required), DesiredState())
    else Strict(tool, catalog, required)
  }

  /** `callsConfigOrActionOperation`. */
  predicate Writes(tool: Tool) {
    exists i | 0 <= i < |tool.steps| :: "config/" <= tool.steps[i].operation || "action/" <= tool.steps[i].operation
  }

  /** `StepKeyedEnvelopeSchema`. */
  function AnySteps(): Schema {
    Record(map[], [], Matching(Leaf(TObject)))
  }

  /** `outputSchema`. */
  function OutputSchema(tool: Tool, catalog: Catalog, required: map<string, seq<string>>): Schema {
    if Writes(tool) then Declared(tool, catalog, required) else AnySteps()
  }

  /** Without a write, an object of objects is all that is asked for. */
  lemma {:induction false} AnyStepsExact(j: Json)
    ensures Valid(j, AnySteps()) <==> j.Obj? && forall k | k in j.fields :: j.fields[k].Obj?
  {
    var s := AnySteps();
    assert s.properties == map[] && s.required == [];
    forall k | j.Obj? && k in j.fields
      ensures Valid(j.fields[k], Leaf(TObject)) <==> j.fields[k].Obj?
    {
      LeafExact(j.fields[k], TObject);
    }
  }

  /** A tool all of whose steps only read is held to that schema, and one with a config or action step to its own. */
  lemma {:induction false} SchemaByPrefix(tool: Tool, catalog: Catalog, required: map<string, seq<string>>)
    ensures (forall step | step in tool.steps :: !("config/" <= step.operation) && !("action/" <= step.operation)) ==>
              OutputSchema(tool, catalog, required) == AnySteps()
    ensures (exists step | step in tool.steps :: "config/" <= step.operation || "action/" <= step.operation) ==>
              OutputSchema(tool, catalog, required) == Declared(tool, catalog, required)
  {
    if Writes(tool) {
      var i :| 0 <= i < |tool.steps| && ("config/" <= tool.steps[i].operation || "action/" <= tool.steps[i].operation);
      assert tool.steps[i] in tool.steps;
    }
  }

  lemma {:induction false} StrictIsClosed(tool: Tool, catalog: Catalog, required: map<string, seq<string>>)
    ensures var s := Strict(tool, catalog, required);
            s.extra == NoExtra && s.kind == Some(TObject) && forall k | k in s.properties :: s.properties[k].kind == Some(TObject)
  {
    var s, at := Strict(tool, catalog, required), StepSchemas(catalog, required);
    forall k | k in s.properties
      ensures s.properties[k].kind == Some(TObject)
    {
      if !(tool.postProcess && k == SUMMARY) {
        var i := PropertiesAreSteps(tool.steps, at, |tool.steps|, k);
        assert at(tool.steps[i]) == StepSchemaIn(tool.steps[i], catalog, required);
      }
    }
  }

  /** A value of a schema that is closed and has only object properties has only object fields. */
  lemma {:induction false} ClosedFields(j: Json, s: Schema)
    requires Valid(j, s) && s.extra == NoExtra && s.kind == Some(TObject)
    requires forall k | k in s.properties :: s.properties[k].kind == Some(TObject)
    ensures j.Obj? && forall k | k in j.fields :: j.fields[k].Obj?
  {
  }

  lemma {:induction false} DesiredOutcomeIsText(j: Json)
    requires Valid(j, DesiredState())
    ensures j.Obj? && "outcome" in j.fields && j.fields["outcome"].Str?
  {
    var s := DesiredState();
    assert "outcome" in s.required;
    assert s.properties["outcome"].kind == Some(TString);
    assert Valid(j.fields["outcome"], s.properties["outcome"]);
  }

  /** For every tool, whatever its steps are called, no value satisfies both branches. */
  lemma {:induction false} BranchesDisjoint(tool: Tool, catalog: Catalog, required: map<string, seq<string>>, j: Json)
    ensures !(Valid(j, Strict(tool, catalog, required)) && Valid(j, DesiredState()))
  {
    if Valid(j, Strict(tool, catalog, required)) && Valid(j, DesiredState()) {
      StrictIsClosed(tool, catalog, required);
      ClosedFields(j, Strict(tool, catalog, required));
      DesiredOutcomeIsText(j);
    }
  }

  function Either(a: Schema, b: Schema): Schema {
    Schema(Some(TObject), map[], [], AnyExtra, None, [], [a, b])
  }

  lemma {:induction false} EitherAccepts(j: Json, a: Schema, b: Schema)
    requires a.kind == Some(TObject) && b.kind == Some(TObject) && !(Valid(j, a) && Valid(j, b))
    ensures Valid(j, Either(a, b)) <==> Valid(j, a) || Valid(j, b)
  {
    var e := Either(a, b);
    assert e.oneOf[0] == a && e.oneOf[1] == b;
    if Valid(j, a) || Valid(j, b) {
      assert j.Obj?;
      var i := if Valid(j, a) then 0 else 1;
      assert Valid(j, e.oneOf[i]) && forall k | 0 <= k < 2 && k != i :: !Valid(j, e.oneOf[k]);
    }
  }

  /** So the declared schema accepts exactly the union of the two, and oneOf always matches one branch. */
  lemma {:induction false} DeclaredAccepts(tool: Tool, catalog: Catalog, required: map<string, seq<string>>, j: Json)
    ensures Valid(j, Declared(tool, catalog, required)) <==>
            Valid(j, Strict(tool, catalog, required)) || (Eligible(tool, catalog) && Valid(j, DesiredState()))
    ensures Eligible(tool, catalog) <==>
            exists step | step in tool.steps ::
              step.operation in catalog && ("create" <= catalog[step.operation].id || "delete" <= catalog[step.operation].id)
  {
    if Eligible(tool, catalog) {
      var i :| 0 <= i < |tool.steps| && tool.steps[i].operation in catalog &&
               ("create" <= catalog[tool.steps[i].operation].id || "delete" <= catalog[tool.steps[i].operation].id);
      assert tool.steps[i] in tool.steps;
      BranchesDisjoint(tool, catalog, required, j);
      StrictIsClosed(tool, catalog, required);
      EitherAccepts(j, Strict(tool, catalog, required), DesiredState());
    }
  }

  lemma {:induction false} ContentIsDesired(exists': bool, message: string, verified: bool)
    ensures Valid(Obj(DesiredStateContent(exists', message, verified)), DesiredState())
  {
    var c, s := DesiredStateContent(exists', message, verified), DesiredState();
    assert c.Keys <= s.properties.Keys;
    assert Valid(c["outcome"], s.properties["outcome"]);
    assert Valid(c["changed"], s.properties["changed"]);
    assert Valid(c["message"], s.properties["message"]);
  }

  lemma {:induction false} ChoiceExact(j: Json, t: Type, values: seq<Json>)
    ensures Valid(j, Leaf(t).(values := values)) <==> Typed(j, t) && (values != [] ==> j in values)
  {
  }

  lemma {:induction false} ReportKeys(keys: set<string>, ok: string -> bool)
    ensures (forall r | r in ["outcome", "changed", "message"] :: r in keys) &&
            (forall k | k in keys :: k in {"outcome", "changed", "message", "attributes_verified"} && ok(k)) <==>
            && {"outcome", "changed", "message"} <= keys <= {"outcome", "changed", "message", "attributes_verified"}
            && ok("outcome") && ok("changed") && ok("message") && ("attributes_verified" in keys ==> ok("attributes_verified"))
  {
    assert {"outcome", "changed", "message"} <= keys <==> forall r | r in ["outcome", "changed", "message"] :: r in keys;
  }

  /** The shape of a report, with any schemas for its fields. */
  lemma {:induction false} ReportExact(j: Json, outcome: Schema, changed: Schema, message: Schema, verified: Schema)
    ensures Valid(j, Record(map["outcome" := outcome, "changed" := changed, "message" := message, "attributes_verified" := verified],
                            ["outcome", "changed", "message"], NoExtra)) <==>
            && j.Obj? && {"outcome", "changed", "message"} <= j.fields.Keys <= {"outcome", "changed", "message", "attributes_verified"}
            && Valid(j.fields["outcome"], outcome) && Valid(j.fields["changed"], changed) && Valid(j.fields["message"], message)
            && ("attributes_verified" in j.fields ==> Valid(j.fields["attributes_verified"], verified))
  {
    var properties := map["outcome" := outcome, "changed" := changed, "message" := message, "attributes_verified" := verified];
    assert properties.Keys == {"outcome", "changed", "message", "attributes_verified"};
    ClosedExact(j, properties, ["outcome", "changed", "message"]);
    if j.Obj? {
      var fields := j.fields;
      ReportKeys(fields.Keys, (k: string) => k in fields && k in properties && Valid(fields[k], properties[k]));
    }
  }

  /** The desired-state schema accepts what such a report can be, and nothing else. */
  lemma {:induction false} DesiredExact(j: Json)
    ensures Valid(j, DesiredState()) <==>
            && j.Obj? && {"outcome", "changed", "message"} <= j.fields.Keys <= {"outcome", "changed", "message", "attributes_verified"}
            && j.fields["outcome"] in {Str("already_exists"), Str("already_absent")}
            && j.fields["changed"] == Bool(false) && j.fields["message"].Str?
            && ("attributes_verified" in j.fields ==> j.fields["attributes_verified"].Bool?)
  {
    var either, no := Leaf(TString).(values := [Str(ALREADY_EXISTS), Str(ALREADY_ABSENT)]), Leaf(TBoolean).(values := [Bool(false)]);
    ReportExact(j, either, no, Leaf(TString), Leaf(TBoolean));
    if j.Obj? && {"outcome", "changed", "message"} <= j.fields.Keys {
      ChoiceExact(j.fields["outcome"], TString, [Str(ALREADY_EXISTS), Str(ALREADY_ABSENT)]);
      ChoiceExact(j.fields["changed"], TBoolean, [Bool(false)]);
    }
  }

  /** The broker says so by name, or, where it names nothing, by number. */
  predicate Says(e: SempError, status: string, code: int) {
    e.status == status || (e.status == "" && e.code == code)
  }

  /** A create that meets an existing object is reported as already there, with whether its attributes were
      compared; a delete that meets none as already gone, without; and nothing else is reported so. */
  lemma {:induction false} ReportSays(e: SempError, message: string, verified: bool)
    ensures Classified(e).Some? <==>
            ("create" <= e.operation && Says(e, "ALREADY_EXISTS", 10)) || ("delete" <= e.operation && Says(e, "NOT_FOUND", 6))
    ensures Classified(e).Some? ==>
              var content := DesiredStateContent(Classified(e).value, message, verified);
              && content["changed"] == Bool(false) && content["message"] == Str(message)
              && ("create" <= e.operation ==>
                    content["outcome"] == Str("already_exists") && "attributes_verified" in content
                    && content["attributes_verified"] == Bool(verified))
              && ("delete" <= e.operation ==> content["outcome"] == Str("already_absent") && "attributes_verified" !in content)
  {
    if "create" <= e.operation { assert e.operation[0] == 'c'; }
    if "delete" <= e.operation { assert e.operation[0] == 'd'; }
  }

  /** Whenever one of a tool's own steps fails in a way that is reported as an already-reached state, the
      report satisfies the schema the tool declares. */
  lemma {:induction false} DesiredStateAdmitted(
      tool: Tool, catalog: Catalog, required: map<string, seq<string>>, i: nat, e: SempError, message: string, verified: bool)
    requires i < |tool.steps| && tool.steps[i].operation in catalog && e.operation == catalog[tool.steps[i].operation].id
    requires Classified(e).Some?
    ensures Valid(Obj(DesiredStateContent(Classified(e).value, message, verified)), Declared(tool, catalog, required))
  {
    ContentIsDesired(Classified(e).value, message, verified);
    DeclaredAccepts(tool, catalog, required, Obj(DesiredStateContent(Classified(e).value, message, verified)));
  }
}
