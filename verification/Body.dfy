/** Assembling a write's request body from the tool's parameters, and the named checks on it. */
module Body {
  import opened Options
  import opened Json
  import opened Text

  datatype Parameter = Parameter(name: string, inBody: bool)

  /** An operation as the assembly sees it; `bodyFields` is absent when the schema is unknown. */
  datatype Operation = Operation(id: string, parameters: seq<Parameter>, bodyFields: Option<set<string>>)

  datatype Mode = Create | Update | Replace

  /** `bodyModeFor`. */
  function ModeOf(id: string): Option<Mode> {
    if "create" <= id then Some(Create)
    else if "update" <= id then Some(Update)
    else if "replace" <= id then Some(Replace)
    else None
  }

  /** A named check. The field lists belong to the registry entry. */
  datatype Check =
    | RejectSecrets(secrets: set<string>)
    | RejectRetarget(fields: set<string>)
    | DisabledWhenAuthenticated

  /** Equality under case folding, character by character; `fold` picks one spelling of each letter. */
  predicate SameFold(fold: char -> char, a: string, b: string) {
    |a| == |b| && forall i | 0 <= i < |a| :: fold(a[i]) == fold(b[i])
  }

  predicate Names(fold: char -> char, body: Object, field: string) {
    exists key | key in body :: SameFold(fold, key, field)
  }

  /** `checkAuthenticatedBridgeIsDisabled`. */
  predicate BridgeDisabled(mode: Mode, body: Object) {
    if "authenticationScheme" !in body then true
    else
      var scheme := body["authenticationScheme"];
      if !scheme.Str? then false
      else if scheme.s == "" || scheme.s == "none" then true
      else
        var stated := "enabled" in body;
        if stated && !body["enabled"].Bool? then false
        else
          var enabled := stated && body["enabled"].b;
          if mode == Update then stated && !enabled else !enabled
  }

  /** One named check on the merged body. */
  predicate Passes(fold: char -> char, mode: Mode, check: Check, body: Object) {
    match check
    case RejectSecrets(secrets) => forall f | f in secrets :: !Names(fold, body, f)
    case RejectRetarget(fields) =>
      mode == Create ||
      ((forall f | f in fields :: !Names(fold, body, f)) &&
       forall key | key in body && SameFold(fold, key, "transportTlsEnabled") :: body[key] != Json.Bool(false))
    case DisabledWhenAuthenticated => BridgeDisabled(mode, body)
  }

  /** `runBodyChecks`. */
  predicate PassesAll(fold: char -> char, id: string, checks: seq<Check>, body: Object) {
    checks == [] || (ModeOf(id).Some? && forall c | c in checks :: Passes(fold, ModeOf(id).value, c, body))
  }

  // ---------------------------------------------------------------------------------------------
  // What the body should be
  // ---------------------------------------------------------------------------------------------

  /** What one parameter contributes: an object is spread, anything else stands under its own name. */
  function Offers(params: Object, name: string): Object
    requires name in params
  {
    if params[name].Obj? then params[name].fields else map[name := params[name]]
  }

  predicate Disjoint(params: Object, names: set<string>) {
    forall a, b | a in names && b in names && a != b && a in params && b in params ::
      Offers(params, a).Keys !! Offers(params, b).Keys
  }

  predicate LeakFree(params: Object, names: set<string>, reserved: set<string>) {
    forall a | a in names && a in params :: Offers(params, a).Keys !! reserved
  }

  ghost function Union(params: Object, names: set<string>): Object
    requires names <= params.Keys
  {
    map f | f in Fields(params, names) ::
      var name :| name in names && f in Offers(params, name); Offers(params, name)[f]
  }

  ghost function Fields(params: Object, names: set<string>): set<string>
    requires names <= params.Keys
  {
    set name, f | name in names && f in Offers(params, name) :: f
  }

  /** The names the operation takes from somewhere other than the body. */
  function Reserved(op: Operation): set<string> {
    set p | p in op.parameters && !p.inBody :: p.name
  }

  predicate HasBody(op: Operation) {
    exists p | p in op.parameters :: p.inBody
  }

  predicate Mergeable(params: Object, reserved: set<string>) {
    Disjoint(params, params.Keys - reserved) && LeakFree(params, params.Keys - reserved, reserved)
  }

  predicate Declared(op: Operation, body: Object) {
    op.bodyFields.Some? ==> body.Keys <= op.bodyFields.value
  }

  /** The arguments a call is sent with, or nothing when it is refused: no iteration order appears here. */
  ghost function Assembled(
      fold: char -> char, op: Operation, args: Object, params: Object, checks: seq<Check>): Option<Object> {
    if !HasBody(op) then if checks == [] then Some(args) else None
    else if !Mergeable(params, Reserved(op)) then None
    else
      var body := Union(params, params.Keys - Reserved(op));
      if PassesAll(fold, op.id, checks, body) && Declared(op, body) then Some(args["body" := Obj(body)]) else None
  }

  /** In a clash-free union every contribution is present and nothing else is. */
  lemma {:induction false} UnionHolds(params: Object, names: set<string>)
    requires names <= params.Keys && Disjoint(params, names)
    ensures forall a, f | a in names && f in Offers(params, a) ::
              f in Union(params, names) && Union(params, names)[f] == Offers(params, a)[f]
    ensures forall f | f in Union(params, names) :: exists a | a in names :: f in Offers(params, a)
  {
  }

  lemma {:induction false} UnionAt(params: Object, names: set<string>, a: string, f: string)
    requires names <= params.Keys && Disjoint(params, names) && a in names && f in Offers(params, a)
    ensures f in Union(params, names) && Union(params, names)[f] == Offers(params, a)[f]
  {
    UnionHolds(params, names);
  }

  lemma {:induction false} FieldsGrow(params: Object, names: set<string>, a: string)
    requires names <= params.Keys && a in params
    ensures Fields(params, names + {a}) == Fields(params, names) + Offers(params, a).Keys
  {
  }

  lemma {:induction false} FieldFrom(params: Object, names: set<string>, f: string) returns (a: string)
    requires names <= params.Keys && f in Fields(params, names)
    ensures a in names && f in Offers(params, a)
  {
    a :| a in names && f in Offers(params, a);
  }

  lemma {:induction false} FieldGrows(params: Object, names: set<string>, a: string, f: string)
    requires names <= params.Keys && a in params && a !in names && Disjoint(params, names + {a})
    requires f in Fields(params, names + {a})
    ensures var apart := Union(params, names) + Offers(params, a);
            f in apart && Union(params, names + {a})[f] == apart[f]
  {
    var from := FieldFrom(params, names + {a}, f);
    UnionAt(params, names + {a}, from, f);
    if from != a { UnionAt(params, names, from, f); }
  }

  /** One more parameter, disjoint from the rest, adds exactly its own contribution. */
  lemma {:induction false} UnionGrows(params: Object, names: set<string>, a: string)
    requires names <= params.Keys && a in params && a !in names && Disjoint(params, names + {a})
    ensures Union(params, names + {a}) == Union(params, names) + Offers(params, a)
  {
    FieldsGrow(params, names, a);
    var grown, apart := Union(params, names + {a}), Union(params, names) + Offers(params, a);
    assert grown.Keys == apart.Keys;
    forall f | f in grown
      ensures grown[f] == apart[f]
    {
      FieldGrows(params, names, a, f);
    }
  }

  // ---------------------------------------------------------------------------------------------
  // How it is assembled
  // ---------------------------------------------------------------------------------------------

  function Part(fields: Object, done: set<string>): Object {
    map k | k in fields && k in done :: fields[k]
  }

  lemma {:induction false} PartGrows(body: Object, fields: Object, done: set<string>, k: string)
    requires k in fields
    ensures (body + Part(fields, done))[k := fields[k]] == body + Part(fields, done + {k})
  {
  }

  lemma {:induction false} PartWhole(fields: Object, done: set<string>)
    requires fields.Keys <= done
    ensures Part(fields, done) == fields
  {
  }

  /** The fields of one object parameter, in the order the walk visits them. */
  method Spread(body: Object, fields: Object, reserved: set<string>, order: seq<string>) returns (r: Option<Object>)
    requires Visits(order, fields.Keys)
    ensures r == if fields.Keys !! reserved && fields.Keys !! body.Keys then Some(body + fields) else None
  {
    var merged := body;
    ghost var done: set<string> := {};
    for j := 0 to |order|
      invariant done == set i | 0 <= i < j :: order[i]
      invariant done !! reserved && done !! body.Keys && done <= fields.Keys
      invariant merged == body + Part(fields, done)
    {
      var k := order[j];
      assert k in order;
      if k in reserved || k in merged {
        return None;
      }
      PartGrows(body, fields, done, k);
      merged := merged[k := fields[k]];
      done := done + {k};
    }
    PartWhole(fields, done);
    return Some(merged);
  }

  /** `names` so far, taken in the order the walk visits the parameters. */
  lemma {:induction false} MergeableSoFar(params: Object, reserved: set<string>, names: set<string>)
    requires names <= params.Keys - reserved && Mergeable(params, reserved)
    ensures Disjoint(params, names) && LeakFree(params, names, reserved)
  {
  }

  /** Adding parameter `a` to what is merged so far works exactly when it neither clashes nor leaks. */
  lemma {:induction false} OneMore(params: Object, reserved: set<string>, names: set<string>, a: string)
    requires names <= params.Keys - reserved && a in params && a !in names && a !in reserved
    requires Disjoint(params, names) && LeakFree(params, names, reserved)
    ensures Offers(params, a).Keys !! reserved && Offers(params, a).Keys !! Union(params, names).Keys <==>
            Disjoint(params, names + {a}) && LeakFree(params, names + {a}, reserved)
  {
    UnionHolds(params, names);
    if Offers(params, a).Keys !! reserved && Offers(params, a).Keys !! Union(params, names).Keys {
      forall x, y | x in names + {a} && y in names + {a} && x != y
        ensures Offers(params, x).Keys !! Offers(params, y).Keys
      {
      }
    }
    if Disjoint(params, names + {a}) {
      assert Offers(params, a).Keys !! Union(params, names).Keys;
    }
  }

  /** One parameter of the outer loop. */
  method MergeOne(params: Object, reserved: set<string>, name: string, body: Object, keys: seq<string>)
    returns (r: Option<Object>)
    requires name in params && name !in reserved
    requires params[name].Obj? ==> Visits(keys, params[name].fields.Keys)
    ensures r == if Offers(params, name).Keys !! reserved && Offers(params, name).Keys !! body.Keys
                 then Some(body + Offers(params, name)) else None
  {
    if params[name].Obj? {
      r := Spread(body, params[name].fields, reserved, keys);
    } else if name in body {
      r := None;
    } else {
      r := Some(body[name := params[name]]);
      assert body[name := params[name]] == body + Offers(params, name);
    }
  }

  /** The merge loop, for any walk of the parameters and any walk of each object's keys. */
  method Merge(params: Object, reserved: set<string>, order: seq<string>, keys: string -> seq<string>)
    returns (r: Option<Object>)
    requires Visits(order, params.Keys)
    requires forall name | name in params && params[name].Obj? :: Visits(keys(name), params[name].fields.Keys)
    ensures r == if Mergeable(params, reserved) then Some(Union(params, params.Keys - reserved)) else None
  {
    var body: Object := map[];
    ghost var names: set<string> := {};
    assert body == Union(params, {});
    for i := 0 to |order|
      invariant names == set j | 0 <= j < i && order[j] !in reserved :: order[j]
      invariant names <= params.Keys - reserved
      invariant Disjoint(params, names) && LeakFree(params, names, reserved)
      invariant body == Union(params, names)
    {
      var name := order[i];
      assert name in order;
      if name !in reserved {
        assert name !in names;
        OneMore(params, reserved, names, name);
        var more := MergeOne(params, reserved, name, body, keys(name));
        if more.None? {
          if Mergeable(params, reserved) { MergeableSoFar(params, reserved, names + {name}); }
          return None;
        }
        UnionGrows(params, names, name);
        body := more.value;
        names := names + {name};
      }
    }
    assert names == params.Keys - reserved;
    return Some(body);
  }

  /** Which names are reserved, and whether there is a body at all. */
  method Classify(parameters: seq<Parameter>) returns (hasBody: bool, reserved: set<string>)
    ensures hasBody <==> exists p | p in parameters :: p.inBody
    ensures reserved == set p | p in parameters && !p.inBody :: p.name
  {
    hasBody, reserved := false, {};
    for i := 0 to |parameters|
      invariant hasBody <==> exists p | p in parameters[..i] :: p.inBody
      invariant reserved == set p | p in parameters[..i] && !p.inBody :: p.name
    {
      assert parameters[..i + 1] == parameters[..i] + [parameters[i]];
      if parameters[i].inBody {
        hasBody := true;
      } else {
        reserved := reserved + {parameters[i].name};
      }
    }
    assert parameters[..|parameters|] == parameters;
  }

  /** `constructRequestBody`: the result is the same for every walk of the maps it reads. */
  method ConstructRequestBody(
      fold: char -> char, op: Operation, args: Object, params: Object, checks: seq<Check>,
      order: seq<string>, keys: string -> seq<string>)
    returns (r: Option<Object>)
    requires Visits(order, params.Keys)
    requires forall name | name in params && params[name].Obj? :: Visits(keys(name), params[name].fields.Keys)
    ensures r == Assembled(fold, op, args, params, checks)
  {
    var hasBody, reserved := Classify(op.parameters);
    if !hasBody {
      return if checks != [] then None else Some(args);
    }
    var merged := Merge(params, reserved, order, keys);
    if merged.None? || !PassesAll(fold, op.id, checks, merged.value) || !Declared(op, merged.value) {
      return None;
    }
    return Some(args["body" := Obj(merged.value)]);
  }

  /** Exactly one body parameter supplies this field, with this value. */
  ghost predicate SuppliedOnce(params: Object, reserved: set<string>, field: string, value: Json) {
    exists a | a in params.Keys - reserved ::
      && field in Offers(params, a) && Offers(params, a)[field] == value
      && forall b | b in params.Keys - reserved && field in Offers(params, b) :: b == a
  }

  /** The body selects an authentication scheme that needs a secret. */
  predicate Authenticated(body: Object) {
    StringAt(body, "authenticationScheme") != "" && StringAt(body, "authenticationScheme") != "none"
  }

  /** What a check has against a write, by the name of the operation: `create` makes a new object, and `update`
      leaves unmentioned fields as they are. */
  predicate Objects(fold: char -> char, id: string, c: Check, body: Object) {
    match c
    case RejectSecrets(secrets) => exists key, f | key in body && f in secrets :: SameFold(fold, key, f)
    case RejectRetarget(fields) =>
      && !("create" <= id)
      && ((exists key, f | key in body && f in fields :: SameFold(fold, key, f)) ||
          exists key | key in body :: SameFold(fold, key, "transportTlsEnabled") && body[key] == Json.Bool(false))
    case DisabledWhenAuthenticated =>
      && "authenticationScheme" in body
      && (!body["authenticationScheme"].Str? ||
          (Authenticated(body) &&
           (if "enabled" in body then body["enabled"] != Json.Bool(false) else "update" <= id)))
  }

  /** Only these operations can be checked at all. */
  predicate Checkable(id: string) {
    "create" <= id || "update" <= id || "replace" <= id
  }

  lemma {:induction false} ModeByName(id: string)
    ensures ModeOf(id).Some? <==> Checkable(id)
    ensures ModeOf(id) == Some(Create) <==> "create" <= id
    ensures ModeOf(id) == Some(Update) <==> "update" <= id
  {
    if "create" <= id { assert id[0] == 'c'; }
    if "update" <= id { assert id[0] == 'u'; }
  }

  lemma {:induction false} PassesIffNoObjection(fold: char -> char, id: string, c: Check, body: Object)
    requires Checkable(id)
    ensures ModeOf(id).Some? && (Passes(fold, ModeOf(id).value, c, body) <==> !Objects(fold, id, c, body))
  {
    ModeByName(id);
  }

  /** The contributions of the parameters and nothing else. */
  ghost predicate Gathers(params: Object, reserved: set<string>, body: Object) {
    && (forall f | f in body :: exists a | a in params.Keys - reserved :: f in Offers(params, a) && Offers(params, a)[f] == body[f])
    && (forall a, f | a in params.Keys - reserved && f in Offers(params, a) :: f in body && body[f] == Offers(params, a)[f])
  }

  /** Two parameters contribute the same field. */
  predicate Clashes(params: Object, reserved: set<string>) {
    exists a, b, f | a in params.Keys - reserved && b in params.Keys - reserved && a != b && f in Offers(params, a) :: f in Offers(params, b)
  }

  /** A parameter contributes a field that belongs in the path or the query. */
  predicate Leaks(params: Object, reserved: set<string>) {
    exists a, f | a in params.Keys - reserved && f in Offers(params, a) :: f in reserved
  }

  lemma {:induction false} MergeableIff(params: Object, reserved: set<string>)
    ensures Mergeable(params, reserved) <==> !Clashes(params, reserved) && !Leaks(params, reserved)
  {
  }

  lemma {:induction false} GathersOnce(params: Object, reserved: set<string>, a: Object, b: Object)
    requires Gathers(params, reserved, a) && Gathers(params, reserved, b)
    ensures a == b
  {
  }

  lemma {:induction false} UnionGathers(params: Object, reserved: set<string>)
    requires Mergeable(params, reserved)
    ensures Gathers(params, reserved, Union(params, params.Keys - reserved))
  {
    UnionHolds(params, params.Keys - reserved);
  }

  lemma {:induction false} AllPass(fold: char -> char, id: string, checks: seq<Check>, body: Object)
    ensures PassesAll(fold, id, checks, body) <==>
            checks == [] || (Checkable(id) && forall c | c in checks :: !Objects(fold, id, c, body))
  {
    ModeByName(id);
    if Checkable(id) {
      forall c | c in checks
        ensures Passes(fold, ModeOf(id).value, c, body) <==> !Objects(fold, id, c, body)
      {
        PassesIffNoObjection(fold, id, c, body);
      }
    }
  }

  /** An operation that takes no body is called as it is, and refused if checks were asked for. */
  lemma {:induction false} WithoutBody(fold: char -> char, op: Operation, args: Object, params: Object, checks: seq<Check>)
    requires forall p | p in op.parameters :: !p.inBody
    ensures Assembled(fold, op, args, params, checks) == if checks == [] then Some(args) else None
  {
  }

  /** A write with a body is refused if its contributions clash or leak. */
  lemma {:induction false} UnmergeableRefused(fold: char -> char, op: Operation, args: Object, params: Object, checks: seq<Check>)
    requires HasBody(op) && (Clashes(params, Reserved(op)) || Leaks(params, Reserved(op)))
    ensures Assembled(fold, op, args, params, checks).None?
  {
    MergeableIff(params, Reserved(op));
  }

  /** Any other write with a body is sent, with exactly its contributions, unless it has checks and one of them
      objects or cannot apply to the operation, or the operation does not declare a field of it. */
  lemma {:induction false} SentExactly(
      fold: char -> char, op: Operation, args: Object, params: Object, checks: seq<Check>, body: Object)
    requires HasBody(op) && !Clashes(params, Reserved(op)) && !Leaks(params, Reserved(op)) && Gathers(params, Reserved(op), body)
    ensures Assembled(fold, op, args, params, checks) ==
            if (checks == [] || (Checkable(op.id) && forall c | c in checks :: !Objects(fold, op.id, c, body)))
               && (op.bodyFields.Some? ==> forall f | f in body :: f in op.bodyFields.value)
            then Some(args["body" := Obj(body)]) else None
  {
    MergeableIff(params, Reserved(op));
    UnionGathers(params, Reserved(op));
    GathersOnce(params, Reserved(op), body, Union(params, params.Keys - Reserved(op)));
    AllPass(fold, op.id, checks, body);
  }

  /** A body that is sent holds each contribution once and nothing else; no path or query name; no listed
      secret in any letter case; unless a new object is created no retargeting field in any letter case and no
      TLS turned off; no bridge that needs a secret left enabled; and no field the operation does not declare. */
  lemma {:induction false} AcceptedBody(
      fold: char -> char, op: Operation, args: Object, params: Object, checks: seq<Check>, body: Object)
    requires HasBody(op) && Assembled(fold, op, args, params, checks) == Some(args["body" := Obj(body)])
    ensures forall f | f in body :: SuppliedOnce(params, Reserved(op), f, body[f])
    ensures forall a, f | a in params.Keys - Reserved(op) && f in Offers(params, a) :: f in body
    ensures forall a | a in params && (forall p | p in op.parameters && p.name == a :: p.inBody) ::
              if params[a].Obj? then forall f | f in params[a].fields :: f in body && body[f] == params[a].fields[f]
              else a in body && body[a] == params[a]
    ensures forall p | p in op.parameters && !p.inBody :: p.name !in body
    ensures forall c, secret, key | c in checks && c.RejectSecrets? && secret in c.secrets && key in body ::
              !SameFold(fold, key, secret)
    ensures forall c, f, key | c in checks && c.RejectRetarget? && !("create" <= op.id) && f in c.fields && key in body ::
              !SameFold(fold, key, f)
    ensures forall c, key | c in checks && c.RejectRetarget? && !("create" <= op.id) && key in body &&
                            SameFold(fold, key, "transportTlsEnabled") :: body[key] != Json.Bool(false)
    ensures DisabledWhenAuthenticated in checks && Authenticated(body) ==>
              if "enabled" in body then body["enabled"] == Json.Bool(false) else !("update" <= op.id)
    ensures Declared(op, body)
  {
    var reserved := Reserved(op);
    assert args["body" := Obj(body)]["body"] == Obj(body);
    assert body == Union(params, params.Keys - reserved);
    UnionGathers(params, reserved);
    AllPass(fold, op.id, checks, body);
    ContributedOnce(params, reserved, body);
    if DisabledWhenAuthenticated in checks {
      assert !Objects(fold, op.id, DisabledWhenAuthenticated, body);
    }
    forall c | c in checks && c.RejectRetarget? && !("create" <= op.id)
      ensures forall f, key | f in c.fields && key in body :: !SameFold(fold, key, f)
      ensures forall key | key in body && SameFold(fold, key, "transportTlsEnabled") :: body[key] != Json.Bool(false)
    {
      assert !Objects(fold, op.id, c, body);
    }
    forall c | c in checks && c.RejectSecrets?
      ensures forall secret, key | secret in c.secrets && key in body :: !SameFold(fold, key, secret)
    {
      assert !Objects(fold, op.id, c, body);
    }
  }

  lemma {:induction false} ContributedOnce(params: Object, reserved: set<string>, body: Object)
    requires Mergeable(params, reserved) && Gathers(params, reserved, body)
    ensures forall f | f in body :: SuppliedOnce(params, reserved, f, body[f])
    ensures body.Keys !! reserved
  {
    forall f | f in body
      ensures SuppliedOnce(params, reserved, f, body[f]) && f !in reserved
    {
      var a :| a in params.Keys - reserved && f in Offers(params, a) && Offers(params, a)[f] == body[f];
    }
  }
}
