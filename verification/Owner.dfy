/** The owner check in front of a write: it must look at the owner the body assembly will send. */
module Owner {
  import opened Options
  import opened Json
  import opened Text
  import opened Body

  const OWNER := "owner"
  const VPN := "msgVpnName"

  /** A non-empty string. */
  function NonEmpty(j: Json): Option<string> {
    if j.Str? && j.s != "" then Some(j.s) else None
  }

  /** The owner an object parameter carries, if it is an object and carries one. */
  function OwnerIn(params: Object, name: string): Option<string> {
    if name in params && params[name].Obj? && OWNER in params[name].fields then NonEmpty(params[name].fields[OWNER])
    else None
  }

  /** The owner given as a parameter of its own. */
  function BareOwner(params: Object): Option<string> {
    if OWNER in params then NonEmpty(params[OWNER]) else None
  }

  /** The final scan: the first parameter other than `configParam` that carries an owner. */
  function Scan(params: Object, configParam: string, order: seq<string>): (r: Option<string>) {
    if order == [] then None
    else if order[0] != configParam && OwnerIn(params, order[0]).Some? then OwnerIn(params, order[0])
    else Scan(params, configParam, order[1..])
  }

  /** `extractOwner`, for one order in which the map walk visits the parameters. */
  function ExtractOwner(params: Object, configParam: string, order: seq<string>): Option<string> {
    if OwnerIn(params, configParam).Some? then OwnerIn(params, configParam)
    else if BareOwner(params).Some? then BareOwner(params)
    else Scan(params, configParam, order)
  }

  lemma {:induction false} ScanFinds(params: Object, configParam: string, order: seq<string>)
    ensures var r := Scan(params, configParam, order);
            && (r.Some? ==> exists name | name in order :: name != configParam && OwnerIn(params, name) == r)
            && (r.None? ==> forall name | name in order && name != configParam :: OwnerIn(params, name).None?)
  {
    if order != [] { ScanFinds(params, configParam, order[1..]); }
  }

  /** Some parameter gives this owner, by itself or as part of an object; an empty text is no owner. */
  ghost predicate Gives(params: Object, o: string) {
    && o != ""
    && ((OWNER in params && params[OWNER] == Str(o)) ||
        exists name | name in params :: params[name].Obj? && OWNER in params[name].fields && params[name].fields[OWNER] == Str(o))
  }

  /** An owner is read in every order exactly if some parameter gives one, and one that is read is given. */
  lemma {:induction false} ReadIffGiven(params: Object, configParam: string, order: seq<string>)
    requires Visits(order, params.Keys)
    ensures var r := ExtractOwner(params, configParam, order);
            (r.Some? <==> exists o :: Gives(params, o)) && (r.Some? ==> Gives(params, r.value))
  {
    ScanFinds(params, configParam, order);
    var r := ExtractOwner(params, configParam, order);
    if r.Some? && OwnerIn(params, configParam).None? && BareOwner(params).None? {
      var name :| name in order && OwnerIn(params, name) == r;
      assert name in params;
    }
    assert r.Some? ==> Gives(params, r.value);
    forall o | Gives(params, o)
      ensures ExtractOwner(params, configParam, order).Some?
    {
      if !(OWNER in params && params[OWNER] == Str(o)) {
        var name :| name in params && params[name].Obj? && OWNER in params[name].fields && params[name].fields[OWNER] == Str(o);
        assert OwnerIn(params, name) == Some(o);
      }
    }
  }

  /** Where the owner in the body came from: a parameter of its own, or exactly one object. */
  lemma {:induction false} OwnerSource(params: Object, reserved: set<string>, value: Json, o: string)
    requires SuppliedOnce(params, reserved, OWNER, value) && NonEmpty(value) == Some(o)
    ensures BareOwner(params) == Some(o) || exists a | a in params.Keys - reserved :: OwnerIn(params, a) == Some(o)
  {
    var a :| a in params.Keys - reserved && OWNER in Offers(params, a) && Offers(params, a)[OWNER] == value;
    if params[a].Obj? {
      assert OwnerIn(params, a) == Some(o);
    }
  }

  /** Whatever the parameters look like, an owner that would reach the broker never goes unnoticed. */
  lemma {:induction false} OwnerNeverMissed(
      params: Object, reserved: set<string>, value: Json, o: string, configParam: string, order: seq<string>)
    requires SuppliedOnce(params, reserved, OWNER, value) && NonEmpty(value) == Some(o)
    requires Visits(order, params.Keys)
    ensures ExtractOwner(params, configParam, order).Some?
  {
    OwnerSource(params, reserved, value, o);
    ScanFinds(params, configParam, order);
  }

  /** Parameters the operation takes from the path or query are not objects. */
  predicate ScalarReserved(params: Object, reserved: set<string>) {
    forall name | name in params && name in reserved :: !params[name].Obj?
  }

  /** No parameter consulted before the true source carries a different owner. */
  ghost predicate Unshadowed(params: Object, configParam: string, o: string) {
    || OwnerIn(params, configParam) == Some(o)
    || (OwnerIn(params, configParam).None? &&
        (BareOwner(params) == Some(o) ||
         (BareOwner(params).None? && forall a | a in params && OwnerIn(params, a).Some? :: OwnerIn(params, a) == Some(o))))
  }

  /** When path and query parameters are scalars, every owner in sight is the one in the body. */
  lemma {:induction false} ScalarMeansUnshadowed(params: Object, reserved: set<string>, value: Json, o: string, configParam: string)
    requires SuppliedOnce(params, reserved, OWNER, value) && NonEmpty(value) == Some(o)
    requires ScalarReserved(params, reserved) && OWNER !in reserved
    ensures Unshadowed(params, configParam, o)
  {
    var a :| a in params.Keys - reserved && OWNER in Offers(params, a) && Offers(params, a)[OWNER] == value
             && forall b | b in params.Keys - reserved && OWNER in Offers(params, b) :: b == a;
    forall b | b in params && OwnerIn(params, b).Some?
      ensures b == a
    {
      assert OWNER in Offers(params, b);
    }
    if BareOwner(params).Some? {
      assert OWNER in Offers(params, OWNER);
    }
  }

  /** The check reads exactly the owner in the body, for every order, if and only if nothing shadows it. */
  lemma {:induction false} SeenIffUnshadowed(
      params: Object, reserved: set<string>, value: Json, o: string, configParam: string)
    requires SuppliedOnce(params, reserved, OWNER, value) && NonEmpty(value) == Some(o)
    ensures (forall order | Visits(order, params.Keys) :: ExtractOwner(params, configParam, order) == Some(o)) <==>
            Unshadowed(params, configParam, o)
  {
    if Unshadowed(params, configParam, o) {
      forall order | Visits(order, params.Keys)
        ensures ExtractOwner(params, configParam, order) == Some(o)
      {
        OwnerNeverMissed(params, reserved, value, o, configParam, order);
        ScanFinds(params, configParam, order);
      }
    } else if OwnerIn(params, configParam).None? && BareOwner(params).None? {
      var a :| a in params && OwnerIn(params, a).Some? && OwnerIn(params, a) != Some(o);
      var order := Starting(params.Keys, a);
      assert ExtractOwner(params, configParam, order) == OwnerIn(params, a);
    } else {
      var order := Listed(params.Keys);
      assert ExtractOwner(params, configParam, order) != Some(o);
    }
  }

  /** Some walk of a set of keys. */
  ghost function Listed(keys: set<string>): (r: seq<string>)
    ensures Visits(r, keys)
    decreases |keys|
  {
    if keys == {} then []
    else
      var k :| k in keys;
      var rest := Listed(keys - {k});
      assert forall x :: x in [k] + rest <==> x in keys;
      [k] + rest
  }

  /** Some walk that visits `a` first. */
  ghost function Starting(keys: set<string>, a: string): (r: seq<string>)
    requires a in keys
    ensures Visits(r, keys) && r[0] == a
  {
    var rest := Listed(keys - {a});
    assert forall x :: x in [a] + rest <==> x in keys;
    [a] + rest
  }

  /** The owner check sees what is written: with scalar path and query parameters, if a body is sent with
      a non-empty string owner, the check reads exactly that string, whichever parameter carried it and
      in whatever order the maps are walked. */
  lemma {:induction false} OwnerSeen(
      fold: char -> char, op: Operation, args: Object, params: Object, checks: seq<Check>, body: Object, o: string,
      configParam: string, order: seq<string>)
    requires HasBody(op) && Assembled(fold, op, args, params, checks) == Some(args["body" := Obj(body)])
    requires OWNER in body && NonEmpty(body[OWNER]) == Some(o)
    requires ScalarReserved(params, Reserved(op)) && Visits(order, params.Keys)
    ensures ExtractOwner(params, configParam, order) == Some(o)
  {
    AcceptedBody(fold, op, args, params, checks, body);
    assert SuppliedOnce(params, Reserved(op), OWNER, body[OWNER]);
    ScalarMeansUnshadowed(params, Reserved(op), body[OWNER], o, configParam);
    SeenIffUnshadowed(params, Reserved(op), body[OWNER], o, configParam);
  }

  // ---------------------------------------------------------------------------------------------
  // The handler
  // ---------------------------------------------------------------------------------------------

  datatype Read = Found | NotFound | Inconclusive

  datatype Decision = Proceed | DeniedNotFound(owner: string) | DeniedInconclusive(owner: string, aboutVpn: bool)

  /** The owner exists, or the reads show it is the VPN that does not. */
  predicate Known(params: Object, o: string, username: (string, string) -> Read, vpn: string -> Read) {
    var name := StringAt(params, VPN);
    username(name, o) == Found || (username(name, o) == NotFound && vpn(name) == NotFound)
  }

  /** The write goes ahead: there is no owner to check, or the one the check reads is known. */
  predicate Proceeds(
      params: Object, configParam: string, order: seq<string>, username: (string, string) -> Read, vpn: string -> Read) {
    var owner := ExtractOwner(params, configParam, order);
    owner.None? || Known(params, owner.value, username, vpn)
  }

  /** `Handle`: the two reads, and whether the wrapped write runs. */
  method Handle(
      params: Object, configParam: string, order: seq<string>,
      username: (string, string) -> Read, vpn: string -> Read)
    returns (d: Decision)
    ensures d.Proceed? <==> Proceeds(params, configParam, order, username, vpn)
    ensures var owner, name := ExtractOwner(params, configParam, order), StringAt(params, VPN);
            d.Proceed? <==> owner.None? || username(name, owner.value) == Found ||
                            (username(name, owner.value) == NotFound && vpn(name) == NotFound)
    ensures d.DeniedNotFound? ==>
            && ExtractOwner(params, configParam, order) == Some(d.owner)
            && username(StringAt(params, VPN), d.owner) == NotFound && vpn(StringAt(params, VPN)) == Found
    ensures d.DeniedInconclusive? ==>
            && ExtractOwner(params, configParam, order) == Some(d.owner)
            && (if d.aboutVpn then vpn(StringAt(params, VPN)) else username(StringAt(params, VPN), d.owner)) == Inconclusive
  {
    var owner := ExtractOwner(params, configParam, order);
    if owner.None? {
      return Proceed;
    }
    var name := StringAt(params, VPN);
    var read := username(name, owner.value);
    if read == Found {
      return Proceed;
    }
    if read == Inconclusive {
      return DeniedInconclusive(owner.value, false);
    }
    match vpn(name) {
      case NotFound => return Proceed;
      case Inconclusive => return DeniedInconclusive(owner.value, true);
      case Found => return DeniedNotFound(owner.value);
    }
  }

  /** So no write that names an owner runs unless that very owner was found, or its VPN was not: for any
      answers the broker gives and any order of the walk. */
  lemma {:induction false} WriteChecked(
      fold: char -> char, op: Operation, args: Object, params: Object, checks: seq<Check>, body: Object, o: string,
      configParam: string, order: seq<string>, username: (string, string) -> Read, vpn: string -> Read)
    requires HasBody(op) && Assembled(fold, op, args, params, checks) == Some(args["body" := Obj(body)])
    requires OWNER in body && NonEmpty(body[OWNER]) == Some(o)
    requires ScalarReserved(params, Reserved(op)) && Visits(order, params.Keys)
    ensures Proceeds(params, configParam, order, username, vpn) <==> Known(params, o, username, vpn)
  {
    OwnerSeen(fold, op, args, params, checks, body, o, configParam, order);
  }

  /** A broker on which every owner exists but `o`, and on which every VPN exists. */
  function AllBut(o: string): (string, string) -> Read {
    (name: string, owner: string) => if owner == o then NotFound else Found
  }

  function AllVpns(): string -> Read {
    (name: string) => Found
  }

  lemma {:induction false} OwnerSupplied(
      fold: char -> char, op: Operation, args: Object, params: Object, checks: seq<Check>, body: Object)
    requires HasBody(op) && Assembled(fold, op, args, params, checks) == Some(args["body" := Obj(body)]) && OWNER in body
    ensures SuppliedOnce(params, Reserved(op), OWNER, body[OWNER])
  {
    AcceptedBody(fold, op, args, params, checks, body);
  }

  /** Path and query parameters of any shape: the check decides by the owner in the body, for every order of
      the walk and every broker, exactly when nothing shadows that owner. If something does, there is an
      order and a broker for which a write goes ahead though the owner it sends does not exist. */
  lemma {:induction false} WriteCheckedIffUnshadowed(
      fold: char -> char, op: Operation, args: Object, params: Object, checks: seq<Check>, body: Object, o: string,
      configParam: string)
    requires HasBody(op) && Assembled(fold, op, args, params, checks) == Some(args["body" := Obj(body)])
    requires OWNER in body && NonEmpty(body[OWNER]) == Some(o)
    ensures Unshadowed(params, configParam, o) ==>
              forall order, username: (string, string) -> Read, vpn: string -> Read | Visits(order, params.Keys) ::
                Proceeds(params, configParam, order, username, vpn) <==> Known(params, o, username, vpn)
    ensures !Unshadowed(params, configParam, o) ==>
              exists order | Visits(order, params.Keys) ::
                Proceeds(params, configParam, order, AllBut(o), AllVpns()) && !Known(params, o, AllBut(o), AllVpns())
  {
    OwnerSupplied(fold, op, args, params, checks, body);
    SeenIffUnshadowed(params, Reserved(op), body[OWNER], o, configParam);
    if !Unshadowed(params, configParam, o) {
      var order :| Visits(order, params.Keys) && ExtractOwner(params, configParam, order) != Some(o);
      assert Proceeds(params, configParam, order, AllBut(o), AllVpns());
    }
  }

  /** Such a write, for an operation with any path or query parameter `q`: that parameter is an object with an
      owner of its own, the true owner is in another object than the one consulted first, and the walk meets
      `q` before it. The body is assembled with owner `o`; the check reads `other`; and the write goes ahead
      on a broker that has no owner `o`. */
  lemma {:induction false} ShadowedOwner(
      fold: char -> char, op: Operation, q: string, bodyParam: string, args: Object,
      carrier: string, configParam: string, o: string, other: string)
    requires o != "" && other != "" && o != other
    requires q != OWNER && carrier != OWNER && carrier != q && carrier != configParam
    requires op.parameters == [Parameter(q, false), Parameter(bodyParam, true)] && op.bodyFields.None?
    ensures var params: Object := map[q := Obj(map[OWNER := Str(other)]), carrier := Obj(map[OWNER := Str(o)])];
            && Assembled(fold, op, args, params, []) == Some(args["body" := Obj(map[OWNER := Str(o)])])
            && Visits([q, carrier], params.Keys) && ExtractOwner(params, configParam, [q, carrier]) == Some(other)
            && Proceeds(params, configParam, [q, carrier], AllBut(o), AllVpns()) && !Known(params, o, AllBut(o), AllVpns())
  {
    var params: Object := map[q := Obj(map[OWNER := Str(other)]), carrier := Obj(map[OWNER := Str(o)])];
    assert OwnerIn(params, q) == Some(other);
    ShadowedBody(op, params, q, carrier, o, other, bodyParam);
    assert HasBody(op) by { assert op.parameters[1].inBody; }
  }

  lemma {:induction false} ShadowedBody(
      op: Operation, params: Object, q: string, carrier: string, o: string, other: string, bodyParam: string)
    requires q != OWNER && carrier != q
    requires op.parameters == [Parameter(q, false), Parameter(bodyParam, true)]
    requires params == map[q := Obj(map[OWNER := Str(other)]), carrier := Obj(map[OWNER := Str(o)])]
    ensures Reserved(op) == {q} && Mergeable(params, {q}) && Union(params, params.Keys - {q}) == map[OWNER := Str(o)]
  {
    assert op.parameters[0] in op.parameters;
    assert forall p | p in op.parameters && !p.inBody :: p.name == q;
    assert Reserved(op) == {q};
    var names := params.Keys - {q};
    assert names == {carrier};
    assert Offers(params, carrier) == map[OWNER := Str(o)];
    UnionHolds(params, names);
    assert Union(params, names).Keys == {OWNER};
  }
}
