/** Tool authorization: the compiled policy, the check on every call, and the filter on tools/list. */
module Authz {
  import opened Options
  import Text

  /** The configuration: for each group, the tools it lists, repeats allowed. */
  type Groups = map<string, seq<string>>

  /** The plain meaning of the configuration. */
  predicate Lists(cfg: Groups, group: string, tool: string) {
    group in cfg && tool in cfg[group]
  }

  /** The compiled index: for each tool, the groups that grant it. */
  datatype Policy = Policy(toolGrantors: map<string, set<string>>)

  predicate Grants(p: Policy, group: string, tool: string) {
    tool in p.toolGrantors && group in p.toolGrantors[tool]
  }

  /** The index says what the configuration says, and holds no tool nobody grants. */
  ghost predicate Compiles(cfg: Groups, p: Policy) {
    && (forall group, tool :: Grants(p, group, tool) <==> Lists(cfg, group, tool))
    && (forall tool | tool in p.toolGrantors :: p.toolGrantors[tool] != {})
  }

  /** One grant more. */
  function Granting(p: Policy, group: string, tool: string): (r: Policy)
    ensures forall g, t :: Grants(r, g, t) <==> Grants(p, g, t) || (g == group && t == tool)
  {
    var grantors := if tool in p.toolGrantors then p.toolGrantors[tool] else {};
    Policy(p.toolGrantors[tool := grantors + {group}])
  }

  /** The grants of one group, added to the index; a tool listed twice is added once. */
  method AddGroup(p: Policy, group: string, tools: seq<string>) returns (r: Policy)
    requires forall tool | tool in p.toolGrantors :: p.toolGrantors[tool] != {}
    ensures forall g, tool :: Grants(r, g, tool) <==> Grants(p, g, tool) || (g == group && tool in tools)
    ensures forall tool | tool in r.toolGrantors :: r.toolGrantors[tool] != {}
  {
    r := p;
    var toolSeen: set<string> := {};
    for i := 0 to |tools|
      invariant forall tool :: tool in toolSeen <==> tool in tools[..i]
      invariant forall g, tool :: Grants(r, g, tool) <==> Grants(p, g, tool) || (g == group && tool in tools[..i])
      invariant forall tool | tool in r.toolGrantors :: r.toolGrantors[tool] != {}
    {
      var tool := tools[i];
      assert tools[..i + 1] == tools[..i] + [tool];
      if tool !in toolSeen {
        toolSeen := toolSeen + {tool};
        r := Granting(r, group, tool);
      }
    }
    assert tools[..|tools|] == tools;
  }

  /** `NewPolicy`, for any order in which the map of groups is walked. */
  method NewPolicy(cfg: Groups, order: seq<string>) returns (p: Policy)
    requires Text.Visits(order, cfg.Keys)
    ensures Compiles(cfg, p)
  {
    p := Policy(map[]);
    for i := 0 to |order|
      invariant forall group, tool :: Grants(p, group, tool) <==> Lists(cfg, group, tool) && group in order[..i]
      invariant forall tool | tool in p.toolGrantors :: p.toolGrantors[tool] != {}
    {
      assert order[i] in order;
      assert order[..i + 1] == order[..i] + [order[i]];
      p := AddGroup(p, order[i], cfg[order[i]]);
    }
    assert order[..|order|] == order;
  }

  /** Every walk compiles to the same index. */
  lemma {:induction false} CompiledOnce(cfg: Groups, p: Policy, q: Policy)
    requires Compiles(cfg, p) && Compiles(cfg, q)
    ensures p == q
  {
    forall tool
      ensures tool in p.toolGrantors <==> tool in q.toolGrantors
      ensures tool in p.toolGrantors ==> p.toolGrantors[tool] == q.toolGrantors[tool]
    {
      SameGrantors(cfg, p, q, tool);
      SameGrantors(cfg, q, p, tool);
    }
    assert p.toolGrantors == q.toolGrantors;
  }

  lemma {:induction false} SameGrantors(cfg: Groups, p: Policy, q: Policy, tool: string)
    requires Compiles(cfg, p) && Compiles(cfg, q)
    ensures tool in p.toolGrantors ==> tool in q.toolGrantors && p.toolGrantors[tool] <= q.toolGrantors[tool]
  {
    if tool in p.toolGrantors {
      forall g | g in p.toolGrantors[tool]
        ensures tool in q.toolGrantors && g in q.toolGrantors[tool]
      {
        assert Grants(p, g, tool);
        assert Grants(q, g, tool);
      }
      var g :| g in p.toolGrantors[tool];
    }
  }

  datatype Decision = Decision(allowed: bool, matchedGroups: seq<string>)

  /** The caller's groups that list the tool, sorted and without repeats: no other sequence is. */
  ghost predicate Matched(cfg: Groups, groups: seq<string>, tool: string, matched: seq<string>) {
    && Text.Sorted(matched) && Text.Distinct(matched)
    && forall g :: g in matched <==> g in groups && Lists(cfg, g, tool)
  }

  lemma {:induction false} MatchedOnce(cfg: Groups, groups: seq<string>, tool: string, a: seq<string>, b: seq<string>)
    requires Matched(cfg, groups, tool, a) && Matched(cfg, groups, tool, b)
    ensures a == b
  {
    Text.VisitsPermute(a, b, set g | g in a);
    Text.SortedUnique(a, b);
  }

  /** Some group of the caller lists the tool. */
  predicate Permitted(cfg: Groups, groups: seq<string>, tool: string) {
    exists g | g in groups :: Lists(cfg, g, tool)
  }

  /** `Authorize`. */
  method Authorize(p: Policy, ghost cfg: Groups, groups: seq<string>, tool: string) returns (d: Decision)
    requires Compiles(cfg, p)
    ensures d.allowed <==> Permitted(cfg, groups, tool)
    ensures Matched(cfg, groups, tool, d.matchedGroups)
  {
    if tool !in p.toolGrantors {
      assert forall g :: !Grants(p, g, tool);
      return Decision(false, []);
    }
    var grantors := p.toolGrantors[tool];
    var matched: seq<string>, seen: set<string> := [], {};
    for i := 0 to |groups|
      invariant forall g :: g in seen <==> g in groups[..i]
      invariant forall g :: g in matched <==> g in groups[..i] && g in grantors
      invariant Text.Distinct(matched)
    {
      var g := groups[i];
      assert groups[..i + 1] == groups[..i] + [g];
      if g !in seen {
        seen := seen + {g};
        if g in grantors {
          matched := matched + [g];
        }
      }
    }
    assert groups[..|groups|] == groups;
    assert forall g :: g in grantors <==> Grants(p, g, tool);
    if matched == [] {
      return Decision(false, []);
    }
    Text.SortSorted(matched);
    Text.SortDistinct(matched);
    assert matched[0] in matched;
    return Decision(true, Text.Sort(matched));
  }

  // ---------------------------------------------------------------------------------------------
  // Calling and listing
  // ---------------------------------------------------------------------------------------------

  const LIST_BROKERS := "list-brokers"
  const DESCRIBE_SEMP_SCHEMA := "describe-semp-schema"

  /** `IsExemptFromToolAuthorization`. */
  predicate Exempt(tool: string) {
    tool == LIST_BROKERS || tool == DESCRIBE_SEMP_SCHEMA
  }

  /** The groups a token presents; absent when the claim is missing. */
  type Claim = Option<seq<string>>

  /** Whether a call of the tool is dispatched, in terms of the configuration alone. */
  predicate MayCall(cfg: Groups, claim: Claim, tool: string) {
    Exempt(tool) || (claim.Some? && Permitted(cfg, claim.value, tool))
  }

  /** The call path: exempt tools are not wrapped; the rest pass `withAuthorization`. */
  method Call(p: Policy, ghost cfg: Groups, claim: Claim, tool: string) returns (dispatched: bool)
    requires Compiles(cfg, p)
    ensures dispatched <==> MayCall(cfg, claim, tool)
  {
    if Exempt(tool) {
      return true;
    }
    if claim.None? {
      return false;
    }
    var d := Authorize(p, cfg, claim.value, tool);
    return d.allowed;
  }

  /** The registered tools a caller may call, in the order they were registered; nil entries drop out. */
  function Callable(cfg: Groups, claim: Claim, tools: seq<Option<string>>): seq<string> {
    if tools == [] then []
    else
      var n := |tools| - 1;
      Callable(cfg, claim, tools[..n]) +
      if tools[n].Some? && MayCall(cfg, claim, tools[n].value) then [tools[n].value] else []
  }

  /** How many kept tools the policy itself allowed. */
  function Granted(cfg: Groups, claim: Claim, tools: seq<Option<string>>): nat {
    if tools == [] then 0
    else
      var n := |tools| - 1;
      Granted(cfg, claim, tools[..n]) +
      if tools[n].Some? && !Exempt(tools[n].value) && MayCall(cfg, claim, tools[n].value) then 1 else 0
  }

  /** The filter loop of `WithListFiltering`. */
  method FilterTools(p: Policy, ghost cfg: Groups, claim: Claim, tools: seq<Option<string>>)
    returns (kept: seq<string>, granted: nat)
    requires Compiles(cfg, p)
    ensures kept == Callable(cfg, claim, tools)
    ensures granted == Granted(cfg, claim, tools)
  {
    kept, granted := [], 0;
    for i := 0 to |tools|
      invariant kept == Callable(cfg, claim, tools[..i]) && granted == Granted(cfg, claim, tools[..i])
    {
      assert tools[..i + 1][..i] == tools[..i];
      if tools[i].Some? {
        var t := tools[i].value;
        if Exempt(t) {
          kept := kept + [t];
        } else if claim.Some? {
          var d := Authorize(p, cfg, claim.value, t);
          if d.allowed {
            kept, granted := kept + [t], granted + 1;
          }
        }
      }
    }
    assert tools[..|tools|] == tools;
  }

  /** For any token a registered tool is listed exactly when a call of it would be dispatched. */
  lemma {:induction false} ListedIffCallable(cfg: Groups, claim: Claim, tools: seq<Option<string>>, tool: string)
    ensures tool in Callable(cfg, claim, tools) <==> Some(tool) in tools && MayCall(cfg, claim, tool)
  {
    if tools != [] {
      var n := |tools| - 1;
      ListedIffCallable(cfg, claim, tools[..n], tool);
      assert tools == tools[..n] + [tools[n]];
    }
  }

  /** A list built by adding what each element in turn gives. */
  ghost predicate Appends(list: seq<Option<string>> -> seq<string>, gives: Option<string> -> seq<string>) {
    list([]) == [] && forall tools, t :: list(tools + [t]) == list(tools) + gives(t)
  }

  lemma {:induction false} AppendsInOrder(
      list: seq<Option<string>> -> seq<string>, gives: Option<string> -> seq<string>, a: seq<Option<string>>, b: seq<Option<string>>)
    requires Appends(list, gives)
    ensures list(a + b) == list(a) + list(b)
  {
    if b == [] {
      assert a + b == a;
    } else {
      var n := |b| - 1;
      AppendsInOrder(list, gives, a, b[..n]);
      assert a + b[..n] + [b[n]] == a + b;
      assert b[..n] + [b[n]] == b;
    }
  }

  /** What is listed of two lists in a row is what is listed of each, in a row: the order is kept. */
  lemma {:induction false} CallableInOrder(cfg: Groups, claim: Claim, a: seq<Option<string>>, b: seq<Option<string>>)
    ensures Callable(cfg, claim, a + b) == Callable(cfg, claim, a) + Callable(cfg, claim, b)
  {
    var list := (tools: seq<Option<string>>) => Callable(cfg, claim, tools);
    var gives := (t: Option<string>) => if t.Some? && MayCall(cfg, claim, t.value) then [t.value] else [];
    forall tools: seq<Option<string>>, t: Option<string>
      ensures list(tools + [t]) == list(tools) + gives(t)
    {
      assert (tools + [t])[..|tools|] == tools;
    }
    AppendsInOrder(list, gives, a, b);
  }

  /** Whatever the configuration, and without a groups claim, exactly two tools are listed and can be called; with
      one, those two and whatever some presented group lists. */
  lemma {:induction false} CallableByName(cfg: Groups, claim: Claim, tools: seq<Option<string>>, tool: string)
    ensures MayCall(cfg, claim, tool) <==>
            || tool == "list-brokers" || tool == "describe-semp-schema"
            || (claim.Some? && exists g | g in claim.value :: g in cfg && tool in cfg[g])
    ensures tool in Callable(cfg, claim, tools) <==>
            Some(tool) in tools &&
            (|| tool == "list-brokers" || tool == "describe-semp-schema"
             || (claim.Some? && exists g | g in claim.value :: g in cfg && tool in cfg[g]))
  {
    ListedIffCallable(cfg, claim, tools, tool);
  }

  datatype Reason = MissingClaim | NotPermitted | Unfiltered | Filtered

  /** `listFilterOutcome`. */
  function ListFilterOutcome(present: bool, granted: nat, after: nat, before: nat): Reason {
    if !present then MissingClaim
    else if granted == 0 then NotPermitted
    else if after == before then Unfiltered
    else Filtered
  }

  lemma {:induction false} KeptAtMost(cfg: Groups, claim: Claim, tools: seq<Option<string>>)
    ensures |Callable(cfg, claim, tools)| <= |tools|
    ensures |Callable(cfg, claim, tools)| == |tools| <==>
            forall i | 0 <= i < |tools| :: tools[i].Some? && MayCall(cfg, claim, tools[i].value)
  {
    if tools != [] {
      var n := |tools| - 1;
      KeptAtMost(cfg, claim, tools[..n]);
    }
  }

  predicate NothingGranted(cfg: Groups, claim: Claim, tools: seq<Option<string>>) {
    forall i | 0 <= i < |tools| && tools[i].Some? && !Exempt(tools[i].value) :: !MayCall(cfg, claim, tools[i].value)
  }

  lemma {:induction false} GrantedNone(cfg: Groups, claim: Claim, tools: seq<Option<string>>)
    ensures Granted(cfg, claim, tools) == 0 <==> NothingGranted(cfg, claim, tools)
  {
    if tools != [] {
      var n := |tools| - 1;
      GrantedNone(cfg, claim, tools[..n]);
    }
  }

  /** The reason recorded for a filter pass means what it says: "unfiltered" is reported only when every
      registered tool can be called, and "not permitted" exactly when the policy granted none. */
  lemma {:induction false} ReasonMeans(cfg: Groups, claim: Claim, tools: seq<Option<string>>)
    ensures var reason := ListFilterOutcome(
                            claim.Some?, Granted(cfg, claim, tools), |Callable(cfg, claim, tools)|, |tools|);
            && (reason.MissingClaim? <==> claim.None?)
            && (reason.NotPermitted? <==> claim.Some? && NothingGranted(cfg, claim, tools))
            && (reason.Unfiltered? ==> forall i | 0 <= i < |tools| :: tools[i].Some? && MayCall(cfg, claim, tools[i].value))
            && (reason.Filtered? ==> exists i | 0 <= i < |tools| :: tools[i].None? || !MayCall(cfg, claim, tools[i].value))
  {
    KeptAtMost(cfg, claim, tools);
    GrantedNone(cfg, claim, tools);
  }
}
