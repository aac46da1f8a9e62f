/** The walk over a YAML node tree that rewrites value scalars, and nothing else. */
module EnvTree {
  import opened Options
  import opened EnvSubst

  /** A parsed document. A mapping's content alternates keys and values. `plain` is an unquoted scalar,
      whose tag was guessed from its text. */
  datatype Node =
    | Document(children: seq<Node>)
    | Sequence(children: seq<Node>)
    | Mapping(content: seq<Node>)
    | Scalar(value: string, plain: bool, tag: string)
    | Alias(anchor: string)

  /** `substituteScalar`. */
  function Substituted(env: Environment, n: Node): Node
    requires n.Scalar?
  {
    if HasRef(n.value) then Scalar(Replaced(env, n.value), n.plain, if n.plain then "" else n.tag) else n
  }

  /** The tree after the walk. */
  function Rewritten(env: Environment, n: Node, isValue: bool): Node
    decreases n
  {
    match n
    case Scalar(_, _, _) => if isValue then Substituted(env, n) else n
    case Document(children) => Document(seq(|children|, i requires 0 <= i < |children| => Rewritten(env, children[i], true)))
    case Sequence(children) => Sequence(seq(|children|, i requires 0 <= i < |children| => Rewritten(env, children[i], true)))
    case Mapping(content) =>
      Mapping(seq(|content|, i requires 0 <= i < |content| =>
        if Visited(false, i) then Rewritten(env, content[i], true) else content[i]))
    case Alias(_) => n
  }

  /** `p` holds of the text of some scalar in a value position. */
  ghost predicate SomeValue(n: Node, isValue: bool, p: string -> bool)
    decreases n
  {
    match n
    case Scalar(value, _, _) => isValue && p(value)
    case Document(children) => exists i | 0 <= i < |children| :: SomeValue(children[i], true, p)
    case Sequence(children) => exists i | 0 <= i < |children| :: SomeValue(children[i], true, p)
    case Mapping(content) => exists i | 0 <= i < |content| && Visited(false, i) :: SomeValue(content[i], true, p)
    case Alias(_) => false
  }

  /** Which positions hold values: all of them, or every second one. */
  predicate Visited(every: bool, i: nat) {
    every || i % 2 == 1
  }

  ghost predicate SomeChild(children: seq<Node>, every: bool, p: string -> bool) {
    exists i | 0 <= i < |children| && Visited(every, i) :: SomeValue(children[i], true, p)
  }

  ghost function Lacks(env: Environment, name: string): string -> bool {
    (s: string) => Refers(s, name) && name !in env
  }

  function Reference(): string -> bool {
    (s: string) => HasRef(s)
  }

  /** What the walk makes of one child: the node it becomes, the names it adds, whether it held a reference. */
  datatype Walked = Walked(out: Node, names: seq<string>, found: bool)

  function Outs(all: seq<Walked>): seq<Node> {
    seq(|all|, i requires 0 <= i < |all| => all[i].out)
  }

  function Names(all: seq<Walked>): seq<string> {
    if all == [] then [] else Names(all[..|all| - 1]) + all[|all| - 1].names
  }

  predicate Found(all: seq<Walked>) {
    exists i | 0 <= i < |all| :: all[i].found
  }

  lemma {:induction false} OneMore(all: seq<Walked>, n: nat)
    requires n < |all|
    ensures Outs(all[..n + 1]) == Outs(all[..n]) + [all[n].out]
    ensures Names(all[..n + 1]) == Names(all[..n]) + all[n].names
    ensures Found(all[..n + 1]) <==> Found(all[..n]) || all[n].found
  {
    assert all[..n + 1][..n] == all[..n];
    assert forall i | 0 <= i < n :: all[..n + 1][i] == all[..n][i];
    assert all[..n + 1][n] == all[n];
  }

  lemma {:induction false} NamesHold(all: seq<Walked>, name: string)
    ensures name in Names(all) <==> exists i | 0 <= i < |all| :: name in all[i].names
  {
    if all != [] {
      var init := all[..|all| - 1];
      NamesHold(init, name);
      assert forall i | 0 <= i < |init| :: init[i] == all[i];
    }
  }

  function Flat(parts: seq<seq<string>>): seq<string> {
    if parts == [] then [] else Flat(parts[..|parts| - 1]) + parts[|parts| - 1]
  }

  lemma {:induction false} NamesAreFlat(all: seq<Walked>, parts: seq<seq<string>>)
    requires |all| == |parts| && forall i | 0 <= i < |all| :: all[i].names == parts[i]
    ensures Names(all) == Flat(parts)
  {
    if all != [] { NamesAreFlat(all[..|all| - 1], parts[..|all| - 1]); }
  }

  /** The names that are not set, as often and in the order that the walk meets them. */
  function UnsetBelow(env: Environment, n: Node, isValue: bool): seq<string>
    decreases n
  {
    match n
    case Scalar(value, _, _) => if isValue then UnsetNames(env, value) else []
    case Document(children) => Flat(seq(|children|, i requires 0 <= i < |children| => UnsetBelow(env, children[i], true)))
    case Sequence(children) => Flat(seq(|children|, i requires 0 <= i < |children| => UnsetBelow(env, children[i], true)))
    case Mapping(content) =>
      Flat(seq(|content|, i requires 0 <= i < |content| =>
        if Visited(false, i) then UnsetBelow(env, content[i], true) else []))
    case Alias(_) => []
  }

  ghost function WalkedAs(env: Environment, child: Node, visited: bool): Walked {
    if visited then Walked(Rewritten(env, child, true), UnsetBelow(env, child, true), SomeValue(child, true, Reference()))
    else Walked(child, [], false)
  }

  ghost function AllWalked(env: Environment, children: seq<Node>, every: bool): (r: seq<Walked>)
    ensures |r| == |children| && forall i: nat | i < |children| :: r[i] == WalkedAs(env, children[i], Visited(every, i))
  {
    seq(|children|, i requires 0 <= i < |children| => WalkedAs(env, children[i], Visited(every, i)))
  }

  lemma {:induction false} DocumentUnfolds(env: Environment, children: seq<Node>, isValue: bool)
    ensures var all := AllWalked(env, children, true);
            && Rewritten(env, Document(children), isValue) == Document(Outs(all))
            && UnsetBelow(env, Document(children), isValue) == Names(all)
            && (SomeValue(Document(children), isValue, Reference()) <==> Found(all))
  {
    var all := AllWalked(env, children, true);
    assert Rewritten(env, Document(children), isValue).children == Outs(all);
    NamesAreFlat(all, seq(|children|, i requires 0 <= i < |children| => UnsetBelow(env, children[i], true)));
  }

  lemma {:induction false} SequenceUnfolds(env: Environment, children: seq<Node>, isValue: bool)
    ensures var all := AllWalked(env, children, true);
            && Rewritten(env, Sequence(children), isValue) == Sequence(Outs(all))
            && UnsetBelow(env, Sequence(children), isValue) == Names(all)
            && (SomeValue(Sequence(children), isValue, Reference()) <==> Found(all))
  {
    var all := AllWalked(env, children, true);
    assert Rewritten(env, Sequence(children), isValue).children == Outs(all);
    NamesAreFlat(all, seq(|children|, i requires 0 <= i < |children| => UnsetBelow(env, children[i], true)));
  }

  lemma {:induction false} MappingUnfolds(env: Environment, content: seq<Node>, isValue: bool)
    ensures var all := AllWalked(env, content, false);
            && Rewritten(env, Mapping(content), isValue) == Mapping(Outs(all))
            && UnsetBelow(env, Mapping(content), isValue) == Names(all)
            && (SomeValue(Mapping(content), isValue, Reference()) <==> Found(all))
  {
    var all := AllWalked(env, content, false);
    assert Rewritten(env, Mapping(content), isValue).content == Outs(all);
    NamesAreFlat(all, seq(|content|, i requires 0 <= i < |content| => if Visited(false, i) then UnsetBelow(env, content[i], true) else []));
  }

  /** Those are the names that some value scalar refers to and the environment lacks. */
  lemma {:induction false} UnsetBelowIs(env: Environment, n: Node, isValue: bool, name: string)
    ensures name in UnsetBelow(env, n, isValue) <==> SomeValue(n, isValue, Lacks(env, name))
    decreases n, 1
  {
    match n
    case Scalar(value, _, _) => UnsetNamesAre(env, value, name);
    case Document(children) => DocumentUnfolds(env, children, isValue); UnsetAmong(env, n, children, true, name);
    case Sequence(children) => SequenceUnfolds(env, children, isValue); UnsetAmong(env, n, children, true, name);
    case Mapping(content) => MappingUnfolds(env, content, isValue); UnsetAmong(env, n, content, false, name);
    case Alias(_) =>
  }

  lemma {:induction false} UnsetAmong(env: Environment, parent: Node, children: seq<Node>, every: bool, name: string)
    requires forall i | 0 <= i < |children| :: children[i] < parent
    ensures name in Names(AllWalked(env, children, every)) <==> SomeChild(children, every, Lacks(env, name))
    decreases parent, 0
  {
    var all := AllWalked(env, children, every);
    NamesHold(all, name);
    forall i | 0 <= i < |children|
      ensures name in all[i].names <==> Visited(every, i) && SomeValue(children[i], true, Lacks(env, name))
    {
      UnsetBelowIs(env, children[i], true, name);
    }
  }

  lemma {:induction false} NoneUnset(env: Environment, s: string)
    requires !HasRef(s)
    ensures UnsetNames(env, s) == []
  {
    if UnsetNames(env, s) != [] {
      var name := UnsetNames(env, s)[0];
      UnsetNamesAre(env, s, name);
    }
  }

  // ---------------------------------------------------------------------------------------------
  // The walk and what it accumulates
  // ---------------------------------------------------------------------------------------------

  class Substitution {
    const env: Environment
    var missing: seq<string>
    var changed: bool

    constructor (env: Environment)
      ensures this.env == env && missing == [] && !changed
    {
      this.env, missing, changed := env, [], false;
    }

    /** `substituteScalar`, with its effects on what the walk accumulates. */
    method Scalar(n: Node) returns (r: Node)
      requires n.Scalar?
      modifies this
      ensures r == Substituted(env, n)
      ensures changed == (old(changed) || HasRef(n.value))
      ensures missing == old(missing) + UnsetNames(env, n.value)
    {
      var text, unset := ReplaceAll(env, n.value);
      if !HasRef(n.value) {
        NoneUnset(env, n.value);
        return n;
      }
      changed := true;
      missing := missing + unset;
      r := Node.Scalar(text, n.plain, if n.plain then "" else n.tag);
    }

    /** `walk`: every value scalar below `n`, once. */
    method Walk(n: Node, isValue: bool) returns (r: Node)
      modifies this
      decreases n, 2
      ensures r == Rewritten(env, n, isValue)
      ensures changed == (old(changed) || SomeValue(n, isValue, Reference()))
      ensures missing == old(missing) + UnsetBelow(env, n, isValue)
    {
      match n {
        case Scalar(_, _, _) =>
          if isValue { r := Scalar(n); } else { r := n; }
        case Document(children) =>
          DocumentUnfolds(env, children, isValue);
          var walked := WalkAll(n, children, true, AllWalked(env, children, true));
          r := Document(walked);
        case Sequence(children) =>
          SequenceUnfolds(env, children, isValue);
          var walked := WalkAll(n, children, true, AllWalked(env, children, true));
          r := Sequence(walked);
        case Mapping(content) =>
          MappingUnfolds(env, content, isValue);
          var walked := WalkAll(n, content, false, AllWalked(env, content, false));
          r := Mapping(walked);
        case Alias(_) =>
          r := n;
      }
    }

    /** One child: walked in a value position, kept in any other. */
    method WalkChild(ghost parent: Node, child: Node, visited: bool, ghost w: Walked) returns (r: Node)
      requires child < parent && w == WalkedAs(env, child, visited)
      modifies this
      decreases parent, 0
      ensures r == w.out && changed == (old(changed) || w.found) && missing == old(missing) + w.names
    {
      if visited {
        r := Walk(child, true);
      } else {
        r := child;
      }
    }

    /** The children in order. */
    method WalkAll(ghost parent: Node, children: seq<Node>, every: bool, ghost all: seq<Walked>) returns (r: seq<Node>)
      requires forall i | 0 <= i < |children| :: children[i] < parent
      requires |all| == |children| && forall i: nat | i < |children| :: all[i] == WalkedAs(env, children[i], Visited(every, i))
      modifies this
      decreases parent, 1
      ensures r == Outs(all) && changed == (old(changed) || Found(all)) && missing == old(missing) + Names(all)
    {
      r := [];
      ghost var names := [];
      for n := 0 to |children|
        invariant r == Outs(all[..n])
        invariant changed == (old(changed) || Found(all[..n]))
        invariant names == Names(all[..n]) && missing == old(missing) + names
      {
        var child := WalkChild(parent, children[n], Visited(every, n), all[n]);
        r := r + [child];
        OneMore(all, n);
        Regrouped(old(missing), names, all[n].names);
        names := names + all[n].names;
      }
      assert all[..|children|] == all;
    }
  }

  // ---------------------------------------------------------------------------------------------
  // What the walk leaves alone
  // ---------------------------------------------------------------------------------------------

  /** Same kinds, same arity, same keys, same aliases, same quoting; a scalar differs only in a value
      position and only if it held a reference, and only a plain one gives up its tag. */
  ghost predicate SameShape(n: Node, m: Node, isValue: bool)
    decreases n
  {
    match n
    case Scalar(value, plain, tag) =>
      m == n || (isValue && HasRef(value) && m.Scalar? && m.plain == plain && m.tag == if plain then "" else tag)
    case Document(children) =>
      m.Document? && |m.children| == |children| && forall i | 0 <= i < |children| :: SameShape(children[i], m.children[i], true)
    case Sequence(children) =>
      m.Sequence? && |m.children| == |children| && forall i | 0 <= i < |children| :: SameShape(children[i], m.children[i], true)
    case Mapping(content) =>
      m.Mapping? && |m.content| == |content| &&
      forall i | 0 <= i < |content| ::
        if Visited(false, i) then SameShape(content[i], m.content[i], true) else m.content[i] == content[i]
    case Alias(_) => m == n
  }

  /** For every tree and every environment the document keeps its shape. */
  lemma {:induction false} ShapeKept(env: Environment, n: Node, isValue: bool)
    ensures SameShape(n, Rewritten(env, n, isValue), isValue)
    decreases n
  {
    match n
    case Document(children) =>
      forall i | 0 <= i < |children| ensures SameShape(children[i], Rewritten(env, children[i], true), true) {
        ShapeKept(env, children[i], true);
      }
    case Sequence(children) =>
      forall i | 0 <= i < |children| ensures SameShape(children[i], Rewritten(env, children[i], true), true) {
        ShapeKept(env, children[i], true);
      }
    case Mapping(content) =>
      forall i | 0 <= i < |content| && Visited(false, i) ensures SameShape(content[i], Rewritten(env, content[i], true), true) {
        ShapeKept(env, content[i], true);
      }
    case _ =>
  }

  /** A tree whose value scalars hold no reference is not rewritten at all. */
  lemma {:induction false} NothingToDo(env: Environment, n: Node, isValue: bool)
    requires !SomeValue(n, isValue, Reference())
    ensures Rewritten(env, n, isValue) == n
    decreases n
  {
    match n
    case Document(children) =>
      forall i | 0 <= i < |children| ensures Rewritten(env, children[i], true) == children[i] {
        NothingToDo(env, children[i], true);
      }
    case Sequence(children) =>
      forall i | 0 <= i < |children| ensures Rewritten(env, children[i], true) == children[i] {
        NothingToDo(env, children[i], true);
      }
    case Mapping(content) =>
      forall i | 0 <= i < |content| && Visited(false, i) ensures Rewritten(env, content[i], true) == content[i] {
        NothingToDo(env, content[i], true);
      }
    case _ =>
  }

  /** An unset reference is a reference. */
  lemma {:induction false} LackingIsReference(env: Environment, n: Node, isValue: bool, name: string)
    requires SomeValue(n, isValue, Lacks(env, name))
    ensures SomeValue(n, isValue, Reference())
    decreases n
  {
    match n
    case Scalar(value, _, _) =>
      var i :| 0 <= i < |value| && RefAt(value, i) == Some(name);
      assert HasRef(value);
    case Document(children) =>
      var i :| 0 <= i < |children| && SomeValue(children[i], true, Lacks(env, name));
      LackingIsReference(env, children[i], true, name);
    case Sequence(children) =>
      var i :| 0 <= i < |children| && SomeValue(children[i], true, Lacks(env, name));
      LackingIsReference(env, children[i], true, name);
    case Mapping(content) =>
      var i :| 0 <= i < |content| && Visited(false, i) && SomeValue(content[i], true, Lacks(env, name));
      LackingIsReference(env, content[i], true, name);
  }

  datatype Outcome =
    | Unparsed
    | NotSet(names: seq<string>)
    | Kept(data: string)
    | Unmarshaled
    | Remarshaled(text: string)

  /** What `substituteEnvVars` returns. */
  ghost function OutcomeOf(
      data: string, env: Environment, parse: string -> Option<Node>, marshal: Node -> Option<string>): Outcome
  {
    if !HasRef(data) then Kept(data)
    else
      match parse(data)
      case None => Unparsed
      case Some(doc) =>
        if UnsetBelow(env, doc, false) != [] then NotSet(UnsetBelow(env, doc, false))
        else if !SomeValue(doc, false, Reference()) then Kept(data)
        else
          match marshal(Rewritten(env, doc, false))
          case None => Unmarshaled
          case Some(text) => Remarshaled(text)
  }

  /** Some value scalar of the document refers to a variable that is not set. */
  ghost predicate SomeUnset(env: Environment, doc: Option<Node>) {
    doc.Some? && exists name :: SomeValue(doc.value, false, Lacks(env, name))
  }

  /** It fails exactly when a reference is visible in the raw text and a value scalar refers to a variable
      that is not set, and names all of those; it returns the original bytes exactly when no value scalar
      holds a reference, or none is visible in the raw text; otherwise it returns the rewritten tree. */
  lemma {:induction false} OutcomeExact(
      data: string, env: Environment, parse: string -> Option<Node>, marshal: Node -> Option<string>)
    ensures var r := OutcomeOf(data, env, parse, marshal);
            && (r.Unparsed? <==> HasRef(data) && parse(data).None?)
            && (r.NotSet? <==> HasRef(data) && SomeUnset(env, parse(data)))
            && (r.NotSet? ==> forall name :: name in r.names <==> SomeValue(parse(data).value, false, Lacks(env, name)))
            && (r.Kept? <==> !HasRef(data) || (parse(data).Some? && !SomeValue(parse(data).value, false, Reference())))
            && (r.Kept? ==> r.data == data)
            && (r.Remarshaled? ==> marshal(Rewritten(env, parse(data).value, false)) == Some(r.text))
  {
    if HasRef(data) && parse(data).Some? {
      var doc := parse(data).value;
      var names := UnsetBelow(env, doc, false);
      forall name
        ensures name in names <==> SomeValue(doc, false, Lacks(env, name))
        ensures name in names ==> SomeValue(doc, false, Reference())
      {
        UnsetBelowIs(env, doc, false, name);
        if name in names { LackingIsReference(env, doc, false, name); }
      }
      if names != [] {
        assert names[0] in names;
      }
    }
  }

  /** A document in which the only reference is written with an escape, `a: "\x24{X}"`. The parser makes it
      `${X}`, and `X` is not set; but the raw text shows no reference, and the document is kept. */
  lemma {:induction false} EscapedReference(
      env: Environment, parse: string -> Option<Node>, marshal: Node -> Option<string>)
    requires "X" !in env
    requires parse("a: \"\\x24{X}\"") ==
             Some(Document([Mapping([Scalar("a", true, "!!str"), Scalar("${X}", false, "!!str")])]))
    ensures var data := "a: \"\\x24{X}\"";
            OutcomeOf(data, env, parse, marshal) == Kept(data) && SomeUnset(env, parse(data))
  {
    var data := "a: \"\\x24{X}\"";
    NoDollar(data);
    DollarX();
    EntryRefers(Lacks(env, "X"), "a", "${X}");
  }

  lemma {:induction false} NoDollar(s: string)
    requires '$' !in s
    ensures !HasRef(s)
  {
  }

  lemma {:induction false} DollarX()
    ensures Refers("${X}", "X")
  {
    RefHere("X", "");
    assert "${X}" == "${" + "X" + "}" + "";
  }

  lemma {:induction false} EntryRefers(p: string -> bool, key: string, value: string)
    requires p(value)
    ensures SomeValue(Document([Mapping([Scalar(key, true, "!!str"), Scalar(value, false, "!!str")])]), false, p)
  {
    var entry := Mapping([Scalar(key, true, "!!str"), Scalar(value, false, "!!str")]);
    assert entry.content[1] == Scalar(value, false, "!!str") && SomeValue(entry.content[1], true, p);
    assert Document([entry]).children[0] == entry && SomeValue(entry, true, p);
  }

  /** `substituteEnvVars`. */
  method SubstituteEnvVars(
      data: string, env: Environment, parse: string -> Option<Node>, marshal: Node -> Option<string>)
    returns (r: Outcome)
    ensures r == OutcomeOf(data, env, parse, marshal)
  {
    if !HasRef(data) {
      return Kept(data);
    }
    var doc := parse(data);
    if doc.None? {
      return Unparsed;
    }
    var walk := new Substitution(env);
    var rewritten := walk.Walk(doc.value, false);
    if walk.missing != [] {
      return NotSet(walk.missing);
    }
    if !walk.changed {
      return Kept(data);
    }
    match marshal(rewritten) {
      case None => return Unmarshaled;
      case Some(text) => return Remarshaled(text);
    }
  }
}
