/** Environment references in a configuration file, substituted in the decoded values of its node tree. */
module EnvSubst {
  import opened Options

  type Environment = map<string, string>

  predicate NameChar(c: char) {
    'A' <= c <= 'Z' || '0' <= c <= '9' || c == '_'
  }

  /** How many of the characters from `i` on may belong to a variable name. */
  function NameRun(s: string, i: nat): (n: nat)
    requires i <= |s|
    ensures i + n <= |s| && forall k | i <= k < i + n :: NameChar(s[k])
    ensures i + n < |s| ==> !NameChar(s[i + n])
    decreases |s| - i
  {
    if i < |s| && NameChar(s[i]) then 1 + NameRun(s, i + 1) else 0
  }

  /** The name referenced at position `i`, if `${NAME}` stands there. */
  function RefAt(s: string, i: nat): (r: Option<string>)
    requires i <= |s|
    ensures r.Some? ==> r.value != [] && i + |r.value| + 3 <= |s| && s[i..i + |r.value| + 3] == "${" + r.value + "}"
  {
    if i + 2 <= |s| && s[i] == '$' && s[i + 1] == '{' then
      var n := NameRun(s, i + 2);
      if n > 0 && i + 2 + n < |s| && s[i + 2 + n] == '}' then Some(s[i + 2..i + 2 + n]) else None
    else None
  }

  /** A reference is `${NAME}`, the name one or more capital letters, digits and underscores; and nothing else is. */
  lemma {:induction false} RefAtExact(s: string, i: nat, name: string)
    requires i <= |s|
    ensures RefAt(s, i) == Some(name) <==>
            && name != [] && (forall c | c in name :: 'A' <= c <= 'Z' || '0' <= c <= '9' || c == '_')
            && "${" + name + "}" <= s[i..]
  {
    var ref := "${" + name + "}";
    if RefAt(s, i) == Some(name) {
      assert s[i..i + |name| + 3] == ref;
      assert s[i..][..|ref|] == ref;
      assert forall k | 0 <= k < |name| :: name[k] == s[i + 2 + k];
    }
    if name != [] && (forall c | c in name :: NameChar(c)) && ref <= s[i..] {
      assert forall k | 0 <= k < |ref| :: s[i + k] == ref[k];
      assert forall k | 0 <= k < |name| :: s[i + 2 + k] == name[k] && name[k] in name;
      assert s[i + 2 + |name|] == '}';
      RunStopsAt(s, i + 2, |name|);
      assert s[i + 2..i + 2 + |name|] == name;
    }
  }

  lemma {:induction false} RunStopsAt(s: string, i: nat, n: nat)
    requires i + n < |s| && (forall k | i <= k < i + n :: NameChar(s[k])) && !NameChar(s[i + n])
    ensures NameRun(s, i) == n
    decreases n
  {
    if n > 0 { RunStopsAt(s, i + 1, n - 1); }
  }

  /** `trimOneTrailingLineBreak`. */
  function TrimLineBreak(v: string): string {
    if |v| >= 2 && v[|v| - 2..] == "\r\n" then v[..|v| - 2]
    else if |v| >= 1 && (v[|v| - 1] == '\n' || v[|v| - 1] == '\r') then v[..|v| - 1]
    else v
  }

  /** At most one line break goes, and one does go if the text ends in one. */
  lemma {:induction false} TrimsOne(v: string)
    ensures var r := TrimLineBreak(v); v == r || v == r + "\r\n" || v == r + "\n" || v == r + "\r"
    ensures TrimLineBreak(v) == v <==> v == [] || (v[|v| - 1] != '\n' && v[|v| - 1] != '\r')
    ensures forall w :: v == w + "\r\n" ==> TrimLineBreak(v) == w
  {
    forall w | v == w + "\r\n"
      ensures TrimLineBreak(v) == w
    {
      assert v[|v| - 2..] == "\r\n" && v[..|v| - 2] == w;
    }
  }

  /** What stands for a reference: its trimmed value, or the reference itself when it is not set. */
  function Value(env: Environment, name: string): string {
    if name in env then TrimLineBreak(env[name]) else "${" + name + "}"
  }

  /** A piece of the text: one ordinary character, or one reference. */
  datatype Token = Char(c: char) | Ref(name: string)

  function TokenAt(s: string, i: nat): (t: Token)
    requires i < |s|
    ensures i + Width(t) <= |s|
  {
    match RefAt(s, i)
    case Some(name) => Ref(name)
    case None => Char(s[i])
  }

  function Width(t: Token): (n: nat)
    ensures n > 0
  {
    match t
    case Char(_) => 1
    case Ref(name) => |name| + 3
  }

  /** How a text is read: the piece at each position. */
  function Reader(s: string): nat -> Token {
    (i: nat) => if i < |s| then TokenAt(s, i) else Char(' ')
  }

  /** The pieces from position `i` up to `n`, read from left to right without going back. */
  function Tokens(at: nat -> Token, n: nat, i: nat): seq<Token>
    decreases n - i
  {
    if i >= n then [] else [at(i)] + Tokens(at, n, i + Width(at(i)))
  }

  function TokensOf(s: string): seq<Token> {
    Tokens(Reader(s), |s|, 0)
  }

  function Show(env: Environment, t: Token): string {
    match t
    case Char(c) => [c]
    case Ref(name) => Value(env, name)
  }

  function Writer(env: Environment): Token -> string {
    (t: Token) => Show(env, t)
  }

  /** The pieces written out one after the other. */
  function Render(show: Token -> string, tokens: seq<Token>): string {
    if tokens == [] then [] else show(tokens[0]) + Render(show, tokens[1..])
  }

  /** Every reference replaced; what replaces it is not read again. */
  function Replaced(env: Environment, s: string): string {
    Render(Writer(env), TokensOf(s))
  }

  /** `name` is referenced at some position of the text. */
  predicate Refers(s: string, name: string) {
    exists i | 0 <= i < |s| :: RefAt(s, i) == Some(name)
  }

  predicate HasRef(s: string) {
    exists i | 0 <= i < |s| :: RefAt(s, i).Some?
  }

  predicate RefersFrom(s: string, i: nat, name: string) {
    exists k | i <= k < |s| :: RefAt(s, k) == Some(name)
  }

  /** References do not overlap: no reference starts inside another. */
  lemma {:induction false} NoOverlap(s: string, i: nat, k: nat)
    requires i < |s| && RefAt(s, i).Some? && i < k < i + |RefAt(s, i).value| + 3
    ensures RefAt(s, k).None?
  {
    var name := RefAt(s, i).value;
    assert s[i..i + |name| + 3][k - i] == s[k];
    assert k - i >= 2 && k < i + |name| + 2 ==> s[k] == name[k - i - 2];
    assert name == s[i + 2..i + 2 + |name|];
    assert forall m | 0 <= m < |name| :: NameChar(name[m]);
  }

  /** Past one piece, what is left to find is all the rest. */
  lemma {:induction false} StepOver(s: string, i: nat, name: string)
    requires i < |s|
    ensures var t := TokenAt(s, i);
            RefersFrom(s, i, name) <==> t == Ref(name) || RefersFrom(s, i + Width(t), name)
  {
    forall k | i < k < i + Width(TokenAt(s, i))
      ensures RefAt(s, k).None?
    {
      if RefAt(s, i).Some? { NoOverlap(s, i, k); }
    }
  }

  /** With `out` written for the pieces before `i`, the pass ends with `text`. */
  ghost predicate Leads(at: nat -> Token, n: nat, show: Token -> string, i: nat, out: string, text: string) {
    out + Render(show, Tokens(at, n, i)) == text
  }

  lemma {:induction false} LeadsOn(
      at: nat -> Token, n: nat, show: Token -> string, i: nat, out: string, text: string, t: Token, piece: string)
    requires i < n && Leads(at, n, show, i, out, text) && t == at(i) && piece == show(t)
    ensures Leads(at, n, show, i + Width(t), out + piece, text)
  {
    var rest := Tokens(at, n, i + Width(t));
    assert Tokens(at, n, i) == [t] + rest;
    assert ([t] + rest)[1..] == rest;
    Regrouped(out, piece, Render(show, rest));
  }

  lemma {:induction false} Regrouped<T>(a: seq<T>, b: seq<T>, c: seq<T>)
    ensures a + (b + c) == (a + b) + c
  {
  }

  /** What a piece adds to the names that are not set. */
  function Unset(env: Environment, t: Token): seq<string> {
    if t.Ref? && t.name !in env then [t.name] else []
  }

  function Noter(env: Environment): Token -> seq<string> {
    (t: Token) => Unset(env, t)
  }

  function Noted(note: Token -> seq<string>, tokens: seq<Token>): seq<string> {
    if tokens == [] then [] else note(tokens[0]) + Noted(note, tokens[1..])
  }

  /** The names in a text that are not set, as often and in the order they are met. */
  function UnsetNames(env: Environment, s: string): seq<string> {
    Noted(Noter(env), TokensOf(s))
  }

  lemma {:induction false} NotedUnfolds(at: nat -> Token, n: nat, note: Token -> seq<string>, i: nat)
    requires i < n
    ensures Noted(note, Tokens(at, n, i)) == note(at(i)) + Noted(note, Tokens(at, n, i + Width(at(i))))
  {
    var rest := Tokens(at, n, i + Width(at(i)));
    assert Tokens(at, n, i) == [at(i)] + rest;
    assert ([at(i)] + rest)[1..] == rest;
  }

  lemma {:induction false} NotedFrom(
      env: Environment, s: string, at: nat -> Token, note: Token -> seq<string>, i: nat, name: string)
    requires forall k: nat :: Marks(env, s, at, note, k)
    ensures name in Noted(note, Tokens(at, |s|, i)) <==> RefersFrom(s, i, name) && name !in env
    decreases |s| - i
  {
    if i < |s| {
      assert Marks(env, s, at, note, i);
      NotedUnfolds(at, |s|, note, i);
      StepOver(s, i, name);
      NotedFrom(env, s, at, note, i + Width(at(i)), name);
    }
  }

  /** Those are the names that the text refers to and the environment lacks. */
  lemma {:induction false} UnsetNamesAre(env: Environment, s: string, name: string)
    ensures name in UnsetNames(env, s) <==> Refers(s, name) && name !in env
  {
    NotedFrom(env, s, Reader(s), Noter(env), 0, name);
  }

  /** With `missing` noted for the pieces before `i`, the pass ends with `names`. */
  ghost predicate Notes(at: nat -> Token, n: nat, note: Token -> seq<string>, i: nat, missing: seq<string>, names: seq<string>) {
    missing + Noted(note, Tokens(at, n, i)) == names
  }

  lemma {:induction false} NotesOn(
      at: nat -> Token, n: nat, note: Token -> seq<string>, i: nat, missing: seq<string>, names: seq<string>, t: Token, more: seq<string>)
    requires i < n && Notes(at, n, note, i, missing, names) && t == at(i) && more == note(t)
    ensures Notes(at, n, note, i + Width(t), missing + more, names)
  {
    NotedUnfolds(at, n, note, i);
  }

  /** `at` and `note` read the piece at position `i`, and list its name, as the text and the environment say. */
  ghost predicate Marks(env: Environment, s: string, at: nat -> Token, note: Token -> seq<string>, i: nat) {
    i < |s| ==> at(i) == TokenAt(s, i) && note(at(i)) == Unset(env, at(i))
  }

  /** `at` and `show` read and write the piece at position `i` as the text and the environment say. */
  ghost predicate Reads(env: Environment, s: string, at: nat -> Token, show: Token -> string, i: nat) {
    i < |s| ==> at(i) == TokenAt(s, i) && show(at(i)) == Show(env, at(i))
  }

  /** `ReplaceAllStringFunc` with the callback of the walk. */
  method ReplaceAll(env: Environment, s: string) returns (out: string, missing: seq<string>)
    ensures out == Replaced(env, s) && missing == UnsetNames(env, s)
  {
    out, missing := OnePass(env, s, Reader(s), Writer(env), Noter(env), Replaced(env, s), UnsetNames(env, s));
  }

  /** One pass from left to right, every piece read once. */
  method OnePass(
      env: Environment, s: string, ghost at: nat -> Token, ghost show: Token -> string, ghost note: Token -> seq<string>,
      ghost text: string, ghost names: seq<string>)
    returns (out: string, missing: seq<string>)
    requires forall i: nat :: Reads(env, s, at, show, i)
    requires forall i: nat :: Marks(env, s, at, note, i)
    requires Leads(at, |s|, show, 0, [], text) && Notes(at, |s|, note, 0, [], names)
    ensures out == text && missing == names
  {
    out, missing := [], [];
    var i := 0;
    while i < |s|
      invariant i <= |s| && Leads(at, |s|, show, i, out, text)
      invariant Notes(at, |s|, note, i, missing, names)
    {
      var t := TokenAt(s, i);
      var piece, unset := Show(env, t), Unset(env, t);
      assert Reads(env, s, at, show, i) && Marks(env, s, at, note, i);
      LeadsOn(at, |s|, show, i, out, text, t, piece);
      NotesOn(at, |s|, note, i, missing, names, t, unset);
      out, missing := out + piece, missing + unset;
      i := i + Width(t);
    }
  }

  // ---------------------------------------------------------------------------------------------
  // A reference in its surroundings
  // ---------------------------------------------------------------------------------------------

  predicate Name(name: string) {
    name != [] && forall c | c in name :: NameChar(c)
  }

  lemma {:induction false} NameRunSum(a: string, t: string, i: nat)
    requires i <= |a| && t != [] && !NameChar(t[0])
    ensures NameRun(a + t, i) == NameRun(a, i)
    decreases |a| - i
  {
    if i < |a| && NameChar(a[i]) { NameRunSum(a, t, i + 1); }
  }

  lemma {:induction false} NameRunShift(a: string, t: string, i: nat)
    requires i <= |t|
    ensures NameRun(a + t, |a| + i) == NameRun(t, i)
    decreases |t| - i
  {
    assert i < |t| ==> (a + t)[|a| + i] == t[i];
    if i < |t| && NameChar(t[i]) { NameRunShift(a, t, i + 1); }
  }

  /** A reference cannot run into a dollar sign that follows it. */
  lemma {:induction false} RefAtSum(a: string, t: string, i: nat)
    requires i < |a| && t != [] && t[0] == '$'
    ensures RefAt(a + t, i) == RefAt(a, i)
  {
    var s := a + t;
    assert forall k | 0 <= k < |a| :: s[k] == a[k];
    assert s[|a|] == '$';
    if i + 2 <= |a| && a[i] == '$' && a[i + 1] == '{' {
      NameRunSum(a, t, i + 2);
      var n := NameRun(a, i + 2);
      assert s[i + 2..i + 2 + n] == a[i + 2..i + 2 + n];
    }
  }

  lemma {:induction false} RefAtShift(a: string, t: string, i: nat)
    requires i <= |t|
    ensures RefAt(a + t, |a| + i) == RefAt(t, i)
  {
    var s := a + t;
    assert forall k | 0 <= k < |t| :: s[|a| + k] == t[k];
    if i + 2 <= |t| && t[i] == '$' && t[i + 1] == '{' {
      NameRunShift(a, t, i + 2);
      var n := NameRun(t, i + 2);
      assert s[|a| + i + 2..|a| + i + 2 + n] == t[i + 2..i + 2 + n];
    }
  }

  /** What is read at `j` by `b` is what is read `shift` further on by `a`. */
  ghost predicate Agree(a: nat -> Token, shift: nat, b: nat -> Token, j: nat) {
    a(shift + j) == b(j)
  }

  /** Reading never goes past `n`. */
  ghost predicate Within(b: nat -> Token, n: nat, j: nat) {
    j + Width(b(j)) <= n
  }

  /** Where one text reads like another up to the end of the other, their pieces are the same. */
  lemma {:induction false} TokensAgree(a: nat -> Token, m: nat, shift: nat, b: nat -> Token, n: nat, j: nat)
    requires j <= n && shift + n <= m
    requires forall k: nat | k < n :: Agree(a, shift, b, k)
    requires forall k: nat | k < n :: Within(b, n, k)
    ensures Tokens(a, m, shift + j) == Tokens(b, n, j) + Tokens(a, m, shift + n)
    decreases n - j
  {
    if j < n {
      assert Agree(a, shift, b, j) && Within(b, n, j);
      TokensAgree(a, m, shift, b, n, j + Width(b(j)));
    }
  }

  lemma {:induction false} ReaderWithin(s: string, k: nat)
    requires k < |s|
    ensures Within(Reader(s), |s|, k)
  {
  }

  lemma {:induction false} AgreeSum(s: string, a: string, t: string, k: nat)
    requires s == a + t && t != [] && t[0] == '$' && k < |a|
    ensures Agree(Reader(s), 0, Reader(a), k)
  {
    RefAtSum(a, t, k);
  }

  lemma {:induction false} AgreeShift(s: string, a: string, t: string, k: nat)
    requires s == a + t && k < |t|
    ensures Agree(Reader(s), |a|, Reader(t), k)
  {
    RefAtShift(a, t, k);
  }

  lemma {:induction false} TokensSum(s: string, a: string, t: string)
    requires s == a + t && t != [] && t[0] == '$'
    ensures TokensOf(s) == TokensOf(a) + Tokens(Reader(s), |s|, |a|)
  {
    forall k: nat | k < |a| ensures Agree(Reader(s), 0, Reader(a), k) { AgreeSum(s, a, t, k); }
    forall k: nat | k < |a| ensures Within(Reader(a), |a|, k) { ReaderWithin(a, k); }
    TokensAgree(Reader(s), |s|, 0, Reader(a), |a|, 0);
  }

  lemma {:induction false} TokensShift(s: string, a: string, t: string)
    requires s == a + t
    ensures Tokens(Reader(s), |s|, |a|) == TokensOf(t)
  {
    forall k: nat | k < |t| ensures Agree(Reader(s), |a|, Reader(t), k) { AgreeShift(s, a, t, k); }
    forall k: nat | k < |t| ensures Within(Reader(t), |t|, k) { ReaderWithin(t, k); }
    TokensAgree(Reader(s), |s|, |a|, Reader(t), |t|, 0);
  }

  lemma {:induction false} FirstToken(at: nat -> Token, n: nat, t: Token)
    requires n > 0 && at(0) == t
    ensures Tokens(at, n, 0) == [t] + Tokens(at, n, Width(t))
  {
  }

  lemma {:induction false} TokensAfterRef(s: string, ref: string, name: string, b: string)
    requires s == ref + b && |ref| == |name| + 3 && RefAt(s, 0) == Some(name)
    ensures TokensOf(s) == [Ref(name)] + TokensOf(b)
  {
    FirstToken(Reader(s), |s|, Ref(name));
    TokensShift(s, ref, b);
  }

  lemma {:induction false} TokensOfRef(name: string, b: string)
    requires Name(name)
    ensures TokensOf("${" + name + "}" + b) == [Ref(name)] + TokensOf(b)
  {
    var ref := "${" + name + "}";
    RefHere(name, b);
    TokensAfterRef(ref + b, ref, name, b);
  }

  lemma {:induction false} RenderSum(show: Token -> string, x: seq<Token>, y: seq<Token>)
    ensures Render(show, x + y) == Render(show, x) + Render(show, y)
  {
    if x == [] {
      assert x + y == y;
    } else {
      assert (x + y)[1..] == x[1..] + y;
      RenderSum(show, x[1..], y);
      Regrouped(show(x[0]), Render(show, x[1..]), Render(show, y));
    }
  }

  lemma {:induction false} RenderOne(show: Token -> string, t: Token)
    ensures Render(show, [t]) == show(t)
  {
    assert Render(show, [t][1..]) == [];
  }

  /** Each reference is replaced by its own value and by nothing else, whatever stands around it and
      whatever the value looks like: what replaces a reference never combines with its surroundings. */
  lemma {:induction false} ReplacedInContext(env: Environment, a: string, name: string, b: string)
    requires Name(name)
    ensures var ref := "${" + name + "}";
            Replaced(env, a + (ref + b)) ==
            Replaced(env, a) + ((if name in env then TrimLineBreak(env[name]) else ref) + Replaced(env, b))
  {
    var ref := "${" + name + "}";
    TokensSum(a + (ref + b), a, ref + b);
    TokensShift(a + (ref + b), a, ref + b);
    TokensOfRef(name, b);
    RenderSum(Writer(env), TokensOf(a), [Ref(name)] + TokensOf(b));
    RenderSum(Writer(env), [Ref(name)], TokensOf(b));
    RenderOne(Writer(env), Ref(name));
  }

  lemma {:induction false} RefHere(name: string, b: string)
    requires Name(name)
    ensures RefAt("${" + name + "}" + b, 0) == Some(name)
  {
    var s := "${" + name + "}" + b;
    assert s == "${" + (name + ("}" + b));
    NameRunShift("${", name + ("}" + b), 0);
    NameRunSum(name, "}" + b, 0);
    WholeRun(name, 0);
    assert s[2..2 + |name|] == name && s[2 + |name|] == '}';
  }

  lemma {:induction false} WholeRun(name: string, i: nat)
    requires i <= |name| && forall c | c in name :: NameChar(c)
    ensures NameRun(name, i) == |name| - i
    decreases |name| - i
  {
    if i < |name| { WholeRun(name, i + 1); }
  }

  lemma {:induction false} PlainText(at: nat -> Token, show: Token -> string, s: string, i: nat)
    requires i <= |s| && forall k: nat | i <= k < |s| :: at(k) == Char(s[k]) && show(at(k)) == [s[k]]
    ensures Render(show, Tokens(at, |s|, i)) == s[i..]
    decreases |s| - i
  {
    if i < |s| {
      PlainText(at, show, s, i + 1);
      var rest := Tokens(at, |s|, i + 1);
      assert Tokens(at, |s|, i) == [at(i)] + rest;
      assert ([at(i)] + rest)[1..] == rest;
    }
  }

  /** Text without references is left as it is. */
  lemma {:induction false} Unreplaced(env: Environment, s: string)
    requires !HasRef(s)
    ensures Replaced(env, s) == s
  {
    PlainText(Reader(s), Writer(env), s, 0);
  }
}
