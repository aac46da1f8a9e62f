/** The deduplication key of a token exchange: which calls share an in-flight exchange and a cached token. */
module DedupKey {
  import opened Options

  const NUL: char := '\0'

  /** The fields that determine a logical exchange. */
  datatype Input = Input(subjectToken: string, brokerAlias: string, target: string)

  /** `computeDeduplicationKey`, before the digest: SHA-256 and its hex form are taken to be
      collision-free, so the key is identified with the bytes that are hashed. */
  function Key(i: Input): string {
    i.subjectToken + [NUL] + (i.brokerAlias + [NUL] + i.target)
  }

  /** The separator is unambiguous when the two fields before a separator do not contain it. */
  predicate NulFree(i: Input) {
    NUL !in i.subjectToken && NUL !in i.brokerAlias
  }

  /** The text before and after the first NUL. */
  function Cut(s: string): (r: Option<(string, string)>)
    ensures r.None? <==> NUL !in s
    ensures r.Some? ==> s == r.value.0 + [NUL] + r.value.1 && NUL !in r.value.0
  {
    if s == [] then None
    else if s[0] == NUL then Some(([], s[1..]))
    else
      match Cut(s[1..])
      case None => None
      case Some((a, b)) => Some(([s[0]] + a, b))
  }

  /** There is only one way to split a text at its first NUL. */
  lemma {:induction false} SplitUnique(a: string, b: string, x: string, y: string)
    requires NUL !in a && NUL !in x && a + [NUL] + b == x + [NUL] + y
    ensures a == x && b == y
  {
    var s := a + [NUL] + b;
    assert s[|a|] == NUL && s[|x|] == NUL;
    assert forall i | 0 <= i < |a| :: s[i] == a[i];
    assert forall i | 0 <= i < |x| :: s[i] == x[i];
    assert a == s[..|a|] && x == s[..|x|];
    assert b == s[|a| + 1..] && y == s[|x| + 1..];
  }

  /** Reads a key back at its first two separators. */
  function Parse(key: string): Option<Input> {
    match Cut(key)
    case None => None
    case Some((s, rest)) =>
      match Cut(rest)
      case None => None
      case Some((b, t)) => Some(Input(s, b, t))
  }

  /** A key reads back as the input it was made from exactly when subject and alias are NUL-free;
      for any other input it reads back as a different, NUL-free input with the same key. */
  lemma {:induction false} ParseKey(i: Input)
    ensures Parse(Key(i)).Some?
    ensures var j := Parse(Key(i)).value; NulFree(j) && Key(j) == Key(i) && (j == i <==> NulFree(i))
  {
    var tail := i.brokerAlias + [NUL] + i.target;
    var s, rest := FirstCut(i.subjectToken, tail);
    SecondSeparator(i.subjectToken, tail, s, rest, |i.brokerAlias|);
    if NulFree(i) {
      SplitUnique(s, rest, i.subjectToken, tail);
      var (b, t) := Cut(rest).value;
      SplitUnique(b, t, i.brokerAlias, i.target);
    }
  }

  lemma {:induction false} FirstCut(a: string, b: string) returns (s: string, rest: string)
    ensures Cut(a + [NUL] + b) == Some((s, rest))
  {
    assert (a + [NUL] + b)[|a|] == NUL;
    s, rest := Cut(a + [NUL] + b).value.0, Cut(a + [NUL] + b).value.1;
  }

  lemma {:induction false} SecondSeparator(a: string, tail: string, s: string, rest: string, j: nat)
    requires a + [NUL] + tail == s + [NUL] + rest && NUL !in s
    requires j < |tail| && tail[j] == NUL
    ensures NUL in rest
  {
    var k := a + [NUL] + tail;
    assert k[|a| + 1 + j] == NUL;
    TwoSeparators(k, s, rest, |a|, |a| + 1 + j);
  }

  lemma {:induction false} TwoSeparators(k: string, s: string, rest: string, i: nat, j: nat)
    requires k == s + [NUL] + rest && NUL !in s
    requires i < j < |k| && k[i] == NUL && k[j] == NUL
    ensures NUL in rest
  {
    assert forall m | 0 <= m < |s| :: k[m] == s[m];
    assert k[j] == rest[j - |s| - 1];
  }

  /** Equal keys mean equal inputs, for NUL-free subject and alias and any target. */
  lemma {:induction false} KeyInjective(a: Input, b: Input)
    requires NulFree(a) && NulFree(b) && Key(a) == Key(b)
    ensures a == b
  {
    ParseKey(a);
    ParseKey(b);
  }

  /** Without that, the key does collide: every other input shares its key with a NUL-free one. */
  lemma {:induction false} KeyCollides(a: Input)
    requires !NulFree(a)
    ensures exists b :: b != a && NulFree(b) && Key(b) == Key(a)
  {
    ParseKey(a);
  }
}
