/** The configured brokers, keyed by lowercase alias: how the map is built and what a lookup finds. */
module Brokers {
  import opened Options
  import Text

  /** One broker block. Its display name is filled in while the map is built. */
  class Broker {
    var displayName: string
    const url: string

    constructor (url: string)
      ensures displayName == "" && this.url == url
    {
      displayName, this.url := "", url;
    }
  }

  /** The brokers as the file spells them; an empty block decodes to null. */
  type Configured = map<string, Broker?>

  /** `strings.ToLower`, one character at a time. */
  function Low(lower: char -> char, s: string): (r: string)
    ensures |r| == |s|
  {
    seq(|s|, i requires 0 <= i < |s| => lower(s[i]))
  }

  predicate Alnum(c: char) {
    'A' <= c <= 'Z' || 'a' <= c <= 'z' || '0' <= c <= '9'
  }

  /** `isValidAlias`. */
  predicate ValidAlias(s: string) {
    1 <= |s| <= 63 && Alnum(s[0]) && Alnum(s[|s| - 1]) && forall c | c in s :: Alnum(c) || c == '-'
  }

  /** One way to match the alias pattern: a letter or digit, alone or followed by at most 61 letters, digits
      and hyphens and a last letter or digit. */
  predicate Matches(s: string, inner: string, last: string) {
    && |s| == 1 + |inner| + |last| && s[1..] == inner + last && Alnum(s[0])
    && |inner| <= 61 && (forall c | c in inner :: Alnum(c) || c == '-')
    && (if last == [] then inner == [] else |last| == 1 && Alnum(last[0]))
  }

  lemma {:induction false} MatchIsValid(s: string, inner: string, last: string)
    requires Matches(s, inner, last)
    ensures ValidAlias(s)
  {
    assert s == [s[0]] + (inner + last);
    assert last != [] ==> s[|s| - 1] == last[0];
  }

  lemma {:induction false} AliasPattern(s: string)
    ensures ValidAlias(s) <==> exists inner, last :: Matches(s, inner, last)
  {
    if ValidAlias(s) {
      if |s| == 1 {
        assert Matches(s, [], []);
      } else {
        assert s[1..] == s[1..|s| - 1] + [s[|s| - 1]];
        assert Matches(s, s[1..|s| - 1], [s[|s| - 1]]);
      }
    }
    if inner, last :| Matches(s, inner, last) {
      MatchIsValid(s, inner, last);
    }
  }

  datatype Problem = EmptyBlock(alias: string) | BadAlias(alias: string) | Collision(aliases: seq<string>)

  /** The aliases that share a lowercase form, sorted. */
  ghost predicate Colliding(lower: char -> char, brokers: Configured, aliases: seq<string>) {
    && |aliases| >= 2 && Text.Sorted(aliases) && Text.Distinct(aliases)
    && forall a :: a in aliases <==> a in brokers && Low(lower, a) == Low(lower, aliases[0])
  }

  /** What is wrong with a configuration, said without reference to any order. */
  ghost predicate Wrong(lower: char -> char, brokers: Configured, p: Problem) {
    match p
    case Collision(aliases) => Colliding(lower, brokers, aliases)
    case _ => AliasWrong(brokers, p)
  }

  predicate AliasWrong(brokers: Configured, p: Problem)
    requires !p.Collision?
  {
    && p.alias in brokers
    && match p
       case EmptyBlock(a) => brokers[a] == null
       case BadAlias(a) => brokers[a] != null && !ValidAlias(a)
  }

  /** Nothing else configured has this lowercase form. */
  ghost predicate Alone(lower: char -> char, brokers: Configured, a: string) {
    a in brokers && forall b | b in brokers && Low(lower, b) == Low(lower, a) :: b == a
  }

  /** The canonical map: every filled-in block whose lowercase alias is its own, and nothing else. */
  ghost predicate Canonical(lower: char -> char, brokers: Configured, canonical: map<string, Broker>) {
    && (forall a | Alone(lower, brokers, a) && brokers[a] != null ::
          Low(lower, a) in canonical && canonical[Low(lower, a)] == brokers[a])
    && (forall k | k in canonical :: exists a | a in brokers :: Low(lower, a) == k && Alone(lower, brokers, a) && brokers[a] != null)
  }

  // ---------------------------------------------------------------------------------------------
  // The three phases
  // ---------------------------------------------------------------------------------------------

  ghost predicate Unshared(brokers: Configured) {
    forall a, b | a in brokers && b in brokers && a != b :: brokers[a] == null || brokers[a] != brokers[b]
  }

  /** Phase 1: empty blocks and bad aliases are reported, and every block learns its alias. */
  method CheckAliases(brokers: Configured, order: seq<string>) returns (errs: seq<Problem>)
    requires Text.Visits(order, brokers.Keys) && Unshared(brokers)
    modifies set a | a in brokers && brokers[a] != null :: brokers[a]
    ensures forall a | a in brokers && brokers[a] != null :: brokers[a].displayName == a
    ensures forall p :: p in errs <==> !p.Collision? && AliasWrong(brokers, p)
  {
    errs := [];
    for i := 0 to |order|
      invariant forall j | 0 <= j < i && brokers[order[j]] != null :: brokers[order[j]].displayName == order[j]
      invariant forall p :: p in errs <==> !p.Collision? && AliasWrong(brokers, p) && p.alias in order[..i]
    {
      var alias := order[i];
      assert alias in order;
      assert order[..i + 1] == order[..i] + [alias];
      var broker := brokers[alias];
      if broker == null {
        errs := errs + [EmptyBlock(alias)];
      } else {
        assert forall j | 0 <= j < i :: order[j] in order && order[j] != alias;
        broker.displayName := alias;
        if !ValidAlias(alias) {
          errs := errs + [BadAlias(alias)];
        }
      }
    }
    assert order[..|order|] == order;
  }

  /** `aliases` are those among `seen` whose lowercase form is `low`, each once. */
  ghost predicate GroupOf(lower: char -> char, seen: seq<string>, low: string, aliases: seq<string>) {
    && aliases != [] && Text.Distinct(aliases)
    && forall a :: a in aliases <==> a in seen && Low(lower, a) == low
  }

  ghost predicate Groups(lower: char -> char, seen: seq<string>, groups: map<string, seq<string>>) {
    && (forall low | low in groups :: GroupOf(lower, seen, low, groups[low]))
    && (forall a | a in seen :: Low(lower, a) in groups)
  }

  lemma {:induction false} GroupsGrow(lower: char -> char, seen: seq<string>, groups: map<string, seq<string>>, a: string)
    requires Groups(lower, seen, groups) && a !in seen
    ensures var low := Low(lower, a);
            Groups(lower, seen + [a], groups[low := (if low in groups then groups[low] else []) + [a]])
  {
    var low := Low(lower, a);
    var grown := (if low in groups then groups[low] else []) + [a];
    assert GroupOf(lower, seen + [a], low, grown);
    forall other | other in groups && other != low
      ensures GroupOf(lower, seen + [a], other, groups[other])
    {
      assert GroupOf(lower, seen, other, groups[other]);
    }
  }

  /** The grouping loop of phase 2. */
  method GroupAliases(lower: char -> char, brokers: Configured, order: seq<string>) returns (groups: map<string, seq<string>>)
    requires Text.Visits(order, brokers.Keys)
    ensures Groups(lower, order, groups)
  {
    groups := map[];
    for i := 0 to |order|
      invariant Groups(lower, order[..i], groups)
    {
      var low := Low(lower, order[i]);
      GroupsGrow(lower, order[..i], groups, order[i]);
      groups := groups[low := (if low in groups then groups[low] else []) + [order[i]]];
      assert order[..i + 1] == order[..i] + [order[i]];
    }
    assert order[..|order|] == order;
  }

  lemma {:induction false} GroupCollides(lower: char -> char, brokers: Configured, order: seq<string>, low: string, aliases: seq<string>)
    requires Text.Visits(order, brokers.Keys) && GroupOf(lower, order, low, aliases) && |aliases| >= 2
    ensures Colliding(lower, brokers, Text.Sort(aliases)) && Low(lower, Text.Sort(aliases)[0]) == low
  {
    Text.SortSorted(aliases);
    Text.SortDistinct(aliases);
    var sorted := Text.Sort(aliases);
    assert |sorted| == |aliases| by { assert |multiset(sorted)| == |multiset(aliases)|; }
    assert sorted[0] in sorted;
  }

  /** The aliases of a collision are determined by any one of them. */
  lemma {:induction false} CollidingUnique(lower: char -> char, brokers: Configured, a: seq<string>, b: seq<string>)
    requires Colliding(lower, brokers, a) && Colliding(lower, brokers, b) && Low(lower, a[0]) == Low(lower, b[0])
    ensures a == b
  {
    Text.VisitsPermute(a, b, set x | x in a);
    Text.SortedUnique(a, b);
  }

  /** The reporting loop of phase 2: one error per shared lowercase form, in any order of the groups. */
  method ReportCollisions(
      lower: char -> char, ghost brokers: Configured, ghost order: seq<string>, groups: map<string, seq<string>>, lows: seq<string>)
    returns (errs: seq<Problem>)
    requires Text.Visits(order, brokers.Keys) && Groups(lower, order, groups) && Text.Visits(lows, groups.Keys)
    ensures forall p :: p in errs <==> p.Collision? && Colliding(lower, brokers, p.aliases)
  {
    errs := [];
    for i := 0 to |lows|
      invariant forall p :: p in errs <==> p.Collision? && ReportedIn(groups, lows[..i], p.aliases)
    {
      var low := lows[i];
      assert low in lows;
      assert lows[..i + 1] == lows[..i] + [low];
      if |groups[low]| >= 2 {
        errs := errs + [Collision(Text.Sort(groups[low]))];
      }
    }
    assert lows[..|lows|] == lows;
    forall aliases
      ensures ReportedIn(groups, lows, aliases) <==> Colliding(lower, brokers, aliases)
    {
      ReportedAreColliding(lower, brokers, order, groups, lows, aliases);
    }
  }

  predicate ReportedIn(groups: map<string, seq<string>>, lows: seq<string>, aliases: seq<string>) {
    exists low | low in lows :: low in groups && |groups[low]| >= 2 && aliases == Text.Sort(groups[low])
  }

  lemma {:induction false} ReportedAreColliding(
      lower: char -> char, brokers: Configured, order: seq<string>, groups: map<string, seq<string>>, lows: seq<string>,
      aliases: seq<string>)
    requires Text.Visits(order, brokers.Keys) && Groups(lower, order, groups) && Text.Visits(lows, groups.Keys)
    ensures ReportedIn(groups, lows, aliases) <==> Colliding(lower, brokers, aliases)
  {
    if ReportedIn(groups, lows, aliases) {
      var low :| low in lows && low in groups && |groups[low]| >= 2 && aliases == Text.Sort(groups[low]);
      GroupCollides(lower, brokers, order, low, groups[low]);
    }
    if Colliding(lower, brokers, aliases) {
      var low := Low(lower, aliases[0]);
      assert aliases[0] in aliases && aliases[1] in aliases;
      assert GroupOf(lower, order, low, groups[low]);
      assert aliases[0] in groups[low] && aliases[1] in groups[low] && aliases[0] != aliases[1];
      GroupCollides(lower, brokers, order, low, groups[low]);
      CollidingUnique(lower, brokers, aliases, Text.Sort(groups[low]));
    }
  }

  lemma {:induction false} AloneInGroup(lower: char -> char, brokers: Configured, order: seq<string>, groups: map<string, seq<string>>, a: string)
    requires Text.Visits(order, brokers.Keys) && Groups(lower, order, groups) && a in brokers
    ensures Low(lower, a) in groups && (|groups[Low(lower, a)]| <= 1 <==> Alone(lower, brokers, a))
  {
    var group := groups[Low(lower, a)];
    assert GroupOf(lower, order, Low(lower, a), group);
    assert a in group;
    if |group| > 1 {
      assert group[0] in group && group[1] in group && group[0] != group[1];
    }
  }

  /** Phase 3: the canonical map. */
  method BuildCanonical(
      lower: char -> char, brokers: Configured, ghost grouped: seq<string>, groups: map<string, seq<string>>, order: seq<string>)
    returns (canonical: map<string, Broker>)
    requires Text.Visits(grouped, brokers.Keys) && Groups(lower, grouped, groups) && Text.Visits(order, brokers.Keys)
    ensures Canonical(lower, brokers, canonical)
  {
    canonical := map[];
    for i := 0 to |order|
      invariant forall j | 0 <= j < i && Alone(lower, brokers, order[j]) && brokers[order[j]] != null ::
                  Low(lower, order[j]) in canonical && canonical[Low(lower, order[j])] == brokers[order[j]]
      invariant forall k | k in canonical ::
                  exists a | a in brokers :: Low(lower, a) == k && Alone(lower, brokers, a) && brokers[a] != null
    {
      var alias := order[i];
      assert alias in order;
      var broker := brokers[alias];
      if broker != null {
        AloneInGroup(lower, brokers, grouped, groups, alias);
        if |groups[Low(lower, alias)]| <= 1 {
          canonical := canonical[Low(lower, alias) := broker];
        }
      }
    }
  }

  /** `validateAndCanonicalizeBrokers`: the errors reported and the map built do not depend on the order
      of any of the map walks. */
  method ValidateAndCanonicalize(
      lower: char -> char, brokers: Configured, first: seq<string>, second: seq<string>, third: seq<string>,
      lows: map<string, seq<string>> -> seq<string>)
    returns (canonical: map<string, Broker>, errs: seq<Problem>)
    requires Unshared(brokers)
    requires Text.Visits(first, brokers.Keys) && Text.Visits(second, brokers.Keys) && Text.Visits(third, brokers.Keys)
    requires forall groups {:trigger lows(groups)} :: Text.Visits(lows(groups), groups.Keys)
    modifies set a | a in brokers && brokers[a] != null :: brokers[a]
    ensures Canonical(lower, brokers, canonical)
    ensures forall p :: p in errs <==> Wrong(lower, brokers, p)
    ensures forall a | a in brokers && brokers[a] != null :: brokers[a].displayName == a
  {
    errs := CheckAliases(brokers, first);
    var groups := GroupAliases(lower, brokers, second);
    var collisions := ReportCollisions(lower, brokers, second, groups, lows(groups));
    errs := errs + collisions;
    canonical := BuildCanonical(lower, brokers, second, groups, third);
  }

  /** The configuration determines the map. */
  lemma {:induction false} CanonicalUnique(lower: char -> char, brokers: Configured, x: map<string, Broker>, y: map<string, Broker>)
    requires Canonical(lower, brokers, x) && Canonical(lower, brokers, y)
    ensures x == y
  {
    assert x.Keys == y.Keys;
    forall k | k in x
      ensures x[k] == y[k]
    {
      var a :| a in brokers && Low(lower, a) == k && Alone(lower, brokers, a) && brokers[a] != null;
    }
  }

  /** `Broker`: the lookup of an alias in any casing. */
  function Find(lower: char -> char, canonical: map<string, Broker>, alias: string): Option<Broker> {
    if Low(lower, alias) in canonical then Some(canonical[Low(lower, alias)]) else None
  }

  lemma {:induction false} NoCollisionMeansAlone(lower: char -> char, brokers: Configured, a: string, order: seq<string>)
    requires forall p :: !Wrong(lower, brokers, p)
    requires a in brokers && Text.Visits(order, brokers.Keys)
    ensures Alone(lower, brokers, a)
  {
    var all := Matching(lower, order, Low(lower, a));
    if |all| >= 2 {
      Text.SortSorted(all);
      GroupCollides(lower, brokers, order, Low(lower, a), all);
      assert Wrong(lower, brokers, Collision(Text.Sort(all)));
    } else {
      forall b | b in brokers && Low(lower, b) == Low(lower, a)
        ensures b == a
      {
        assert b in all && a in all;
      }
    }
  }

  /** The aliases among `order` with this lowercase form, in that order. */
  function Matching(lower: char -> char, order: seq<string>, low: string): (r: seq<string>)
    ensures forall a :: a in r <==> a in order && Low(lower, a) == low
    ensures Text.Distinct(order) ==> Text.Distinct(r)
  {
    if order == [] then []
    else
      var n := |order| - 1;
      Matching(lower, order[..n], low) + if Low(lower, order[n]) == low then [order[n]] else []
  }

  /** For every accepted configuration a lookup succeeds exactly when some configured alias has the same
      lowercase form, and then finds that broker. */
  lemma {:induction false} LookupExact(lower: char -> char, brokers: Configured, canonical: map<string, Broker>, alias: string, order: seq<string>)
    requires Text.Visits(order, brokers.Keys)
    requires Canonical(lower, brokers, canonical) && forall p :: !Wrong(lower, brokers, p)
    ensures Find(lower, canonical, alias).Some? <==> exists a | a in brokers :: Low(lower, a) == Low(lower, alias)
    ensures forall a | a in brokers && Low(lower, a) == Low(lower, alias) ::
              brokers[a] != null && Find(lower, canonical, alias) == Some(brokers[a])
  {
    forall a | a in brokers && Low(lower, a) == Low(lower, alias)
      ensures brokers[a] != null && Find(lower, canonical, alias) == Some(brokers[a])
    {
      NoCollisionMeansAlone(lower, brokers, a, order);
      assert !Wrong(lower, brokers, EmptyBlock(a));
    }
  }
}
