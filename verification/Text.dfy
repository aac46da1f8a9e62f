/** Strings: the byte order Go sorts by, suffix trimming, decimal numerals, and the
    arbitrary order in which Go walks the keys of a map. */
module Text {

  /** Lexicographic order, the order `sort.Strings` and `slices.Sort` use. */
  predicate Leq(a: string, b: string) {
    a == [] || (b != [] && (a[0] < b[0] || (a[0] == b[0] && Leq(a[1..], b[1..]))))
  }

  predicate Sorted(s: seq<string>) {
    forall i, j | 0 <= i < j < |s| :: Leq(s[i], s[j])
  }

  lemma {:induction false} LeqTotal(a: string, b: string)
    ensures Leq(a, b) || Leq(b, a)
  {
    if a != [] && b != [] && a[0] == b[0] {
      LeqTotal(a[1..], b[1..]);
    }
  }

  lemma {:induction false} LeqAntisymmetric(a: string, b: string)
    requires Leq(a, b) && Leq(b, a)
    ensures a == b
  {
    if a != [] {
      LeqAntisymmetric(a[1..], b[1..]);
      assert a == [a[0]] + a[1..] && b == [b[0]] + b[1..];
    }
  }

  lemma {:induction false} LeqTransitive(a: string, b: string, c: string)
    requires Leq(a, b) && Leq(b, c)
    ensures Leq(a, c)
  {
    if a != [] && a[0] == b[0] == c[0] {
      LeqTransitive(a[1..], b[1..], c[1..]);
    }
  }

  function Insert(x: string, s: seq<string>): (r: seq<string>)
    ensures multiset(r) == multiset(s) + multiset{x}
  {
    if s == [] || Leq(x, s[0]) then
      [x] + s
    else
      assert s == [s[0]] + s[1..];
      [s[0]] + Insert(x, s[1..])
  }

  /** What `sort.Strings` leaves behind. */
  function Sort(s: seq<string>): (r: seq<string>)
    ensures multiset(r) == multiset(s)
  {
    if s == [] then [] else
      assert s == [s[0]] + s[1..];
      Insert(s[0], Sort(s[1..]))
  }

  lemma {:induction false} InsertSorted(x: string, s: seq<string>)
    requires Sorted(s)
    ensures Sorted(Insert(x, s))
  {
    if s == [] {
    } else if Leq(x, s[0]) {
      forall j | 0 <= j < |s|
        ensures Leq(x, s[j])
      {
        if j > 0 { LeqTransitive(x, s[0], s[j]); }
      }
    } else {
      InsertSorted(x, s[1..]);
      var r := Insert(x, s[1..]);
      LeqTotal(x, s[0]);
      forall j | 0 <= j < |r|
        ensures Leq(s[0], r[j])
      {
        assert r[j] in multiset(r);
        assert r[j] == x || r[j] in multiset(s[1..]);
        if r[j] != x {
          var i :| 0 <= i < |s[1..]| && s[1..][i] == r[j];
          assert s[i + 1] == r[j];
        }
      }
    }
  }

  lemma {:induction false} SortSorted(s: seq<string>)
    ensures Sorted(Sort(s))
  {
    if s != [] {
      SortSorted(s[1..]);
      InsertSorted(s[0], Sort(s[1..]));
    }
  }

  lemma {:induction false} LeqReflexive(a: string)
    ensures Leq(a, a)
  {
    if a != [] { LeqReflexive(a[1..]); }
  }

  lemma {:induction false} HeadIsLeast(s: seq<string>, x: string)
    requires Sorted(s) && x in s
    ensures Leq(s[0], x)
  {
    LeqReflexive(x);
  }

  lemma {:induction false} TailBag(s: seq<string>)
    requires s != []
    ensures multiset(s[1..]) == multiset(s) - multiset{s[0]}
  {
    assert s == [s[0]] + s[1..];
  }

  /** Two sorted arrangements of the same strings are the same sequence. */
  lemma {:induction false} SortedUnique(a: seq<string>, b: seq<string>)
    requires Sorted(a) && Sorted(b)
    requires multiset(a) == multiset(b)
    ensures a == b
  {
    if a == [] {
      assert |multiset(b)| == 0;
    } else {
      assert a[0] in multiset(b);
      assert b[0] in multiset(a);
      HeadIsLeast(a, b[0]);
      HeadIsLeast(b, a[0]);
      LeqAntisymmetric(a[0], b[0]);
      TailBag(a);
      TailBag(b);
      SortedUnique(a[1..], b[1..]);
      assert a == [a[0]] + a[1..] && b == [b[0]] + b[1..];
    }
  }

  /** No string occurs twice. */
  predicate Distinct(s: seq<string>) {
    forall i, j | 0 <= i < j < |s| :: s[i] != s[j]
  }

  /** `order` visits every key in `keys` exactly once. Go promises nothing more about a map walk. */
  ghost predicate Visits(order: seq<string>, keys: set<string>) {
    Distinct(order) && (forall k :: k in order <==> k in keys)
  }

  lemma {:induction false} DistinctCount(s: seq<string>, x: string)
    requires Distinct(s)
    ensures multiset(s)[x] == if x in s then 1 else 0
  {
    if s != [] {
      assert s == [s[0]] + s[1..];
      forall i, j | 0 <= i < j < |s[1..]|
        ensures s[1..][i] != s[1..][j]
      {
        assert s[1..][i] == s[i + 1] && s[1..][j] == s[j + 1];
      }
      DistinctCount(s[1..], x);
      assert x in s <==> x == s[0] || x in s[1..];
    }
  }

  /** Two walks of the same key set are rearrangements of one another. */
  lemma {:induction false} VisitsPermute(a: seq<string>, b: seq<string>, keys: set<string>)
    requires Visits(a, keys) && Visits(b, keys)
    ensures multiset(a) == multiset(b)
  {
    forall x
      ensures multiset(a)[x] == multiset(b)[x]
    {
      DistinctCount(a, x);
      DistinctCount(b, x);
    }
  }

  /** Sorting forgets the order of the walk: any two walks sort to the same sequence. */
  lemma {:induction false} SortForgetsOrder(a: seq<string>, b: seq<string>, keys: set<string>)
    requires Visits(a, keys) && Visits(b, keys)
    ensures Sort(a) == Sort(b)
  {
    VisitsPermute(a, b, keys);
    SortSorted(a);
    SortSorted(b);
    SortedUnique(Sort(a), Sort(b));
  }

  lemma {:induction false} RepeatCounted(s: seq<string>, i: nat, j: nat)
    requires i < j < |s| && s[i] == s[j]
    ensures multiset(s)[s[i]] >= 2
  {
    assert s == s[..j] + s[j..];
    assert s[..j][i] == s[i] && s[j..][0] == s[j];
    assert s[i] in multiset(s[..j]) && s[i] in multiset(s[j..]);
  }

  lemma {:induction false} SortDistinct(s: seq<string>)
    requires Distinct(s)
    ensures Distinct(Sort(s))
    ensures forall x :: x in Sort(s) <==> x in s
  {
    var r := Sort(s);
    forall i, j | 0 <= i < j < |r|
      ensures r[i] != r[j]
    {
      if r[i] == r[j] {
        RepeatCounted(r, i, j);
        DistinctCount(s, r[i]);
      }
    }
    forall x
      ensures x in r <==> x in s
    {
      assert x in r <==> x in multiset(r);
      assert x in s <==> x in multiset(s);
    }
  }

  /** `strings.TrimSuffix`. */
  function TrimSuffix(s: string, suffix: string): (r: string)
    ensures r <= s
    ensures s == r || s == r + suffix
  {
    if |suffix| <= |s| && s[|s| - |suffix|..] == suffix then s[..|s| - |suffix|] else s
  }

  /** `strconv.Itoa` on a non-negative number. */
  function Decimal(n: nat): (r: string)
    ensures r != []
    ensures forall c | c in r :: '0' <= c <= '9'
  {
    if n < 10 then [Digit(n)] else Decimal(n / 10) + [Digit(n % 10)]
  }

  function Digit(n: nat): (c: char)
    requires n < 10
    ensures '0' <= c <= '9'
    ensures c as int - '0' as int == n
  {
    ('0' as int + n) as char
  }
}
