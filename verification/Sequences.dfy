/** Options, results, and the few facts about sequences and separated strings
    that the models below share. */
module Sequences {

  datatype Option<+T> = None | Some(value: T)

  datatype Result<+T, +E> = Ok(value: T) | Err(error: E)

  /** The elements of s that satisfy p, in order. */
  function Filter<T>(s: seq<T>, p: T -> bool): (r: seq<T>)
  {
    if s == [] then []
    else
      var init, last := s[..|s| - 1], s[|s| - 1];
      if p(last) then Filter(init, p) + [last] else Filter(init, p)
  }

  lemma FilterAppend<T>(s: seq<T>, x: T, p: T -> bool)
    ensures Filter(s + [x], p) == Filter(s, p) + (if p(x) then [x] else [])
  {
    assert (s + [x])[..|s|] == s;
  }

  lemma {:induction false} FilterConcat<T>(a: seq<T>, b: seq<T>, p: T -> bool)
    ensures Filter(a + b, p) == Filter(a, p) + Filter(b, p)
  {
    if b == [] {
      assert a + b == a;
    } else {
      var init, last := b[..|b| - 1], b[|b| - 1];
      assert a + b == (a + init) + [last] && b == init + [last];
      FilterAppend(a + init, last, p);
      FilterConcat(a, init, p);
    }
  }

  lemma {:induction false} FilterMember<T>(s: seq<T>, p: T -> bool, x: T)
    ensures x in Filter(s, p) <==> x in s && p(x)
  {
    if s != [] {
      FilterMember(s[..|s| - 1], p, x);
      assert s == s[..|s| - 1] + [s[|s| - 1]];
    }
  }

  /** Two predicates that agree on the members of s select the same elements. */
  lemma {:induction false} FilterAgree<T>(s: seq<T>, p: T -> bool, q: T -> bool)
    requires forall x :: x in s ==> p(x) == q(x)
    ensures Filter(s, p) == Filter(s, q)
  {
    if s != [] {
      FilterAgree(s[..|s| - 1], p, q);
    }
  }

  /** Filtering twice keeps what satisfies both, when one predicate implies the other. */
  lemma {:induction false} FilterNested<T>(s: seq<T>, wide: T -> bool, narrow: T -> bool)
    requires forall x :: x in s && narrow(x) ==> wide(x)
    ensures Filter(Filter(s, wide), narrow) == Filter(s, narrow)
  {
    if s != [] {
      var init, last := s[..|s| - 1], s[|s| - 1];
      FilterNested(init, wide, narrow);
      if wide(last) {
        FilterAppend(Filter(init, wide), last, narrow);
      }
    }
  }

  lemma {:induction false} FilterAll<T>(s: seq<T>, p: T -> bool)
    requires forall x :: x in s ==> p(x)
    ensures Filter(s, p) == s
  {
    if s != [] {
      FilterAll(s[..|s| - 1], p);
      assert s == s[..|s| - 1] + [s[|s| - 1]];
    }
  }

  /** a can be obtained from b by deleting elements. */
  ghost predicate Subsequence<T>(a: seq<T>, b: seq<T>)
  {
    a == [] ||
    (b != [] &&
      (Subsequence(a, b[..|b| - 1]) ||
       (a[|a| - 1] == b[|b| - 1] && Subsequence(a[..|a| - 1], b[..|b| - 1]))))
  }

  lemma SubsequenceAppend<T>(a: seq<T>, b: seq<T>, x: T)
    requires Subsequence(a, b)
    ensures Subsequence(a, b + [x]) && Subsequence(a + [x], b + [x])
  {
    assert (b + [x])[..|b|] == b && (a + [x])[..|a|] == a;
  }

  /** Of two sequences with the same members, the last of one can be taken out of the other. */
  lemma TakeOut<T>(a: seq<T>, b: seq<T>) returns (j: nat)
    requires a != [] && multiset(a) == multiset(b)
    ensures j < |b| && b[j] == a[|a| - 1]
    ensures b == b[..j] + [b[j]] + b[j + 1..]
    ensures multiset(a[..|a| - 1]) == multiset(b[..j] + b[j + 1..])
  {
    var last := a[|a| - 1];
    MultisetOfParts(a[..|a| - 1], last, []);
    assert a == a[..|a| - 1] + [last] + [];
    assert last in multiset(b);
    j :| 0 <= j < |b| && b[j] == last;
    MultisetOfParts(b[..j], last, b[j + 1..]);
    assert b == b[..j] + [last] + b[j + 1..];
    assert a[..|a| - 1] + [] == a[..|a| - 1];
  }

  lemma MultisetOfParts<T>(left: seq<T>, x: T, right: seq<T>)
    ensures multiset(left + [x] + right) - multiset{x} == multiset(left + right)
  {}

  function Map<T, U>(s: seq<T>, f: T -> U): seq<U> {
    seq(|s|, i requires 0 <= i < |s| => f(s[i]))
  }

  /** Mapping keeps permutations. */
  lemma {:induction false} MapPermutes<T, U>(a: seq<T>, b: seq<T>, f: T -> U)
    requires multiset(a) == multiset(b)
    ensures multiset(Map(a, f)) == multiset(Map(b, f))
  {
    if a == [] {
      assert |b| == |multiset(b)| == |multiset(a)|;
    } else {
      var j := TakeOut(a, b);
      MapPermutes(a[..|a| - 1], b[..j] + b[j + 1..], f);
      MapInsert(a, a[..|a| - 1], a[|a| - 1], [], f);
      MapInsert(b, b[..j], b[j], b[j + 1..], f);
      assert a[..|a| - 1] + [] == a[..|a| - 1];
    }
  }

  lemma MapInsert<T, U>(s: seq<T>, left: seq<T>, x: T, right: seq<T>, f: T -> U)
    requires s == left + [x] + right
    ensures multiset(Map(s, f)) == multiset(Map(left + right, f)) + multiset{f(x)}
  {
    assert Map(s, f) == Map(left, f) + [f(x)] + Map(right, f);
    assert Map(left + right, f) == Map(left, f) + Map(right, f);
  }

  /** Filtering keeps permutations. */
  lemma {:induction false} FilterPermutes<T>(a: seq<T>, b: seq<T>, p: T -> bool)
    requires multiset(a) == multiset(b)
    ensures multiset(Filter(a, p)) == multiset(Filter(b, p))
  {
    if a == [] {
      assert |b| == |multiset(b)| == |multiset(a)|;
    } else {
      var j := TakeOut(a, b);
      FilterPermutes(a[..|a| - 1], b[..j] + b[j + 1..], p);
      FilterInsert(a, a[..|a| - 1], a[|a| - 1], [], p);
      FilterInsert(b, b[..j], b[j], b[j + 1..], p);
      assert a[..|a| - 1] + [] == a[..|a| - 1];
    }
  }

  lemma FilterInsert<T>(s: seq<T>, left: seq<T>, x: T, right: seq<T>, p: T -> bool)
    requires s == left + [x] + right
    ensures multiset(Filter(s, p)) == multiset(Filter(left + right, p)) + (if p(x) then multiset{x} else multiset{})
  {
    FilterConcat(left + [x], right, p);
    FilterAppend(left, x, p);
    FilterConcat(left, right, p);
  }

  // ---- strings joined by a separator ----

  /** A separator that occurs in neither tail splits the string in one way. */
  lemma SplitAtLast(a1: string, b1: string, a2: string, b2: string, sep: char)
    requires a1 + [sep] + b1 == a2 + [sep] + b2
    requires sep !in b1 && sep !in b2
    ensures a1 == a2 && b1 == b2
  {
    var s := a1 + [sep] + b1;
    assert s[|a1|] == sep && s[|a2|] == sep;
    assert |a1| == |a2| by {
      assert forall i :: 0 <= i < |b1| ==> s[|a1| + 1 + i] == b1[i];
      assert forall i :: |a1| < i < |s| ==> s[i] != sep;
      assert forall i :: 0 <= i < |b2| ==> s[|a2| + 1 + i] == b2[i];
      assert forall i :: |a2| < i < |s| ==> s[i] != sep;
    }
    assert a1 == s[..|a1|] && a2 == s[..|a2|];
    assert b1 == s[|a1| + 1..] && b2 == s[|a2| + 1..];
  }

  function Join(head: string, sep: char, tail: string): string {
    head + [sep] + tail
  }

  /** Neither string, followed by the separator, begins the other. */
  predicate Separate(c: string, d: string, sep: char) {
    !(c + [sep] <= d) && !(d + [sep] <= c)
  }

  lemma JoinSameHead(c: string, t: string, u: string, sep: char)
    requires Join(c, sep, t) == Join(c, sep, u)
    ensures t == u
  {
    assert t == Join(c, sep, t)[|c| + 1..] && u == Join(c, sep, u)[|c| + 1..];
  }

  lemma CollisionForcesPrefix(c: string, t: string, d: string, u: string, sep: char)
    requires Join(c, sep, t) == Join(d, sep, u) && c != d && |c| <= |d|
    ensures c + [sep] <= d
  {
    var k := Join(c, sep, t);
    assert k[..|c|] == c && k[..|d|] == d && k[|c|] == sep;
    if |c| < |d| {
      assert d[..|c| + 1] == k[..|c| + 1] == c + [sep];
    }
  }

  lemma PrefixAllowsCollision(c: string, d: string, sep: char)
    requires c + [sep] <= d
    ensures exists t, u :: t != "" && u != "" && Join(c, sep, t) == Join(d, sep, u)
  {
    var t := d[|c| + 1..] + [sep] + "x";
    assert d == c + [sep] + d[|c| + 1..];
    assert Join(c, sep, t) == Join(d, sep, "x") && t != "";
  }

  /** Two different heads can be joined to the same string, by some non-empty
      tails, exactly when one of them plus the separator begins the other. */
  lemma JoinCollision(c: string, d: string, sep: char)
    requires c != d
    ensures (exists t, u :: t != "" && u != "" && Join(c, sep, t) == Join(d, sep, u)) <==> !Separate(c, d, sep)
  {
    if t, u :| t != "" && u != "" && Join(c, sep, t) == Join(d, sep, u) {
      if |c| <= |d| { CollisionForcesPrefix(c, t, d, u, sep); } else { CollisionForcesPrefix(d, u, c, t, sep); }
    }
    if c + [sep] <= d {
      PrefixAllowsCollision(c, d, sep);
    } else if d + [sep] <= c {
      PrefixAllowsCollision(d, c, sep);
      var u, t :| t != "" && u != "" && Join(d, sep, u) == Join(c, sep, t);
    }
  }

  /** Heads without the separator never collide. */
  lemma FreeSeparate(c: string, d: string, sep: char)
    requires sep !in c && sep !in d
    ensures Separate(c, d, sep)
  {
    assert (c + [sep])[|c|] == sep && (d + [sep])[|d|] == sep;
  }

  // ---- decimal notation of integers ----

  function Digit(d: nat): char
    requires d < 10
  {
    ('0' as int + d) as char
  }

  function Decimal(n: nat): (r: string)
    ensures r != [] && (n < 10 <==> |r| == 1)
    ensures forall i :: 0 <= i < |r| ==> '0' <= r[i] <= '9'
  {
    if n < 10 then [Digit(n)] else Decimal(n / 10) + [Digit(n % 10)]
  }

  /** What the verb %d prints. */
  function DecimalInt(v: int): (r: string)
  {
    if v < 0 then "-" + Decimal(-v) else Decimal(v)
  }

  lemma {:induction false} DecimalInjective(m: nat, n: nat)
    requires Decimal(m) == Decimal(n)
    ensures m == n
  {
    if m < 10 {
      assert Decimal(m)[0] == Decimal(n)[0];
    } else {
      var s, t := Decimal(m), Decimal(n);
      assert s[|s| - 1] == Digit(m % 10) && t[|t| - 1] == Digit(n % 10);
      assert s[..|s| - 1] == Decimal(m / 10) && t[..|t| - 1] == Decimal(n / 10);
      DecimalInjective(m / 10, n / 10);
    }
  }

  lemma DecimalIntInjective(a: int, b: int)
    requires DecimalInt(a) == DecimalInt(b)
    ensures a == b
  {
    assert DecimalInt(a)[0] == DecimalInt(b)[0];
    if a < 0 {
      assert DecimalInt(a)[1..] == Decimal(-a) && DecimalInt(b)[1..] == Decimal(-b);
      DecimalInjective(-a, -b);
    } else {
      DecimalInjective(a, b);
    }
  }
}
