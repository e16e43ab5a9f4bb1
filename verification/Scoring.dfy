/** Aggregating severities into a score (internal/engine/score.go). Weights and
    scores are reals: the exact arithmetic, without float64 rounding. */
module Scoring {
  import opened Sequences
  import opened Domain

  function Weight(s: Severity): real {
    match s
    case Baixa => 0.25
    case Media => 0.5
    case Alta => 0.75
    case Critica => 1.0
    case _ => 0.0
  }

  function Total(sevs: seq<Severity>): real {
    if sevs == [] then 0.0 else Total(sevs[..|sevs| - 1]) + Weight(sevs[|sevs| - 1])
  }

  /** The severity the running maximum ends with. */
  function Top(sevs: seq<Severity>): Severity
    requires sevs != []
  {
    if |sevs| == 1 then sevs[0] else MaxSeverity(Top(sevs[..|sevs| - 1]), sevs[|sevs| - 1])
  }

  function Mean(sevs: seq<Severity>): real
    requires sevs != []
  {
    Total(sevs) / |sevs| as real
  }

  function ScoreOf(sevs: seq<Severity>): real {
    if sevs == [] then 0.0 else Weight(Top(sevs)) * 0.7 + Mean(sevs) * 0.3
  }

  predicate AllValid(sevs: seq<Severity>) {
    forall s :: s in sevs ==> s.Valid()
  }

  method Score(triggered: seq<Severity>) returns (score: real)
    ensures score == ScoreOf(triggered)
  {
    if |triggered| == 0 {
      return 0.0;
    }
    var max := Unset;
    var sum := 0.0;
    for i := 0 to |triggered|
      invariant sum == Total(triggered[..i])
      invariant i > 0 ==> max == Top(triggered[..i])
    {
      var s := triggered[i];
      assert triggered[..i + 1][..i] == triggered[..i];
      max := if i == 0 then s else MaxSeverity(max, s);
      sum := sum + Weight(s);
    }
    assert triggered[..|triggered|] == triggered;
    var mean := sum / |triggered| as real;
    score := Weight(max) * 0.7 + mean * 0.3;
  }

  // ---- facts about the parts ----

  /** Top is a member that no member outranks. */
  lemma {:induction false} TopIsMaximal(sevs: seq<Severity>)
    requires sevs != []
    ensures Top(sevs) in sevs
    ensures forall s :: s in sevs ==> s.Rank() <= Top(sevs).Rank()
  {
    if |sevs| > 1 {
      TopIsMaximal(sevs[..|sevs| - 1]);
    }
  }

  /** The scale: a quarter for each rank, nothing for a severity outside the table. */
  lemma WeightIsRank(s: Severity)
    ensures Weight(s) == s.Rank() as real / 4.0
  {}

  lemma WeightFollowsRank(a: Severity, b: Severity)
    ensures a.Rank() <= b.Rank() <==> Weight(a) <= Weight(b)
  {}

  lemma {:induction false} TotalConcat(a: seq<Severity>, b: seq<Severity>)
    ensures Total(a + b) == Total(a) + Total(b)
  {
    if b == [] {
      assert a + b == a;
    } else {
      assert (a + b)[..|a + b| - 1] == a + b[..|b| - 1];
      TotalConcat(a, b[..|b| - 1]);
    }
  }

  lemma AddOneFactor(x: real, n: real)
    ensures x * (n + 1.0) == x * n + x
  {}

  lemma SignOfProduct(x: real, n: real)
    requires n > 0.0
    ensures (x * n > 0.0 <==> x > 0.0) && (x * n < 0.0 <==> x < 0.0)
  {}

  /** x added up n times. */
  function Times(x: real, n: nat): real {
    if n == 0 then 0.0 else Times(x, n - 1) + x
  }

  lemma {:induction false} TimesIsProduct(x: real, n: nat)
    ensures Times(x, n) == x * n as real
  {
    if n > 0 {
      TimesIsProduct(x, n - 1);
      AddOneFactor(x, (n - 1) as real);
    }
  }

  lemma {:induction false} TotalBounds(sevs: seq<Severity>, lo: real, hi: real)
    requires forall s :: s in sevs ==> lo <= Weight(s) <= hi
    ensures Times(lo, |sevs|) <= Total(sevs) <= Times(hi, |sevs|)
  {
    if sevs != [] {
      TotalBounds(sevs[..|sevs| - 1], lo, hi);
    }
  }

  lemma QuotientCompare(total: real, x: real, n: real)
    requires n > 0.0
    ensures total / n == x <==> total == x * n
    ensures total / n < x <==> total < x * n
  {
    var q := total / n;
    assert q * n == total;
    SignOfProduct(q - x, n);
    assert (q - x) * n == total - x * n;
  }

  lemma MeanBounds(sevs: seq<Severity>, lo: real, hi: real)
    requires sevs != [] && forall s :: s in sevs ==> lo <= Weight(s) <= hi
    ensures lo <= Mean(sevs) <= hi
  {
    TotalBounds(sevs, lo, hi);
    MeanAgainst(sevs, lo);
    MeanAgainst(sevs, hi);
  }

  /** A total reaches n times the largest weight only when all weights are the largest. */
  lemma {:induction false} TotalReached(sevs: seq<Severity>, hi: real)
    requires forall s :: s in sevs ==> Weight(s) <= hi
    ensures Total(sevs) == Times(hi, |sevs|) <==> (forall s :: s in sevs ==> Weight(s) == hi)
    ensures Total(sevs) <= Times(hi, |sevs|)
  {
    if sevs != [] {
      var init, last := sevs[..|sevs| - 1], sevs[|sevs| - 1];
      TotalReached(init, hi);
      assert sevs == init + [last];
    }
  }

  lemma MeanAgainst(sevs: seq<Severity>, x: real)
    requires sevs != []
    ensures Mean(sevs) == x <==> Total(sevs) == Times(x, |sevs|)
    ensures Mean(sevs) < x <==> Total(sevs) < Times(x, |sevs|)
  {
    hide Total, Times;
    TimesIsProduct(x, |sevs|);
    QuotientCompare(Total(sevs), x, |sevs| as real);
  }

  lemma MeanReached(sevs: seq<Severity>, hi: real)
    requires sevs != [] && forall s :: s in sevs ==> Weight(s) <= hi
    ensures Mean(sevs) <= hi
    ensures Mean(sevs) == hi <==> (forall s :: s in sevs ==> Weight(s) == hi)
  {
    TotalReached(sevs, hi);
    MeanAgainst(sevs, hi);
  }

  // ---- what the score promises ----

  /** The ranks added up, from how often each severity occurs. */
  function RankSum(m: multiset<Severity>): nat {
    m[Baixa] + 2 * m[Media] + 3 * m[Alta] + 4 * m[Critica]
  }

  lemma {:induction false} TotalByCounts(sevs: seq<Severity>)
    ensures Total(sevs) == RankSum(multiset(sevs)) as real / 4.0
  {
    if sevs != [] {
      var init, last := sevs[..|sevs| - 1], sevs[|sevs| - 1];
      TotalByCounts(init);
      assert sevs == init + [last] && multiset(sevs) == multiset(init) + multiset{last};
    }
  }

  /** The score from the counts: seven tenths of the worst rank and three tenths
      of the mean rank, at a quarter for each rank. */
  lemma ScoreExactly(sevs: seq<Severity>)
    requires sevs != []
    ensures Top(sevs) in sevs && forall s :: s in sevs ==> s.Rank() <= Top(sevs).Rank()
    ensures var m := multiset(sevs);
            var sum := m[Baixa] + 2 * m[Media] + 3 * m[Alta] + 4 * m[Critica];
            ScoreOf(sevs) == Top(sevs).Rank() as real / 4.0 * 0.7 + sum as real / 4.0 / |sevs| as real * 0.3
  {
    TopIsMaximal(sevs);
    WeightIsRank(Top(sevs));
    TotalByCounts(sevs);
  }

  lemma {:induction false} CountsOfValid(sevs: seq<Severity>)
    requires AllValid(sevs)
    ensures var m := multiset(sevs); m[Baixa] + m[Media] + m[Alta] + m[Critica] == |sevs|
  {
    if sevs != [] {
      var init, last := sevs[..|sevs| - 1], sevs[|sevs| - 1];
      CountsOfValid(init);
      assert last in sevs && sevs == init + [last] && multiset(sevs) == multiset(init) + multiset{last};
    }
  }

  /** The mean is a quarter, the least of all, exactly when all are baixa. */
  lemma LeastMean(sevs: seq<Severity>)
    requires sevs != [] && AllValid(sevs)
    ensures Mean(sevs) == 0.25 <==> forall s :: s in sevs ==> s == Baixa
  {
    var m := multiset(sevs);
    TotalByCounts(sevs);
    CountsOfValid(sevs);
    QuotientCompare(Total(sevs), 0.25, |sevs| as real);
    assert forall s :: s in sevs <==> m[s] > 0;
    if m[Media] == m[Alta] == m[Critica] == 0 {
      assert forall s :: s in sevs ==> s.Valid();
    }
  }

  /** The score lies within a band below the weight of the worst hit, at the
      top of it exactly when all hits are equally severe and at the bottom
      exactly when all are baixa. */
  lemma ScoreBounds(sevs: seq<Severity>)
    requires sevs != [] && AllValid(sevs)
    ensures var worst := Top(sevs).Rank() as real / 4.0;
            && worst * 0.7 + 0.075 <= ScoreOf(sevs) <= worst
            && (ScoreOf(sevs) == worst <==> forall s :: s in sevs ==> s == Top(sevs))
            && (ScoreOf(sevs) == worst * 0.7 + 0.075 <==> forall s :: s in sevs ==> s == Baixa)
    ensures 0.25 <= ScoreOf(sevs) <= 1.0
  {
    TopIsMaximal(sevs);
    WeightIsRank(Top(sevs));
    LeastMean(sevs);
    var hi := Weight(Top(sevs));
    forall s | s in sevs
      ensures 0.25 <= Weight(s) <= hi && (Weight(s) == hi <==> s == Top(sevs))
    {
      WeightFollowsRank(s, Top(sevs));
    }
    MeanBounds(sevs, 0.25, hi);
    MeanReached(sevs, hi);
  }

  /** A strictly lower worst severity always gives a strictly lower score. */
  lemma ScoreDominance(a: seq<Severity>, b: seq<Severity>)
    requires a != [] && b != [] && AllValid(a) && AllValid(b)
    requires Top(a).Rank() < Top(b).Rank()
    ensures ScoreOf(a) < ScoreOf(b)
  {
    TopIsMaximal(a);
    TopIsMaximal(b);
    ScoreBounds(a);
    ScoreBounds(b);
  }

  lemma {:induction false} TotalPermutation(a: seq<Severity>, b: seq<Severity>)
    requires multiset(a) == multiset(b)
    ensures Total(a) == Total(b)
  {
    assert |a| == |multiset(a)| == |multiset(b)| == |b|;
    if a != [] {
      var j := TakeOut(a, b);
      var init, last, rest := a[..|a| - 1], a[|a| - 1], b[..j] + b[j + 1..];
      TotalPermutation(init, rest);
      TotalConcat(b[..j] + [last], b[j + 1..]);
      TotalConcat(b[..j], [last]);
      TotalConcat(b[..j], b[j + 1..]);
    }
  }

  /** The score does not depend on the order of the hits. */
  lemma ScorePermutation(a: seq<Severity>, b: seq<Severity>)
    requires multiset(a) == multiset(b)
    ensures ScoreOf(a) == ScoreOf(b)
  {
    assert |a| == |multiset(a)| == |multiset(b)| == |b|;
    if a != [] {
      TotalPermutation(a, b);
      TopIsMaximal(a);
      TopIsMaximal(b);
      assert Top(a) in multiset(b) && Top(b) in multiset(a);
      WeightFollowsRank(Top(a), Top(b));
      WeightFollowsRank(Top(b), Top(a));
    }
  }

  lemma MeanMovement(total: real, w: real, n: real)
    requires n > 0.0
    ensures (total + w) / (n + 1.0) > total / n <==> w > total / n
    ensures (total + w) / (n + 1.0) < total / n <==> w < total / n
  {
    var m := total / n;
    assert m * n == total;
    QuotientCompare(total + w, m, n + 1.0);
    AddOneFactor(m, n);
  }

  /** Adding a hit no worse than the worst moves the score towards that hit's
      weight: up, down or not at all as the weight is above, below or at the mean. */
  lemma ScoreMovement(sevs: seq<Severity>, s: Severity)
    requires sevs != [] && s.Rank() <= Top(sevs).Rank()
    ensures ScoreOf(sevs + [s]) > ScoreOf(sevs) <==> Weight(s) > Mean(sevs)
    ensures ScoreOf(sevs + [s]) < ScoreOf(sevs) <==> Weight(s) < Mean(sevs)
  {
    var more := sevs + [s];
    assert more[..|sevs|] == sevs;
    assert Total(more) == Total(sevs) + Weight(s) && Top(more) == MaxSeverity(Top(sevs), s);
    hide Total, Top;
    MeanMovement(Total(sevs), Weight(s), |sevs| as real);
    assert Weight(Top(more)) == Weight(Top(sevs)) by {
      WeightFollowsRank(s, Top(sevs));
    }
  }

  /** A lower-severity hit added to a uniform list always pulls the score down,
      whatever the comment above Score says. */
  lemma LowerHitAddedToEqualHits(sevs: seq<Severity>, s: Severity)
    requires sevs != [] && AllValid(sevs) && s.Valid()
    requires forall x :: x in sevs ==> x == Top(sevs)
    requires s.Rank() < Top(sevs).Rank()
    ensures ScoreOf(sevs + [s]) < ScoreOf(sevs)
  {
    MeanReached(sevs, Weight(Top(sevs)));
    ScoreMovement(sevs, s);
  }

  /** At the default threshold of one half, what alerts: any alta or critica
      hit, or a non-empty list of nothing but media. */
  lemma DefaultThreshold(sevs: seq<Severity>)
    requires AllValid(sevs)
    ensures sevs != [] && ScoreOf(sevs) >= 0.5 <==>
              (exists s :: s in sevs && s.Rank() >= 3) ||
              (sevs != [] && forall s :: s in sevs ==> s == Media)
  {
    if sevs != [] {
      TopIsMaximal(sevs);
      ScoreBounds(sevs);
    }
  }
}
