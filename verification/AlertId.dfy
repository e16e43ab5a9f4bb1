/** Picking the rule that stands for an alert, and the deterministic alert id
    (internal/pipeline/processor.go, alertID and ruleForHighestSeverity). */
module AlertId {
  import opened Sequences
  import opened Domain
  import opened Scoring
  import opened RuleEvaluation
  import opened Config

  // ---- the rule of highest severity ----

  /** The table the pick resolves references in; a later rule replaces an earlier one of the same id. */
  function ById(rules: seq<RuleDef>): map<string, RuleDef> {
    if rules == [] then map[]
    else
      var r := rules[|rules| - 1];
      ById(rules[..|rules| - 1])[r.ruleId := r]
  }

  /** Whether r takes over from the best rule so far. */
  predicate TakesOver(r: RuleDef, best: Option<RuleDef>) {
    best.None? || MaxSeverity(r.emits.severity, best.value.emits.severity) == r.emits.severity
  }

  function Pick(refs: seq<RuleRef>, table: map<string, RuleDef>): Option<RuleDef> {
    if refs == [] then None
    else
      var best, id := Pick(refs[..|refs| - 1], table), refs[|refs| - 1].ruleId;
      if id in table && TakesOver(table[id], best) then Some(table[id]) else best
  }

  method RuleForHighestSeverity(refs: seq<RuleRef>, rules: seq<RuleDef>) returns (best: Option<RuleDef>)
    ensures best == Pick(refs, ById(rules))
  {
    var byId: map<string, RuleDef> := map[];
    for i := 0 to |rules|
      invariant byId == ById(rules[..i])
    {
      assert rules[..i + 1][..i] == rules[..i];
      byId := byId[rules[i].ruleId := rules[i]];
    }
    assert rules[..|rules|] == rules;
    best := None;
    for i := 0 to |refs|
      invariant best == Pick(refs[..i], byId)
    {
      assert refs[..i + 1][..i] == refs[..i];
      var id := refs[i].ruleId;
      if id in byId && TakesOver(byId[id], best) {
        best := Some(byId[id]);
      }
    }
    assert refs[..|refs|] == refs;
  }

  /** hits[i] is the last of the most severe hits. */
  predicate LastOfWorst(hits: seq<RuleDef>, i: nat)
    requires i < |hits|
  {
    && (forall j :: 0 <= j < |hits| ==> hits[j].emits.severity.Rank() <= hits[i].emits.severity.Rank())
    && (forall j :: i < j < |hits| ==> hits[j].emits.severity.Rank() < hits[i].emits.severity.Rank())
  }

  lemma {:induction false} ByIdFinds(rules: seq<RuleDef>, r: RuleDef)
    requires r in rules
    requires forall i, j :: 0 <= i < j < |rules| ==> rules[i].ruleId != rules[j].ruleId
    ensures r.ruleId in ById(rules) && ById(rules)[r.ruleId] == r
  {
    var init, last := rules[..|rules| - 1], rules[|rules| - 1];
    if r != last {
      assert rules == init + [last];
      ByIdFinds(init, r);
      var i :| 0 <= i < |init| && init[i] == r;
      assert rules[i].ruleId != last.ruleId;
    }
  }

  /** Every reference resolves to the rule it came from. */
  ghost predicate Resolves(hits: seq<RuleDef>, table: map<string, RuleDef>) {
    forall h :: h in hits ==> h.ruleId in table && table[h.ruleId] == h
  }

  lemma UniqueIdsResolve(hits: seq<RuleDef>, rules: seq<RuleDef>)
    requires forall h :: h in hits ==> h in rules
    requires forall a, b :: 0 <= a < b < |rules| ==> rules[a].ruleId != rules[b].ruleId
    ensures Resolves(hits, ById(rules))
  {
    forall h | h in hits ensures h.ruleId in ById(rules) && ById(rules)[h.ruleId] == h {
      ByIdFinds(rules, h);
    }
  }

  lemma WorstSoFar(hits: seq<RuleDef>, best: nat)
    requires best < |hits| - 1 && LastOfWorst(hits[..|hits| - 1], best)
    ensures var n := |hits| - 1;
            LastOfWorst(hits, if hits[n].emits.severity.Rank() < hits[best].emits.severity.Rank() then best else n)
  {
  }

  /** The pick among hits whose references resolve is the last of maximal
      severity, whether it has a window or not. */
  lemma {:induction false} PickIsLastOfWorst(hits: seq<RuleDef>, table: map<string, RuleDef>) returns (i: nat)
    requires hits != [] && Resolves(hits, table)
    requires forall h :: h in hits ==> h.emits.severity.Valid()
    ensures i < |hits| && LastOfWorst(hits, i)
    ensures Pick(Refs(hits), table) == Some(hits[i])
  {
    var n := |hits| - 1;
    var init, last := hits[..n], hits[n];
    PickUnfold(hits, table);
    hide Pick, Refs;
    i := n;
    if init != [] {
      var best := PickIsLastOfWorst(init, table);
      WorstSoFar(hits, best);
      hide LastOfWorst;
      if last.emits.severity.Rank() < init[best].emits.severity.Rank() {
        i := best;
      } else {
        assert TakesOver(last, Some(init[best]));
      }
    }
  }

  lemma PickUnfold(hits: seq<RuleDef>, table: map<string, RuleDef>)
    requires hits != [] && Resolves(hits, table)
    ensures var n := |hits| - 1;
            var best := if n == 0 then None else Pick(Refs(hits[..n]), table);
            Pick(Refs(hits), table) == if TakesOver(hits[n], best) then Some(hits[n]) else best
  {
    var n := |hits| - 1;
    assert Refs(hits)[..n] == Refs(hits[..n]);
    assert hits[n] in hits;
  }

  // ---- what an evaluation agrees on ----

  lemma {:induction false} HitsAreRules(lib: Library, e: State, tx: Transaction, window: seq<W.Entry>,
                                        at: Site -> Observation)
    requires forall h :: h in e.hits ==> h in e.rules.rules && h.enabled
    requires Loop(lib, e, tx, window, at).Completed?
    ensures forall h :: h in Loop(lib, e, tx, window, at).hits ==> h in e.rules.rules && h.enabled
    decreases |e.rules.rules| - e.k
  {
    if e.Live() {
      var step := StepOf(lib, e, tx, window, at);
      HitsAreRules(lib, e.Next(step), tx, window, at);
    }
  }

  lemma {:induction false} RunningIsTop(hits: seq<RuleDef>)
    requires hits != [] && forall h :: h in hits ==> h.emits.severity.Valid()
    ensures RunningSeverity(hits) == Top(Severities(hits)) && RunningSeverity(hits).Valid()
  {
    var n := |hits| - 1;
    assert Severities(hits)[..n] == Severities(hits[..n]);
    if n > 0 {
      RunningIsTop(hits[..n]);
    }
  }

  lemma TopIsAt(sevs: seq<Severity>, i: nat)
    requires AllValid(sevs) && i < |sevs|
    requires forall j :: 0 <= j < |sevs| ==> sevs[j].Rank() <= sevs[i].Rank()
    ensures Top(sevs) == sevs[i]
  {
    TopIsMaximal(sevs);
  }

  lemma HitsAreValid(lib: Library, hits: seq<RuleDef>, rules: seq<RuleDef>)
    requires ValidRules(lib, rules) && forall h :: h in hits ==> h in rules
    ensures forall h :: h in hits ==> h.emits.severity.Valid()
    ensures Resolves(hits, ById(rules))
  {
    forall h | h in hits ensures h.emits.severity.Valid() {
      assert ValidRule(lib, h);
    }
    hide ById, ValidRule;
    UniqueIdsResolve(hits, rules);
  }

  lemma HitsAgree(lib: Library, hits: seq<RuleDef>, rules: seq<RuleDef>) returns (i: nat)
    requires ValidRules(lib, rules) && hits != [] && forall h :: h in hits ==> h in rules
    ensures i < |hits| && LastOfWorst(hits, i)
    ensures Pick(Refs(hits), ById(rules)) == Some(hits[i])
    ensures RunningSeverity(hits) == Top(Severities(hits)) == hits[i].emits.severity
    ensures AllValid(Severities(hits))
  {
    HitsAreValid(lib, hits, rules);
    ValidHits(hits);
    hide RunningSeverity, Top, Pick, ById, Refs, ValidRules, Resolves, AllValid;
    i := PickIsLastOfWorst(hits, ById(rules));
    RunningIsTop(hits);
    TopIsAt(Severities(hits), i);
  }

  /** For a validated rule set, the severity Evaluate accumulates, the maximum
      the score is computed from and the severity of the picked rule are one. */
  lemma SeveritiesAgree(lib: Library, rules: RuleSet, tx: Transaction, risk: RiskProfile, up: bool,
                        window: seq<W.Entry>, at: Site -> Observation, hits: seq<RuleDef>,
                        degraded: bool) returns (i: nat)
    requires ValidRules(lib, rules.rules)
    requires Evaluate(lib, rules, tx, risk, up, window, at) == Completed(hits, degraded) && hits != []
    ensures i < |hits| && LastOfWorst(hits, i)
    ensures Pick(Refs(hits), ById(rules.rules)) == Some(hits[i])
    ensures RunningSeverity(hits) == Top(Severities(hits)) == hits[i].emits.severity
    ensures AllValid(Severities(hits))
  {
    HitsAreRules(lib, Begin(up, rules, risk), tx, window, at);
    i := HitsAgree(lib, hits, rules.rules);
  }

  lemma TopPermutation(a: seq<Severity>, b: seq<Severity>)
    requires a != [] && b != [] && multiset(a) == multiset(b) && AllValid(a)
    ensures Top(a) == Top(b)
  {
    TopIsMaximal(a);
    TopIsMaximal(b);
    assert Top(a) in multiset(b) && Top(b) in multiset(a);
  }

  lemma ValidHits(hits: seq<RuleDef>)
    requires forall h :: h in hits ==> h.emits.severity.Valid()
    ensures AllValid(Severities(hits))
  {
    forall s | s in Severities(hits) ensures s.Valid() {
      var i :| 0 <= i < |hits| && Severities(hits)[i] == s;
      assert hits[i] in hits;
    }
  }

  lemma RunningPermutes(a: seq<RuleDef>, b: seq<RuleDef>)
    requires multiset(a) == multiset(b) && forall h :: h in a ==> h.emits.severity.Valid()
    ensures RunningSeverity(a) == RunningSeverity(b)
  {
    assert |a| == |multiset(a)| == |multiset(b)| == |b|;
    if a != [] {
      hide RunningSeverity, Top, Severities;
      forall h | h in b ensures h.emits.severity.Valid() {
        assert h in multiset(a);
      }
      SeveritiesPermute(a, b);
      RunningIsTop(a);
      RunningIsTop(b);
      ValidHits(a);
      TopPermutation(Severities(a), Severities(b));
    }
  }

  /** Categories and score do not depend on the order of the hits, nor does the
      severity when all are valid. */
  lemma OrderIrrelevant(a: seq<RuleDef>, b: seq<RuleDef>)
    requires multiset(a) == multiset(b)
    ensures (forall h :: h in a ==> h.emits.severity.Valid()) ==> RunningSeverity(a) == RunningSeverity(b)
    ensures Categories(a) == Categories(b)
    ensures ScoreOf(Severities(a)) == ScoreOf(Severities(b))
  {
    hide RunningSeverity, Severities, ScoreOf;
    assert forall h :: h in a <==> h in multiset(a);
    assert forall h :: h in b <==> h in multiset(b);
    SeveritiesPermute(a, b);
    ScorePermutation(Severities(a), Severities(b));
    if forall h :: h in a ==> h.emits.severity.Valid() {
      RunningPermutes(a, b);
    }
  }

  function SeverityOf(): RuleDef -> Severity {
    (h: RuleDef) => h.emits.severity
  }

  lemma SeveritiesPermute(a: seq<RuleDef>, b: seq<RuleDef>)
    requires multiset(a) == multiset(b)
    ensures multiset(Severities(a)) == multiset(Severities(b))
  {
    assert Severities(a) == Map(a, SeverityOf()) && Severities(b) == Map(b, SeverityOf());
    MapPermutes(a, b, SeverityOf());
  }

  /** The picked rule, and with it the bucket, may depend on the order: of two
      equally severe rules, whichever comes second is picked. */
  lemma PickDependsOnOrder(a: RuleDef, b: RuleDef)
    requires a.ruleId != b.ruleId && a.emits.severity == b.emits.severity && a.emits.severity.Valid()
    ensures Pick(Refs([a, b]), ById([a, b])) == Some(b)
    ensures Pick(Refs([b, a]), ById([b, a])) == Some(a)
  {
    UniqueIdsResolve([a, b], [a, b]);
    UniqueIdsResolve([b, a], [b, a]);
    var i := PickIsLastOfWorst([a, b], ById([a, b]));
    var j := PickIsLastOfWorst([b, a], ById([b, a]));
  }

  // ---- the bucket ----

  const DEFAULT_BUCKET_SPAN := 60_000_000_000
  const SECOND := 1_000_000_000

  /** Integer division that rounds towards zero. */
  function TruncDiv(a: int, b: int): int
    requires b > 0
  {
    if a >= 0 then a / b else -((-a) / b)
  }

  /** The bucket width in seconds. */
  function BucketSeconds(pick: Option<RuleDef>): nat {
    var declared :=
      if pick.Some? && pick.value.window.Some? then SpanNanos(pick.value.window.value) else DEFAULT_BUCKET_SPAN;
    var span := if declared <= 0 then DEFAULT_BUCKET_SPAN else declared;
    span / SECOND
  }

  function Bucket(sec: int, width: nat): int
    requires width > 0
  {
    TruncDiv(sec, width) * width
  }

  /** A bucket start is a multiple of the width, between zero and the capture
      time, less than one width away; from 1970 on it is the floor. */
  lemma BucketBounds(sec: int, width: nat)
    requires width > 0
    ensures exists n: int :: Bucket(sec, width) == n * width
    ensures 0 - width < sec - Bucket(sec, width) < width
    ensures sec >= 0 ==> 0 <= Bucket(sec, width) <= sec
    ensures sec <= 0 ==> sec <= Bucket(sec, width) <= 0
    ensures sec >= 0 ==> Bucket(sec, width) == sec - sec % width
  {
    assert Bucket(sec, width) == TruncDiv(sec, width) * width;
    if sec >= 0 {
      DivisionParts(sec, width);
    } else {
      DivisionParts(-sec, width);
      assert Bucket(sec, width) == -((-sec) / width * width);
    }
  }

  lemma DivisionParts(a: nat, b: nat)
    requires b > 0
    ensures a == a / b * b + a % b && 0 <= a % b < b
  {}

  /** Exactly when the bucket computation divides by zero, for a rule that
      validation accepts: when the span wraps to less than one second. */
  lemma ZeroWidth(rule: RuleDef)
    requires rule.window.Some? && rule.window.value.spanSeconds > 0
    ensures BucketSeconds(Some(rule)) == 0 <==> 0 < SpanNanos(rule.window.value) < SECOND
  {}

  /** Such a span exists: it is positive, so validation accepts it, and it
      wraps to 512 nanoseconds. */
  lemma ZeroWidthHappens(rule: RuleDef)
    requires rule.window.Some? && rule.window.value.spanSeconds == 20_211_507_185_753_197
    ensures SpanNanos(rule.window.value) == 512 && BucketSeconds(Some(rule)) == 0
  {}

  /** Spans up to 9223372036 seconds are the bucket width as declared. */
  lemma WidthAsDeclared(rule: RuleDef)
    requires rule.window.Some? && 0 < rule.window.value.spanSeconds <= 9_223_372_036
    ensures BucketSeconds(Some(rule)) == rule.window.value.spanSeconds
  {
    SpanDoesNotWrap(rule.window.value);
  }

  // ---- the bucket as the comment above alertID describes it ----

  predicate Windowed(h: RuleDef) { h.window.Some? }

  /** The last of the most severe hits that declare a window, if any does. */
  function DeclaredPick(hits: seq<RuleDef>, table: map<string, RuleDef>): Option<RuleDef> {
    Pick(Refs(Filter(hits, Windowed)), table)
  }

  lemma WindowedResolve(hits: seq<RuleDef>, table: map<string, RuleDef>)
    requires Resolves(hits, table) && forall h :: h in hits ==> h.emits.severity.Valid()
    ensures Resolves(Filter(hits, Windowed), table)
    ensures forall h :: h in Filter(hits, Windowed) ==> h in hits && h.window.Some? && h.emits.severity.Valid()
  {
    forall h | h in Filter(hits, Windowed) ensures h in hits && h.window.Some? {
      FilterMember(hits, Windowed, h);
    }
  }

  /** If the pick among all hits declares a window, it is the pick among those that do. */
  lemma {:induction false} WindowedPick(hits: seq<RuleDef>, table: map<string, RuleDef>)
    requires Resolves(hits, table) && forall h :: h in hits ==> h.emits.severity.Valid()
    requires Pick(Refs(hits), table).Some? && Pick(Refs(hits), table).value.window.Some?
    ensures DeclaredPick(hits, table) == Pick(Refs(hits), table)
  {
    assert hits != [];
    var n := |hits| - 1;
    var init, last := hits[..n], hits[n];
    assert hits == init + [last];
    PickUnfold(hits, table);
    assert n == 0 ==> DeclaredPick(init, table) == None;
    hide Pick, Refs, DeclaredPick;
    DeclaredUnfold(init, last, table);
    WindowedNotWorse(init, table);
    var best := if n == 0 then None else Pick(Refs(init), table);
    if !TakesOver(last, best) {
      WindowedPick(init, table);
    }
  }

  lemma DeclaredUnfold(init: seq<RuleDef>, last: RuleDef, table: map<string, RuleDef>)
    requires Resolves(init + [last], table) && forall h :: h in init + [last] ==> h.emits.severity.Valid()
    ensures DeclaredPick(init + [last], table)
         == if last.window.Some? && TakesOver(last, DeclaredPick(init, table)) then Some(last)
            else DeclaredPick(init, table)
  {
    FilterAppend(init, last, Windowed);
    assert Pick(Refs([]), table) == None;
    hide Pick, Refs, Filter;
    if last.window.Some? {
      var w := Filter(init, Windowed);
      WindowedResolve(init + [last], table);
      PickUnfold(w + [last], table);
      assert (w + [last])[..|w|] == w;
    }
  }

  /** No hit that declares a window is more severe than the pick among all. */
  lemma WindowedNotWorse(hits: seq<RuleDef>, table: map<string, RuleDef>)
    requires Resolves(hits, table) && forall h :: h in hits ==> h.emits.severity.Valid()
    ensures DeclaredPick(hits, table).Some? ==>
              && Pick(Refs(hits), table).Some?
              && DeclaredPick(hits, table).value.emits.severity.Rank()
                 <= Pick(Refs(hits), table).value.emits.severity.Rank()
  {
    WindowedResolve(hits, table);
    var w := Filter(hits, Windowed);
    if w != [] {
      var j := PickIsLastOfWorst(w, table);
      assert w[j] in hits;
      var i := PickIsLastOfWorst(hits, table);
      assert hits != [];
      var k :| 0 <= k < |hits| && hits[k] == w[j];
    }
  }

  lemma {:induction false} NoneWindowed(hits: seq<RuleDef>)
    requires forall h :: h in hits ==> h.window.None?
    ensures Filter(hits, Windowed) == []
  {
    if hits != [] {
      NoneWindowed(hits[..|hits| - 1]);
    }
  }

  /** The comment says the bucket has the width of the most severe hit that
      declares a window, or 60 s. The code's width is that one exactly when the
      pick itself declares a window, or that width is 60 s (as it is when no
      hit declares one). */
  lemma CommentHoldsExactly(hits: seq<RuleDef>, table: map<string, RuleDef>)
    requires Resolves(hits, table) && forall h :: h in hits ==> h.emits.severity.Valid()
    ensures var pick, declared := Pick(Refs(hits), table), DeclaredPick(hits, table);
            && (BucketSeconds(pick) == BucketSeconds(declared) <==>
                  (pick.Some? && pick.value.window.Some?) || BucketSeconds(declared) == 60)
            && ((forall h :: h in hits ==> h.window.None?) ==> BucketSeconds(declared) == 60)
  {
    var pick := Pick(Refs(hits), table);
    if pick.Some? && pick.value.window.Some? {
      WindowedPick(hits, table);
    }
    if forall h :: h in hits ==> h.window.None? {
      NoneWindowed(hits);
      assert Pick(Refs([]), table) == None;
    }
  }

  /** Where it fails: an alta hit with a window of 300 s before a critica hit
      without one. The code's bucket is 60 s wide, the comment's 300 s. */
  lemma CommentFails(a: RuleDef, b: RuleDef)
    requires a.ruleId != b.ruleId
    requires a.emits.severity == Alta && a.window == Some(WindowSpec(300, Count))
    requires b.emits.severity == Critica && b.window == None
    ensures BucketSeconds(Pick(Refs([a, b]), ById([a, b]))) == 60
    ensures BucketSeconds(DeclaredPick([a, b], ById([a, b]))) == 300
    ensures Bucket(60, 60) != Bucket(60, 300)
  {
    UniqueIdsResolve([a, b], [a, b]);
    PicksWorse(a, b, ById([a, b]));
    OnlyWindowed(a, b);
    PicksOnly(a, ById([a, b]));
    hide Pick, Refs, ById, Filter;
  }

  lemma PicksWorse(a: RuleDef, b: RuleDef, table: map<string, RuleDef>)
    requires Resolves([a, b], table) && a.emits.severity.Valid() && b.emits.severity.Valid()
    requires a.emits.severity.Rank() < b.emits.severity.Rank()
    ensures Pick(Refs([a, b]), table) == Some(b)
  {
    var i := PickIsLastOfWorst([a, b], table);
    hide Pick, Refs;
    assert [a, b][1].emits.severity.Rank() <= [a, b][i].emits.severity.Rank();
  }

  lemma PicksOnly(a: RuleDef, table: map<string, RuleDef>)
    requires Resolves([a], table) && a.emits.severity.Valid()
    ensures Pick(Refs([a]), table) == Some(a)
  {
    var i := PickIsLastOfWorst([a], table);
  }

  lemma OnlyWindowed(a: RuleDef, b: RuleDef)
    requires a.window.Some? && b.window.None?
    ensures Filter([a, b], Windowed) == [a]
  {
    assert [] + [a] == [a] && [a] + [b] == [a, b];
    FilterAppend([], a, Windowed);
    FilterAppend([a], b, Windowed);
  }

  // ---- the preimage ----

  function Preimage(lib: Library, customerId: string, transactionId: string, bucket: int): string {
    Join("v1", '|', Join(Join(customerId, '|', transactionId), '|', lib.stamp(bucket)))
  }

  /** The timestamp format separates the seconds of the years 0 to 9999 and
      never prints a bar (section 5.6 of RFC 3339). */
  ghost predicate StampSeparates(lib: Library) {
    && (forall a :: InFormat(a) ==> '|' !in lib.stamp(a))
    && (forall a, b :: InFormat(a) && InFormat(b) && lib.stamp(a) == lib.stamp(b) ==> a == b)
  }

  predicate InFormat(sec: int) {
    -62_167_219_200 <= sec <= 253_402_300_799
  }

  lemma PreimageParts(lib: Library, c: string, t: string, a: int, d: string, u: string, b: int)
    requires StampSeparates(lib) && InFormat(a) && InFormat(b)
    ensures Preimage(lib, c, t, a) == Preimage(lib, d, u, b)
       <==> Join(c, '|', t) == Join(d, '|', u) && a == b
  {
    if Preimage(lib, c, t, a) == Preimage(lib, d, u, b) {
      var x := Join(Join(c, '|', t), '|', lib.stamp(a));
      var y := Join(Join(d, '|', u), '|', lib.stamp(b));
      JoinSameHead("v1", x, y, '|');
      SplitAtLast(Join(c, '|', t), lib.stamp(a), Join(d, '|', u), lib.stamp(b), '|');
    }
  }

  /** Between customers that the separator keeps apart, the hashed text
      identifies customer, transaction and bucket. */
  lemma PreimageInjective(lib: Library, c: string, t: string, a: int, d: string, u: string, b: int)
    requires StampSeparates(lib) && InFormat(a) && InFormat(b)
    requires c == d || Separate(c, d, '|')
    ensures Preimage(lib, c, t, a) == Preimage(lib, d, u, b) <==> c == d && t == u && a == b
  {
    PreimageParts(lib, c, t, a, d, u, b);
    if Join(c, '|', t) == Join(d, '|', u) {
      if c == d {
        JoinSameHead(c, t, u, '|');
      } else if |c| <= |d| {
        CollisionForcesPrefix(c, t, d, u, '|');
      } else {
        CollisionForcesPrefix(d, u, c, t, '|');
      }
    }
  }

  /** Exactly when two customers can share an alert preimage. */
  lemma PreimageCollision(lib: Library, c: string, d: string, a: int)
    requires StampSeparates(lib) && InFormat(a) && c != d
    ensures (exists t, u :: t != "" && u != "" && Preimage(lib, c, t, a) == Preimage(lib, d, u, a))
       <==> !Separate(c, d, '|')
  {
    JoinCollision(c, d, '|');
    if t, u :| t != "" && u != "" && Preimage(lib, c, t, a) == Preimage(lib, d, u, a) {
      PreimageParts(lib, c, t, a, d, u, a);
    }
    if t, u :| t != "" && u != "" && Join(c, '|', t) == Join(d, '|', u) {
      PreimageParts(lib, c, t, a, d, u, a);
    }
  }

  /** None where the division by the bucket width panics. */
  function AlertIdOf(lib: Library, tx: Transaction, pick: Option<RuleDef>): Option<string> {
    var width := BucketSeconds(pick);
    if width == 0 then None
    else Some(lib.sha256(Preimage(lib, tx.customerId, tx.transactionId, Bucket(tx.capturedAt.sec, width))))
  }
}
