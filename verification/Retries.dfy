/** What a retry repeats (internal/pipeline/processor.go): the window entry of an
    attempt that failed after Record, and the alert of one that failed at Mark. */
module Retries {
  import opened Sequences
  import opened Domain
  import opened Scoring
  import opened RuleEvaluation
  import opened AlertId
  import opened Processing
  import opened Guarantees
  import opened Verdicts
  import opened Attempts
  import opened I = IdempotencyStore

  // ---- alerts per transaction ----

  function About(c: string, t: string): Alert -> bool {
    (a: Alert) => a.customerId == c && a.transactionId == t
  }

  function AlertCount(s: Stores, c: string, t: string): nat {
    |Filter(s.alerts, About(c, t))|
  }

  /** The attempt is at this transaction and publishes. */
  function PublishesFor(lib: Library, c: string, t: string): (Stores, Job) -> bool {
    (s: Stores, j: Job) => j.tx.customerId == c && j.tx.transactionId == t && Publication(lib, s, j).Some?
  }

  /** Alerts about a transaction are exactly the attempts at it that published,
      whether or not they then succeeded. */
  lemma {:induction false} AlertsAreAttempts(lib: Library, jobs: seq<Job>, c: string, t: string)
    ensures AlertCount(RunAll(lib, jobs).stores, c, t) == Tally(lib, jobs, PublishesFor(lib, c, t))
  {
    hide Process, Publication;
    if jobs != [] {
      var k := |jobs| - 1;
      var s, job := RunAll(lib, jobs[..k]).stores, jobs[k];
      AlertsAreAttempts(lib, jobs[..k], c, t);
      RunAllLast(lib, jobs);
      CallByParts(lib, s, job);
      if Publication(lib, s, job).Some? {
        PublishedId(lib, s, job);
        FilterAppend(s.alerts, Publication(lib, s, job).value, About(c, t));
      } else {
        assert s.alerts + [] == s.alerts;
      }
    }
  }

  /** Two attempts on one key that both publish, the first of them marking: the
      second looked only after that mark had run out. */
  lemma PublishedTwice(lib: Library, jobs: seq<Job>, p: nat, q: nat)
    requires InTime(jobs) && p < q < |jobs| && KeyOf(jobs[p].tx) == KeyOf(jobs[q].tx)
    requires Publication(lib, RunAll(lib, jobs[..p]).stores, jobs[p]).Some?
    requires Publication(lib, RunAll(lib, jobs[..q]).stores, jobs[q]).Some?
    ensures Works(jobs[p].at(MarkSite)) ==> LookedAt(jobs[q]) > MarkedUntil(jobs[p])
  {
    hide Process, RunAll, Publication;
    if Works(jobs[p].at(MarkSite)) {
      CallByParts(lib, RunAll(lib, jobs[..p]).stores, jobs[p]);
      PublishesDecides(lib, RunAll(lib, jobs[..p]).stores, jobs[p]);
      PublishesDecides(lib, RunAll(lib, jobs[..q]).stores, jobs[q]);
      OutcomeAt(lib, jobs, p, q);
      MarkHeld(lib, jobs[..q], p);
      if m :| p < m < q && LookedAt(jobs[..q][m]) > MarkedUntil(jobs[..q][p]) {
        assert LookedAt(jobs[m]) <= LookedAt(jobs[q]);
      }
    }
  }

  lemma PublishesDecides(lib: Library, s: Stores, job: Job)
    requires Publication(lib, s, job).Some?
    ensures Decides(lib, s, job) && !SeenAt(s.marks, KeyOf(job.tx), LookedAt(job))
  {
    hide EvaluationOf, Decide;
  }

  /** The outcome of job p does not depend on the jobs after it. */
  lemma OutcomeAt(lib: Library, jobs: seq<Job>, p: nat, q: nat)
    requires p < q <= |jobs|
    ensures RunAll(lib, jobs[..q]).outcomes[p] == Process(lib, RunAll(lib, jobs[..p]).stores, jobs[p]).outcome
  {
    hide Process;
    RunAllPrefix(lib, jobs[..q], p + 1);
    assert jobs[..q][..p + 1] == jobs[..p + 1] && jobs[..p + 1][..p] == jobs[..p];
    RunAllLast(lib, jobs[..p + 1]);
  }

  /** Attempt k is at this transaction and publishes. */
  predicate PublishesAt(lib: Library, jobs: seq<Job>, c: string, t: string, k: int) {
    0 <= k < |jobs| && PublishesFor(lib, c, t)(RunAll(lib, jobs[..k]).stores, jobs[k])
  }

  /** Within a day a transaction alerts at most once exactly when no attempt
      that published and failed at Mark is followed by another that publishes. */
  lemma AtMostOneAlertExactly(lib: Library, jobs: seq<Job>, c: string, t: string)
    requires InTime(jobs) && WithinADay(jobs, Join(c, ':', t))
    ensures AlertCount(RunAll(lib, jobs).stores, c, t) <= 1
       <==> forall p, q :: p < q && PublishesAt(lib, jobs, c, t, p) && !Works(jobs[p].at(MarkSite))
              ==> !PublishesAt(lib, jobs, c, t, q)
  {
    AlertsAreAttempts(lib, jobs, c, t);
    hide Publication, RunAll, AlertCount;
    if Tally(lib, jobs, PublishesFor(lib, c, t)) > 1 {
      var p, q := TwoOfThem(lib, jobs, PublishesFor(lib, c, t));
      PublishedTwice(lib, jobs, p, q);
      assert PublishesAt(lib, jobs, c, t, p) && PublishesAt(lib, jobs, c, t, q);
    }
    if p, q :| p < q && PublishesAt(lib, jobs, c, t, p) && PublishesAt(lib, jobs, c, t, q) {
      TallyTwo(lib, jobs, PublishesFor(lib, c, t), p, q);
    }
  }

  lemma {:induction false} TallyAny(lib: Library, jobs: seq<Job>, f: (Stores, Job) -> bool, p: nat)
    requires p < |jobs| && f(RunAll(lib, jobs[..p]).stores, jobs[p])
    ensures Tally(lib, jobs, f) >= 1
  {
    hide RunAll;
    var k := |jobs| - 1;
    if p < k {
      assert jobs[..k][..p] == jobs[..p];
      TallyAny(lib, jobs[..k], f, p);
    }
  }

  lemma {:induction false} TallyTwo(lib: Library, jobs: seq<Job>, f: (Stores, Job) -> bool, p: nat, q: nat)
    requires p < q < |jobs| && f(RunAll(lib, jobs[..p]).stores, jobs[p]) && f(RunAll(lib, jobs[..q]).stores, jobs[q])
    ensures Tally(lib, jobs, f) >= 2
  {
    hide RunAll;
    var k := |jobs| - 1;
    assert jobs[..k][..p] == jobs[..p];
    if q < k {
      assert jobs[..k][..q] == jobs[..q];
      TallyTwo(lib, jobs[..k], f, p, q);
    } else {
      TallyAny(lib, jobs[..k], f, p);
    }
  }

  // ---- the same from the observations of attempts that publish whenever they may ----

  /** Whatever is in the stores, the attempt publishes if it finds its key free. */
  ghost predicate Eager(lib: Library, job: Job) {
    forall s: Stores :: !SeenAt(s.marks, KeyOf(job.tx), LookedAt(job)) ==> Publication(lib, s, job).Some?
  }

  /** Attempts at other transactions leave a free key free. */
  lemma {:induction false} StaysFree(lib: Library, jobs: seq<Job>, p: nat, q: nat, key: string)
    requires p <= q <= |jobs| && key !in RunAll(lib, jobs[..p]).stores.marks
    requires forall k :: p <= k < q ==> KeyOf(jobs[k].tx) != key
    ensures key !in RunAll(lib, jobs[..q]).stores.marks
    decreases q
  {
    if p < q {
      hide Process, RunAll;
      StaysFree(lib, jobs, p, q - 1, key);
      assert jobs[..q][..q - 1] == jobs[..q - 1];
      RunAllLast(lib, jobs[..q]);
      OtherKeyKeeps(lib, RunAll(lib, jobs[..q - 1]).stores, jobs[q - 1], key);
    }
  }

  lemma FreeAtFirst(lib: Library, jobs: seq<Job>, p: nat, key: string)
    requires p <= |jobs| && forall k :: 0 <= k < p ==> KeyOf(jobs[k].tx) != key
    ensures key !in RunAll(lib, jobs[..p]).stores.marks
  {
    assert key !in RunAll(lib, jobs[..0]).stores.marks;
    hide RunAll;
    StaysFree(lib, jobs, 0, p, key);
  }

  /** The first attempt at the transaction from position p on. */
  lemma FirstFrom(jobs: seq<Job>, p: nat, q: nat, t: string) returns (r: nat)
    requires p <= q < |jobs| && jobs[q].tx.transactionId == t
    ensures p <= r <= q && jobs[r].tx.transactionId == t
    ensures forall k :: p <= k < r ==> jobs[k].tx.transactionId != t
    decreases q - p
  {
    if jobs[p].tx.transactionId == t {
      r := p;
    } else {
      r := FirstFrom(jobs, p + 1, q, t);
    }
  }

  /** An eager attempt that fails at Mark is followed by the alert of the next one. */
  lemma NextPublishes(lib: Library, jobs: seq<Job>, c: string, t: string, p: nat, q: nat)
    requires forall j :: j in jobs ==> j.tx.customerId == c
    requires p < q < |jobs| && jobs[q].tx.transactionId == t && Eager(lib, jobs[q])
    requires forall k :: p < k < q ==> jobs[k].tx.transactionId != t
    requires PublishesAt(lib, jobs, c, t, p) && !Works(jobs[p].at(MarkSite))
    ensures PublishesAt(lib, jobs, c, t, q)
  {
    var s, key := RunAll(lib, jobs[..p]).stores, Join(c, ':', t);
    PublishesDecides(lib, s, jobs[p]);
    CallByParts(lib, s, jobs[p]);
    hide Process, RunAll, Publication;
    FailureUnmarks(lib, s, jobs[p]);
    assert jobs[..p + 1][..p] == jobs[..p];
    RunAllLast(lib, jobs[..p + 1]);
    forall k | p < k < q ensures KeyOf(jobs[k].tx) != key {
      OtherTransaction(jobs, c, t, k);
    }
    StaysFree(lib, jobs, p + 1, q, key);
    assert jobs[q] in jobs;
  }

  lemma OtherTransaction(jobs: seq<Job>, c: string, t: string, k: nat)
    requires k < |jobs| && (forall j :: j in jobs ==> j.tx.customerId == c) && jobs[k].tx.transactionId != t
    ensures KeyOf(jobs[k].tx) != Join(c, ':', t)
  {
    assert jobs[k] in jobs;
    if KeyOf(jobs[k].tx) == Join(c, ':', t) {
      JoinSameHead(c, jobs[k].tx.transactionId, t, ':');
    }
  }

  /** Of one customer's attempts within a day, those at the transaction publishing
      whenever they find their key free: there is at most one alert exactly when
      the first of them marks, or is the only one. */
  lemma OneAlertByFirst(lib: Library, jobs: seq<Job>, c: string, t: string, p: nat)
    requires InTime(jobs) && WithinADay(jobs, Join(c, ':', t))
    requires forall j :: j in jobs ==> j.tx.customerId == c && (j.tx.transactionId == t ==> Eager(lib, j))
    requires p < |jobs| && jobs[p].tx.transactionId == t && forall k :: 0 <= k < p ==> jobs[k].tx.transactionId != t
    ensures AlertCount(RunAll(lib, jobs).stores, c, t) <= 1
       <==> Works(jobs[p].at(MarkSite)) || forall k :: p < k < |jobs| ==> jobs[k].tx.transactionId != t
  {
    AtMostOneAlertExactly(lib, jobs, c, t);
    FirstPublishes(lib, jobs, c, t, p);
    hide Publication, RunAll, AlertCount, WithinADay, InTime, Eager;
    if !Works(jobs[p].at(MarkSite)) {
      if k :| p < k < |jobs| && jobs[k].tx.transactionId == t {
        var q := FirstFrom(jobs, p + 1, k, t);
        assert jobs[q] in jobs;
        NextPublishes(lib, jobs, c, t, p, q);
      }
    }
    if Works(jobs[p].at(MarkSite)) || forall k :: p < k < |jobs| ==> jobs[k].tx.transactionId != t {
      forall i, j | i < j && PublishesAt(lib, jobs, c, t, i) && !Works(jobs[i].at(MarkSite))
        ensures !PublishesAt(lib, jobs, c, t, j)
      {
        OnlyFirstPublishes(lib, jobs, c, t, p, i, j);
      }
    }
  }

  lemma FirstPublishes(lib: Library, jobs: seq<Job>, c: string, t: string, p: nat)
    requires forall j :: j in jobs ==> j.tx.customerId == c
    requires p < |jobs| && jobs[p].tx.transactionId == t && Eager(lib, jobs[p])
    requires forall k :: 0 <= k < p ==> jobs[k].tx.transactionId != t
    ensures PublishesAt(lib, jobs, c, t, p)
  {
    assert jobs[p] in jobs;
    forall k | 0 <= k < p ensures KeyOf(jobs[k].tx) != Join(c, ':', t) {
      OtherTransaction(jobs, c, t, k);
    }
    hide Publication, RunAll;
    FreeAtFirst(lib, jobs, p, Join(c, ':', t));
  }

  lemma OnlyFirstPublishes(lib: Library, jobs: seq<Job>, c: string, t: string, p: nat, i: int, j: int)
    requires InTime(jobs) && WithinADay(jobs, Join(c, ':', t))
    requires PublishesAt(lib, jobs, c, t, p) && forall k :: 0 <= k < p ==> jobs[k].tx.transactionId != t
    requires Works(jobs[p].at(MarkSite)) || forall k :: p < k < |jobs| ==> jobs[k].tx.transactionId != t
    requires i < j && PublishesAt(lib, jobs, c, t, i) && !Works(jobs[i].at(MarkSite))
    ensures !PublishesAt(lib, jobs, c, t, j)
  {
    hide Publication, RunAll;
    if PublishesAt(lib, jobs, c, t, j) {
      if p < i {
        PublishedTwice(lib, jobs, p, i);
      }
    }
  }

  lemma {:induction false} OneOfThem(lib: Library, jobs: seq<Job>, f: (Stores, Job) -> bool) returns (p: nat)
    requires Tally(lib, jobs, f) > 0
    ensures p < |jobs| && f(RunAll(lib, jobs[..p]).stores, jobs[p])
  {
    hide RunAll;
    p := |jobs| - 1;
    if !f(RunAll(lib, jobs[..p]).stores, jobs[p]) {
      var init := jobs[..p];
      p := OneOfThem(lib, init, f);
      assert init[..p] == jobs[..p];
    }
  }

  lemma {:induction false} TwoOfThem(lib: Library, jobs: seq<Job>, f: (Stores, Job) -> bool) returns (p: nat, q: nat)
    requires Tally(lib, jobs, f) > 1
    ensures p < q < |jobs| && f(RunAll(lib, jobs[..p]).stores, jobs[p]) && f(RunAll(lib, jobs[..q]).stores, jobs[q])
  {
    hide RunAll;
    q := |jobs| - 1;
    var init := jobs[..q];
    if f(RunAll(lib, init).stores, jobs[q]) {
      p := OneOfThem(lib, init, f);
    } else {
      p, q := TwoOfThem(lib, init, f);
    }
    assert init[..p] == jobs[..p] && (q < |init| ==> init[..q] == jobs[..q]);
  }

  // ---- retries ----

  /** After an attempt that recorded and failed, a retry that gets through Record
      with the window up records again. */
  lemma RetryRecordsAgain(lib: Library, s: Stores, a: Job, b: Job)
    requires a.tx == b.tx && Appends(s, a) && !Process(lib, s, a).outcome.Fresh()
    requires Works(b.at(SeenSite)) && Works(b.at(RecordSite)) && Up(b)
    ensures var t, key, c := Process(lib, s, a).stores, KeyOf(a.tx), a.tx.customerId;
            && Appends(t, b)
            && LogCount(Process(lib, t, b).stores, c, key) == LogCount(s, c, key) + 2
  {
    FailureUnmarks(lib, s, a);
    LogCountStep(lib, s, a, KeyOf(a.tx));
    LogCountStep(lib, Process(lib, s, a).stores, b, KeyOf(a.tx));
    hide Process;
  }

  /** One enabled rule that hits, is critica and needs no layer; nothing goes
      wrong up to the decision. */
  predicate Hitting(lib: Library, job: Job) {
    && Validate(job.tx).None?
    && Fine(job.at(SeenSite)) && Fine(job.at(RecordSite)) && Fine(job.at(ConfigSite)) && Fine(job.at(RiskSite))
    && Fine(job.at(LinkSite(0)))
    && RulesFor(job).profile.scoreMinimoAlerta <= 1.0
    && |RulesFor(job).rules| == 1 && LoudRule(lib, job.tx, RulesFor(job), RiskFor(job.at(RiskSite), RulesFor(job)))
  }

  /** Such a call whose rule declares no window. */
  predicate Loud(lib: Library, job: Job) {
    Hitting(lib, job) && RulesFor(job).rules[0].window == None
  }

  predicate LoudRule(lib: Library, tx: Transaction, rules: RuleSet, risk: RiskProfile)
    requires |rules.rules| == 1
  {
    var r := rules.rules[0];
    && r.enabled && r.requires_ == [] && r.emits.severity == Critica
    && lib.compile(r.condition).Some?
    && lib.run(lib.compile(r.condition).value, EnvOf(r, tx, risk, None)) == Matched
  }

  lemma LoudHits(lib: Library, s: Stores, job: Job)
    requires Hitting(lib, job)
    ensures EvaluationOf(lib, s, job) == Completed(RulesFor(job).rules, false)
  {
    var rules := RulesFor(job);
    var e := Begin(true, rules, RiskFor(job.at(RiskSite), rules));
    var window := WindowOf(Entered(s, job), job.tx.customerId);
    assert rules.rules == [rules.rules[0]] && [] + [rules.rules[0]] == [rules.rules[0]];
    assert StepOf(lib, e, job.tx, window, job.at) == Hit;
    assert Loop(lib, e.Next(Hit), job.tx, window, job.at) == Completed(rules.rules, false);
  }

  lemma OneCritica(r: RuleDef)
    requires r.emits.severity == Critica
    ensures ScoreOf(Severities([r])) == 1.0
  {
    assert [r][..0] == [] && Severities([r]) == [Critica] && [Critica][..0] == [];
  }

  lemma DecidesByWidth(lib: Library, tx: Transaction, rules: RuleSet, up: bool, hits: seq<RuleDef>, degraded: bool,
                       r: RuleDef)
    requires hits != [] && ScoreOf(Severities(hits)) >= rules.profile.scoreMinimoAlerta
    requires Pick(Refs(hits), ById(rules.rules)) == Some(r)
    ensures var d := Decide(lib, tx, rules, up, hits, degraded);
            if BucketSeconds(Some(r)) == 0 then d.Blowup? else d.Raise?
  {
    hide ScoreOf, Severities, Pick, ById, Refs, Categories, RunningSeverity, BucketSeconds, Preimage, Bucket;
  }

  /** One critica hit is decided on by the width of its bucket alone. */
  lemma LoudDecides(lib: Library, tx: Transaction, rules: RuleSet, degraded: bool)
    requires |rules.rules| == 1 && rules.rules[0].emits.severity == Critica && rules.profile.scoreMinimoAlerta <= 1.0
    ensures var d := Decide(lib, tx, rules, true, rules.rules, degraded);
            if BucketSeconds(Some(rules.rules[0])) == 0 then d.Blowup? else d.Raise?
  {
    hide *;
    var r := rules.rules[0];
    assert rules.rules == [r];
    OneCritica(r);
    CriticaPicked(r);
    DecidesByWidth(lib, tx, rules, true, [r], degraded, r);
  }

  lemma CriticaPicked(r: RuleDef)
    requires r.emits.severity == Critica
    ensures Pick(Refs([r]), ById([r])) == Some(r)
  {
    UniqueIdsResolve([r], [r]);
    PicksOnly(r, ById([r]));
  }

  lemma LoudRaises(lib: Library, tx: Transaction, rules: RuleSet, degraded: bool)
    requires |rules.rules| == 1 && rules.rules[0].emits.severity == Critica && rules.rules[0].window == None
    requires rules.profile.scoreMinimoAlerta <= 1.0
    ensures Decide(lib, tx, rules, true, rules.rules, degraded).Raise?
  {
    hide Decide;
    LoudDecides(lib, tx, rules, degraded);
  }

  /** A call that hits one critica rule with a window of any positive span: it
      panics at the bucket exactly when the span wraps to less than a second. */
  lemma WideSpanPanics(lib: Library, s: Stores, job: Job)
    requires Hitting(lib, job) && !SeenAt(s.marks, KeyOf(job.tx), LookedAt(job))
    requires RulesFor(job).rules[0].window.Some? && RulesFor(job).rules[0].window.value.spanSeconds > 0
    ensures Process(lib, s, job).outcome == Panicked(ZeroDivision)
       <==> 0 < SpanNanos(RulesFor(job).rules[0].window.value) < SECOND
  {
    LoudHits(lib, s, job);
    LoudDecides(lib, job.tx, RulesFor(job), false);
    ZeroWidth(RulesFor(job).rules[0]);
    assert Proceeds(s, job);
    ConfigByParts(lib, s, job);
    LoopIsEvaluation(lib, s, job);
    hide Process, EvaluationOf, Decide, BucketSeconds, FromConfig, SpanNanos;
  }

  /** A loud call records and publishes, and then succeeds exactly if Mark works. */
  lemma LoudCall(lib: Library, s: Stores, job: Job)
    requires Loud(lib, job) && !SeenAt(s.marks, KeyOf(job.tx), LookedAt(job))
    ensures Appends(s, job)
    ensures Publication(lib, s, job).Some? <==> Works(job.at(PublishSite))
    ensures Process(lib, s, job).outcome.Fresh() <==> Works(job.at(PublishSite)) && Works(job.at(MarkSite))
  {
    LoudHits(lib, s, job);
    LoudRaises(lib, job.tx, RulesFor(job), false);
    CallByParts(lib, s, job);
    hide Process, EvaluationOf, Decide;
  }

  /** Loud calls with a working sink are attempts that publish whenever they may. */
  lemma LoudIsEager(lib: Library, job: Job)
    requires Loud(lib, job) && Works(job.at(PublishSite))
    ensures Eager(lib, job)
  {
    forall s: Stores | !SeenAt(s.marks, KeyOf(job.tx), LookedAt(job)) ensures Publication(lib, s, job).Some? {
      LoudCall(lib, s, job);
    }
  }

  lemma RunTwo(lib: Library, a: Job, b: Job)
    ensures var first := Process(lib, EMPTY_STORES, a);
            var second := Process(lib, first.stores, b);
            && RunAll(lib, [a, b]) == Ran(second.stores, [first.outcome, second.outcome])
            && RunAll(lib, [a]).stores == first.stores && RunAll(lib, []).stores == EMPTY_STORES
  {
    hide Process;
    assert [a, b][..1] == [a] && [a][..0] == [];
    assert RunAll(lib, []) == Ran(EMPTY_STORES, []);
    RunAllLast(lib, [a]);
    RunAllLast(lib, [a, b]);
  }

  /** The run that shows it: an attempt fails at Publish or at Mark, and the
      retry succeeds. There is one fresh verdict and there are two entries; after
      a failure at Mark there are also two alerts, and otherwise one. */
  lemma RetryRun(lib: Library, a: Job, b: Job)
    requires a.tx == b.tx && Loud(lib, a) && Loud(lib, b)
    requires !Works(a.at(PublishSite)) || !Works(a.at(MarkSite))
    requires Works(b.at(PublishSite)) && Works(b.at(MarkSite))
    ensures var r, c, t, key := RunAll(lib, [a, b]), a.tx.customerId, a.tx.transactionId, KeyOf(a.tx);
            && FreshCount([a, b], r.outcomes, key) == 1 && r.outcomes[1].Fresh() && !r.outcomes[0].Verdict?
            && LogCount(r.stores, c, key) == 2
            && AlertCount(r.stores, c, t) == (if Works(a.at(PublishSite)) then 2 else 1)
  {
    var first := Process(lib, EMPTY_STORES, a);
    LoudCall(lib, EMPTY_STORES, a);
    RecordedVerdict(lib, EMPTY_STORES, a);
    RetryRecordsAgain(lib, EMPTY_STORES, a, b);
    NotSeenAgain(lib, EMPTY_STORES, a, b);
    LoudCall(lib, first.stores, b);
    RunTwo(lib, a, b);
    hide Process, RunAll, Loud, Publication, Appends, FreshCount, LogCount, AlertCount;
    TwoVerdicts(a, b, RunAll(lib, [a, b]).outcomes, KeyOf(a.tx));
    TwoPublications(lib, a, b);
    assert LogCount(EMPTY_STORES, a.tx.customerId, KeyOf(a.tx)) == 0 by { NothingLogged(a.tx.customerId, KeyOf(a.tx)); }
  }

  lemma NotSeenAgain(lib: Library, s: Stores, a: Job, b: Job)
    requires a.tx == b.tx && Appends(s, a) && !Process(lib, s, a).outcome.Fresh()
    ensures !SeenAt(Process(lib, s, a).stores.marks, KeyOf(b.tx), LookedAt(b))
  {
    FailureUnmarks(lib, s, a);
    hide Process;
  }

  lemma NothingLogged(c: string, key: string)
    ensures LogCount(EMPTY_STORES, c, key) == 0
  {
  }

  /** The alerts of two attempts at one transaction. */
  lemma TwoPublications(lib: Library, a: Job, b: Job)
    requires a.tx == b.tx
    ensures var s := Process(lib, EMPTY_STORES, a).stores;
            AlertCount(RunAll(lib, [a, b]).stores, a.tx.customerId, a.tx.transactionId)
              == (if Publication(lib, EMPTY_STORES, a).Some? then 1 else 0)
                 + (if Publication(lib, s, b).Some? then 1 else 0)
  {
    hide Process, Publication, RunAll, Tally;
    var f := PublishesFor(lib, a.tx.customerId, a.tx.transactionId);
    RunTwo(lib, a, b);
    AlertsAreAttempts(lib, [a, b], a.tx.customerId, a.tx.transactionId);
    assert [a, b][..1] == [a] && [a][..0] == [];
    TallyLast(lib, [a, b], f);
    TallyLast(lib, [a], f);
    assert Tally(lib, [], f) == 0 by { TallyNone(lib, [], f); }
  }

  lemma TwoVerdicts(a: Job, b: Job, outcomes: seq<Outcome>, key: string)
    requires |outcomes| == 2 && KeyOf(a.tx) == KeyOf(b.tx) == key
    ensures FreshCount([a, b], outcomes, key)
         == (if outcomes[0].Fresh() then 1 else 0) + (if outcomes[1].Fresh() then 1 else 0)
  {
    assert [a, b][..1] == [a] && [a][..0] == [] && outcomes[..1] == [outcomes[0]];
    assert FreshCount([a], [outcomes[0]], key) == (if outcomes[0].Fresh() then 1 else 0);
  }
}
