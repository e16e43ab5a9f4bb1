/** What a Process call's verdict says about the evaluation behind it
    (internal/pipeline/processor.go): when a call succeeds, when it alerts, and
    what the id of its alert identifies. */
module Verdicts {
  import opened Sequences
  import opened Domain
  import opened Scoring
  import opened RuleEvaluation
  import opened AlertId
  import opened Config
  import opened Processing
  import opened Guarantees
  import opened I = IdempotencyStore

  // ---- safe rule sets ----

  /** Spans short enough not to wrap. */
  ghost predicate ShortSpans(rules: seq<RuleDef>) {
    forall r :: r in rules && r.window.Some? ==> r.window.value.spanSeconds <= 9_223_372_036
  }

  ghost predicate SafeSet(lib: Library, rs: RuleSet) {
    ValidSet(lib, rs) && ShortSpans(rs.rules)
  }

  lemma {:induction false} PickFromTable(refs: seq<RuleRef>, rules: seq<RuleDef>)
    ensures Pick(refs, ById(rules)).Some? ==> Pick(refs, ById(rules)).value in rules
  {
    if refs != [] {
      PickFromTable(refs[..|refs| - 1], rules);
      var id := refs[|refs| - 1].ruleId;
      if id in ById(rules) {
        TableFromRules(rules, id);
      }
    }
  }

  lemma {:induction false} TableFromRules(rules: seq<RuleDef>, id: string)
    requires id in ById(rules)
    ensures ById(rules)[id] in rules
  {
    var k := |rules| - 1;
    if rules[k].ruleId != id {
      TableFromRules(rules[..k], id);
    }
    assert forall r :: r in rules[..k] ==> r in rules;
  }

  /** With a validated rule set at the default threshold, an alert is raised
      exactly when some hit is alta or critica, or all of at least one are media. */
  lemma DefaultThresholdAlerts(lib: Library, tx: Transaction, rules: RuleSet, up: bool, hits: seq<RuleDef>,
                               degraded: bool)
    requires SafeSet(lib, rules) && rules.profile.scoreMinimoAlerta == 0.5
    requires forall h :: h in hits ==> h in rules.rules
    ensures Decide(lib, tx, rules, up, hits, degraded).Raise? <==>
              (exists h :: h in hits && h.emits.severity.Rank() >= 3) ||
              (hits != [] && forall h :: h in hits ==> h.emits.severity.Media?)
  {
    forall h | h in hits ensures h.emits.severity.Valid() {
      assert ValidRule(lib, h);
    }
    hide SafeSet, Decide;
    DefaultThresholdDecides(lib, tx, rules, up, hits, degraded);
    NoBlowup(lib, tx, rules, up, hits, degraded);
  }

  lemma NoBlowup(lib: Library, tx: Transaction, rules: RuleSet, up: bool, hits: seq<RuleDef>, degraded: bool)
    requires SafeSet(lib, rules)
    ensures !Decide(lib, tx, rules, up, hits, degraded).Blowup?
  {
    hide Pick, ById;
    var pick := Pick(Refs(hits), ById(rules.rules));
    PickFromTable(Refs(hits), rules.rules);
    if pick.Some? && pick.value.window.Some? {
      assert ValidRule(lib, pick.value);
      WidthAsDeclared(pick.value);
    }
  }

  // ---- the parts of a call ----

  predicate Works(o: Observation) { !o.panics && !o.fault }

  /** The call finds its key free and gets through Record, with the window up or down. */
  predicate Proceeds(s: Stores, job: Job) {
    && Validate(job.tx).None?
    && Works(job.at(SeenSite)) && !SeenAt(s.marks, KeyOf(job.tx), job.at(SeenSite).now)
    && Works(job.at(RecordSite))
  }

  predicate Up(job: Job) { !job.at(RecordSite).down }

  /** The stores as the evaluation finds them. */
  function Entered(s: Stores, job: Job): Stores {
    var looked := WithSeen(s, job.tx, job.at(SeenSite));
    if Up(job) then WithRecord(looked, job.tx, job.at(RecordSite)) else looked
  }

  function RulesFor(job: Job): RuleSet { job.at(ConfigSite).rules }

  function EvaluationOf(lib: Library, s: Stores, job: Job): Evaluation {
    Evaluate(lib, RulesFor(job), job.tx, RiskFor(job.at(RiskSite), RulesFor(job)), Up(job),
             WindowOf(Entered(s, job), job.tx.customerId), job.at)
  }

  function DecisionOf(lib: Library, s: Stores, job: Job): Decision
    requires EvaluationOf(lib, s, job).Completed?
  {
    var e := EvaluationOf(lib, s, job);
    Decide(lib, job.tx, RulesFor(job), Up(job), e.hits, e.degraded)
  }

  /** The call gets as far as deciding. */
  predicate Decides(lib: Library, s: Stores, job: Job) {
    && Proceeds(s, job)
    && !job.at(ConfigSite).panics && !job.at(RiskSite).panics
    && EvaluationOf(lib, s, job).Completed?
    && !DecisionOf(lib, s, job).Blowup?
  }

  /** The alert that the call publishes, if it publishes one. */
  function Publication(lib: Library, s: Stores, job: Job): Option<Alert> {
    if Decides(lib, s, job) && DecisionOf(lib, s, job).Raise? && Works(job.at(PublishSite))
    then Some(DecisionOf(lib, s, job).alert)
    else None
  }

  /** A call succeeds exactly when it decides, publishes what it decided on, and
      marks; it publishes whether or not it then succeeds. */
  lemma CallByParts(lib: Library, s: Stores, job: Job)
    ensures var r := Process(lib, s, job);
            && r.stores.alerts == s.alerts + ToSeq(Publication(lib, s, job))
            && (r.outcome.Fresh() <==>
                  && Decides(lib, s, job)
                  && (DecisionOf(lib, s, job).Raise? ==> Publication(lib, s, job).Some?)
                  && Works(job.at(MarkSite)))
            && (r.outcome.Fresh() ==>
                  && r.outcome.alert == Publication(lib, s, job)
                  && r.outcome.partial == Partial(Up(job), EvaluationOf(lib, s, job).degraded))
  {
    hide Loop, Decide, AfterSeen, SeenAt;
    if Proceeds(s, job) {
      ConfigByParts(lib, s, job);
    } else {
      StopsEarly(lib, s, job);
    }
  }

  lemma StopsEarly(lib: Library, s: Stores, job: Job)
    requires !Proceeds(s, job)
    ensures !Process(lib, s, job).outcome.Fresh() && Process(lib, s, job).stores.alerts == s.alerts
  {
    hide FromConfig;
  }

  lemma DecisionByParts(lib: Library, s: Stores, job: Job, rules: RuleSet, up: bool, hits: seq<RuleDef>, degraded: bool)
    ensures var r := FromDecision(lib, s, job, rules, up, hits, degraded);
            var d := Decide(lib, job.tx, rules, up, hits, degraded);
            var published := if d.Raise? && Works(job.at(PublishSite)) then Some(d.alert) else None;
            && r.stores.alerts == s.alerts + ToSeq(published)
            && (r.outcome.Fresh() <==> !d.Blowup? && (d.Raise? ==> published.Some?) && Works(job.at(MarkSite)))
            && (r.outcome.Fresh() ==> r.outcome.alert == published && r.outcome.partial == Partial(up, degraded))
  {
    hide Decide, Founded, AfterMark;
    assert s.alerts + [] == s.alerts;
  }

  lemma ConfigByParts(lib: Library, s: Stores, job: Job)
    requires Proceeds(s, job)
    ensures Process(lib, s, job) == FromConfig(lib, Entered(s, job), job, Up(job))
    ensures var r := FromConfig(lib, Entered(s, job), job, Up(job));
            && r.stores.alerts == s.alerts + ToSeq(Publication(lib, s, job))
            && (r.outcome.Fresh() <==>
                  && Decides(lib, s, job)
                  && (DecisionOf(lib, s, job).Raise? ==> Publication(lib, s, job).Some?)
                  && Works(job.at(MarkSite)))
            && (r.outcome.Fresh() ==>
                  && r.outcome.alert == Publication(lib, s, job)
                  && r.outcome.partial == Partial(Up(job), EvaluationOf(lib, s, job).degraded))
  {
    hide Evaluate, Decide, Founded, SeenAt, FromDecision;
    var t, e := Entered(s, job), EvaluationOf(lib, s, job);
    assert s.alerts + [] == s.alerts && t.alerts == s.alerts;
    if !job.at(ConfigSite).panics && !job.at(RiskSite).panics {
      LoopIsEvaluation(lib, s, job);
      if e.Completed? {
        DecisionByParts(lib, t, job, RulesFor(job), Up(job), e.hits, e.degraded);
      }
    }
  }

  lemma LoopIsEvaluation(lib: Library, s: Stores, job: Job)
    requires !job.at(ConfigSite).panics && !job.at(RiskSite).panics
    ensures var t, e := Entered(s, job), EvaluationOf(lib, s, job);
            FromConfig(lib, t, job, Up(job)) ==
              match e
              case Aborted(outcome) => End(t, outcome)
              case Completed(hits, degraded) => FromDecision(lib, t, job, RulesFor(job), Up(job), hits, degraded)
    ensures EvaluationOf(lib, s, job).Aborted? ==> !EvaluationOf(lib, s, job).outcome.Verdict?
  {
    hide Loop, FromDecision, Entered;
  }

  /** Hits are rules of the active set. */
  lemma HitsOfTheSet(lib: Library, s: Stores, job: Job)
    requires EvaluationOf(lib, s, job).Completed?
    ensures forall h :: h in EvaluationOf(lib, s, job).hits ==> h in RulesFor(job).rules && h.enabled
  {
    HitsAreRules(lib, Begin(Up(job), RulesFor(job), RiskFor(job.at(RiskSite), RulesFor(job))), job.tx,
                 WindowOf(Entered(s, job), job.tx.customerId), job.at);
  }

  /** Some hit is alta or critica, or all of at least one are media. */
  ghost predicate Alarming(hits: seq<RuleDef>) {
    || (exists h :: h in hits && h.emits.severity.Rank() >= 3)
    || (hits != [] && forall h :: h in hits ==> h.emits.severity.Media?)
  }

  /** With a validated rule set at the default threshold, a fresh verdict
      carries an alert exactly when some hit is alta or critica, or all of at
      least one are media. */
  lemma DefaultThresholdVerdict(lib: Library, s: Stores, job: Job)
    requires SafeSet(lib, RulesFor(job)) && RulesFor(job).profile.scoreMinimoAlerta == 0.5
    requires Process(lib, s, job).outcome.Fresh()
    ensures EvaluationOf(lib, s, job).Completed?
    ensures Process(lib, s, job).outcome.alert.Some? <==> Alarming(EvaluationOf(lib, s, job).hits)
  {
    hide Process, EvaluationOf, Decide, SafeSet;
    CallByParts(lib, s, job);
    HitsOfTheSet(lib, s, job);
    var e := EvaluationOf(lib, s, job);
    DefaultThresholdAlerts(lib, job.tx, RulesFor(job), Up(job), e.hits, e.degraded);
  }

  // ---- alert ids ----

  ghost predicate HashInjective(lib: Library) {
    forall x, y :: lib.sha256(x) == lib.sha256(y) ==> x == y
  }

  function WidthOf(a: Alert, rules: RuleSet): nat {
    BucketSeconds(Pick(a.triggered, ById(rules.rules)))
  }

  /** The bucket that the id of an alert of this job was computed from. */
  function BucketOf(job: Job, a: Alert): int {
    if WidthOf(a, RulesFor(job)) == 0 then 0 else Bucket(job.tx.capturedAt.sec, WidthOf(a, RulesFor(job)))
  }

  lemma BucketInFormat(sec: int, width: nat)
    requires width > 0 && InFormat(sec)
    ensures InFormat(Bucket(sec, width))
  {
    hide Bucket;
    BucketBounds(sec, width);
  }

  lemma PublishedId(lib: Library, s: Stores, job: Job)
    requires Publication(lib, s, job).Some?
    ensures var a := Publication(lib, s, job).value;
            && a.customerId == job.tx.customerId && a.transactionId == job.tx.transactionId
            && WidthOf(a, RulesFor(job)) > 0
            && a.alertId == lib.sha256(Preimage(lib, job.tx.customerId, job.tx.transactionId, BucketOf(job, a)))
  {
    hide EvaluationOf, Bucket, Preimage, Pick, ById, ScoreOf, BucketSeconds;
  }

  /** Published alerts of customers that the bar keeps apart, captured in the
      years 0 to 9999, share their id exactly when they are about the same
      customer, transaction and bucket, given that the hash is injective. */
  lemma AlertIdsIdentify(lib: Library, s: Stores, a: Job, t: Stores, b: Job)
    requires StampSeparates(lib) && HashInjective(lib)
    requires InFormat(a.tx.capturedAt.sec) && InFormat(b.tx.capturedAt.sec)
    requires a.tx.customerId == b.tx.customerId || Separate(a.tx.customerId, b.tx.customerId, '|')
    requires Publication(lib, s, a).Some? && Publication(lib, t, b).Some?
    ensures var x, y := Publication(lib, s, a).value, Publication(lib, t, b).value;
            x.alertId == y.alertId <==>
              a.tx.customerId == b.tx.customerId && a.tx.transactionId == b.tx.transactionId
              && BucketOf(a, x) == BucketOf(b, y)
  {
    hide Publication, Preimage, Bucket, WidthOf, StampSeparates, Separate, InFormat;
    var x, y := Publication(lib, s, a).value, Publication(lib, t, b).value;
    PublishedId(lib, s, a);
    PublishedId(lib, t, b);
    BucketInFormat(a.tx.capturedAt.sec, WidthOf(x, RulesFor(a)));
    BucketInFormat(b.tx.capturedAt.sec, WidthOf(y, RulesFor(b)));
    PreimageInjective(lib, a.tx.customerId, a.tx.transactionId, BucketOf(a, x),
                      b.tx.customerId, b.tx.transactionId, BucketOf(b, y));
  }
}
