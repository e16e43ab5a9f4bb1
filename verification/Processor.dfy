/** The detection core as the object the workers share (internal/pipeline/processor.go):
    one call of Process, statement by statement, against its specification in
    module Processing. What other goroutines may have changed before an action
    comes with that action's observation. */
module Processor {
  import opened Sequences
  import opened Domain
  import opened Scoring
  import opened RuleEvaluation
  import opened AlertId
  import opened ProgramCache
  import P = Processing
  import I = IdempotencyStore
  import W = WindowStore
  import S = AlertSink
  import E = Evaluator

  /** The alert id, by the loops of ruleForHighestSeverity; None where the division panics. */
  method ComputeAlertId(lib: Library, tx: Transaction, refs: seq<RuleRef>, rules: seq<RuleDef>)
    returns (id: Option<string>)
    ensures id == AlertIdOf(lib, tx, Pick(refs, ById(rules)))
  {
    var pick := RuleForHighestSeverity(refs, rules);
    var span := DEFAULT_BUCKET_SPAN;
    if pick.Some? && pick.value.window.Some? {
      span := SpanNanos(pick.value.window.value);
    }
    if span <= 0 {
      span := DEFAULT_BUCKET_SPAN;
    }
    var width := span / SECOND;
    if width == 0 {
      return None;
    }
    return Some(lib.sha256(Preimage(lib, tx.customerId, tx.transactionId, Bucket(tx.capturedAt.sec, width))));
  }

  /** Whether the result of an evaluation alerts, and with what. */
  method DecideOn(lib: Library, tx: Transaction, rules: RuleSet, up: bool, r: E.EvalResult, ghost e: Evaluation)
    returns (decision: P.Decision)
    requires e.Completed? && E.Reports(r, e)
    ensures decision == P.Decide(lib, tx, rules, up, e.hits, e.degraded)
  {
    hide ScoreOf, Categories, RunningSeverity, Severities, AlertIdOf, Pick, ById;
    if r.score < rules.profile.scoreMinimoAlerta || |r.refs| == 0 {
      return P.Quiet;
    }
    var id := ComputeAlertId(lib, tx, r.refs, rules.rules);
    if id.None? {
      return P.Blowup;
    }
    var categories := set c | c in r.categories;
    assert categories == Categories(e.hits);
    return P.Raise(Alert(id.value, tx.customerId, tx.transactionId, r.severity, categories, r.score, r.refs,
                         !up || r.windowDegraded));
  }

  lemma SameDegraded(r: E.EvalResult, e: Evaluation)
    requires e.Completed? && E.Reports(r, e)
    ensures r.Evaluated? && r.windowDegraded == e.degraded
  {
  }

  lemma EvaluationPanics(lib: Library, s: P.Stores, job: Job, up: bool)
    requires job.at(ConfigSite).panics || job.at(RiskSite).panics
    ensures P.FromConfig(lib, s, job, up) == P.End(s, Panicked(InAction))
  {
  }

  /** How the call goes on from the evaluation's result. */
  lemma EvaluationEnds(lib: Library, s: P.Stores, job: Job, up: bool, r: E.EvalResult, e: Evaluation)
    requires !job.at(ConfigSite).panics && !job.at(RiskSite).panics && E.Reports(r, e)
    requires var rules := job.at(ConfigSite).rules;
             e == RuleEvaluation.Evaluate(lib, rules, job.tx, P.RiskFor(job.at(RiskSite), rules), up,
                                          P.WindowOf(s, job.tx.customerId), job.at)
    ensures r.Aborts? <==> e.Aborted?
    ensures r.Aborts? ==> P.FromConfig(lib, s, job, up) == P.End(s, r.outcome)
    ensures e.Completed? ==>
              P.FromConfig(lib, s, job, up)
              == P.FromDecision(lib, s, job, job.at(ConfigSite).rules, up, e.hits, e.degraded)
  {
    hide P.FromDecision, Loop;
  }

  class Processor {
    const idempotency: I.Store
    const window: W.Store
    const sink: S.Sink
    const evaluator: E.Evaluator

    ghost predicate Valid()
      reads window`byCust, window.Bufs()
    {
      window.Valid() && evaluator.store == window
    }

    /** The objects hold what the value s says. */
    ghost predicate Holds(s: P.Stores)
      requires Valid()
      reads idempotency, window`byCust, window.Bufs(), sink
    {
      && idempotency.entries == s.marks
      && sink.alerts == s.alerts
      && (forall c :: window.Window(c) == P.WindowOf(s, c))
    }

    constructor (idempotency: I.Store, window: W.Store, sink: S.Sink, evaluator: E.Evaluator)
      requires window.Valid() && evaluator.store == window
      ensures Valid()
      ensures this.idempotency == idempotency && this.window == window && this.sink == sink
          && this.evaluator == evaluator
    {
      this.idempotency, this.window, this.sink, this.evaluator := idempotency, window, sink, evaluator;
    }

    method MarkKey(job: Job, alert: Option<Alert>, partial: bool, ghost s: P.Stores) returns (outcome: Outcome)
      requires Valid() && Holds(s)
      modifies idempotency
      ensures Holds(P.FromMark(s, job, alert, partial).stores)
      ensures outcome == P.FromMark(s, job, alert, partial).outcome
    {
      var o := job.at(MarkSite);
      if o.panics { return Panicked(InAction); }
      if o.fault { return Failed(MarkFailed); }
      idempotency.Mark(KeyOf(job.tx), P.IDEMPOTENCY_TTL, o.now);
      assert forall c :: window.Window(c) == old(window.Window(c));
      return Verdict(false, alert, partial);
    }

    /** Publishes the alert, if there is one, and marks the key last. */
    method Conclude(lib: Library, job: Job, rules: RuleSet, up: bool, r: E.EvalResult,
                    ghost e: Evaluation, ghost s: P.Stores) returns (outcome: Outcome)
      requires Valid() && Holds(s)
      requires e.Completed? && E.Reports(r, e)
      modifies idempotency, sink
      ensures Holds(P.FromDecision(lib, s, job, rules, up, e.hits, e.degraded).stores)
      ensures outcome == P.FromDecision(lib, s, job, rules, up, e.hits, e.degraded).outcome
    {
      hide P.FromMark, P.Commits, P.WithMark, P.Decide, P.Founded, E.Reports;
      var decision := DecideOn(lib, job.tx, rules, up, r, e);
      SameDegraded(r, e);
      var partial := !up || r.windowDegraded;
      match decision {
        case Quiet =>
          outcome := MarkKey(job, None, partial, s);
        case Blowup =>
          return Panicked(ZeroDivision);
        case Raise(alert) =>
          var o := job.at(PublishSite);
          if o.panics { return Panicked(InAction); }
          if o.fault { return Failed(PublishFailed); }
          sink.Publish(alert);
          assert forall c :: window.Window(c) == old(window.Window(c));
          outcome := MarkKey(job, Some(alert), partial, P.WithAlert(s, alert));
      }
    }

    /** From reading the configuration on. */
    method Evaluate(lib: Library, job: Job, up: bool, ghost s: P.Stores, ghost comp: string -> Option<Program>)
      returns (outcome: Outcome)
      requires Valid() && Holds(s)
      requires Coherent(evaluator.programs, comp) && Disciplined(lib, job.at(ConfigSite).rules.rules, comp)
      modifies idempotency, window`down, sink, evaluator
      ensures Holds(P.FromConfig(lib, s, job, up).stores)
      ensures outcome == P.FromConfig(lib, s, job, up).outcome
      ensures Coherent(evaluator.programs, comp)
    {
      hide P.FromConfig, P.Concludes, RuleEvaluation.Evaluate, E.Reports;
      var config, stored := job.at(ConfigSite), job.at(RiskSite);
      if config.panics || stored.panics {
        EvaluationPanics(lib, s, job, up);
        return Panicked(InAction);
      }
      var rules := config.rules;
      var risk := if stored.risk.Some? then stored.risk.value else rules.profile.defaultCustomerRisk;
      var r;
      ghost var e;
      r, e := evaluator.Evaluate(lib, rules, job.tx, risk, up, job.at, comp);
      EvaluationEnds(lib, s, job, up, r, e);
      if r.Aborts? { return r.outcome; }
      outcome := Conclude(lib, job, rules, up, r, e, s);
    }

    /** The window's Record, and what it says about the window's availability. */
    method RecordWindow(job: Job, ghost s: P.Stores) returns (available: bool, ghost t: P.Stores)
      requires Valid() && Holds(s)
      modifies window, window.Bufs()
      ensures Valid() && fresh(window.Bufs() - old(window.Bufs()))
      ensures available == !job.at(RecordSite).down
      ensures t == if available then P.WithRecord(s, job.tx, job.at(RecordSite)) else s
      ensures Holds(t)
    {
      var tx, o := job.tx, job.at(RecordSite);
      window.SetDown(o.down);
      available := window.Record(tx.customerId, tx, P.WINDOW_TTL, o.now, o.later);
      t := if available then P.WithRecord(s, tx, o) else s;
      hide W.Store.Window;
      assert forall c :: window.Window(c) == P.WindowOf(t, c);
    }

    /** One call: its outcome, and what it leaves in every store, are those of
        the specification, with the compile cache out of the picture. */
    method Process(lib: Library, job: Job, ghost s: P.Stores, ghost comp: string -> Option<Program>)
      returns (outcome: Outcome)
      requires Valid() && Holds(s)
      requires Coherent(evaluator.programs, comp) && Disciplined(lib, job.at(ConfigSite).rules.rules, comp)
      modifies idempotency, window, window.Bufs(), sink, evaluator
      ensures Valid() && fresh(window.Bufs() - old(window.Bufs()))
      ensures Holds(P.Process(lib, s, job).stores)
      ensures outcome == P.Process(lib, s, job).outcome
      ensures Coherent(evaluator.programs, comp)
    {
      hide P.FromConfig, P.WithRecord, W.Store.Window, Coherent, Disciplined;
      var why := Validate(job.tx);
      if why.Some? { return Failed(Invalid(why.value)); }

      var o := job.at(SeenSite);
      if o.panics { return Panicked(InAction); }
      if o.fault { return Failed(SeenFailed); }
      var seen := idempotency.Seen(KeyOf(job.tx), o.now);
      ghost var looked := P.WithSeen(s, job.tx, o);
      assert Holds(looked) by {
        assert forall c :: window.Window(c) == old(window.Window(c));
      }
      if seen { return Verdict(true, None, false); }

      o := job.at(RecordSite);
      if o.panics { return Panicked(InAction); }
      if o.fault { return Failed(RecordFailed); }
      var available;
      ghost var recorded;
      available, recorded := RecordWindow(job, looked);
      outcome := Evaluate(lib, job, available, recorded, comp);
    }
  }
}
