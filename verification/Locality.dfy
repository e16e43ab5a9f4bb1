/** What one customer can see of the shared stores, and why the steps of other
    customers leave it alone. */
module Locality {
  import opened Sequences
  import opened Domain
  import opened RuleEvaluation
  import opened ProgramCache
  import opened Processing
  import opened Steps
  import opened I = IdempotencyStore
  import W = WindowStore

  /** The customer's marks, window, log and alerts. */
  datatype View = View(marks: Marks, window: seq<W.Entry>, log: seq<W.Recording>, alerts: seq<Alert>)

  function IsFor(c: string): Alert -> bool {
    (a: Alert) => a.customerId == c
  }

  /** The marks whose key begins with the customer id and a colon. */
  function MarksOf(marks: Marks, c: string): Marks {
    map k | k in marks && c + [':'] <= k :: marks[k]
  }

  function ViewOf(s: Stores, c: string): View {
    View(MarksOf(s.marks, c), WindowOf(s, c), LogOf(s, c), Filter(s.alerts, IsFor(c)))
  }

  lemma OwnKey(tx: Transaction)
    ensures tx.customerId + [':'] <= KeyOf(tx)
  {}

  lemma PrefixedKey(tx: Transaction, c: string)
    requires c != tx.customerId && c + [':'] <= KeyOf(tx)
    ensures !KeysApart(tx.customerId, c)
  {
    var d, rest := tx.customerId, KeyOf(tx)[|c| + 1..];
    assert KeyOf(tx) == Join(c, ':', rest);
    if |c| <= |d| {
      CollisionForcesPrefix(c, rest, d, tx.transactionId, ':');
    } else {
      CollisionForcesPrefix(d, tx.transactionId, c, rest, ':');
    }
  }

  lemma ForeignKey(tx: Transaction, c: string)
    requires c != tx.customerId && KeysApart(tx.customerId, c)
    ensures !(c + [':'] <= KeyOf(tx))
  {
    if c + [':'] <= KeyOf(tx) {
      PrefixedKey(tx, c);
    }
  }

  // ---- single effects: local to the customer's own view, invisible in the others ----

  lemma SeenLocal(s: Stores, t: Stores, tx: Transaction, o: Observation)
    requires ViewOf(s, tx.customerId) == ViewOf(t, tx.customerId)
    ensures SeenAt(s.marks, KeyOf(tx), o.now) == SeenAt(t.marks, KeyOf(tx), o.now)
    ensures ViewOf(WithSeen(s, tx, o), tx.customerId) == ViewOf(WithSeen(t, tx, o), tx.customerId)
  {
    OwnKey(tx);
    var c, k := tx.customerId, KeyOf(tx);
    assert k in s.marks <==> k in MarksOf(s.marks, c);
    assert k in t.marks <==> k in MarksOf(t.marks, c);
    assert k in s.marks ==> s.marks[k] == MarksOf(s.marks, c)[k];
    assert k in t.marks ==> t.marks[k] == MarksOf(t.marks, c)[k];
    assert MarksOf(AfterSeen(s.marks, k, o.now), c) == AfterSeen(MarksOf(s.marks, c), k, o.now);
    assert MarksOf(AfterSeen(t.marks, k, o.now), c) == AfterSeen(MarksOf(t.marks, c), k, o.now);
  }

  lemma MarkLocal(s: Stores, t: Stores, tx: Transaction, o: Observation)
    requires ViewOf(s, tx.customerId) == ViewOf(t, tx.customerId)
    ensures ViewOf(WithMark(s, tx, o), tx.customerId) == ViewOf(WithMark(t, tx, o), tx.customerId)
  {
    OwnKey(tx);
    var c, k := tx.customerId, KeyOf(tx);
    assert MarksOf(AfterMark(s.marks, k, IDEMPOTENCY_TTL, o.now), c)
        == AfterMark(MarksOf(s.marks, c), k, IDEMPOTENCY_TTL, o.now);
    assert MarksOf(AfterMark(t.marks, k, IDEMPOTENCY_TTL, o.now), c)
        == AfterMark(MarksOf(t.marks, c), k, IDEMPOTENCY_TTL, o.now);
  }

  lemma RecordLocal(s: Stores, t: Stores, tx: Transaction, o: Observation)
    requires ViewOf(s, tx.customerId) == ViewOf(t, tx.customerId)
    ensures ViewOf(WithRecord(s, tx, o), tx.customerId) == ViewOf(WithRecord(t, tx, o), tx.customerId)
  {}

  lemma AlertLocal(s: Stores, t: Stores, c: string, a: Alert)
    requires ViewOf(s, c) == ViewOf(t, c)
    ensures ViewOf(WithAlert(s, a), c) == ViewOf(WithAlert(t, a), c)
  {
    FilterAppend(s.alerts, a, IsFor(c));
    FilterAppend(t.alerts, a, IsFor(c));
  }

  lemma SeenForeign(s: Stores, tx: Transaction, o: Observation, c: string)
    requires c != tx.customerId && KeysApart(tx.customerId, c)
    ensures ViewOf(WithSeen(s, tx, o), c) == ViewOf(s, c)
  {
    ForeignKey(tx, c);
    assert MarksOf(AfterSeen(s.marks, KeyOf(tx), o.now), c) == MarksOf(s.marks, c);
  }

  lemma MarkForeign(s: Stores, tx: Transaction, o: Observation, c: string)
    requires c != tx.customerId && KeysApart(tx.customerId, c)
    ensures ViewOf(WithMark(s, tx, o), c) == ViewOf(s, c)
  {
    ForeignKey(tx, c);
    assert MarksOf(AfterMark(s.marks, KeyOf(tx), IDEMPOTENCY_TTL, o.now), c) == MarksOf(s.marks, c);
  }

  lemma RecordForeign(s: Stores, tx: Transaction, o: Observation, c: string)
    requires c != tx.customerId
    ensures ViewOf(WithRecord(s, tx, o), c) == ViewOf(s, c)
  {}

  lemma AlertForeign(s: Stores, a: Alert, c: string)
    requires c != a.customerId
    ensures ViewOf(WithAlert(s, a), c) == ViewOf(s, c)
  {
    FilterAppend(s.alerts, a, IsFor(c));
  }

  // ---- whole runs depend on the own view only ----

  ghost predicate SameEnd(a: End, b: End, c: string) {
    a.outcome == b.outcome && ViewOf(a.stores, c) == ViewOf(b.stores, c)
  }

  lemma FromMarkLocal(s: Stores, t: Stores, job: Job, alert: Option<Alert>, partial: bool)
    requires ViewOf(s, job.tx.customerId) == ViewOf(t, job.tx.customerId)
    ensures SameEnd(FromMark(s, job, alert, partial), FromMark(t, job, alert, partial), job.tx.customerId)
  {
    MarkLocal(s, t, job.tx, job.at(MarkSite));
  }

  lemma FromPublishLocal(s: Stores, t: Stores, job: Job, alert: Alert, partial: bool)
    requires ViewOf(s, job.tx.customerId) == ViewOf(t, job.tx.customerId)
    ensures SameEnd(FromPublish(s, job, alert, partial), FromPublish(t, job, alert, partial), job.tx.customerId)
  {
    AlertLocal(s, t, job.tx.customerId, alert);
    FromMarkLocal(WithAlert(s, alert), WithAlert(t, alert), job, Some(alert), partial);
  }

  lemma FromLoopLocal(lib: Library, s: Stores, t: Stores, job: Job, e: State)
    requires ViewOf(s, job.tx.customerId) == ViewOf(t, job.tx.customerId)
    ensures SameEnd(FromLoop(lib, s, job, e), FromLoop(lib, t, job, e), job.tx.customerId)
  {
    match Loop(lib, e, job.tx, WindowOf(s, job.tx.customerId), job.at) {
      case Aborted(_) =>
      case Completed(hits, degraded) =>
        match Decide(lib, job.tx, e.rules, e.up, hits, degraded) {
          case Quiet => FromMarkLocal(s, t, job, None, Partial(e.up, degraded));
          case Blowup =>
          case Raise(alert) => FromPublishLocal(s, t, job, alert, Partial(e.up, degraded));
        }
    }
  }

  lemma FromRiskLocal(lib: Library, s: Stores, t: Stores, job: Job, up: bool, rules: RuleSet)
    requires ViewOf(s, job.tx.customerId) == ViewOf(t, job.tx.customerId)
    ensures SameEnd(FromRisk(lib, s, job, up, rules), FromRisk(lib, t, job, up, rules), job.tx.customerId)
  {
    FromLoopLocal(lib, s, t, job, Begin(up, rules, RiskFor(job.at(RiskSite), rules)));
  }

  lemma FromConfigLocal(lib: Library, s: Stores, t: Stores, job: Job, up: bool)
    requires ViewOf(s, job.tx.customerId) == ViewOf(t, job.tx.customerId)
    ensures SameEnd(FromConfig(lib, s, job, up), FromConfig(lib, t, job, up), job.tx.customerId)
  {
    FromRiskLocal(lib, s, t, job, up, job.at(ConfigSite).rules);
  }

  lemma FromRecordLocal(lib: Library, s: Stores, t: Stores, job: Job)
    requires ViewOf(s, job.tx.customerId) == ViewOf(t, job.tx.customerId)
    ensures SameEnd(FromRecord(lib, s, job), FromRecord(lib, t, job), job.tx.customerId)
  {
    var o := job.at(RecordSite);
    RecordLocal(s, t, job.tx, o);
    FromConfigLocal(lib, s, t, job, false);
    FromConfigLocal(lib, WithRecord(s, job.tx, o), WithRecord(t, job.tx, o), job, true);
  }

  lemma ProcessLocal(lib: Library, s: Stores, t: Stores, job: Job)
    requires ViewOf(s, job.tx.customerId) == ViewOf(t, job.tx.customerId)
    ensures SameEnd(Process(lib, s, job), Process(lib, t, job), job.tx.customerId)
  {
    var o := job.at(SeenSite);
    SeenLocal(s, t, job.tx, o);
    FromRecordLocal(lib, WithSeen(s, job.tx, o), WithSeen(t, job.tx, o), job);
  }

  lemma FromStepLocal(lib: Library, s: Stores, t: Stores, job: Job, e: State, step: RuleStep)
    requires e.Live() && ViewOf(s, job.tx.customerId) == ViewOf(t, job.tx.customerId)
    ensures SameEnd(FromStep(lib, s, job, e, step), FromStep(lib, t, job, e, step), job.tx.customerId)
  {
    if !step.Broken? {
      FromLoopLocal(lib, s, t, job, e.Next(step));
    }
  }

  /** How a call ends depends only on what its customer sees. */
  lemma FinishLocal(lib: Library, s: Stores, t: Stores, job: Job, pc: Pc)
    requires pc.Ok() && ViewOf(s, job.tx.customerId) == ViewOf(t, job.tx.customerId)
    ensures SameEnd(Finish(lib, s, job, pc), Finish(lib, t, job, pc), job.tx.customerId)
  {
    match pc {
      case Start => ProcessLocal(lib, s, t, job);
      case AtRecord => FromRecordLocal(lib, s, t, job);
      case AtConfig(up) => FromConfigLocal(lib, s, t, job, up);
      case AtRisk(up, rules) => FromRiskLocal(lib, s, t, job, up, rules);
      case AtRead(e, got) =>
        var reading := ReadAll(lib, e.Rule().window.value, e.k, job.tx, WindowOf(s, job.tx.customerId), job.at, got);
        FromStepLocal(lib, s, t, job, e, AfterReading(lib, e, job.tx, reading, job.at(LinkSite(e.k))));
      case AtLink(e, window) =>
        FromStepLocal(lib, s, t, job, e, Judge(lib, e.Rule(), e.Env(job.tx, window), job.at(LinkSite(e.k))));
      case AtStore(e, window, p) =>
        FromStepLocal(lib, s, t, job, e, RunProgram(lib, p, e.Env(job.tx, window)));
      case AtPublish(alert, partial) => FromPublishLocal(s, t, job, alert, partial);
      case AtMark(raised, partial) => FromMarkLocal(s, t, job, raised, partial);
      case Ended(_) =>
    }
  }

  /** An alert about to be published is about the job's own customer. */
  predicate PcOwn(job: Job, pc: Pc) {
    pc.AtPublish? ==> pc.alert.customerId == job.tx.customerId
  }

  lemma {:induction false} AdvanceOwn(lib: Library, job: Job, e: State)
    ensures PcOwn(job, Advance(lib, job.tx, e))
    decreases |e.rules.rules| - e.k
  {
    if e.Live() && e.Skips() {
      AdvanceOwn(lib, job, e.Next(Skip));
    }
  }

  lemma AfterOwn(lib: Library, job: Job, e: State, step: RuleStep)
    requires e.Live()
    ensures PcOwn(job, After(lib, job.tx, e, step))
  {
    if !step.Broken? {
      AdvanceOwn(lib, job, e.Next(step));
    }
  }

  lemma ActOwn(lib: Library, programs: Programs, s: Stores, job: Job, pc: Pc)
    requires pc.Ok() && !pc.Ended? && PcOwn(job, pc)
    ensures PcOwn(job, Act(lib, programs, s, job, pc).pc)
  {
    var tx, o := job.tx, job.at(pc.Site());
    match pc {
      case AtRisk(up, rules) => AdvanceOwn(lib, job, Begin(up, rules, RiskFor(o, rules)));
      case AtRead(e, got) => AfterOwn(lib, job, e, Degrade);
      case AtLink(e, window) =>
        if ProgramKey(e.Rule()) in programs {
          AfterOwn(lib, job, e, RunProgram(lib, programs[ProgramKey(e.Rule())], e.Env(tx, window)));
        }
      case AtStore(e, window, p) => AfterOwn(lib, job, e, RunProgram(lib, p, e.Env(tx, window)));
      case _ =>
    }
  }

  /** No step for one customer shows in the view of another whose keys are apart. */
  lemma ActForeign(lib: Library, programs: Programs, s: Stores, job: Job, pc: Pc, c: string)
    requires pc.Ok() && !pc.Ended? && PcOwn(job, pc)
    requires c != job.tx.customerId && KeysApart(job.tx.customerId, c)
    ensures ViewOf(Act(lib, programs, s, job, pc).stores, c) == ViewOf(s, c)
  {
    hide ViewOf, After, Advance, AfterRead, ReadOnce, RunProgram, WithSeen, WithRecord, WithAlert, WithMark;
    match pc {
      case Start => SeenForeign(s, job.tx, job.at(SeenSite), c);
      case AtRecord => RecordForeign(s, job.tx, job.at(RecordSite), c);
      case AtMark(_, _) => MarkForeign(s, job.tx, job.at(MarkSite), c);
      case AtPublish(alert, _) => AlertForeign(s, alert, c);
      case _ =>
    }
  }
}
