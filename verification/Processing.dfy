/** What one Process call does to the stores it shares, written as one run
    without interruption (internal/pipeline/processor.go). */
module Processing {
  import opened Sequences
  import opened Domain
  import opened Scoring
  import opened RuleEvaluation
  import opened AlertId
  import opened Config
  import opened I = IdempotencyStore
  import W = WindowStore

  const IDEMPOTENCY_TTL := 86_400_000_000_000
  const WINDOW_TTL := 600_000_000_000

  /** The shared stores. The log of successful Records is never evicted and
      nothing the code does depends on it. */
  datatype Stores = Stores(
    marks: Marks, windows: map<string, seq<W.Entry>>, log: map<string, seq<W.Recording>>, alerts: seq<Alert>)

  const EMPTY_STORES := Stores(map[], map[], map[], [])

  function WindowOf(s: Stores, c: string): seq<W.Entry> {
    if c in s.windows then s.windows[c] else []
  }

  function LogOf(s: Stores, c: string): seq<W.Recording> {
    if c in s.log then s.log[c] else []
  }

  // ---- effects of single actions ----

  function WithSeen(s: Stores, tx: Transaction, o: Observation): Stores {
    s.(marks := AfterSeen(s.marks, KeyOf(tx), o.now))
  }

  function WithRecord(s: Stores, tx: Transaction, o: Observation): Stores {
    var c := tx.customerId;
    s.(windows := s.windows[c := W.Recorded(WindowOf(s, c), tx, WINDOW_TTL, o.now, o.later)],
       log := s.log[c := LogOf(s, c) + [W.Recording(tx, o.now, o.later)]])
  }

  function WithAlert(s: Stores, a: Alert): Stores {
    s.(alerts := s.alerts + [a])
  }

  function WithMark(s: Stores, tx: Transaction, o: Observation): Stores {
    s.(marks := AfterMark(s.marks, KeyOf(tx), IDEMPOTENCY_TTL, o.now))
  }

  // ---- the decision ----

  datatype Decision = Quiet | Raise(alert: Alert) | Blowup

  function Partial(up: bool, degraded: bool): bool { !up || degraded }

  /** An alert is about the transaction, names a triggered rule and a
      category, and says whether the verdict is partial. */
  predicate Founded(a: Alert, tx: Transaction, partial: bool) {
    && a.customerId == tx.customerId && a.transactionId == tx.transactionId
    && a.triggered != [] && a.categories != {} && a.partial == partial
  }

  function Decide(lib: Library, tx: Transaction, rules: RuleSet, up: bool,
                  hits: seq<RuleDef>, degraded: bool): (r: Decision)
    ensures r.Raise? ==> Founded(r.alert, tx, Partial(up, degraded))
  {
    assert hits != [] ==> hits[0].emits.category in Categories(hits);
    var score := ScoreOf(Severities(hits));
    if score < rules.profile.scoreMinimoAlerta || hits == [] then Quiet
    else
      match AlertIdOf(lib, tx, Pick(Refs(hits), ById(rules.rules)))
      case None => Blowup
      case Some(id) =>
        Raise(Alert(id, tx.customerId, tx.transactionId, RunningSeverity(hits), Categories(hits), score,
                    Refs(hits), Partial(up, degraded)))
  }

  function RiskFor(o: Observation, rules: RuleSet): RiskProfile {
    if o.risk.Some? then o.risk.value else rules.profile.defaultCustomerRisk
  }

  // ---- the run, from its last action back to its first ----

  datatype End = End(stores: Stores, outcome: Outcome)

  function ToSeq<T>(x: Option<T>): seq<T> {
    if x.Some? then [x.value] else []
  }

  /** From the decision on: windows stay as they are, a verdict is fresh, and
      the key is marked and the alert published exactly by a fresh verdict. */
  predicate Commits(s: Stores, job: Job, r: End) {
    && r.stores.windows == s.windows && r.stores.log == s.log
    && (r.outcome.Verdict? ==> r.outcome.Fresh())
    && r.stores.marks == (if r.outcome.Fresh() then WithMark(s, job.tx, job.at(MarkSite)).marks else s.marks)
    && (r.outcome.Fresh() ==> r.stores.alerts == s.alerts + ToSeq(r.outcome.alert))
  }

  predicate Concludes(s: Stores, job: Job, r: End) {
    && Commits(s, job, r)
    && (r.outcome.Fresh() && r.outcome.alert.Some? ==> Founded(r.outcome.alert.value, job.tx, r.outcome.partial))
  }

  function FromMark(s: Stores, job: Job, alert: Option<Alert>, partial: bool): (r: End)
    ensures r.stores == if r.outcome.Fresh() then WithMark(s, job.tx, job.at(MarkSite)) else s
    ensures r.outcome.Verdict? ==> r.outcome == Verdict(false, alert, partial)
  {
    var o := job.at(MarkSite);
    if o.panics then End(s, Panicked(InAction))
    else if o.fault then End(s, Failed(MarkFailed))
    else End(WithMark(s, job.tx, o), Verdict(false, alert, partial))
  }

  function FromPublish(s: Stores, job: Job, alert: Alert, partial: bool): (r: End)
    ensures Commits(s, job, r)
    ensures r.outcome.Verdict? ==> r.outcome == Verdict(false, Some(alert), partial)
  {
    var o := job.at(PublishSite);
    if o.panics then End(s, Panicked(InAction))
    else if o.fault then End(s, Failed(PublishFailed))
    else FromMark(WithAlert(s, alert), job, Some(alert), partial)
  }

  function FromDecision(lib: Library, s: Stores, job: Job, rules: RuleSet, up: bool,
                        hits: seq<RuleDef>, degraded: bool): (r: End)
    ensures Concludes(s, job, r) && (r.outcome.Verdict? ==> r.outcome.partial == Partial(up, degraded))
  {
    match Decide(lib, job.tx, rules, up, hits, degraded)
    case Quiet => FromMark(s, job, None, Partial(up, degraded))
    case Blowup => End(s, Panicked(ZeroDivision))
    case Raise(alert) => FromPublish(s, job, alert, Partial(up, degraded))
  }

  function FromLoop(lib: Library, s: Stores, job: Job, e: State): (r: End)
    ensures Concludes(s, job, r) && (r.outcome.Verdict? && !e.up ==> r.outcome.partial)
  {
    match Loop(lib, e, job.tx, WindowOf(s, job.tx.customerId), job.at)
    case Aborted(outcome) => End(s, outcome)
    case Completed(hits, degraded) => FromDecision(lib, s, job, e.rules, e.up, hits, degraded)
  }

  function FromRisk(lib: Library, s: Stores, job: Job, up: bool, rules: RuleSet): (r: End)
    ensures Concludes(s, job, r) && (r.outcome.Verdict? && !up ==> r.outcome.partial)
  {
    var o := job.at(RiskSite);
    if o.panics then End(s, Panicked(InAction))
    else FromLoop(lib, s, job, Begin(up, rules, RiskFor(o, rules)))
  }

  function FromConfig(lib: Library, s: Stores, job: Job, up: bool): (r: End)
    ensures Concludes(s, job, r) && (r.outcome.Verdict? && !up ==> r.outcome.partial)
  {
    var o := job.at(ConfigSite);
    if o.panics then End(s, Panicked(InAction)) else FromRisk(lib, s, job, up, o.rules)
  }

  function FromRecord(lib: Library, s: Stores, job: Job): End {
    var o := job.at(RecordSite);
    if o.panics then End(s, Panicked(InAction))
    else if o.fault then End(s, Failed(RecordFailed))
    else if o.down then FromConfig(lib, s, job, false)
    else FromConfig(lib, WithRecord(s, job.tx, o), job, true)
  }

  function Process(lib: Library, s: Stores, job: Job): End {
    var why, o := Validate(job.tx), job.at(SeenSite);
    if why.Some? then End(s, Failed(Invalid(why.value)))
    else if o.panics then End(s, Panicked(InAction))
    else if o.fault then End(s, Failed(SeenFailed))
    else if SeenAt(s.marks, KeyOf(job.tx), o.now) then End(WithSeen(s, job.tx, o), Verdict(true, None, false))
    else FromRecord(lib, WithSeen(s, job.tx, o), job)
  }

  /** The jobs run one after another, from empty stores. */
  datatype Ran = Ran(stores: Stores, outcomes: seq<Outcome>)

  function RunAll(lib: Library, jobs: seq<Job>): (r: Ran)
    ensures |r.outcomes| == |jobs|
  {
    if jobs == [] then Ran(EMPTY_STORES, [])
    else
      var before := RunAll(lib, jobs[..|jobs| - 1]);
      var end := Process(lib, before.stores, jobs[|jobs| - 1]);
      Ran(end.stores, before.outcomes + [end.outcome])
  }
}
