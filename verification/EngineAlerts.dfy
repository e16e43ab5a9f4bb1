/** What the alerts of finished calls say, in every state the engine reaches
    (internal/pipeline/processor.go). */
module EngineAlerts {
  import opened Sequences
  import opened Domain
  import opened Scoring
  import opened RuleEvaluation
  import opened ProgramCache
  import opened Processing
  import opened Steps
  import opened Verdicts
  import opened AlertContents
  import opened DefaultRules
  import opened Engine
  import opened EngineRuns
  import opened EngineOutcomes
  import opened R = Retries
  import W = WindowStore

  // ---- whatever programs the cache holds ----

  /** Enabled rules of the set that the call found. */
  ghost predicate HitsOf(job: Job, hits: seq<RuleDef>) {
    forall h :: h in hits ==> h in RulesFor(job).rules && h.enabled
  }

  /** The alert, if there is one, says what some enabled rules of the set are,
      and their score reaches the set's threshold. */
  ghost predicate Justified(lib: Library, job: Job, alert: Option<Alert>, partial: bool) {
    alert.Some? ==>
      exists hits ::
        && HitsOf(job, hits) && Reaches(hits, RulesFor(job).profile.scoreMinimoAlerta)
        && Says(lib, job.tx, hits, partial, alert.value)
  }

  ghost predicate Evaluating(job: Job, e: State) {
    e.rules == RulesFor(job) && HitsOf(job, e.hits)
  }

  ghost predicate OnCourse(lib: Library, job: Job, pc: Pc) {
    match pc
    case AtRisk(_, rules) => rules == RulesFor(job)
    case AtRead(e, _) => Evaluating(job, e)
    case AtLink(e, _) => Evaluating(job, e)
    case AtStore(e, _, _) => Evaluating(job, e)
    case AtPublish(alert, partial) => Justified(lib, job, Some(alert), partial)
    case AtMark(raised, partial) => Justified(lib, job, raised, partial)
    case _ => true
  }

  ghost predicate EndsWell(lib: Library, job: Job, outcome: Outcome) {
    outcome.Fresh() ==> Justified(lib, job, outcome.alert, outcome.partial)
  }

  ghost predicate StaysOnCourse(lib: Library, job: Job, pc: Pc) {
    if pc.Ended? then EndsWell(lib, job, pc.outcome) else OnCourse(lib, job, pc)
  }

  lemma DecisionIsJustified(lib: Library, job: Job, e: State)
    requires SafeSet(lib, RulesFor(job)) && Evaluating(job, e)
    ensures var d := Decide(lib, job.tx, e.rules, e.up, e.hits, e.degraded);
            d.Raise? ==> Justified(lib, job, Some(d.alert), Partial(e.up, e.degraded))
  {
    hide Decide, SafeSet, Says, Reaches, Justified;
    DecideSays(lib, job.tx, e.rules, e.up, e.hits, e.degraded);
    var d := Decide(lib, job.tx, e.rules, e.up, e.hits, e.degraded);
    if d.Raise? {
      JustifiedBy(lib, job, e.hits, d.alert, Partial(e.up, e.degraded));
    }
  }

  lemma NextIsOnCourse(lib: Library, job: Job, partial: bool)
    ensures StaysOnCourse(lib, job, AtMark(None, partial))
    ensures StaysOnCourse(lib, job, Ended(Panicked(ZeroDivision)))
    ensures forall a :: Justified(lib, job, Some(a), partial) ==> StaysOnCourse(lib, job, AtPublish(a, partial))
  {
    NoAlertIsJustified(lib, job, partial);
    hide Justified;
  }

  lemma DecidedWell(lib: Library, job: Job, e: State)
    requires SafeSet(lib, RulesFor(job)) && Evaluating(job, e)
    ensures StaysOnCourse(lib, job, Decided(lib, job.tx, e))
  {
    DecisionIsJustified(lib, job, e);
    NextIsOnCourse(lib, job, Partial(e.up, e.degraded));
    hide Decide, SafeSet, Evaluating, Justified, Partial, StaysOnCourse;
  }

  lemma JustifiedBy(lib: Library, job: Job, hits: seq<RuleDef>, a: Alert, partial: bool)
    requires HitsOf(job, hits) && Reaches(hits, RulesFor(job).profile.scoreMinimoAlerta)
    requires Says(lib, job.tx, hits, partial, a)
    ensures Justified(lib, job, Some(a), partial)
  {
    hide Says, Reaches;
  }

  lemma NoAlertIsJustified(lib: Library, job: Job, partial: bool)
    ensures Justified(lib, job, None, partial)
  {
  }

  lemma {:induction false} AdvanceWell(lib: Library, job: Job, e: State)
    requires SafeSet(lib, RulesFor(job)) && Evaluating(job, e)
    ensures StaysOnCourse(lib, job, Advance(lib, job.tx, e))
    decreases |e.rules.rules| - e.k
  {
    hide SafeSet, Decided, Justified;
    if !e.Live() {
      DecidedWell(lib, job, e);
    } else if e.Skips() {
      AdvanceWell(lib, job, e.Next(Skip));
    }
  }

  lemma AfterWell(lib: Library, job: Job, e: State, step: RuleStep)
    requires SafeSet(lib, RulesFor(job)) && Evaluating(job, e) && e.Live()
    requires step.Hit? ==> e.Rule().enabled
    requires step.Broken? ==> !step.outcome.Verdict?
    ensures StaysOnCourse(lib, job, After(lib, job.tx, e, step))
  {
    hide SafeSet, Advance, Justified;
    if !step.Broken? {
      AdvanceWell(lib, job, e.Next(step));
    }
  }

  lemma ReadWell(lib: Library, job: Job, e: State, got: seq<nat>, window: seq<W.Entry>)
    requires SafeSet(lib, RulesFor(job)) && AtRead(e, got).Ok() && Evaluating(job, e)
    ensures var o := job.at(ReadSite(e.k, |got|));
            StaysOnCourse(lib, job, AfterRead(lib, job.tx, e,
              ReadOnce(lib, e.Rule().window.value, job.tx, window, o, got)))
  {
    hide SafeSet, After, Justified, W.Kept, W.CountOn, W.MaxKm, W.Devices, Reach;
    AfterWell(lib, job, e, Degrade);
  }

  lemma ActWell(lib: Library, programs: Programs, s: Stores, job: Job, pc: Pc)
    requires pc.Ok() && !pc.Ended? && SafeSet(lib, RulesFor(job)) && OnCourse(lib, job, pc)
    ensures StaysOnCourse(lib, job, Act(lib, programs, s, job, pc).pc)
  {
    hide SafeSet, After, Advance, AfterRead, ReadOnce, Justified, HitsOf, Validate, WithSeen, WithRecord, WithAlert,
         WithMark;
    match pc {
      case AtRisk(up, rules) =>
        StartsWell(job, Begin(up, rules, RiskFor(job.at(RiskSite), rules)));
        AdvanceWell(lib, job, Begin(up, rules, RiskFor(job.at(RiskSite), rules)));
      case AtRead(e, got) => ReadWell(lib, job, e, got, WindowOf(s, job.tx.customerId));
      case AtLink(e, window) =>
        if ProgramKey(e.Rule()) in programs {
          AfterWell(lib, job, e, RunProgram(lib, programs[ProgramKey(e.Rule())], e.Env(job.tx, window)));
        }
      case AtStore(e, window, p) => AfterWell(lib, job, e, RunProgram(lib, p, e.Env(job.tx, window)));
      case _ =>
    }
  }

  lemma StartsWell(job: Job, e: State)
    requires e.rules == RulesFor(job) && e.hits == []
    ensures Evaluating(job, e)
  {
  }

  ghost function CourseP(lib: Library): (Job, Pc) -> bool {
    (job: Job, pc: Pc) => SafeSet(lib, RulesFor(job)) ==> OnCourse(lib, job, pc)
  }

  ghost function CourseQ(lib: Library): (Job, Outcome) -> bool {
    (job: Job, outcome: Outcome) => SafeSet(lib, RulesFor(job)) ==> EndsWell(lib, job, outcome)
  }

  lemma CourseIsClosed(lib: Library)
    ensures Closed(lib, CourseP(lib), CourseQ(lib))
  {
    hide SafeSet;
    forall programs: Programs, s: Stores, j: Job, pc: Pc | pc.Ok() && !pc.Ended? && CourseP(lib)(j, pc)
      ensures var next := Act(lib, programs, s, j, pc).pc;
              if next.Ended? then CourseQ(lib)(j, next.outcome) else CourseP(lib)(j, next)
    {
      if SafeSet(lib, RulesFor(j)) {
        ActWell(lib, programs, s, j, pc);
        hide Act, EndsWell, OnCourse;
      }
    }
    hide Act;
    assert forall j :: CourseP(lib)(j, Start);
  }

  /** In every reachable state, whatever programs the cache holds: the alert of a
      finished call that found a safe rule set says what some enabled rules of
      that set are, whose score reaches the set's threshold. */
  lemma AlertsAreJustified(lib: Library, customers: set<string>, n: int, bundle: Bundle, clock: int,
                           states: seq<Engine>, labels: seq<Label>, g: Engine, i: nat)
    requires Execution(lib, customers, n, bundle, clock, states, labels) && g == states[|labels|]
    requires i < |g.outcomes| == |g.pool.finished| && SafeSet(lib, RulesFor(g.pool.finished[i]))
    requires g.outcomes[i].Fresh() && g.outcomes[i].alert.Some?
    ensures var job, o := g.pool.finished[i], g.outcomes[i];
            exists hits ::
              && HitsOf(job, hits) && Reaches(hits, RulesFor(job).profile.scoreMinimoAlerta)
              && Says(lib, job.tx, hits, o.partial, o.alert.value)
  {
    CourseIsClosed(lib);
    AlwaysPerCall(lib, customers, n, bundle, clock, states, labels, CourseP(lib), CourseQ(lib));
    hide Execution, SafeSet, HitsOf, Reaches, Says;
    assert CourseQ(lib)(g.pool.finished[i], g.outcomes[i]);
  }

  // ---- under the discipline on versions ----

  /** The stores that finished call i of the customer started from, had the
      customer's calls run alone one after another. */
  function StoresBefore(lib: Library, g: Engine, c: string, i: nat): Stores
    requires i < |g.pool.finished|
  {
    RunAll(lib, Filter(g.pool.finished[..i], Mine(c))).stores
  }

  /** The outcome of a finished call is that of the same call run alone after
      those of its customer that finished before it. */
  lemma FinishedOutcome(lib: Library, customers: set<string>, n: int, bundle: Bundle, clock: int,
                        states: seq<Engine>, labels: seq<Label>, g: Engine, i: nat)
    requires Execution(lib, customers, n, bundle, clock, states, labels) && g == states[|labels|]
    requires Apart(customers) && Versioned(lib, g) && i < |g.outcomes| == |g.pool.finished|
    ensures var job := g.pool.finished[i];
            g.outcomes[i] == Process(lib, StoresBefore(lib, g, job.tx.customerId, i), job).outcome
  {
    var job := g.pool.finished[i];
    var c := job.tx.customerId;
    AlwaysStructured(lib, customers, n, bundle, clock, states, labels);
    assert job in g.pool.finished && job in g.pool.accepted;
    Reduction(lib, customers, n, bundle, clock, states, labels, g, c);
    var p := Position(g.pool.finished, g.outcomes, c, i);
    FilterOfPrefix(g.pool.finished, c, i);
    hide *;
    OutcomeAtLast(lib, Filter(g.pool.finished, Mine(c)), p);
  }

  lemma OutcomeAtLast(lib: Library, jobs: seq<Job>, p: nat)
    requires p < |jobs|
    ensures RunAll(lib, jobs).outcomes[p] == Process(lib, RunAll(lib, jobs[..p]).stores, jobs[p]).outcome
  {
    R.OutcomeAt(lib, jobs, p, |jobs|);
    assert jobs[..|jobs|] == jobs;
  }

  lemma {:induction false} FilterOfPrefix(finished: seq<Job>, c: string, i: nat)
    requires i <= |finished|
    ensures |Filter(finished[..i], Mine(c))| <= |Filter(finished, Mine(c))|
    ensures Filter(finished[..i], Mine(c)) == Filter(finished, Mine(c))[..|Filter(finished[..i], Mine(c))|]
  {
    FilterConcat(finished[..i], finished[i..], Mine(c));
    assert finished[..i] + finished[i..] == finished;
  }

  /** In every reachable state, under the discipline on versions: a fresh verdict
      of a finished call that found a safe rule set carries an alert exactly if
      the rules that hit when the call is run alone reach the set's threshold,
      and the alert says exactly what those are. */
  lemma AlertsExactly(lib: Library, customers: set<string>, n: int, bundle: Bundle, clock: int,
                      states: seq<Engine>, labels: seq<Label>, g: Engine, i: nat)
    requires Execution(lib, customers, n, bundle, clock, states, labels) && g == states[|labels|]
    requires Apart(customers) && Versioned(lib, g)
    requires i < |g.outcomes| == |g.pool.finished| && SafeSet(lib, RulesFor(g.pool.finished[i]))
    requires g.outcomes[i].Fresh()
    ensures var job, o := g.pool.finished[i], g.outcomes[i];
            var e := EvaluationOf(lib, StoresBefore(lib, g, job.tx.customerId, i), job);
            && e.Completed?
            && (o.alert.Some? <==>
                  e.hits != [] && ScoreOf(Severities(e.hits)) >= RulesFor(job).profile.scoreMinimoAlerta)
            && (o.alert.Some? ==> Says(lib, job.tx, e.hits, o.partial, o.alert.value))
  {
    var job := g.pool.finished[i];
    FinishedOutcome(lib, customers, n, bundle, clock, states, labels, g, i);
    hide *;
    VerdictExactly(lib, StoresBefore(lib, g, job.tx.customerId, i), job);
  }

  /** The same for the default bundle: the alert is there exactly if a rule hits,
      with the window as the customer's earlier calls have left it. */
  lemma DefaultAlertsExactly(lib: Library, customers: set<string>, n: int, bundle: Bundle, clock: int,
                             states: seq<Engine>, labels: seq<Label>, g: Engine, i: nat)
    requires Execution(lib, customers, n, bundle, clock, states, labels) && g == states[|labels|]
    requires Apart(customers) && Versioned(lib, g)
    requires i < |g.outcomes| == |g.pool.finished|
    requires Interprets(lib) && FindsDefaults(g.pool.finished[i])
    requires g.outcomes[i].Fresh()
    ensures var job := g.pool.finished[i];
            g.outcomes[i].alert.Some? <==>
              Atypical(job) || WindowAlarm(lib, StoresBefore(lib, g, job.tx.customerId, i), job)
  {
    var job := g.pool.finished[i];
    FinishedOutcome(lib, customers, n, bundle, clock, states, labels, g, i);
    hide *;
    DefaultBundleAlerts(lib, StoresBefore(lib, g, job.tx.customerId, i), job);
  }
}
