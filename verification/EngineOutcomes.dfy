/** What the outcome of a finished call says about the call, in every state the
    engine reaches and whatever programs its compile cache holds
    (internal/pipeline/processor.go, internal/engine/evaluator.go). */
module EngineOutcomes {
  import opened Sequences
  import opened Domain
  import opened RuleEvaluation
  import opened ProgramCache
  import opened Processing
  import opened Steps
  import opened Verdicts
  import opened Engine
  import opened EngineRuns
  import opened EngineSafety
  import D = Dispatch
  import M = Metrics
  import W = WindowStore

  // ---- properties that steps keep, carried over every run ----

  /** Holding of a call at its start, p is kept by its steps until q holds of its outcome. */
  ghost predicate Closed(lib: Library, p: (Job, Pc) -> bool, q: (Job, Outcome) -> bool) {
    && (forall j :: p(j, Start))
    && (forall programs: Programs, s: Stores, j: Job, pc: Pc :: pc.Ok() && !pc.Ended? && p(j, pc) ==>
          var next := Act(lib, programs, s, j, pc).pc;
          if next.Ended? then q(j, next.outcome) else p(j, next))
  }

  ghost predicate PerCall(g: Engine, p: (Job, Pc) -> bool, q: (Job, Outcome) -> bool)
    requires |g.pcs| == |g.pool.workers| && |g.outcomes| == |g.pool.finished|
  {
    && (forall w :: 0 <= w < |g.pcs| && g.pool.workers[w].current.Some? ==> p(JobAt(g, w), g.pcs[w]))
    && (forall i :: 0 <= i < |g.outcomes| ==> q(g.pool.finished[i], g.outcomes[i]))
  }

  lemma PerCallNext(lib: Library, customers: set<string>, g: Engine, ev: Label, p: (Job, Pc) -> bool,
                    q: (Job, Outcome) -> bool)
    requires Structured(lib, customers, g) && Ready(lib, customers, g, ev)
    requires Structured(lib, customers, Next(lib, customers, g, ev))
    requires Closed(lib, p, q) && PerCall(g, p, q)
    ensures PerCall(Next(lib, customers, g, ev), p, q)
  {
    hide Act, D.Inv, Consistent;
    if ev.Work? {
      var w := ev.w;
      assert p(JobAt(g, w), g.pcs[w]);
      var next := Act(lib, g.programs, g.stores, JobAt(g, w), g.pcs[w]).pc;
      assert if next.Ended? then q(JobAt(g, w), next.outcome) else p(JobAt(g, w), next);
    }
  }

  lemma {:induction false} AlwaysPerCall(lib: Library, customers: set<string>, n: int, bundle: Bundle, clock: int,
                              states: seq<Engine>, labels: seq<Label>, p: (Job, Pc) -> bool, q: (Job, Outcome) -> bool)
    requires Execution(lib, customers, n, bundle, clock, states, labels) && Closed(lib, p, q)
    ensures Structured(lib, customers, states[|labels|]) && PerCall(states[|labels|], p, q)
    decreases |labels|
  {
    hide Closed;
    AlwaysStructured(lib, customers, n, bundle, clock, states, labels);
    if labels != [] {
      ExecutionPrefix(lib, customers, n, bundle, clock, states, labels);
      AlwaysPerCall(lib, customers, n, bundle, clock, states[..|labels|], labels[..|labels| - 1], p, q);
      PerCallNext(lib, customers, states[|labels| - 1], labels[|labels| - 1], p, q);
    }
  }

  // ---- every outcome explained ----

  /** What a call past its first actions has found, and what it is about to publish or has published. */
  predicate Underway(job: Job, pc: Pc) {
    && (!pc.Start? ==> Validate(job.tx).None? && Works(job.at(SeenSite)))
    && (!pc.Start? && !pc.AtRecord? ==> Works(job.at(RecordSite)))
    && (pc.AtPublish? ==> Founded(pc.alert, job.tx, pc.partial))
    && (pc.AtMark? && pc.raised.Some? ==> Founded(pc.raised.value, job.tx, pc.partial))
  }

  ghost predicate SomeRead(job: Job) {
    exists k, j :: job.at(ReadSite(k, j)).fault
  }

  ghost predicate SomePanic(job: Job) {
    exists site :: job.at(site).panics
  }

  /** A verdict, a duplicate or fresh, has got through the actions that precede
      it, and its alert is founded; an error is one that its action observed; a
      panic inside an action is one that some action observed. */
  ghost predicate Explained(job: Job, outcome: Outcome) {
    match outcome
    case Verdict(duplicate, alert, partial) =>
      && Validate(job.tx).None? && Works(job.at(SeenSite))
      && (duplicate ==> alert.None?)
      && (!duplicate ==> Works(job.at(RecordSite)) && Works(job.at(MarkSite)))
      && (alert.Some? ==> Founded(alert.value, job.tx, partial))
    case Failed(fault) =>
      (match fault
       case Invalid(why) => Validate(job.tx) == Some(why)
       case SeenFailed => job.at(SeenSite).fault
       case RecordFailed => job.at(RecordSite).fault
       case ReadFailed => SomeRead(job)
       case PublishFailed => job.at(PublishSite).fault
       case MarkFailed => job.at(MarkSite).fault
       case _ => true)
    case Panicked(cause) => cause.InAction? ==> SomePanic(job)
  }

  lemma {:induction false} AdvanceUnderway(lib: Library, job: Job, e: State)
    requires Validate(job.tx).None? && Works(job.at(SeenSite)) && Works(job.at(RecordSite))
    ensures var pc := Advance(lib, job.tx, e);
            Underway(job, pc) && !pc.AtRecord? && !pc.Start?
            && (pc.Ended? ==> Explained(job, pc.outcome) && !pc.outcome.Verdict?)
    decreases |e.rules.rules| - e.k
  {
    hide Decide, Validate, Founded;
    if e.Live() && e.Skips() {
      AdvanceUnderway(lib, job, e.Next(Skip));
    }
  }

  lemma AfterUnderway(lib: Library, job: Job, e: State, step: RuleStep)
    requires Validate(job.tx).None? && Works(job.at(SeenSite)) && Works(job.at(RecordSite)) && e.Live()
    requires step.Broken? ==> Explained(job, step.outcome) && !step.outcome.Verdict?
    ensures var pc := After(lib, job.tx, e, step);
            Underway(job, pc) && !pc.AtRecord? && !pc.Start?
            && (pc.Ended? ==> Explained(job, pc.outcome) && !pc.outcome.Verdict?)
  {
    hide Validate, Founded;
    if !step.Broken? {
      AdvanceUnderway(lib, job, e.Next(step));
    }
  }

  lemma ReadUnderway(lib: Library, job: Job, e: State, got: seq<nat>, window: seq<W.Entry>)
    requires AtRead(e, got).Ok() && Underway(job, AtRead(e, got))
    ensures var o := job.at(ReadSite(e.k, |got|));
            var pc := AfterRead(lib, job.tx, e, ReadOnce(lib, e.Rule().window.value, job.tx, window, o, got));
            if pc.Ended? then Explained(job, pc.outcome) && !pc.outcome.Verdict?
            else Underway(job, pc) && !pc.AtRecord? && !pc.Start?
  {
    hide Validate, Founded, After, W.Kept, W.CountOn, W.MaxKm, W.Devices, Reach;
    AfterUnderway(lib, job, e, Degrade);
  }

  /** Every step keeps what is known of the call, until its outcome is explained. */
  lemma ActUnderway(lib: Library, programs: Programs, s: Stores, job: Job, pc: Pc)
    requires pc.Ok() && !pc.Ended? && Underway(job, pc)
    ensures var next := Act(lib, programs, s, job, pc).pc;
            if next.Ended? then Explained(job, next.outcome) else Underway(job, next)
    ensures var next := Act(lib, programs, s, job, pc).pc;
            && !next.Start? && (next.AtRecord? ==> pc.Start?)
            && (next.Ended? && next.outcome.Verdict? ==>
                  next.outcome.duplicate == pc.Start? && (!pc.Start? ==> pc.AtMark?))
  {
    hide Validate, Founded, After, Advance, AfterRead, ReadOnce, WithSeen, WithRecord, WithAlert, WithMark;
    match pc {
      case AtRisk(up, rules) => AdvanceUnderway(lib, job, Begin(up, rules, RiskFor(job.at(RiskSite), rules)));
      case AtRead(e, got) => ReadUnderway(lib, job, e, got, WindowOf(s, job.tx.customerId));
      case AtLink(e, window) =>
        if ProgramKey(e.Rule()) in programs {
          AfterUnderway(lib, job, e, RunProgram(lib, programs[ProgramKey(e.Rule())], e.Env(job.tx, window)));
        }
      case AtStore(e, window, p) => AfterUnderway(lib, job, e, RunProgram(lib, p, e.Env(job.tx, window)));
      case _ =>
    }
  }

  function UnderwayP(): (Job, Pc) -> bool { (job: Job, pc: Pc) => Underway(job, pc) }

  ghost function ExplainedQ(): (Job, Outcome) -> bool { (job: Job, outcome: Outcome) => Explained(job, outcome) }

  lemma UnderwayIsClosed(lib: Library)
    ensures Closed(lib, UnderwayP(), ExplainedQ())
  {
    forall programs: Programs, s: Stores, j: Job, pc: Pc | pc.Ok() && !pc.Ended? && UnderwayP()(j, pc)
      ensures var next := Act(lib, programs, s, j, pc).pc;
              if next.Ended? then ExplainedQ()(j, next.outcome) else UnderwayP()(j, next)
    {
      ActUnderway(lib, programs, s, j, pc);
    }
  }

  /** In every reachable state, of every finished call: the outcome is explained. */
  lemma OutcomesExplained(lib: Library, customers: set<string>, n: int, bundle: Bundle, clock: int,
                          states: seq<Engine>, labels: seq<Label>, g: Engine)
    requires Execution(lib, customers, n, bundle, clock, states, labels) && g == states[|labels|]
    ensures Structured(lib, customers, g)
    ensures forall w :: 0 <= w < |g.pcs| && g.pool.workers[w].current.Some? ==> Underway(JobAt(g, w), g.pcs[w])
    ensures forall i :: 0 <= i < |g.outcomes| ==> Explained(g.pool.finished[i], g.outcomes[i])
  {
    UnderwayIsClosed(lib);
    AlwaysPerCall(lib, customers, n, bundle, clock, states, labels, UnderwayP(), ExplainedQ());
    hide Execution, Underway, Explained;
    forall w | 0 <= w < |g.pcs| && g.pool.workers[w].current.Some? ensures Underway(JobAt(g, w), g.pcs[w]) {
      assert UnderwayP()(JobAt(g, w), g.pcs[w]);
    }
    forall i | 0 <= i < |g.outcomes| ensures Explained(g.pool.finished[i], g.outcomes[i]) {
      assert ExplainedQ()(g.pool.finished[i], g.outcomes[i]);
    }
  }

  // ---- calls with a safe rule set ----

  ghost function SafeP(lib: Library): (Job, Pc) -> bool {
    (job: Job, pc: Pc) => SafeSet(lib, RulesFor(job)) ==> PcSafe(lib, pc)
  }

  ghost function SafeQ(lib: Library): (Job, Outcome) -> bool {
    (job: Job, outcome: Outcome) => SafeSet(lib, RulesFor(job)) ==> SafeOutcome(job, outcome)
  }

  lemma SafeIsClosed(lib: Library)
    ensures Closed(lib, SafeP(lib), SafeQ(lib))
  {
    hide SafeSet;
    forall programs: Programs, s: Stores, j: Job, pc: Pc | pc.Ok() && !pc.Ended? && SafeP(lib)(j, pc)
      ensures var next := Act(lib, programs, s, j, pc).pc;
              if next.Ended? then SafeQ(lib)(j, next.outcome) else SafeP(lib)(j, next)
    {
      if SafeSet(lib, RulesFor(j)) {
        ActSafe(lib, programs, s, j, pc);
        var next := Act(lib, programs, s, j, pc).pc;
        hide Act, PcSafe;
        if next.Ended? && next.outcome.Panicked? {
          assert j.at(pc.Site()).panics;
        }
      }
    }
    hide Act;
    assert forall j :: SafeP(lib)(j, Start);
  }

  /** A call that finds a safe rule set does not break on its configuration,
      whatever other sets were ever active. */
  lemma SafeCalls(lib: Library, customers: set<string>, n: int, bundle: Bundle, clock: int,
                  states: seq<Engine>, labels: seq<Label>, g: Engine, i: nat)
    requires Execution(lib, customers, n, bundle, clock, states, labels) && g == states[|labels|]
    requires i < |g.outcomes| == |g.pool.finished| && SafeSet(lib, RulesFor(g.pool.finished[i]))
    ensures SafeOutcome(g.pool.finished[i], g.outcomes[i])
  {
    SafeIsClosed(lib);
    AlwaysPerCall(lib, customers, n, bundle, clock, states, labels, SafeP(lib), SafeQ(lib));
    hide Execution, SafeOutcome, SafeSet;
    assert SafeQ(lib)(g.pool.finished[i], g.outcomes[i]);
  }

  // ---- run errors ----

  /** The program is the compilation of some condition ever activated under this key. */
  ghost predicate Compiled(lib: Library, lists: seq<seq<RuleDef>>, key: string, p: Program) {
    exists q :: Keyed(lists, key, q) && lib.compile(q.condition) == Some(p)
  }

  /** Some condition ever activated under the key of one of these rules can end in a run error. */
  ghost predicate RunErrorFor(lib: Library, lists: seq<seq<RuleDef>>, rules: seq<RuleDef>) {
    exists r, p, env :: r in rules && Compiled(lib, lists, ProgramKey(r), p) && lib.run(p, env) == RunError
  }

  ghost predicate Evaluates(lists: seq<seq<RuleDef>>, job: Job, rules: RuleSet) {
    rules == RulesFor(job) && rules.rules in lists
  }

  ghost predicate PcListed(lib: Library, lists: seq<seq<RuleDef>>, job: Job, pc: Pc) {
    match pc
    case AtRisk(_, rules) => Evaluates(lists, job, rules)
    case AtRead(e, _) => Evaluates(lists, job, e.rules)
    case AtLink(e, _) => Evaluates(lists, job, e.rules)
    case AtStore(e, _, p) => Evaluates(lists, job, e.rules) && e.Live() && lib.compile(e.Rule().condition) == Some(p)
    case _ => true
  }

  ghost predicate AllCompiled(lib: Library, lists: seq<seq<RuleDef>>, programs: Programs) {
    forall key :: key in programs ==> Compiled(lib, lists, key, programs[key])
  }

  lemma {:induction false} AdvanceListed(lib: Library, lists: seq<seq<RuleDef>>, job: Job, e: State)
    requires Evaluates(lists, job, e.rules)
    ensures PcListed(lib, lists, job, Advance(lib, job.tx, e)) && Advance(lib, job.tx, e) != Ended(Failed(RunFailed))
    decreases |e.rules.rules| - e.k
  {
    hide Decide;
    if e.Live() && e.Skips() {
      AdvanceListed(lib, lists, job, e.Next(Skip));
    }
  }

  lemma AfterListed(lib: Library, lists: seq<seq<RuleDef>>, job: Job, e: State, step: RuleStep)
    requires Evaluates(lists, job, e.rules) && e.Live()
    ensures PcListed(lib, lists, job, After(lib, job.tx, e, step))
    ensures step != Broken(Failed(RunFailed)) ==> After(lib, job.tx, e, step) != Ended(Failed(RunFailed))
  {
    if !step.Broken? {
      AdvanceListed(lib, lists, job, e.Next(step));
    }
  }

  lemma RunsCompiled(lib: Library, lists: seq<seq<RuleDef>>, job: Job, e: State, window: Option<WindowValue>,
                     p: Program)
    requires Evaluates(lists, job, e.rules) && e.Live() && Compiled(lib, lists, ProgramKey(e.Rule()), p)
    ensures var pc := After(lib, job.tx, e, RunProgram(lib, p, e.Env(job.tx, window)));
            && PcListed(lib, lists, job, pc)
            && (pc == Ended(Failed(RunFailed)) ==> RunErrorFor(lib, lists, RulesFor(job).rules))
  {
    AfterListed(lib, lists, job, e, RunProgram(lib, p, e.Env(job.tx, window)));
    hide After, Compiled, ProgramKey;
    assert e.Rule() in RulesFor(job).rules;
  }

  lemma ReadListed(lib: Library, lists: seq<seq<RuleDef>>, job: Job, e: State, got: seq<nat>, window: seq<W.Entry>)
    requires AtRead(e, got).Ok() && Evaluates(lists, job, e.rules)
    ensures var o := job.at(ReadSite(e.k, |got|));
            var pc := AfterRead(lib, job.tx, e, ReadOnce(lib, e.Rule().window.value, job.tx, window, o, got));
            PcListed(lib, lists, job, pc) && pc != Ended(Failed(RunFailed))
  {
    hide After, W.Kept, W.CountOn, W.MaxKm, W.Devices, Reach;
    AfterListed(lib, lists, job, e, Degrade);
  }

  lemma RuleCompiled(lib: Library, lists: seq<seq<RuleDef>>, job: Job, e: State)
    requires Evaluates(lists, job, e.rules) && e.Live() && lib.compile(e.Rule().condition).Some?
    ensures Compiled(lib, lists, ProgramKey(e.Rule()), lib.compile(e.Rule().condition).value)
  {
    hide ProgramKey;
    assert Keyed(lists, ProgramKey(e.Rule()), e.Rule());
  }

  lemma ActListed(lib: Library, lists: seq<seq<RuleDef>>, programs: Programs, s: Stores, job: Job, pc: Pc)
    requires pc.Ok() && !pc.Ended? && PcListed(lib, lists, job, pc) && AllCompiled(lib, lists, programs)
    requires pc.AtConfig? ==> RulesFor(job).rules in lists
    ensures var r := Act(lib, programs, s, job, pc);
            && AllCompiled(lib, lists, r.programs) && PcListed(lib, lists, job, r.pc)
            && (r.pc == Ended(Failed(RunFailed)) ==> RunErrorFor(lib, lists, RulesFor(job).rules))
  {
    hide After, Advance, AfterRead, ReadOnce, RunErrorFor, Compiled, ProgramKey,
         WithSeen, WithRecord, WithAlert, WithMark, RunProgram;
    match pc {
      case AtRisk(up, rules) => AdvanceListed(lib, lists, job, Begin(up, rules, RiskFor(job.at(RiskSite), rules)));
      case AtRead(e, got) => ReadListed(lib, lists, job, e, got, WindowOf(s, job.tx.customerId));
      case AtLink(e, window) =>
        if ProgramKey(e.Rule()) in programs {
          RunsCompiled(lib, lists, job, e, window, programs[ProgramKey(e.Rule())]);
        }
      case AtStore(e, window, p) =>
        RuleCompiled(lib, lists, job, e);
        RunsCompiled(lib, lists, job, e, window, p);
      case _ =>
    }
  }

  ghost predicate ListedInv(lib: Library, g: Engine)
    requires |g.pcs| == |g.pool.workers| && |g.outcomes| == |g.pool.finished|
  {
    && AllCompiled(lib, g.activated, g.programs)
    && (forall w :: 0 <= w < |g.pcs| && g.pool.workers[w].current.Some? ==>
        PcListed(lib, g.activated, JobAt(g, w), g.pcs[w]))
    && (forall i :: 0 <= i < |g.outcomes| && g.outcomes[i] == Failed(RunFailed)
          ==> RunErrorFor(lib, g.activated, RulesFor(g.pool.finished[i]).rules))
  }

  lemma ListedGrows(lib: Library, lists: seq<seq<RuleDef>>, more: seq<seq<RuleDef>>)
    requires forall a :: a in lists ==> a in more
    ensures forall key, p :: Compiled(lib, lists, key, p) ==> Compiled(lib, more, key, p)
    ensures forall job, pc :: PcListed(lib, lists, job, pc) ==> PcListed(lib, more, job, pc)
    ensures forall rules :: RunErrorFor(lib, lists, rules) ==> RunErrorFor(lib, more, rules)
  {
    hide ProgramKey;
    forall key, p | Compiled(lib, lists, key, p) ensures Compiled(lib, more, key, p) {
      var q :| Keyed(lists, key, q) && lib.compile(q.condition) == Some(p);
      assert Keyed(more, key, q);
    }
  }

  lemma ListedNext(lib: Library, customers: set<string>, g: Engine, ev: Label)
    requires Structured(lib, customers, g) && Ready(lib, customers, g, ev) && ListedInv(lib, g)
    ensures Structured(lib, customers, Next(lib, customers, g, ev)) && ListedInv(lib, Next(lib, customers, g, ev))
  {
    hide Act, D.Inv, Compiled, PcListed, RunErrorFor;
    StructuredNext(lib, customers, g, ev);
    if ev.Work? {
      ActListed(lib, g.activated, g.programs, g.stores, JobAt(g, ev.w), g.pcs[ev.w]);
    } else {
      ListedGrows(lib, g.activated, Next(lib, customers, g, ev).activated);
    }
    StartListed(lib, Next(lib, customers, g, ev).activated);
  }

  lemma StartListed(lib: Library, lists: seq<seq<RuleDef>>)
    ensures forall job :: PcListed(lib, lists, job, Start)
  {
  }

  /** A call ends in a run error only if a condition that was ever active under
      the key of one of its rules can. */
  lemma {:induction false} AlwaysListed(lib: Library, customers: set<string>, n: int, bundle: Bundle, clock: int,
                             states: seq<Engine>, labels: seq<Label>)
    requires Execution(lib, customers, n, bundle, clock, states, labels)
    ensures Structured(lib, customers, states[|labels|]) && ListedInv(lib, states[|labels|])
    decreases |labels|
  {
    AlwaysStructured(lib, customers, n, bundle, clock, states, labels);
    if labels != [] {
      ExecutionPrefix(lib, customers, n, bundle, clock, states, labels);
      AlwaysListed(lib, customers, n, bundle, clock, states[..|labels|], labels[..|labels| - 1]);
      ListedNext(lib, customers, states[|labels| - 1], labels[|labels| - 1]);
    }
  }

  // ---- metrics over runs ----

  /** The record reports the verdict of some finished call. */
  ghost predicate Recorded(g: Engine, r: M.Record) {
    exists i :: 0 <= i < |g.outcomes| && M.Reports(r, g.outcomes[i])
  }

  /** Over every run, whatever the cache holds: verdicts reach the counters with
      categories exactly when they alert, so the counters conserve them. */
  lemma MetricsConserved(lib: Library, customers: set<string>, n: int, bundle: Bundle, clock: int,
                         states: seq<Engine>, labels: seq<Label>, g: Engine, records: seq<M.Record>, category: string)
    requires Execution(lib, customers, n, bundle, clock, states, labels) && g == states[|labels|]
    requires forall r :: r in records ==> Recorded(g, r)
    ensures forall r :: r in records ==> M.Listed(r)
    ensures var c := M.AfterRecords(records);
            && c.processed == c.duplicates + |c.latencies| == |records|
            && c.alerts == |Filter(records, M.Raised())|
            && M.Get(c.byCategory, category) == |Filter(records, M.RaisedIn(category))| <= c.alerts
            && M.Tallies(c.byCategory, multiset(M.AllListed(records)))
  {
    OutcomesExplained(lib, customers, n, bundle, clock, states, labels, g);
    forall r | r in records ensures M.Listed(r) {
      var i :| 0 <= i < |g.outcomes| && M.Reports(r, g.outcomes[i]);
      ExplainedIsListed(g.pool.finished[i], g.outcomes[i], r);
    }
    M.Conservation(records, category);
    M.CategoriesConserved(records);
  }

  lemma ExplainedIsListed(job: Job, outcome: Outcome, r: M.Record)
    requires Explained(job, outcome) && M.Reports(r, outcome)
    ensures M.Listed(r)
  {
    if r.alert.Some? {
      var c :| c in r.alert.value.categories;
      assert c in r.listed;
    }
  }
}
