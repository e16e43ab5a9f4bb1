/** The configuration stays valid across hot reloads, and therefore no call of
    Process fails on account of it. */
module EngineSafety {
  import opened Sequences
  import opened Domain
  import opened Config
  import opened RuleEvaluation
  import opened ProgramCache
  import opened Processing
  import opened Steps
  import opened Locality
  import opened Engine
  import opened EngineRuns
  import opened Verdicts
  import D = Dispatch

  ghost predicate PcSafe(lib: Library, pc: Pc) {
    match pc
    case AtRisk(_, rules) => SafeSet(lib, rules)
    case AtRead(e, _) => SafeSet(lib, e.rules)
    case AtLink(e, _) => SafeSet(lib, e.rules)
    case AtStore(e, _, _) => SafeSet(lib, e.rules)
    case _ => true
  }

  /** The configuration is to blame neither for a compile error nor for a
      panic: no window spec was missing, no bucket had width zero, and a panic
      is one that an action observed. */
  ghost predicate SafeOutcome(job: Job, outcome: Outcome) {
    && outcome != Failed(CompileFailed)
    && (outcome.Panicked? ==> outcome.cause.InAction? && exists site :: job.at(site).panics)
  }

  /** The same of the outcome a step ends with: the panic is the step's own. */
  ghost predicate SafeEnd(o: Observation, outcome: Outcome) {
    && outcome != Failed(CompileFailed)
    && (outcome.Panicked? ==> outcome.cause.InAction? && o.panics)
  }

  /** The bucket width is positive, so computing the alert id cannot panic. */
  lemma DecideSafe(lib: Library, tx: Transaction, e: State)
    requires SafeSet(lib, e.rules)
    ensures !Decided(lib, tx, e).Ended?
  {
    NoBlowup(lib, tx, e.rules, e.up, e.hits, e.degraded);
  }

  lemma {:induction false} AdvanceSafe(lib: Library, tx: Transaction, e: State)
    requires SafeSet(lib, e.rules)
    ensures PcSafe(lib, Advance(lib, tx, e)) && !Advance(lib, tx, e).Ended?
    decreases |e.rules.rules| - e.k
  {
    if !e.Live() {
      DecideSafe(lib, tx, e);
    } else if e.Skips() {
      AdvanceSafe(lib, tx, e.Next(Skip));
    } else {
      assert ValidRule(lib, e.Rule());
    }
  }

  lemma AfterSafe(lib: Library, tx: Transaction, e: State, step: RuleStep)
    requires e.Live() && SafeSet(lib, e.rules)
    ensures PcSafe(lib, After(lib, tx, e, step))
    ensures After(lib, tx, e, step).Ended? ==> step == Broken(After(lib, tx, e, step).outcome)
  {
    if !step.Broken? {
      AdvanceSafe(lib, tx, e.Next(step));
    }
  }

  ghost predicate FindsSafeSet(lib: Library, job: Job, pc: Pc) {
    pc.AtConfig? ==> SafeSet(lib, job.at(ConfigSite).rules)
  }

  /** No step breaks on the configuration. */
  lemma ActSafe(lib: Library, programs: Programs, s: Stores, job: Job, pc: Pc)
    requires pc.Ok() && !pc.Ended? && PcSafe(lib, pc) && FindsSafeSet(lib, job, pc)
    ensures var next := Act(lib, programs, s, job, pc).pc;
            PcSafe(lib, next) && (next.Ended? ==> SafeEnd(job.at(pc.Site()), next.outcome))
  {
    hide After, Advance, SafeSet, WindowOf;
    var o := job.at(pc.Site());
    match pc {
      case AtRisk(up, rules) => AdvanceSafe(lib, job.tx, Begin(up, rules, RiskFor(o, rules)));
      case AtRead(e, got) => AfterSafe(lib, job.tx, e, Degrade);
      case AtLink(e, window) =>
        RuleCompiles(lib, e);
        if ProgramKey(e.Rule()) in programs {
          AfterSafe(lib, job.tx, e, RunProgram(lib, programs[ProgramKey(e.Rule())], e.Env(job.tx, window)));
        }
      case AtStore(e, window, p) => AfterSafe(lib, job.tx, e, RunProgram(lib, p, e.Env(job.tx, window)));
      case _ =>
    }
  }

  lemma RuleCompiles(lib: Library, e: State)
    requires e.Live() && SafeSet(lib, e.rules)
    ensures lib.compile(e.Rule().condition).Some?
  {
    assert ValidRule(lib, e.Rule());
  }

  ghost predicate AllShort(activated: seq<seq<RuleDef>>) {
    forall rules :: rules in activated ==> ShortSpans(rules)
  }

  ghost predicate SafeInv(lib: Library, g: Engine)
    requires |g.pcs| == |g.pool.workers| && |g.outcomes| == |g.pool.finished|
  {
    && ValidSet(lib, g.cfg.active)
    && g.cfg.active.version == g.cfg.version == |g.activated|
    && (forall w :: 0 <= w < |g.pcs| && g.pool.workers[w].current.Some? ==> PcSafe(lib, g.pcs[w]))
    && (forall i :: 0 <= i < |g.outcomes| ==> SafeOutcome(g.pool.finished[i], g.outcomes[i]))
  }

  lemma SafeWork(lib: Library, customers: set<string>, g: Engine, w: nat)
    requires Structured(lib, customers, g) && Ready(lib, customers, g, Work(w))
    requires SafeInv(lib, g) && AllShort(g.activated)
    requires Structured(lib, customers, Worked(lib, g, w))
    ensures SafeInv(lib, Worked(lib, g, w))
  {
    hide Act, D.Inv, PcOwn, SafeOutcome, PcSafe, ValidSet, ShortSpans;
    assert SafeSet(lib, g.cfg.active) by {
      assert g.cfg.active.rules in g.activated;
    }
    SafeAct(lib, g, w);
  }

  lemma SafeAct(lib: Library, g: Engine, w: nat)
    requires Busy(g, w) && PcSafe(lib, g.pcs[w]) && SafeSet(lib, g.cfg.active)
    requires Consistent(g, w, JobAt(g, w).at(g.pcs[w].Site()))
    ensures var next := Act(lib, g.programs, g.stores, JobAt(g, w), g.pcs[w]).pc;
            PcSafe(lib, next) && (next.Ended? ==> SafeOutcome(JobAt(g, w), next.outcome))
    ensures PcSafe(lib, Start)
  {
    ActSafe(lib, g.programs, g.stores, JobAt(g, w), g.pcs[w]);
  }

  lemma SafeNext(lib: Library, customers: set<string>, g: Engine, ev: Label)
    requires Structured(lib, customers, g) && Ready(lib, customers, g, ev)
    requires SafeInv(lib, g) && AllShort(g.activated)
    ensures Structured(lib, customers, Next(lib, customers, g, ev))
    ensures SafeInv(lib, Next(lib, customers, g, ev))
  {
    hide Act, D.Inv, SafeOutcome;
    StructuredNext(lib, customers, g, ev);
    if ev.Work? {
      SafeWork(lib, customers, g, ev.w);
    }
  }

  /** Starting from a validated bundle, over every run whose spans do not wrap:
      the active set is valid, its version is one more than the number of
      successful swaps, and no finished call failed to compile a condition,
      read a missing window spec or divided by zero. */
  lemma {:induction false} AlwaysSafe(lib: Library, customers: set<string>, n: int, bundle: Bundle, clock: int,
                           states: seq<Engine>, labels: seq<Label>)
    requires Execution(lib, customers, n, bundle, clock, states, labels)
    requires ValidBundle(lib, bundle) && AllShort(states[|labels|].activated)
    ensures Structured(lib, customers, states[|labels|]) && SafeInv(lib, states[|labels|])
    decreases |labels|
  {
    AlwaysStructured(lib, customers, n, bundle, clock, states, labels);
    if labels != [] {
      ExecutionPrefix(lib, customers, n, bundle, clock, states, labels);
      var g := states[|labels| - 1];
      assert AllShort(g.activated) by {
        assert forall rules :: rules in g.activated ==> rules in states[|labels|].activated;
      }
      AlwaysSafe(lib, customers, n, bundle, clock, states[..|labels|], labels[..|labels| - 1]);
      SafeNext(lib, customers, g, labels[|labels| - 1]);
    }
  }
}
