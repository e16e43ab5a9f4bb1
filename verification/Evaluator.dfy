/** The evaluator the engine shares between workers (internal/engine/evaluator.go):
    its loops and its cache, against the specification in module RuleEvaluation.
    Other goroutines may flip the window switch before any read; the switch
    position each read finds comes with the read's observation. */
module Evaluator {
  import opened Sequences
  import opened Domain
  import opened Scoring
  import opened RuleEvaluation
  import opened ProgramCache
  import W = WindowStore

  datatype EvalResult =
    | Evaluated(refs: seq<RuleRef>, severity: Severity, categories: seq<string>, score: real, windowDegraded: bool)
    | Aborts(outcome: Outcome)

  ghost predicate Lists(list: seq<string>, members: set<string>) {
    && (forall i, j :: 0 <= i < j < |list| ==> list[i] != list[j])
    && (forall c :: c in list <==> c in members)
  }

  /** What Evaluate returns for the hits the specification computes; the order
      of the category list is the map's iteration order, so it is left open. */
  ghost predicate Reports(r: EvalResult, e: Evaluation) {
    match e
    case Aborted(outcome) => r == Aborts(outcome)
    case Completed(hits, degraded) =>
      && r.Evaluated?
      && r.refs == Refs(hits)
      && r.severity == RunningSeverity(hits)
      && Lists(r.categories, Categories(hits))
      && r.score == ScoreOf(Severities(hits))
      && r.windowDegraded == degraded
  }

  /** Lists the keys of a set, in some order. */
  method ListOf(members: set<string>) returns (list: seq<string>)
    ensures Lists(list, members)
  {
    list := [];
    var rest := members;
    while rest != {}
      invariant rest <= members
      invariant Lists(list, members - rest)
      decreases |rest|
    {
      var c :| c in rest;
      rest := rest - {c};
      list := list + [c];
    }
  }

  /** The variables the loop over the rules accumulates. */
  datatype Tally = Tally(refs: seq<RuleRef>, sevs: seq<Severity>, categories: set<string>, severity: Severity,
                         degraded: bool)
  {
    ghost predicate Sums(hits: seq<RuleDef>, degraded: bool) {
      && refs == Refs(hits)
      && sevs == Severities(hits)
      && categories == Categories(hits)
      && severity == RunningSeverity(hits)
      && this.degraded == degraded
    }
  }

  const EMPTY_TALLY := Tally([], [], {}, Unset, false)

  lemma HitSums(hits: seq<RuleDef>, rule: RuleDef)
    ensures Refs(hits + [rule]) == Refs(hits) + [RuleRef(rule.ruleId, rule.version)]
    ensures Severities(hits + [rule]) == Severities(hits) + [rule.emits.severity]
    ensures Categories(hits + [rule]) == Categories(hits) + {rule.emits.category}
    ensures RunningSeverity(hits + [rule])
         == if RunningSeverity(hits) == Unset then rule.emits.severity
            else MaxSeverity(RunningSeverity(hits), rule.emits.severity)
  {
    assert (hits + [rule])[..|hits|] == hits;
  }

  /** What one rule does depends neither on the hits so far nor on degradation. */
  lemma StepIgnoresHits(lib: Library, s: State, tx: Transaction, window: seq<W.Entry>, at: Site -> Observation)
    requires s.Live()
    ensures StepOf(lib, s, tx, window, at) == StepOf(lib, s.(hits := [], degraded := false), tx, window, at)
  {
  }

  lemma NoSums()
    ensures EMPTY_TALLY.Sums([], false)
  {
  }

  /** One rule's verdict added to the accumulated variables. */
  method Accumulate(t: Tally, rule: RuleDef, step: RuleStep, ghost s: State) returns (t': Tally)
    requires s.Live() && rule == s.Rule() && !step.Broken? && t.Sums(s.hits, s.degraded)
    ensures t'.Sums(s.Next(step).hits, s.Next(step).degraded)
  {
    match step {
      case Skip => return t;
      case Miss => return t;
      case Degrade => return t.(degraded := true);
      case Hit =>
        HitSums(s.hits, rule);
        hide Refs, Severities, Categories, RunningSeverity;
        var severity :=
          if t.severity == Unset then rule.emits.severity else MaxSeverity(t.severity, rule.emits.severity);
        return Tally(t.refs + [RuleRef(rule.ruleId, rule.version)], t.sevs + [rule.emits.severity],
                     t.categories + {rule.emits.category}, severity, t.degraded);
    }
  }

  class Evaluator {
    const store: W.Store
    var programs: Programs

    constructor (store: W.Store)
      ensures this.store == store && programs == map[]
    {
      this.store, programs := store, map[];
    }

    method ProgramFor(lib: Library, rule: RuleDef, ghost comp: string -> Option<Program>) returns (p: Option<Program>)
      requires Coherent(programs, comp) && comp(ProgramKey(rule)) == lib.compile(rule.condition)
      modifies this
      ensures p == lib.compile(rule.condition)
      ensures Coherent(programs, comp)
    {
      var key := ProgramKey(rule);
      if key in programs {
        return Some(programs[key]);
      }
      p := lib.compile(rule.condition);
      if p.Some? {
        programs := programs[key := p.value];
      }
    }

    /** One call on the window store, finding the switch as o has it. */
    method ReadStore(lib: Library, spec: WindowSpec, tx: Transaction, o: Observation, got: seq<nat>)
      returns (r: Reading)
      requires store.Valid() && |got| < 3
      modifies store`down
      ensures r == ReadOnce(lib, spec, tx, store.Window(tx.customerId), o, got)
    {
      if o.panics { return Broke(Panicked(InAction)); }
      if o.fault { return Broke(Failed(ReadFailed)); }
      store.SetDown(o.down);
      var span := SpanNanos(spec);
      match spec.kind {
        case GeoDistance =>
          var d := store.MaxDistanceKm(lib, tx.customerId, tx, span, o.now);
          r := if d.None? then Down else Got(MaxDistance(d.value));
        case DeviceDiversity =>
          var n := store.DistinctDeviceCount(tx.customerId, span, o.now);
          r := if n.None? then Down else Got(DistinctDevices(n.value));
        case _ =>
          var n := store.CountByChannel(tx.customerId, CHANNELS[|got|], span, o.now);
          r := if n.None? then Down
          else if |got| < 2 then More(got + [n.value])
          else Got(Counts(got[0], got[1], n.value));
      }
    }

    /** The window part of buildEnv: one read, or one per known channel. */
    method ReadWindow(lib: Library, spec: WindowSpec, k: nat, tx: Transaction, at: Site -> Observation)
      returns (r: Reading)
      requires store.Valid()
      modifies store`down
      ensures r == ReadAll(lib, spec, k, tx, store.Window(tx.customerId), at, [])
    {
      ghost var window := store.Window(tx.customerId);
      r := ReadStore(lib, spec, tx, at(ReadSite(k, 0)), []);
      while r.More?
        invariant store.Window(tx.customerId) == window
        invariant r.More? ==> |r.got| < 3
        invariant ReadAll(lib, spec, k, tx, window, at, [])
               == if r.More? then ReadAll(lib, spec, k, tx, window, at, r.got) else r
        decreases r.More?, if r.More? then 3 - |r.got| else 0
      {
        r := ReadStore(lib, spec, tx, at(ReadSite(k, |r.got|)), r.got);
      }
    }

    /** The body of the loop over the rules, up to the verdict on one rule. */
    method EvaluateRule(lib: Library, e: State, tx: Transaction, at: Site -> Observation,
                        ghost comp: string -> Option<Program>)
      returns (step: RuleStep)
      requires store.Valid() && e.Live()
      requires Coherent(programs, comp) && Disciplined(lib, e.rules.rules, comp)
      modifies this, store`down
      ensures step == StepOf(lib, e, tx, store.Window(tx.customerId), at)
      ensures Coherent(programs, comp)
    {
      var rule := e.Rule();
      if !rule.enabled { return Skip; }
      if rule.RequiresLayer(WindowLayer) && !e.up { return Skip; }
      var window := None;
      if rule.RequiresLayer(WindowLayer) {
        if rule.window.None? { return Broken(Panicked(NilWindow)); }
        var reading := ReadWindow(lib, rule.window.value, e.k, tx, at);
        match reading {
          case Down => return Degrade;
          case Broke(outcome) => return Broken(outcome);
          case Got(v) => window := Some(v);
        }
      }
      if at(LinkSite(e.k)).panics { return Broken(Panicked(InAction)); }
      var program := ProgramFor(lib, rule, comp);
      if program.None? { return Broken(Failed(CompileFailed)); }
      return RunProgram(lib, program.value, EnvOf(rule, tx, e.risk, window));
    }

    method Evaluate(lib: Library, rules: RuleSet, tx: Transaction, risk: RiskProfile, windowAvailable: bool,
                    at: Site -> Observation, ghost comp: string -> Option<Program>)
      returns (r: EvalResult, ghost e: Evaluation)
      requires store.Valid()
      requires Coherent(programs, comp) && Disciplined(lib, rules.rules, comp)
      modifies this, store`down
      ensures e == RuleEvaluation.Evaluate(lib, rules, tx, risk, windowAvailable, store.Window(tx.customerId), at)
      ensures Reports(r, e)
      ensures Coherent(programs, comp)
    {
      hide StepOf, Coherent, Disciplined, Severities, RunningSeverity, Categories, Refs, ScoreOf;
      var t := EMPTY_TALLY;
      assert t.Sums([], false) by { NoSums(); }
      ghost var s := Begin(windowAvailable, rules, risk);
      ghost var window := store.Window(tx.customerId);
      e := RuleEvaluation.Evaluate(lib, rules, tx, risk, windowAvailable, window, at);
      for k := 0 to |rules.rules|
        invariant store.Window(tx.customerId) == window && Coherent(programs, comp)
        invariant s == State(windowAvailable, rules, risk, k, s.hits, s.degraded)
        invariant t.Sums(s.hits, s.degraded)
        invariant Loop(lib, s, tx, window, at) == e
      {
        var step := EvaluateRule(lib, State(windowAvailable, rules, risk, k, [], false), tx, at, comp);
        StepIgnoresHits(lib, s, tx, window, at);
        if step.Broken? {
          return Aborts(step.outcome), e;
        }
        t := Accumulate(t, rules.rules[k], step, s);
        s := s.Next(step);
      }
      var list := ListOf(t.categories);
      var score := Score(t.sevs);
      return Evaluated(t.refs, t.severity, list, score, t.degraded), e;
    }
  }
}
