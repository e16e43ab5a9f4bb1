/** Rule evaluation (internal/engine/evaluator.go). Every window read makes its
    own observation, so the store may go down between any two of them. */
module RuleEvaluation {
  import opened Sequences
  import opened Domain
  import W = WindowStore

  const CHANNELS: seq<Channel> := [Pix, Ted, Card]

  /** The span of a window as a duration; large spans wrap around. */
  function SpanNanos(spec: WindowSpec): int {
    Wrap64(spec.spanSeconds * 1_000_000_000)
  }

  lemma SpanDoesNotWrap(spec: WindowSpec)
    requires 0 < spec.spanSeconds <= 9_223_372_036
    ensures SpanNanos(spec) == Reach(spec) == spec.spanSeconds * 1_000_000_000
  {}

  /** How far back a query with the span looks: the span negated twice, of
      which the first negation is that of a duration. */
  function Reach(spec: WindowSpec): int {
    -Negated(SpanNanos(spec))
  }

  /** The one duration without a negative: the span wraps to it, and its query
      sees everything. Every other span reaches back as far as it says. */
  lemma ReachAtTheEdge(spec: WindowSpec)
    ensures Reach(spec) == if SpanNanos(spec) == -0x8000_0000_0000_0000 then 0x8000_0000_0000_0000 else SpanNanos(spec)
    ensures spec.spanSeconds == 18_014_398_509_481_984 ==> SpanNanos(spec) == -0x8000_0000_0000_0000
  {}

  // ---- reading the window for one rule ----

  datatype Reading = Got(value: WindowValue) | Down | Broke(outcome: Outcome) | More(got: seq<nat>)

  /** One call on the window store; counts need three. */
  function ReadOnce(lib: Library, spec: WindowSpec, tx: Transaction, window: seq<W.Entry>,
                    o: Observation, got: seq<nat>): (r: Reading)
    requires |got| < 3
    ensures r.More? ==> |r.got| == |got| + 1 < 3
    ensures r.Broke? ==> !r.outcome.Verdict?
  {
    if o.panics then Broke(Panicked(InAction))
    else if o.fault then Broke(Failed(ReadFailed))
    else if o.down then Down
    else
      var inSpan := W.Kept(window, o.now - Reach(spec));
      match spec.kind
      case GeoDistance => Got(MaxDistance(W.MaxKm(lib, inSpan, tx)))
      case DeviceDiversity => Got(DistinctDevices(|W.Devices(inSpan)|))
      case _ =>
        var n := W.CountOn(inSpan, CHANNELS[|got|]);
        if |got| < 2 then More(got + [n]) else Got(Counts(got[0], got[1], n))
  }

  function ReadAll(lib: Library, spec: WindowSpec, k: nat, tx: Transaction, window: seq<W.Entry>,
                   at: Site -> Observation, got: seq<nat>): (r: Reading)
    requires |got| < 3
    ensures !r.More?
    ensures r.Broke? ==> !r.outcome.Verdict?
    decreases 3 - |got|
  {
    match ReadOnce(lib, spec, tx, window, at(ReadSite(k, |got|)), got)
    case More(more) => ReadAll(lib, spec, k, tx, window, at, more)
    case r => r
  }

  predicate Fine(o: Observation) { !o.panics && !o.fault && !o.down }

  /** One read that goes through, and how reading goes on from it. */
  lemma FineRead(lib: Library, spec: WindowSpec, k: nat, tx: Transaction, window: seq<W.Entry>,
                 at: Site -> Observation, got: seq<nat>) returns (r: Reading)
    requires |got| < 3 && Fine(at(ReadSite(k, |got|)))
    ensures var inSpan := W.Kept(window, at(ReadSite(k, |got|)).now - Reach(spec));
            r == match spec.kind
              case GeoDistance => Got(MaxDistance(W.MaxKm(lib, inSpan, tx)))
              case DeviceDiversity => Got(DistinctDevices(|W.Devices(inSpan)|))
              case _ =>
                var n := W.CountOn(inSpan, CHANNELS[|got|]);
                if |got| < 2 then More(got + [n]) else Got(Counts(got[0], got[1], n))
    ensures ReadAll(lib, spec, k, tx, window, at, got)
         == if r.More? then ReadAll(lib, spec, k, tx, window, at, r.got) else r
  {
    hide W.Kept, W.CountOn, W.MaxKm, W.Devices, Reach;
    r := ReadOnce(lib, spec, tx, window, at(ReadSite(k, |got|)), got);
  }

  /** The number of reads that a window of this kind takes. */
  function ReadsOf(kind: WindowType): nat {
    if kind.GeoDistance? || kind.DeviceDiversity? then 1 else 3
  }

  /** What the condition of a rule sees when every read goes through: the
      distance, the device count, or the count of each channel, over the entries
      in span; each count as of the clock at its own read. */
  lemma ReadsAreQueries(lib: Library, spec: WindowSpec, k: nat, tx: Transaction, window: seq<W.Entry>,
                        at: Site -> Observation)
    requires forall j :: 0 <= j < ReadsOf(spec.kind) ==> Fine(at(ReadSite(k, j)))
    ensures var inSpan := (j: nat) => W.Kept(window, at(ReadSite(k, j)).now - Reach(spec));
            ReadAll(lib, spec, k, tx, window, at, []) ==
              match spec.kind
              case GeoDistance => Got(MaxDistance(W.MaxKm(lib, inSpan(0), tx)))
              case DeviceDiversity => Got(DistinctDevices(|W.Devices(inSpan(0))|))
              case _ => Got(Counts(W.CountOn(inSpan(0), Pix), W.CountOn(inSpan(1), Ted), W.CountOn(inSpan(2), Card)))
  {
    hide ReadAll, ReadOnce, W.Kept, W.CountOn, W.MaxKm, W.Devices, Reach;
    assert Fine(at(ReadSite(k, 0)));
    var first := FineRead(lib, spec, k, tx, window, at, []);
    if first.More? {
      assert Fine(at(ReadSite(k, 1))) && Fine(at(ReadSite(k, 2)));
      var second := FineRead(lib, spec, k, tx, window, at, first.got);
      var third := FineRead(lib, spec, k, tx, window, at, second.got);
    }
  }

  // ---- deciding one rule ----

  datatype RuleStep = Skip | Degrade | Hit | Miss | Broken(outcome: Outcome)

  function EnvOf(rule: RuleDef, tx: Transaction, risk: RiskProfile, window: Option<WindowValue>): Env {
    Env(tx.amount, tx.currency, tx.channel, tx.deviceId, tx.customerId,
        if rule.RequiresLayer(CustomerRiskLayer) then Some(risk) else None, window)
  }

  function RunProgram(lib: Library, p: Program, env: Env): RuleStep {
    match lib.run(p, env)
    case Matched => Hit
    case RunError => Broken(Failed(RunFailed))
    case _ => Miss
  }

  function Judge(lib: Library, rule: RuleDef, env: Env, o: Observation): RuleStep {
    if o.panics then Broken(Panicked(InAction))
    else match lib.compile(rule.condition)
      case None => Broken(Failed(CompileFailed))
      case Some(p) => RunProgram(lib, p, env)
  }

  /** The evaluation loop's variables: rules before k are done. */
  datatype State = State(up: bool, rules: RuleSet, risk: RiskProfile, k: nat, hits: seq<RuleDef>, degraded: bool)
  {
    predicate Live() { k < |rules.rules| }

    function Rule(): RuleDef
      requires Live()
    {
      rules.rules[k]
    }

    /** Disabled, or in need of a window known to be unavailable. */
    predicate Skips()
      requires Live()
    {
      !Rule().enabled || (Rule().RequiresLayer(WindowLayer) && !up)
    }

    predicate Reads()
      requires Live()
    {
      Rule().RequiresLayer(WindowLayer)
    }

    function Env(tx: Transaction, window: Option<WindowValue>): Env
      requires Live()
    {
      EnvOf(Rule(), tx, risk, window)
    }

    function Next(step: RuleStep): State
      requires Live()
    {
      State(up, rules, risk, k + 1,
            if step.Hit? then hits + [Rule()] else hits,
            degraded || step.Degrade?)
    }
  }

  function AfterReading(lib: Library, e: State, tx: Transaction, reading: Reading, o: Observation): RuleStep
    requires e.Live() && !reading.More?
  {
    match reading
    case Down => Degrade
    case Broke(outcome) => Broken(outcome)
    case Got(v) => Judge(lib, e.Rule(), e.Env(tx, Some(v)), o)
  }

  function StepOf(lib: Library, e: State, tx: Transaction, window: seq<W.Entry>, at: Site -> Observation): (r: RuleStep)
    requires e.Live()
    ensures r.Broken? ==> !r.outcome.Verdict?
  {
    if e.Skips() then Skip
    else if !e.Reads() then Judge(lib, e.Rule(), e.Env(tx, None), at(LinkSite(e.k)))
    else if e.Rule().window.None? then Broken(Panicked(NilWindow))  // a nil window is dereferenced
    else
      var reading := ReadAll(lib, e.Rule().window.value, e.k, tx, window, at, []);
      AfterReading(lib, e, tx, reading, at(LinkSite(e.k)))
  }

  // ---- the loop over the rules ----

  datatype Evaluation = Completed(hits: seq<RuleDef>, degraded: bool) | Aborted(outcome: Outcome)

  function Loop(lib: Library, e: State, tx: Transaction, window: seq<W.Entry>, at: Site -> Observation): (r: Evaluation)
    ensures r.Aborted? ==> !r.outcome.Verdict?
    decreases |e.rules.rules| - e.k
  {
    if !e.Live() then Completed(e.hits, e.degraded)
    else
      match StepOf(lib, e, tx, window, at)
      case Broken(outcome) => Aborted(outcome)
      case step => Loop(lib, e.Next(step), tx, window, at)
  }

  function Begin(up: bool, rules: RuleSet, risk: RiskProfile): State {
    State(up, rules, risk, 0, [], false)
  }

  function Evaluate(lib: Library, rules: RuleSet, tx: Transaction, risk: RiskProfile, up: bool,
                    window: seq<W.Entry>, at: Site -> Observation): Evaluation {
    Loop(lib, Begin(up, rules, risk), tx, window, at)
  }

  // ---- what the hits add up to ----

  function Refs(hits: seq<RuleDef>): (r: seq<RuleRef>)
    ensures |r| == |hits|
    ensures forall i :: 0 <= i < |hits| ==> r[i] == RuleRef(hits[i].ruleId, hits[i].version)
  {
    if hits == [] then []
    else
      var h := hits[|hits| - 1];
      Refs(hits[..|hits| - 1]) + [RuleRef(h.ruleId, h.version)]
  }

  function Severities(hits: seq<RuleDef>): (r: seq<Severity>)
    ensures |r| == |hits|
    ensures forall i :: 0 <= i < |hits| ==> r[i] == hits[i].emits.severity
  {
    if hits == [] then []
    else Severities(hits[..|hits| - 1]) + [hits[|hits| - 1].emits.severity]
  }

  function Categories(hits: seq<RuleDef>): set<string> {
    set h | h in hits :: h.emits.category
  }

  /** The running severity, which starts over while it is the empty string. */
  function RunningSeverity(hits: seq<RuleDef>): Severity {
    if hits == [] then Unset
    else
      var soFar, s := RunningSeverity(hits[..|hits| - 1]), hits[|hits| - 1].emits.severity;
      if soFar == Unset then s else MaxSeverity(soFar, s)
  }

  // ---- degradation ----

  predicate NeedsNoWindow(rule: RuleDef) { !rule.RequiresLayer(WindowLayer) }

  /** The same observations with the window store up throughout. */
  predicate Healthier(sick: Site -> Observation, well: Site -> Observation, k: nat) {
    && well(LinkSite(k)) == sick(LinkSite(k)).(down := false)
    && (forall j :: 0 <= j < 3 ==> well(ReadSite(k, j)) == sick(ReadSite(k, j)).(down := false))
  }

  /** How two runs over the same rules compare when only one suffers outages. */
  ghost predicate SubRun(up: bool, sickHits: seq<RuleDef>, sickDegraded: bool, wellHits: seq<RuleDef>) {
    && Subsequence(sickHits, wellHits)
    && Filter(sickHits, NeedsNoWindow) == Filter(wellHits, NeedsNoWindow)
    && (up && !sickDegraded ==> sickHits == wellHits)
  }

  lemma {:induction false} ReadUnderOutage(lib: Library, spec: WindowSpec, k: nat, tx: Transaction,
                                           window: seq<W.Entry>,
                        sick: Site -> Observation, well: Site -> Observation, got: seq<nat>)
    requires |got| < 3 && Healthier(sick, well, k)
    requires ReadAll(lib, spec, k, tx, window, well, got).Got?
    ensures ReadAll(lib, spec, k, tx, window, sick, got) == Down ||
            ReadAll(lib, spec, k, tx, window, sick, got) == ReadAll(lib, spec, k, tx, window, well, got)
    decreases 3 - |got|
  {
    var r := ReadOnce(lib, spec, tx, window, well(ReadSite(k, |got|)), got);
    if r.More? {
      ReadUnderOutage(lib, spec, k, tx, window, sick, well, r.got);
    }
  }

  lemma {:induction false} ReadNeverDown(lib: Library, spec: WindowSpec, k: nat, tx: Transaction, window: seq<W.Entry>,
                        sick: Site -> Observation, well: Site -> Observation, got: seq<nat>)
    requires |got| < 3 && Healthier(sick, well, k)
    ensures ReadAll(lib, spec, k, tx, window, well, got) != Down
    decreases 3 - |got|
  {
    var r := ReadOnce(lib, spec, tx, window, well(ReadSite(k, |got|)), got);
    if r.More? {
      ReadNeverDown(lib, spec, k, tx, window, sick, well, r.got);
    }
  }

  /** An outage can only turn a window rule into a skipped one. */
  predicate Weakens(e: State, sick: RuleStep, well: RuleStep)
    requires e.Live()
  {
    sick == well || (e.Reads() && (sick.Degrade? || (sick.Skip? && !e.up)))
  }

  lemma DegradedStep(lib: Library, e: State, f: State, tx: Transaction, window: seq<W.Entry>,
                     sick: Site -> Observation, well: Site -> Observation)
    requires e.Live() && f.up && e.k == f.k && e.rules == f.rules && e.risk == f.risk
    requires Healthier(sick, well, e.k)
    requires !StepOf(lib, f, tx, window, well).Broken?
    ensures !StepOf(lib, f, tx, window, well).Degrade?
    ensures !StepOf(lib, e, tx, window, sick).Broken?
    ensures Weakens(e, StepOf(lib, e, tx, window, sick), StepOf(lib, f, tx, window, well))
  {
    if e.Rule().enabled && e.Reads() && e.Rule().window.Some? {
      var spec := e.Rule().window.value;
      ReadNeverDown(lib, spec, e.k, tx, window, sick, well, []);
      ReadUnderOutage(lib, spec, e.k, tx, window, sick, well, []);
    }
  }

  lemma SubRunStep(e: State, f: State, s: RuleStep, t: RuleStep)
    requires e.Live() && e.k == f.k && e.rules == f.rules && e.risk == f.risk
    requires SubRun(e.up, e.hits, e.degraded, f.hits) && Weakens(e, s, t)
    ensures SubRun(e.up, e.Next(s).hits, e.Next(s).degraded, f.Next(t).hits)
  {
    SubsequenceAppend(e.hits, f.hits, e.Rule());
    FilterAppend(e.hits, e.Rule(), NeedsNoWindow);
    FilterAppend(f.hits, e.Rule(), NeedsNoWindow);
  }

  /** The loop under outages, against the loop with the store up throughout. */
  lemma {:induction false} DegradedLoop(lib: Library, e: State, f: State, tx: Transaction, window: seq<W.Entry>,
                     sick: Site -> Observation, well: Site -> Observation)
    requires f.up && e.k == f.k && e.rules == f.rules && e.risk == f.risk && !f.degraded
    requires SubRun(e.up, e.hits, e.degraded, f.hits)
    requires forall k :: Healthier(sick, well, k)
    requires Loop(lib, f, tx, window, well).Completed?
    ensures Loop(lib, e, tx, window, sick).Completed?
    ensures !Loop(lib, f, tx, window, well).degraded
    ensures var x, y := Loop(lib, e, tx, window, sick), Loop(lib, f, tx, window, well);
            SubRun(e.up, x.hits, x.degraded, y.hits)
    decreases |e.rules.rules| - e.k
  {
    if e.Live() {
      assert Healthier(sick, well, e.k);
      var s, t := StepOf(lib, e, tx, window, sick), StepOf(lib, f, tx, window, well);
      DegradedStep(lib, e, f, tx, window, sick, well);
      SubRunStep(e, f, s, t);
      DegradedLoop(lib, e.Next(s), f.Next(t), tx, window, sick, well);
    }
  }

  /** Outages, in any pattern, never make evaluation fail; what still triggers
      is a sub-list of what would have triggered, with every hit that needs no
      window kept; and it is the whole list when nothing was reported degraded. */
  lemma DegradationIsSubRun(lib: Library, rules: RuleSet, tx: Transaction, risk: RiskProfile, up: bool,
                            window: seq<W.Entry>, sick: Site -> Observation, well: Site -> Observation)
    requires forall k :: Healthier(sick, well, k)
    requires Evaluate(lib, rules, tx, risk, true, window, well).Completed?
    ensures Evaluate(lib, rules, tx, risk, up, window, sick).Completed?
    ensures var x := Evaluate(lib, rules, tx, risk, up, window, sick);
            var y := Evaluate(lib, rules, tx, risk, true, window, well);
            && SubRun(up, x.hits, x.degraded, y.hits)
            && !y.degraded
  {
    DegradedLoop(lib, Begin(up, rules, risk), Begin(true, rules, risk), tx, window, sick, well);
  }

  lemma {:induction false} ReadUnderNoOutage(lib: Library, spec: WindowSpec, k: nat, tx: Transaction,
                                             window: seq<W.Entry>,
                        sick: Site -> Observation, well: Site -> Observation, got: seq<nat>)
    requires |got| < 3 && Healthier(sick, well, k)
    requires ReadAll(lib, spec, k, tx, window, sick, got) != Down
    ensures ReadAll(lib, spec, k, tx, window, well, got) == ReadAll(lib, spec, k, tx, window, sick, got)
    decreases 3 - |got|
  {
    var r := ReadOnce(lib, spec, tx, window, sick(ReadSite(k, |got|)), got);
    if r.More? {
      ReadUnderNoOutage(lib, spec, k, tx, window, sick, well, r.got);
    }
  }

  /** An evaluation that reports no degradation is the one with the store up throughout. */
  lemma {:induction false} UndegradedLoop(lib: Library, e: State, tx: Transaction, window: seq<W.Entry>,
                               sick: Site -> Observation, well: Site -> Observation)
    requires e.up && forall k :: Healthier(sick, well, k)
    requires Loop(lib, e, tx, window, sick).Completed? && !Loop(lib, e, tx, window, sick).degraded
    ensures !e.degraded
    ensures Loop(lib, e, tx, window, well) == Loop(lib, e, tx, window, sick)
    decreases |e.rules.rules| - e.k
  {
    hide ReadAll, ReadOnce, RunProgram;
    if e.Live() {
      assert Healthier(sick, well, e.k);
      var step := StepOf(lib, e, tx, window, sick);
      UndegradedLoop(lib, e.Next(step), tx, window, sick, well);
      if e.Rule().enabled && e.Reads() && e.Rule().window.Some? {
        ReadUnderNoOutage(lib, e.Rule().window.value, e.k, tx, window, sick, well, []);
      }
    }
  }

  /** With the window known to be unavailable its contents do not matter. */
  lemma {:induction false} DownIgnoresWindow(lib: Library, e: State, tx: Transaction, v: seq<W.Entry>, w: seq<W.Entry>,
                                             at: Site -> Observation)
    requires !e.up
    ensures Loop(lib, e, tx, v, at) == Loop(lib, e, tx, w, at)
    decreases |e.rules.rules| - e.k
  {
    hide ReadAll, Judge;
    if e.Live() {
      DownIgnoresWindow(lib, e.Next(StepOf(lib, e, tx, v, at)), tx, v, w, at);
    }
  }
}
