/** What the condition of a rule sees when it runs, and which rules therefore
    hit (internal/engine/evaluator.go, Evaluate and buildEnv;
    internal/pipeline/processor.go, resolveRisk). */
module Conditions {
  import opened Sequences
  import opened Domain
  import opened RuleEvaluation
  import opened Config
  import opened Processing
  import opened Verdicts
  import opened RuleOrder
  import W = WindowStore

  // ---- the reads of one rule ----

  /** A read that ends neither in an error nor in a panic was Down exactly if
      some read found the store down, and otherwise every read went through. */
  lemma ReadFate(lib: Library, spec: WindowSpec, k: nat, tx: Transaction, window: seq<W.Entry>, at: Site -> Observation)
    ensures var r := ReadAll(lib, spec, k, tx, window, at, []);
            && (r.Down? ==> exists j :: 0 <= j < ReadsOf(spec.kind) && at(ReadSite(k, j)).down)
            && (r.Got? ==> forall j :: 0 <= j < ReadsOf(spec.kind) ==> Fine(at(ReadSite(k, j))))
  {
    hide Reach, W.Kept, W.CountOn, W.MaxKm, W.Devices;
    var first := ReadOnce(lib, spec, tx, window, at(ReadSite(k, 0)), []);
    if first.More? {
      var second := ReadOnce(lib, spec, tx, window, at(ReadSite(k, 1)), first.got);
      assert ReadAll(lib, spec, k, tx, window, at, []) == ReadAll(lib, spec, k, tx, window, at, first.got);
    }
  }

  // ---- one rule ----

  /** The rule is enabled, and has its window if it needs one. */
  predicate Applies(rule: RuleDef, up: bool) {
    rule.enabled && (WindowLayer in rule.requires_ ==> up)
  }

  /** Every read of the window that the rule needs goes through. */
  predicate ReadsThrough(rule: RuleDef, k: nat, at: Site -> Observation) {
    WindowLayer in rule.requires_ ==>
      rule.window.Some? && forall j :: 0 <= j < ReadsOf(rule.window.value.kind) ==> Fine(at(ReadSite(k, j)))
  }

  /** The entries in the span at read j of rule k. */
  function Within(window: seq<W.Entry>, spec: WindowSpec, k: nat, j: nat, at: Site -> Observation): seq<W.Entry> {
    W.Kept(window, at(ReadSite(k, j)).now - Reach(spec))
  }

  /** The condition of an enabled rule whose reads go through runs once, in the
      environment of this transaction: its fields, the customer's risk profile
      exactly if the rule requires that layer, and the reading of its window
      exactly if it requires that one. The rule hits exactly if that matches. */
  lemma ConditionSees(lib: Library, e: State, tx: Transaction, window: seq<W.Entry>, at: Site -> Observation)
    returns (env: Env)
    requires e.Live() && Applies(e.Rule(), e.up) && ReadsThrough(e.Rule(), e.k, at) && !at(LinkSite(e.k)).panics
    ensures env.amount == tx.amount && env.currency == tx.currency && env.channel == tx.channel
    ensures env.deviceId == tx.deviceId && env.customerId == tx.customerId
    ensures env.risk == if CustomerRiskLayer in e.Rule().requires_ then Some(e.risk) else None
    ensures WindowLayer !in e.Rule().requires_ ==> env.window == None
    ensures WindowLayer in e.Rule().requires_ ==>
              var spec := e.Rule().window.value;
              env.window ==
                match spec.kind
                case GeoDistance => Some(MaxDistance(W.MaxKm(lib, Within(window, spec, e.k, 0, at), tx)))
                case DeviceDiversity => Some(DistinctDevices(|W.Devices(Within(window, spec, e.k, 0, at))|))
                case _ => Some(Counts(W.CountOn(Within(window, spec, e.k, 0, at), Pix),
                                      W.CountOn(Within(window, spec, e.k, 1, at), Ted),
                                      W.CountOn(Within(window, spec, e.k, 2, at), Card)))
    ensures StepOf(lib, e, tx, window, at) ==
              match lib.compile(e.Rule().condition)
              case None => Broken(Failed(CompileFailed))
              case Some(p) =>
                (match lib.run(p, env)
                 case Matched => Hit
                 case RunError => Broken(Failed(RunFailed))
                 case _ => Miss)
  {
    hide ReadAll, ReadOnce, Reach, W.Kept, W.CountOn, W.MaxKm, W.Devices;
    var seen: Option<WindowValue> := None;
    if WindowLayer in e.Rule().requires_ {
      ReadsAreQueries(lib, e.Rule().window.value, e.k, tx, window, at);
      seen := Some(ReadAll(lib, e.Rule().window.value, e.k, tx, window, at, []).value);
    }
    env := EnvOf(e.Rule(), tx, e.risk, seen);
  }

  /** Some read of the window that the rule needs finds the store down. */
  predicate ReadsDown(rule: RuleDef, k: nat, at: Site -> Observation) {
    && WindowLayer in rule.requires_ && rule.window.Some?
    && exists j :: 0 <= j < ReadsOf(rule.window.value.kind) && at(ReadSite(k, j)).down
  }

  /** A rule that does not break is passed over if it does not apply, degrades
      the verdict exactly if it applies and some read finds the store down, and
      otherwise has read everything and runs. */
  lemma StepFate(lib: Library, e: State, tx: Transaction, window: seq<W.Entry>, at: Site -> Observation)
    requires e.Live() && !StepOf(lib, e, tx, window, at).Broken?
    ensures !Applies(e.Rule(), e.up) ==> StepOf(lib, e, tx, window, at).Skip?
    ensures StepOf(lib, e, tx, window, at).Degrade? <==> Applies(e.Rule(), e.up) && ReadsDown(e.Rule(), e.k, at)
    ensures Applies(e.Rule(), e.up) && !ReadsDown(e.Rule(), e.k, at) ==>
              ReadsThrough(e.Rule(), e.k, at) && !at(LinkSite(e.k)).panics
  {
    hide ReadAll;
    if Applies(e.Rule(), e.up) && e.Reads() && e.Rule().window.Some? {
      ReadFate(lib, e.Rule().window.value, e.k, tx, window, at);
    }
  }

  // ---- a rule of a whole call ----

  function SettingOf(lib: Library, s: Stores, job: Job): Setting {
    var window := WindowOf(Entered(s, job), job.tx.customerId);
    Setting(lib, job.tx, RiskFor(job.at(RiskSite), RulesFor(job)), Up(job), window)
  }

  /** Rule k of the call gets to run its condition. */
  predicate Runs(job: Job, k: nat)
    requires k < |RulesFor(job).rules|
  {
    Applies(RulesFor(job).rules[k], Up(job)) && !ReadsDown(RulesFor(job).rules[k], k, job.at)
  }

  function StepAt(lib: Library, s: Stores, job: Job, k: nat): RuleStep
    requires k < |RulesFor(job).rules|
  {
    SettingOf(lib, s, job).StepFor(ItemAt(RulesFor(job).rules, job.at, k))
  }

  lemma StepAtIsStep(lib: Library, s: Stores, job: Job, k: nat) returns (e: State)
    requires EvaluationOf(lib, s, job).Completed? && k < |RulesFor(job).rules|
    ensures e == State(Up(job), RulesFor(job), RiskFor(job.at(RiskSite), RulesFor(job)), k, [], false)
    ensures StepAt(lib, s, job, k)
         == StepOf(lib, e, job.tx, WindowOf(Entered(s, job), job.tx.customerId), job.at)
    ensures !StepAt(lib, s, job, k).Broken?
  {
    hide StepOf, Evaluate, Entered;
    var c, rules := SettingOf(lib, s, job), RulesFor(job);
    e := State(c.up, rules, c.risk, k, [], false);
    StepOfItem(c, e, job.at);
    EvaluateSelects(c, rules, job.at);
    var items := Agenda(rules.rules, job.at);
    assert items[k] in items;
    hide Setting.StepFor;
  }

  /** The hits of a completed evaluation are the rules whose own step hits. */
  lemma HitsByStep(lib: Library, s: Stores, job: Job, h: RuleDef)
    requires EvaluationOf(lib, s, job).Completed?
    ensures h in EvaluationOf(lib, s, job).hits <==>
              exists k :: 0 <= k < |RulesFor(job).rules| && RulesFor(job).rules[k] == h && StepAt(lib, s, job, k).Hit?
  {
    hide Setting.StepFor, Evaluate, Entered;
    var c, rules := SettingOf(lib, s, job), RulesFor(job).rules;
    EvaluateSelects(c, RulesFor(job), job.at);
    var items := Agenda(rules, job.at);
    var hit := Filter(items, Hits(c));
    if h in Map(hit, RuleOf()) {
      var i :| 0 <= i < |hit| && hit[i].rule == h;
      FilterMember(items, Hits(c), hit[i]);
      var k :| 0 <= k < |items| && items[k] == hit[i];
      assert rules[k] == h && StepAt(lib, s, job, k).Hit?;
    }
    if k :| 0 <= k < |rules| && rules[k] == h && StepAt(lib, s, job, k).Hit? {
      FilterMember(items, Hits(c), items[k]);
      var i :| 0 <= i < |hit| && hit[i] == items[k];
      assert Map(hit, RuleOf())[i] == h;
    }
  }

  lemma HitAt(lib: Library, s: Stores, job: Job, k: nat)
    requires EvaluationOf(lib, s, job).Completed? && k < |RulesFor(job).rules|
    requires forall i, j :: 0 <= i < j < |RulesFor(job).rules| ==>
               RulesFor(job).rules[i].ruleId != RulesFor(job).rules[j].ruleId
    ensures RulesFor(job).rules[k] in EvaluationOf(lib, s, job).hits <==> StepAt(lib, s, job, k).Hit?
  {
    hide StepAt, EvaluationOf;
    HitsByStep(lib, s, job, RulesFor(job).rules[k]);
  }

  /** The customer's entries, as Record has left them, in the rule's span at its read j. */
  function InSpan(s: Stores, job: Job, k: nat, j: nat): seq<W.Entry>
    requires k < |RulesFor(job).rules| && RulesFor(job).rules[k].window.Some?
  {
    Within(WindowOf(Entered(s, job), job.tx.customerId), RulesFor(job).rules[k].window.value, k, j, job.at)
  }

  /** In a call whose evaluation completes, rule k of a set with unique ids hits
      exactly if it is enabled, its window is there if it needs it, and its
      condition matches in the environment of the call: the risk is the stored
      profile, or the default where there is none, and the window is read as it
      is after Record. */
  lemma HitsExactly(lib: Library, s: Stores, job: Job, k: nat) returns (env: Env)
    requires EvaluationOf(lib, s, job).Completed? && k < |RulesFor(job).rules|
    requires forall i, j :: 0 <= i < j < |RulesFor(job).rules| ==>
               RulesFor(job).rules[i].ruleId != RulesFor(job).rules[j].ruleId
    ensures Runs(job, k) ==>
              && env.amount == job.tx.amount && env.currency == job.tx.currency && env.channel == job.tx.channel
              && env.deviceId == job.tx.deviceId && env.customerId == job.tx.customerId
    ensures Runs(job, k) ==>
              var stored := job.at(RiskSite).risk;
              var risk := if stored.Some? then stored.value else RulesFor(job).profile.defaultCustomerRisk;
              env.risk == if CustomerRiskLayer in RulesFor(job).rules[k].requires_ then Some(risk) else None
    ensures Runs(job, k) && WindowLayer !in RulesFor(job).rules[k].requires_ ==> env.window == None
    ensures Runs(job, k) && WindowLayer in RulesFor(job).rules[k].requires_ ==>
              RulesFor(job).rules[k].window.Some? &&
              env.window ==
                match RulesFor(job).rules[k].window.value.kind
                case GeoDistance => Some(MaxDistance(W.MaxKm(lib, InSpan(s, job, k, 0), job.tx)))
                case DeviceDiversity => Some(DistinctDevices(|W.Devices(InSpan(s, job, k, 0))|))
                case _ => Some(Counts(W.CountOn(InSpan(s, job, k, 0), Pix), W.CountOn(InSpan(s, job, k, 1), Ted),
                                      W.CountOn(InSpan(s, job, k, 2), Card)))
    ensures Runs(job, k) ==>
              var p := lib.compile(RulesFor(job).rules[k].condition);
              p.Some? && lib.run(p.value, env) != RunError
    ensures RulesFor(job).rules[k] in EvaluationOf(lib, s, job).hits <==>
              Runs(job, k) && lib.run(lib.compile(RulesFor(job).rules[k].condition).value, env) == Matched
  {
    HitAt(lib, s, job, k);
    var e := StepAtIsStep(lib, s, job, k);
    var window := WindowOf(Entered(s, job), job.tx.customerId);
    StepFate(lib, e, job.tx, window, job.at);
    hide StepOf, StepAt, EvaluationOf, ReadsDown, ReadsThrough, Within, W.CountOn, W.MaxKm, W.Devices, Entered;
    if Runs(job, k) {
      env := ConditionSees(lib, e, job.tx, window, job.at);
    } else {
      env := *;
    }
  }

  // ---- when a verdict is partial ----

  /** Read j of the window for rule k was due, and found the store down. */
  predicate DownAt(job: Job, k: nat, j: nat) {
    && k < |RulesFor(job).rules|
    && var rule := RulesFor(job).rules[k];
       && rule.enabled && WindowLayer in rule.requires_ && rule.window.Some?
       && j < ReadsOf(rule.window.value.kind) && job.at(ReadSite(k, j)).down
  }

  /** A fresh verdict is partial exactly if Record found the store down, or some
      read did that an enabled rule with a window takes. */
  lemma PartialExactly(lib: Library, s: Stores, job: Job)
    requires Process(lib, s, job).outcome.Fresh()
    ensures Process(lib, s, job).outcome.partial <==>
              job.at(RecordSite).down || exists k: nat, j: nat :: DownAt(job, k, j)
  {
    hide Process, EvaluationOf;
    CallByParts(lib, s, job);
    if Up(job) {
      DegradedExactly(lib, s, job);
    }
  }

  lemma DegradeAt(lib: Library, s: Stores, job: Job, k: nat)
    requires EvaluationOf(lib, s, job).Completed? && Up(job) && k < |RulesFor(job).rules|
    ensures StepAt(lib, s, job, k).Degrade? <==> exists j: nat :: DownAt(job, k, j)
  {
    hide StepOf, StepAt, EvaluationOf;
    var e := StepAtIsStep(lib, s, job, k);
    StepFate(lib, e, job.tx, WindowOf(Entered(s, job), job.tx.customerId), job.at);
    hide Entered;
    var rule := RulesFor(job).rules[k];
    if ReadsDown(rule, k, job.at) && rule.enabled {
      var j :| 0 <= j < ReadsOf(rule.window.value.kind) && job.at(ReadSite(k, j)).down;
      assert DownAt(job, k, j);
    }
  }

  lemma DegradedByStep(lib: Library, s: Stores, job: Job)
    requires EvaluationOf(lib, s, job).Completed?
    ensures EvaluationOf(lib, s, job).degraded <==>
              exists k :: 0 <= k < |RulesFor(job).rules| && StepAt(lib, s, job, k).Degrade?
  {
    hide Setting.StepFor, Evaluate, Entered;
    var c, rules := SettingOf(lib, s, job), RulesFor(job).rules;
    EvaluateSelects(c, RulesFor(job), job.at);
    var items := Agenda(rules, job.at);
    if i :| i in items && c.StepFor(i).Degrade? {
      var k :| 0 <= k < |items| && items[k] == i;
      assert StepAt(lib, s, job, k).Degrade?;
    }
    if k :| 0 <= k < |rules| && StepAt(lib, s, job, k).Degrade? {
      assert items[k] in items;
    }
  }

  lemma DegradedExactly(lib: Library, s: Stores, job: Job)
    requires EvaluationOf(lib, s, job).Completed? && Up(job)
    ensures EvaluationOf(lib, s, job).degraded <==> exists k: nat, j: nat :: DownAt(job, k, j)
  {
    hide StepAt, EvaluationOf, DownAt;
    DegradedByStep(lib, s, job);
    if k :| 0 <= k < |RulesFor(job).rules| && StepAt(lib, s, job, k).Degrade? {
      DegradeAt(lib, s, job, k);
      var j: nat :| DownAt(job, k, j);
    }
    if k: nat, j: nat :| DownAt(job, k, j) {
      DueRule(job, k, j);
      DegradeAt(lib, s, job, k);
    }
  }

  lemma DueRule(job: Job, k: nat, j: nat)
    requires DownAt(job, k, j)
    ensures k < |RulesFor(job).rules|
  {
  }
}
