/** Which rule sets let an outage raise an alert that would not be raised
    otherwise (internal/pipeline/processor.go, internal/config/default_profile.json). */
module OutageAlerts {
  import opened Sequences
  import opened Domain
  import opened RuleEvaluation
  import opened Config
  import opened Processing
  import opened Verdicts
  import opened RuleOrder
  import opened Outages

  /** With these stores and observations, a call alerts because of outages and
      would not have done so without them. */
  ghost predicate Misleads(lib: Library, s: Stores, sick: Job, well: Job) {
    && Recovered(sick, well) && SafeSet(lib, RulesFor(well))
    && Process(lib, s, well).outcome.Fresh() && Process(lib, s, well).outcome.alert.None?
    && Process(lib, s, sick).outcome.Fresh() && Process(lib, s, sick).outcome.alert.Some?
  }

  ghost predicate CanMislead(rules: RuleSet) {
    exists lib, s, sick, well :: RulesFor(well) == rules && Misleads(lib, s, sick, well)
  }

  /** An enabled media rule, and an enabled baixa rule that needs the window. */
  ghost predicate MediaBesideBaixa(rules: seq<RuleDef>, a: RuleDef, b: RuleDef) {
    && a in rules && a.enabled && a.emits.severity.Media?
    && b in rules && b.enabled && Maskable(b)
  }

  lemma SafeSeverity(lib: Library, rules: RuleSet, r: RuleDef)
    requires SafeSet(lib, rules) && r in rules.rules
    ensures r.emits.severity.Valid()
  {
    assert ValidRule(lib, r);
  }

  /** With no baixa rule that needs the window, alerting under outages implies
      alerting without them, whatever the transaction, the stores and the library. */
  lemma NeedsBaixaWindowRule(lib: Library, s: Stores, sick: Job, well: Job) returns (a: RuleDef, b: RuleDef)
    requires Misleads(lib, s, sick, well) && RulesFor(well).profile.scoreMinimoAlerta == 0.5
    ensures MediaBesideBaixa(RulesFor(well).rules, a, b)
  {
    hide Process, EvaluationOf, SafeSet;
    RaisedIsMasked(lib, s, sick, well);
    DefaultThresholdVerdict(lib, s, well);
    HitsOfTheSet(lib, s, well);
    var y := EvaluationOf(lib, s, well).hits;
    a :| a in y && a.emits.severity.Media?;
    b :| b in y && !b.emits.severity.Media?;
    SafeSeverity(lib, RulesFor(well), b);
  }

  // ---- the converse: a library and a call that do it ----

  predicate Chosen(c: string, a: RuleDef, b: RuleDef) { c == a.condition || c == b.condition }

  /** Conditions compile, and those of a and b are the ones that match. */
  function Matching(lib: Library, a: RuleDef, b: RuleDef): Library {
    lib.(compile := (c: string) => Some(Program(if Chosen(c, a, b) then 1 else 0)),
         run := (p: Program, env: Env) => if p.code == 1 then Matched else Unmatched)
  }

  const SAMPLE := Transaction("c", "t", 1.0, "BRL", Pix, "", Geo("BR", 0.0, 0.0), Instant(0, 0))

  /** A call that nothing goes wrong in. */
  function Smooth(rules: RuleSet): Job {
    Job(0, SAMPLE, (site: Site) => Observation(0, 0, false, rules, None, false, false))
  }

  lemma MatchingStep(lib: Library, a: RuleDef, b: RuleDef, rules: RuleSet, c: Setting, k: nat)
    requires SafeSet(lib, rules) && c.lib == Matching(lib, a, b) && c.up && k < |rules.rules|
    ensures var r := rules.rules[k];
            var step := c.StepFor(ItemAt(rules.rules, Smooth(rules).at, k));
            !step.Broken? && (step.Hit? <==> r.enabled && Chosen(r.condition, a, b))
  {
    var r := rules.rules[k];
    var item := ItemAt(rules.rules, Smooth(rules).at, k);
    assert ValidRule(lib, r);
    if r.RequiresLayer(WindowLayer) {
      ReadsAreQueries(c.lib, r.window.value, 0, c.tx, c.window, Observes(item));
    }
    hide ReadAll, SafeSet;
  }

  function Matches(a: RuleDef, b: RuleDef): RuleDef -> bool {
    (r: RuleDef) => r.enabled && Chosen(r.condition, a, b)
  }

  /** Exactly the enabled rules with one of the two conditions hit. */
  lemma MatchingHits(lib: Library, a: RuleDef, b: RuleDef, rules: RuleSet, s: Stores)
    requires SafeSet(lib, rules)
    ensures var e := EvaluationOf(Matching(lib, a, b), s, Smooth(rules));
            e.Completed? && forall h :: h in e.hits <==> h in rules.rules && h.enabled && Chosen(h.condition, a, b)
  {
    var m, well := Matching(lib, a, b), Smooth(rules);
    var c := Setting(m, SAMPLE, RiskFor(well.at(RiskSite), rules), true, WindowOf(Entered(s, well), "c"));
    EvaluateSelects(c, rules, well.at);
    forall k | 0 <= k < |rules.rules|
      ensures !c.StepFor(ItemAt(rules.rules, well.at, k)).Broken?
      ensures c.StepFor(ItemAt(rules.rules, well.at, k)).Hit? <==> Matches(a, b)(rules.rules[k])
    {
      MatchingStep(lib, a, b, rules, c, k);
    }
    SelectedMembers(c, rules.rules, well.at, Matches(a, b));
    hide Setting.StepFor, Evaluate, SafeSet, Chosen, Agenda, Filter;
    assert EvaluationOf(m, s, well) == Evaluate(m, rules, SAMPLE, c.risk, true, c.window, well.at);
  }

  /** Enabled rules have different conditions. */
  ghost predicate ConditionsDiffer(rules: seq<RuleDef>) {
    forall r, q :: r in rules && q in rules && r.enabled && q.enabled && r != q ==> r.condition != q.condition
  }

  lemma SmoothSucceeds(lib: Library, rules: RuleSet)
    requires SafeSet(lib, rules) && EvaluationOf(lib, EMPTY_STORES, Smooth(rules)).Completed?
    requires rules.profile.scoreMinimoAlerta == 0.5 && !Alarming(EvaluationOf(lib, EMPTY_STORES, Smooth(rules)).hits)
    ensures Process(lib, EMPTY_STORES, Smooth(rules)).outcome.Fresh()
    ensures Process(lib, EMPTY_STORES, Smooth(rules)).outcome.alert.None?
  {
    var s, well := EMPTY_STORES, Smooth(rules);
    assert Proceeds(s, well);
    CallByParts(lib, s, well);
    HitsOfTheSet(lib, s, well);
    hide Process, EvaluationOf, Decide, SafeSet, Alarming;
    var e := EvaluationOf(lib, s, well);
    NoBlowup(lib, SAMPLE, rules, true, e.hits, e.degraded);
    QuietUnlessAlarming(lib, rules, e);
  }

  lemma QuietUnlessAlarming(lib: Library, rules: RuleSet, e: Evaluation)
    requires e.Completed? && SafeSet(lib, rules) && rules.profile.scoreMinimoAlerta == 0.5 && !Alarming(e.hits)
    requires forall h :: h in e.hits ==> h in rules.rules
    ensures !Decide(lib, SAMPLE, rules, true, e.hits, e.degraded).Raise?
  {
    hide Decide, SafeSet;
    DefaultThresholdAlerts(lib, SAMPLE, rules, true, e.hits, e.degraded);
  }

  /** At the default threshold, for a safe rule set whose enabled rules have
      different conditions: an outage can raise an alert exactly when there is
      an enabled media rule and an enabled baixa rule that needs the window. */
  lemma MisleadsExactly(lib: Library, rules: RuleSet)
    requires SafeSet(lib, rules) && rules.profile.scoreMinimoAlerta == 0.5 && ConditionsDiffer(rules.rules)
    ensures CanMislead(rules) <==> exists a, b :: MediaBesideBaixa(rules.rules, a, b)
  {
    if CanMislead(rules) {
      var m, s, sick, well :| RulesFor(well) == rules && Misleads(m, s, sick, well);
      var a, b := NeedsBaixaWindowRule(m, s, sick, well);
    }
    if a, b :| MediaBesideBaixa(rules.rules, a, b) {
      MatchingMisleads(lib, rules, a, b);
    }
  }

  lemma OnlyTheTwo(rules: seq<RuleDef>, a: RuleDef, b: RuleDef)
    requires ConditionsDiffer(rules) && a in rules && b in rules && a.enabled && b.enabled
    ensures forall h :: h in rules && h.enabled && Chosen(h.condition, a, b) <==> h == a || h == b
  {
  }

  lemma TheTwoAreMasked(hits: seq<RuleDef>, a: RuleDef, b: RuleDef)
    requires forall h :: h in hits <==> h == a || h == b
    requires a.emits.severity.Media? && Maskable(b)
    ensures Masked(hits) && !Alarming(hits)
  {
    assert a in hits && b in hits;
  }

  lemma MatchingIsSafe(lib: Library, rules: RuleSet, a: RuleDef, b: RuleDef)
    requires SafeSet(lib, rules)
    ensures SafeSet(Matching(lib, a, b), rules)
  {
    forall r | r in rules.rules ensures ValidRule(Matching(lib, a, b), r) {
      assert ValidRule(lib, r);
    }
  }

  lemma MatchingMisleads(lib: Library, rules: RuleSet, a: RuleDef, b: RuleDef)
    requires SafeSet(lib, rules) && rules.profile.scoreMinimoAlerta == 0.5 && ConditionsDiffer(rules.rules)
    requires MediaBesideBaixa(rules.rules, a, b)
    ensures CanMislead(rules)
  {
    var m, well := Matching(lib, a, b), Smooth(rules);
    OnlyTheTwo(rules.rules, a, b);
    MatchingIsSafe(lib, rules, a, b);
    MatchingHits(lib, a, b, rules, EMPTY_STORES);
    SmoothIsWell(rules);
    hide SafeSet, EvaluationOf, Process, Matching, Smooth, ConditionsDiffer, Masked, Alarming, Chosen, Recovered;
    var hits := EvaluationOf(m, EMPTY_STORES, well).hits;
    TheTwoAreMasked(hits, a, b);
    SmoothSucceeds(m, rules);
    OutageRaisesExactly(m, EMPTY_STORES, well);
    var sick :| Recovered(sick, well) && Process(m, EMPTY_STORES, sick).outcome.Fresh()
             && Process(m, EMPTY_STORES, sick).outcome.alert.Some?;
    assert Misleads(m, EMPTY_STORES, sick, well);
  }

  lemma SmoothIsWell(rules: RuleSet)
    ensures Recovered(Smooth(rules), Smooth(rules)) && Works(Smooth(rules).at(PublishSite))
        && RulesFor(Smooth(rules)) == rules
  {
  }
}
