/** What an outage of the window store, at any of the points where Process
    touches it, does to the verdict (internal/pipeline/processor.go). */
module Outages {
  import opened Sequences
  import opened Domain
  import opened RuleEvaluation
  import opened Config
  import opened Processing
  import opened Guarantees
  import opened Verdicts
  import opened RuleOrder
  import W = WindowStore

  /** The same call with the window store up throughout. */
  ghost predicate Recovered(sick: Job, well: Job) {
    sick.tx == well.tx && forall site :: well.at(site) == sick.at(site).(down := false)
  }

  /** A verdict not marked partial is the verdict of the same call with the
      window store up throughout, and so are its effects. */
  lemma CompleteVerdictIsHealthy(lib: Library, s: Stores, job: Job, well: Job)
    requires Recovered(job, well)
    requires Process(lib, s, job).outcome.Fresh() && !Process(lib, s, job).outcome.partial
    ensures Process(lib, s, well) == Process(lib, s, job)
  {
    FullVerdictAppends(lib, s, job);
    var t := WithRecord(WithSeen(s, job.tx, job.at(SeenSite)), job.tx, job.at(RecordSite));
    assert t == WithRecord(WithSeen(s, well.tx, well.at(SeenSite)), well.tx, well.at(RecordSite));
    HealthyConfig(lib, t, job, well);
  }

  lemma HealthyConfig(lib: Library, s: Stores, job: Job, well: Job)
    requires Recovered(job, well)
    requires FromConfig(lib, s, job, true).outcome.Fresh() && !FromConfig(lib, s, job, true).outcome.partial
    ensures FromConfig(lib, s, well, true) == FromConfig(lib, s, job, true)
  {
    hide Decide, Founded;
    var rules := job.at(ConfigSite).rules;
    var e := Begin(true, rules, RiskFor(job.at(RiskSite), rules));
    var window := WindowOf(s, job.tx.customerId);
    assert forall k :: Healthier(job.at, well.at, k);
    assert !Loop(lib, e, job.tx, window, job.at).Aborted?;
    UndegradedLoop(lib, e, job.tx, window, job.at, well.at);
  }

  /** The evaluation under outages, against the one without: it completes when
      the other does, with a sub-list of the hits. */
  lemma HitsShrink(lib: Library, s: Stores, sick: Job, well: Job)
    requires Recovered(sick, well) && EvaluationOf(lib, s, well).Completed?
    ensures EvaluationOf(lib, s, sick).Completed?
    ensures var x, y := EvaluationOf(lib, s, sick), EvaluationOf(lib, s, well);
            SubRun(Up(sick), x.hits, x.degraded, y.hits) && !y.degraded
  {
    hide Loop;
    var rules := RulesFor(sick);
    var risk := RiskFor(sick.at(RiskSite), rules);
    var window := WindowOf(Entered(s, well), sick.tx.customerId);
    assert forall k :: Healthier(sick.at, well.at, k);
    DegradationIsSubRun(lib, rules, sick.tx, risk, Up(sick), window, sick.at, well.at);
    if !Up(sick) {
      DownIgnoresWindow(lib, Begin(false, rules, risk), sick.tx, window,
                        WindowOf(Entered(s, sick), sick.tx.customerId), sick.at);
    } else {
      assert Entered(s, sick) == Entered(s, well);
    }
  }

  /** A fresh verdict is partial only if the window store was found down. */
  lemma PartialNeedsOutage(lib: Library, s: Stores, job: Job)
    requires Process(lib, s, job).outcome.Fresh() && Process(lib, s, job).outcome.partial
    ensures exists site :: job.at(site).down
  {
    hide Process, EvaluationOf;
    CallByParts(lib, s, job);
    if forall site :: !job.at(site).down {
      HitsShrink(lib, s, job, job);
    }
  }

  /** Outages never make a call fail: in any pattern, a call that would have
      reached a verdict with the store up still reaches one, given a safe rule
      set and a sink that accepts an alert should one be raised. */
  lemma OutageNeverFails(lib: Library, s: Stores, sick: Job, well: Job)
    requires Recovered(sick, well)
    requires SafeSet(lib, RulesFor(sick)) && Works(sick.at(PublishSite))
    requires Process(lib, s, well).outcome.Fresh()
    ensures Process(lib, s, sick).outcome.Fresh()
  {
    hide Process, EvaluationOf, Decide, SafeSet;
    CallByParts(lib, s, well);
    CallByParts(lib, s, sick);
    HitsShrink(lib, s, sick, well);
    var x := EvaluationOf(lib, s, sick);
    NoBlowup(lib, sick.tx, RulesFor(sick), Up(sick), x.hits, x.degraded);
  }

  // ---- an outage can raise an alert, and exactly when ----

  lemma {:induction false} SubsequenceMember<T>(a: seq<T>, b: seq<T>, x: T)
    requires Subsequence(a, b) && x in a
    ensures x in b
  {
    if b != [] {
      assert a == a[..|a| - 1] + [a[|a| - 1]] && b == b[..|b| - 1] + [b[|b| - 1]];
      if Subsequence(a, b[..|b| - 1]) {
        SubsequenceMember(a, b[..|b| - 1], x);
      } else if x != a[|a| - 1] {
        SubsequenceMember(a[..|a| - 1], b[..|b| - 1], x);
      }
    }
  }

  /** A hit that an outage can take away and that does not alarm. */
  predicate Maskable(h: RuleDef) { h.emits.severity.Baixa? && h.RequiresLayer(WindowLayer) }

  predicate Unmaskable(h: RuleDef) { !Maskable(h) }

  /** Some hit is media, and every baixa hit can be taken away. */
  ghost predicate Masked(hits: seq<RuleDef>) {
    && (exists h :: h in hits && h.emits.severity.Media?)
    && (forall h :: h in hits && h.emits.severity.Baixa? ==> Maskable(h))
  }

  /** If a sub-run alarms and the whole does not, baixa hits masked a media one. */
  lemma AlarmNeedsMask(up: bool, x: seq<RuleDef>, degraded: bool, y: seq<RuleDef>)
    requires SubRun(up, x, degraded, y) && Alarming(x) && !Alarming(y)
    ensures Masked(y)
  {
    forall h | h in x ensures h in y {
      SubsequenceMember(x, y, h);
    }
    assert x[0] in x;
    forall h | h in y && h.emits.severity.Baixa? ensures Maskable(h) {
      if NeedsNoWindow(h) {
        FilterMember(y, NeedsNoWindow, h);
        FilterMember(x, NeedsNoWindow, h);
      }
    }
  }

  /** The reads to take down: the first of each baixa rule with a window. */
  predicate Targeted(rules: seq<RuleDef>, site: Site) {
    site.ReadSite? && site.j == 0 && site.k < |rules| && Maskable(rules[site.k])
  }

  function TakeDown(well: Job): Job {
    well.(at := (site: Site) => well.at(site).(down := Targeted(RulesFor(well).rules, site)))
  }

  lemma TargetedStep(lib: Library, e: State, tx: Transaction, window: seq<W.Entry>,
                     sick: Site -> Observation, well: Site -> Observation)
    requires e.Live() && e.up
    requires forall j :: 0 <= j < 3 ==>
               sick(ReadSite(e.k, j)) == well(ReadSite(e.k, j)).(down := Targeted(e.rules.rules, ReadSite(e.k, j)))
    requires forall j :: 0 <= j < 3 ==> !well(ReadSite(e.k, j)).down
    requires sick(LinkSite(e.k)) == well(LinkSite(e.k))
    requires !StepOf(lib, e, tx, window, well).Broken?
    ensures var s, t := StepOf(lib, e, tx, window, sick), StepOf(lib, e, tx, window, well);
            if Maskable(e.Rule()) then s.Skip? || s.Degrade? else s == t
  {
    hide Judge;
    if !Maskable(e.Rule()) && e.Rule().window.Some? {
      hide ReadOnce, ReadAll;
      assert forall j :: 0 <= j < 3 ==> sick(ReadSite(e.k, j)) == well(ReadSite(e.k, j));
      ReadsAlike(lib, e.Rule().window.value, e.k, e.k, tx, window, sick, well, []);
    }
  }

  /** With those reads down, what is left of the hits is what cannot be taken away. */
  lemma {:induction false} TargetedLoop(lib: Library, e: State, f: State, tx: Transaction, window: seq<W.Entry>,
                                        sick: Site -> Observation, well: Site -> Observation)
    requires e.up && f.up && e.k == f.k && e.rules == f.rules && e.risk == f.risk
    requires e.hits == Filter(f.hits, Unmaskable)
    requires forall site :: sick(site) == well(site).(down := Targeted(e.rules.rules, site)) && !well(site).down
    requires Loop(lib, f, tx, window, well).Completed?
    ensures Loop(lib, e, tx, window, sick).Completed?
    ensures Loop(lib, e, tx, window, sick).hits == Filter(Loop(lib, f, tx, window, well).hits, Unmaskable)
    decreases |e.rules.rules| - e.k
  {
    if e.Live() {
      var s, t := StepOf(lib, e, tx, window, sick), StepOf(lib, e, tx, window, well);
      StepIgnores(lib, e, f, tx, window, well);
      TargetedStep(lib, e, tx, window, sick, well);
      hide StepOf;
      FilterAppend(f.hits, f.Rule(), Unmaskable);
      TargetedLoop(lib, e.Next(s), f.Next(t), tx, window, sick, well);
    }
  }

  lemma StepIgnores(lib: Library, e: State, f: State, tx: Transaction, window: seq<W.Entry>, at: Site -> Observation)
    requires e.Live() && e.up == f.up && e.k == f.k && e.rules == f.rules && e.risk == f.risk
    ensures StepOf(lib, e, tx, window, at) == StepOf(lib, f, tx, window, at)
  {
  }

  lemma TakenDown(lib: Library, s: Stores, well: Job)
    requires Recovered(well, well) && EvaluationOf(lib, s, well).Completed?
    ensures Recovered(TakeDown(well), well)
    ensures EvaluationOf(lib, s, TakeDown(well)).Completed?
    ensures EvaluationOf(lib, s, TakeDown(well)).hits == Filter(EvaluationOf(lib, s, well).hits, Unmaskable)
  {
    hide Loop;
    var sick, rules := TakeDown(well), RulesFor(well);
    var e := Begin(true, rules, RiskFor(well.at(RiskSite), rules));
    assert Entered(s, sick) == Entered(s, well);
    forall site ensures sick.at(site) == well.at(site).(down := Targeted(rules.rules, site)) && !well.at(site).down {
      assert well.at(site) == well.at(site).(down := false);
    }
    TargetedLoop(lib, e, e, well.tx, WindowOf(Entered(s, well), well.tx.customerId), sick.at, well.at);
  }

  /** At the default threshold, for a call that alerts on nothing with the
      store up: some pattern of outages makes it alert exactly when some hit is
      media and every baixa hit needs the window. */
  lemma OutageRaisesExactly(lib: Library, s: Stores, well: Job)
    requires Recovered(well, well)
    requires SafeSet(lib, RulesFor(well)) && RulesFor(well).profile.scoreMinimoAlerta == 0.5
        && Works(well.at(PublishSite))
    requires Process(lib, s, well).outcome.Fresh() && Process(lib, s, well).outcome.alert.None?
    ensures EvaluationOf(lib, s, well).Completed?
    ensures (exists sick :: Recovered(sick, well) && Process(lib, s, sick).outcome.Fresh()
               && Process(lib, s, sick).outcome.alert.Some?)
       <==> Masked(EvaluationOf(lib, s, well).hits)
  {
    hide Process, EvaluationOf, SafeSet, Masked, Alarming;
    DefaultThresholdVerdict(lib, s, well);
    if sick :| (Recovered(sick, well) && Process(lib, s, sick).outcome.Fresh()
                && Process(lib, s, sick).outcome.alert.Some?) {
      RaisedIsMasked(lib, s, sick, well);
    }
    if Masked(EvaluationOf(lib, s, well).hits) {
      var sick := TakeDown(well);
      TakenDown(lib, s, well);
      OutageNeverFails(lib, s, sick, well);
      DefaultThresholdVerdict(lib, s, sick);
      LeftIsAlarming(lib, s, well);
    }
  }

  lemma RaisedIsMasked(lib: Library, s: Stores, sick: Job, well: Job)
    requires Recovered(sick, well)
    requires SafeSet(lib, RulesFor(well)) && RulesFor(well).profile.scoreMinimoAlerta == 0.5
    requires Process(lib, s, well).outcome.Fresh() && Process(lib, s, well).outcome.alert.None?
    requires Process(lib, s, sick).outcome.Fresh() && Process(lib, s, sick).outcome.alert.Some?
    ensures EvaluationOf(lib, s, well).Completed? && Masked(EvaluationOf(lib, s, well).hits)
  {
    hide Process, EvaluationOf, SafeSet, Masked, Alarming, SubRun;
    DefaultThresholdVerdict(lib, s, well);
    DefaultThresholdVerdict(lib, s, sick);
    HitsShrink(lib, s, sick, well);
    var x, y := EvaluationOf(lib, s, sick), EvaluationOf(lib, s, well);
    AlarmNeedsMask(Up(sick), x.hits, x.degraded, y.hits);
  }

  lemma LeftIsAlarming(lib: Library, s: Stores, well: Job)
    requires EvaluationOf(lib, s, well).Completed? && Masked(EvaluationOf(lib, s, well).hits)
    requires SafeSet(lib, RulesFor(well)) && !Alarming(EvaluationOf(lib, s, well).hits)
    ensures Alarming(Filter(EvaluationOf(lib, s, well).hits, Unmaskable))
  {
    HitsOfTheSet(lib, s, well);
    hide EvaluationOf;
    var y := EvaluationOf(lib, s, well).hits;
    var left := Filter(y, Unmaskable);
    var m :| m in y && m.emits.severity.Media?;
    FilterMember(y, Unmaskable, m);
    forall h | h in left ensures h.emits.severity.Media? {
      FilterMember(y, Unmaskable, h);
      assert ValidRule(lib, h);
    }
  }
}
