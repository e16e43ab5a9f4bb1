/** A reload that the compile cache does not notice (internal/engine/evaluator.go,
    programFor; internal/config/bundle.go): a rule whose condition changes while
    its version stays keeps running its old program. */
module StaleCache {
  import opened Sequences
  import opened Domain
  import opened RuleEvaluation
  import opened Config
  import opened ProgramCache
  import opened Processing
  import opened Steps
  import opened Verdicts
  import opened Attempts
  import opened Retries
  import opened I = IdempotencyStore

  /** A call's next n steps, or as many as it has, with no other call in between. */
  function Drive(lib: Library, programs: Programs, s: Stores, job: Job, pc: Pc, n: nat): (r: Acted)
    requires pc.Ok()
    ensures r.pc.Ok()
    decreases n
  {
    if n == 0 || pc.Ended? then Acted(programs, s, pc)
    else
      var x := Act(lib, programs, s, job, pc);
      Drive(lib, x.programs, x.stores, job, x.pc, n - 1)
  }

  lemma DriveOn(lib: Library, programs: Programs, s: Stores, job: Job, pc: Pc, n: nat)
    requires pc.Ok() && !pc.Ended? && n > 0
    ensures var x := Act(lib, programs, s, job, pc);
            Drive(lib, programs, s, job, pc, n) == Drive(lib, x.programs, x.stores, job, x.pc, n - 1)
  {
    hide Act;
  }

  lemma DriveDone(lib: Library, programs: Programs, s: Stores, job: Job, pc: Pc, n: nat)
    requires pc.Ok() && (n == 0 || pc.Ended?)
    ensures Drive(lib, programs, s, job, pc, n) == Acted(programs, s, pc)
  {
    hide Act;
  }

  /** One enabled rule without layers and nothing goes wrong; what the rule's
      condition evaluates to is left open. */
  predicate Bare(s: Stores, job: Job) {
    && Validate(job.tx).None? && !SeenAt(s.marks, KeyOf(job.tx), job.at(SeenSite).now)
    && Fine(job.at(SeenSite)) && Fine(job.at(RecordSite)) && Fine(job.at(ConfigSite)) && Fine(job.at(RiskSite))
    && Fine(job.at(LinkSite(0))) && Fine(job.at(PublishSite)) && Fine(job.at(MarkSite))
    && |RulesFor(job).rules| == 1
    && RulesFor(job).rules[0].enabled && RulesFor(job).rules[0].requires_ == []
  }

  function AtRule(job: Job): State {
    Begin(true, RulesFor(job), RiskFor(job.at(RiskSite), RulesFor(job)))
  }

  lemma ToLink(lib: Library, programs: Programs, s: Stores, job: Job, n: nat)
    requires Bare(s, job)
    ensures AtLink(AtRule(job), None).Ok()
    ensures Drive(lib, programs, s, job, Start, 4 + n)
         == Drive(lib, programs, Entered(s, job), job, AtLink(AtRule(job), None), n)
  {
    hide WithSeen, WithRecord, Validate, SeenAt, Drive;
    var rules := RulesFor(job);
    var x1 := Act(lib, programs, s, job, Start);
    assert x1.pc == AtRecord;
    var x2 := Act(lib, programs, x1.stores, job, AtRecord);
    assert x2 == Acted(programs, Entered(s, job), AtConfig(true));
    var x3 := Act(lib, programs, x2.stores, job, AtConfig(true));
    assert x3 == Acted(programs, Entered(s, job), AtRisk(true, rules));
    assert Act(lib, programs, x3.stores, job, x3.pc) == Acted(programs, Entered(s, job), AtLink(AtRule(job), None));
    DriveOn(lib, programs, s, job, Start, 4 + n);
    DriveOn(lib, programs, x1.stores, job, AtRecord, 3 + n);
    DriveOn(lib, programs, x2.stores, job, AtConfig(true), 2 + n);
    DriveOn(lib, programs, x3.stores, job, AtRisk(true, rules), 1 + n);
  }

  lemma BareFacts(s: Stores, job: Job, p: Program)
    requires Bare(s, job)
    ensures AtLink(AtRule(job), None).Ok() && AtStore(AtRule(job), None, p).Ok()
    ensures |RulesFor(job).rules| == 1 && AtRule(job).Live() && AtRule(job).Rule() == RulesFor(job).rules[0]
    ensures !job.at(LinkSite(0)).panics && Fine(job.at(PublishSite)) && Fine(job.at(MarkSite))
  {
  }

  lemma LoudFacts(lib: Library, job: Job)
    requires Loud(lib, job)
    ensures |RulesFor(job).rules| == 1 && AtRule(job).Live() && RulesFor(job).profile.scoreMinimoAlerta <= 1.0
    ensures var r := RulesFor(job).rules[0];
            && r.emits.severity == Critica && r.window == None && lib.compile(r.condition).Some?
            && lib.run(lib.compile(r.condition).value, AtRule(job).Env(job.tx, None)) == Matched
  {
  }

  /** Local facts about single steps of a bare call. */
  lemma LinkActs(lib: Library, programs: Programs, t: Stores, job: Job, p: Program)
    requires AtLink(AtRule(job), None).Ok() && !job.at(LinkSite(0)).panics
    requires var key := ProgramKey(AtRule(job).Rule());
             if key in programs then programs[key] == p else lib.compile(AtRule(job).Rule().condition) == Some(p)
    requires lib.run(p, AtRule(job).Env(job.tx, None)) == Matched
    ensures var e := AtRule(job);
            Act(lib, programs, t, job, AtLink(e, None))
              == Acted(programs, t, if ProgramKey(e.Rule()) in programs then After(lib, job.tx, e, Hit)
                  else AtStore(e, None, p))
  {
    hide After, ProgramKey;
  }

  lemma StoreActs(lib: Library, programs: Programs, t: Stores, job: Job, p: Program)
    requires AtStore(AtRule(job), None, p).Ok() && lib.run(p, AtRule(job).Env(job.tx, None)) == Matched
    ensures var e := AtRule(job);
            Act(lib, programs, t, job, AtStore(e, None, p))
              == Acted(programs[ProgramKey(e.Rule()) := p], t, After(lib, job.tx, e, Hit))
  {
    hide After, ProgramKey;
  }

  lemma HitPublishes(lib: Library, job: Job) returns (alert: Alert)
    requires AtLink(AtRule(job), None).Ok() && |RulesFor(job).rules| == 1
        && RulesFor(job).profile.scoreMinimoAlerta <= 1.0
    requires RulesFor(job).rules[0].emits.severity == Critica && RulesFor(job).rules[0].window == None
    ensures After(lib, job.tx, AtRule(job), Hit) == AtPublish(alert, false)
  {
    var rules, e := RulesFor(job), AtRule(job).Next(Hit);
    LoudRaises(lib, job.tx, rules, false);
    hide Decide;
    assert rules.rules == [rules.rules[0]] && e.hits == rules.rules && !e.Live();
    alert := Decide(lib, job.tx, rules, true, rules.rules, false).alert;
  }

  /** From a hit of the only rule, critica and without window, to the end. */
  lemma HitToEnd(lib: Library, programs: Programs, t: Stores, job: Job)
    requires AtLink(AtRule(job), None).Ok() && |RulesFor(job).rules| == 1
        && RulesFor(job).profile.scoreMinimoAlerta <= 1.0
    requires RulesFor(job).rules[0].emits.severity == Critica && RulesFor(job).rules[0].window == None
    requires Fine(job.at(PublishSite)) && Fine(job.at(MarkSite))
    ensures var x := Drive(lib, programs, t, job, After(lib, job.tx, AtRule(job), Hit), 2);
            x.programs == programs && x.pc.Ended? && x.pc.outcome.Fresh() && x.pc.outcome.alert.Some?
  {
    hide *;
    var alert := HitPublishes(lib, job);
    var x1 := PublishActs(lib, programs, t, job, alert);
    var x2 := MarkActs(lib, programs, x1.stores, job, alert);
    DriveOn(lib, programs, t, job, AtPublish(alert, false), 2);
    DriveOn(lib, programs, x1.stores, job, x1.pc, 1);
    DriveDone(lib, programs, x2.stores, job, x2.pc, 0);
    DoneIsFresh(alert);
  }

  lemma PublishActs(lib: Library, programs: Programs, t: Stores, job: Job, alert: Alert) returns (x: Acted)
    requires Fine(job.at(PublishSite))
    ensures AtPublish(alert, false).Ok() && x == Act(lib, programs, t, job, AtPublish(alert, false))
    ensures x.programs == programs && x.pc == AtMark(Some(alert), false)
  {
    x := Act(lib, programs, t, job, AtPublish(alert, false));
  }

  lemma MarkActs(lib: Library, programs: Programs, t: Stores, job: Job, alert: Alert) returns (x: Acted)
    requires Fine(job.at(MarkSite))
    ensures AtMark(Some(alert), false).Ok() && x == Act(lib, programs, t, job, AtMark(Some(alert), false))
    ensures x.programs == programs && x.pc == Ended(Verdict(false, Some(alert), false))
  {
    x := Act(lib, programs, t, job, AtMark(Some(alert), false));
  }

  lemma DoneIsFresh(alert: Alert)
    ensures Verdict(false, Some(alert), false).Fresh()
  {
  }

  /** Through the cache the call runs whatever program is filed under its rule. */
  lemma RunsFiled(lib: Library, programs: Programs, s: Stores, job: Job)
    requires Bare(s, job) && RulesFor(job).profile.scoreMinimoAlerta <= 1.0
    requires var r := RulesFor(job).rules[0];
             && r.emits.severity == Critica && r.window == None
             && ProgramKey(r) in programs && lib.run(programs[ProgramKey(r)], AtRule(job).Env(job.tx, None)) == Matched
    ensures var x := Drive(lib, programs, s, job, Start, 7);
            x.pc.Ended? && x.pc.outcome.Fresh() && x.pc.outcome.alert.Some?
  {
    hide *;
    BareFacts(s, job, Program(0));
    var t := Entered(s, job);
    ToLink(lib, programs, s, job, 3);
    HitToEnd(lib, programs, t, job);
    LinkActs(lib, programs, t, job, programs[ProgramKey(RulesFor(job).rules[0])]);
    DriveOn(lib, programs, t, job, AtLink(AtRule(job), None), 3);
  }

  /** A first call files its program. */
  lemma FilesProgram(lib: Library, s: Stores, job: Job)
    requires Bare(s, job) && Loud(lib, job)
    ensures var x, r := Drive(lib, map[], s, job, Start, 8), RulesFor(job).rules[0];
            x.pc.Ended? && x.programs == map[ProgramKey(r) := lib.compile(r.condition).value]
  {
    hide *;
    LoudFacts(lib, job);
    var r := RulesFor(job).rules[0];
    var p := lib.compile(r.condition).value;
    BareFacts(s, job, p);
    var t, e, filed := Entered(s, job), AtRule(job), map[ProgramKey(r) := p];
    ToLink(lib, map[], s, job, 4);
    LinkActs(lib, map[], t, job, p);
    StoreActs(lib, map[], t, job, p);
    HitToEnd(lib, filed, t, job);
    assert map[][ProgramKey(r) := p] == filed;
    DriveOn(lib, map[], t, job, AtLink(e, None), 4);
    DriveOn(lib, map[], t, job, AtStore(e, None, p), 3);
  }

  /** Alone, without a cache, a call whose only rule does not match raises nothing. */
  lemma AloneIsQuiet(lib: Library, s: Stores, job: Job)
    requires Bare(s, job)
    requires var r := RulesFor(job).rules[0];
             lib.compile(r.condition).Some?
                 && lib.run(lib.compile(r.condition).value, AtRule(job).Env(job.tx, None)) == Unmatched
    ensures Process(lib, s, job).outcome.Fresh() && Process(lib, s, job).outcome.alert.None?
  {
    var e, window := AtRule(job), WindowOf(Entered(s, job), job.tx.customerId);
    assert StepOf(lib, e, job.tx, window, job.at) == Miss;
    assert Loop(lib, e.Next(Miss), job.tx, window, job.at) == Completed([], false);
    assert EvaluationOf(lib, s, job) == Completed([], false);
    CallByParts(lib, s, job);
    hide Process, EvaluationOf;
  }

  predicate RunsTo(lib: Library, condition: string, env: Env, result: RunResult) {
    lib.compile(condition).Some? && lib.run(lib.compile(condition).value, env) == result
  }

  /** Driven to its end by a disciplined cache, a call ends as it would alone. */
  lemma {:induction false} DriveFinishes(lib: Library, programs: Programs, s: Stores, job: Job, pc: Pc, n: nat,
                                         comp: string -> Option<Program>)
    requires pc.Ok() && Coherent(programs, comp) && PcDisciplined(lib, pc, comp)
    requires Disciplined(lib, RulesFor(job).rules, comp)
    requires Drive(lib, programs, s, job, pc, n).pc.Ended?
    ensures var x := Drive(lib, programs, s, job, pc, n); End(x.stores, x.pc.outcome) == Finish(lib, s, job, pc)
    decreases n
  {
    hide Act, PcDisciplined, Coherent;
    if pc.Ended? {
      hide Drive;
      DriveDone(lib, programs, s, job, pc, n);
    } else {
      var x := Act(lib, programs, s, job, pc);
      ActFinishes(lib, programs, s, job, pc, comp);
      ActDisciplined(lib, programs, s, job, pc, comp);
      hide Finish;
      DriveFinishes(lib, x.programs, x.stores, job, x.pc, n - 1, comp);
    }
  }

  /** A bare first call of one key leaves another key free. */
  lemma LeavesOtherFree(lib: Library, a: Job, b: Job)
    requires Bare(EMPTY_STORES, a) && Loud(lib, a) && Bare(EMPTY_STORES, b) && KeyOf(a.tx) != KeyOf(b.tx)
    ensures Bare(Drive(lib, map[], EMPTY_STORES, a, Start, 8).stores, b)
  {
    var r := RulesFor(a).rules[0];
    var comp := (key: string) => if key == ProgramKey(r) then lib.compile(r.condition) else None;
    var x := Drive(lib, map[], EMPTY_STORES, a, Start, 8);
    assert RulesFor(a).rules == [r];
    hide Drive, Bare, Loud, ProgramKey;
    FilesProgram(lib, EMPTY_STORES, a);
    DriveFinishes(lib, map[], EMPTY_STORES, a, Start, 8, comp);
    OtherKeyKeeps(lib, EMPTY_STORES, a, KeyOf(b.tx));
    BareElsewhere(x.stores, b);
  }

  lemma BareElsewhere(s: Stores, b: Job)
    requires Bare(EMPTY_STORES, b) && KeyOf(b.tx) !in s.marks
    ensures Bare(s, b)
  {
  }

  /** Two bundles that differ in one rule's condition only. */
  function Changed(b: Bundle, condition: string): Bundle
    requires |b.rules| == 1
  {
    b.(rules := [b.rules[0].(condition := condition)])
  }

  /** Both bundles validate; the second is staged and reloaded over the first.
      Before, a call of one customer fills the cache; after, a call whose active
      rule no longer matches alerts all the same, because the cache runs the old
      program, while the same call without the cache raises nothing. */
  lemma StaleAfterReload(lib: Library, bundle: Bundle, condition: string, a: Job, b: Job)
    requires |bundle.rules| == 1 && ValidBundle(lib, bundle) && ValidBundle(lib, Changed(bundle, condition))
    requires RulesFor(a) == Started(bundle).active
    requires RulesFor(b)
             == AfterEvents(lib, Started(bundle), [StageEvent(Changed(bundle, condition)), ReloadEvent]).active
    requires Bare(EMPTY_STORES, a) && Loud(lib, a)
    requires Bare(EMPTY_STORES, b) && KeyOf(a.tx) != KeyOf(b.tx)
    requires RunsTo(lib, bundle.rules[0].condition, AtRule(b).Env(b.tx, None), Matched)
    requires RunsTo(lib, condition, AtRule(b).Env(b.tx, None), Unmatched)
    ensures RulesFor(b).rules == Changed(bundle, condition).rules && RulesFor(b).version == 2
    ensures var x := Drive(lib, map[], EMPTY_STORES, a, Start, 8);
            var y := Drive(lib, x.programs, x.stores, b, Start, 7);
            && x.pc.Ended? && y.pc.Ended?
            && y.pc.outcome.Fresh() && y.pc.outcome.alert.Some?
            && Process(lib, x.stores, b).outcome.Fresh() && Process(lib, x.stores, b).outcome.alert.None?
  {
    var old_, new_ := bundle.rules[0], Changed(bundle, condition).rules[0];
    ReloadsChanged(lib, bundle, condition);
    assert ValidRule(lib, new_) by { assert new_ in Changed(bundle, condition).rules; }
    ProgramKeyInjective(old_, new_);
    hide Drive, Process, ValidBundle, Bare, ProgramKey, AfterEvents;
    FilesProgram(lib, EMPTY_STORES, a);
    LeavesOtherFree(lib, a, b);
    var x := Drive(lib, map[], EMPTY_STORES, a, Start, 8);
    RunsFiled(lib, x.programs, x.stores, b);
    AloneIsQuiet(lib, x.stores, b);
  }

  lemma ReloadsChanged(lib: Library, bundle: Bundle, condition: string)
    requires |bundle.rules| == 1 && ValidBundle(lib, Changed(bundle, condition))
    ensures AfterEvents(lib, Started(bundle), [StageEvent(Changed(bundle, condition)), ReloadEvent]).active
         == RuleSet(2, Changed(bundle, condition).rules, bundle.profile)
  {
    var c := Changed(bundle, condition);
    assert [StageEvent(c), ReloadEvent][..1] == [StageEvent(c)] && [StageEvent(c)][..0] == [];
    assert AfterEvents(lib, Started(bundle), [StageEvent(c)]) == Stage(Started(bundle), c);
  }
}
