/** Attempts and retries (internal/pipeline/processor.go): what every attempt at
    a transaction leaves in the window and in the sink, and exactly when a
    transaction is recorded once and alerts once. */
module Attempts {
  import opened Sequences
  import opened Domain
  import opened RuleEvaluation
  import opened Config
  import opened Processing
  import opened Guarantees
  import opened Verdicts
  import opened RuleOrder
  import opened I = IdempotencyStore
  import W = WindowStore

  // ---- one attempt ----

  /** An attempt that records either succeeds or ends without a verdict. */
  lemma RecordedVerdict(lib: Library, s: Stores, job: Job)
    requires Appends(s, job)
    ensures Process(lib, s, job).outcome.Verdict? ==> Process(lib, s, job).outcome.Fresh()
  {
    hide FromConfig;
  }

  /** An attempt that gets through Record and does not succeed leaves its key free. */
  lemma FailureUnmarks(lib: Library, s: Stores, job: Job)
    requires Proceeds(s, job) && !Process(lib, s, job).outcome.Fresh()
    ensures KeyOf(job.tx) !in Process(lib, s, job).stores.marks
  {
    hide FromConfig;
  }

  /** Conditions of the rules do not end in a run error. */
  ghost predicate NoRunError(lib: Library, rules: seq<RuleDef>) {
    forall r, p, env :: r in rules && lib.compile(r.condition) == Some(p) ==> lib.run(p, env) != RunError
  }

  /** The reads of a rule's window kind: one, or one per channel. */
  predicate Single(item: Item)
    requires item.rule.window.Some?
  {
    item.rule.window.value.kind.GeoDistance? || item.rule.window.value.kind.DeviceDiversity?
  }

  /** Some read that the rule gets to fails otherwise than by an outage. */
  predicate ReadBreaks(item: Item)
    requires item.rule.window.Some?
  {
    || !Works(item.first)
    || (!Single(item) && !item.first.down &&
         (!Works(item.second) || (!item.second.down && !Works(item.third))))
  }

  predicate ReadGives(item: Item)
    requires item.rule.window.Some?
  {
    Fine(item.first) && (Single(item) || (Fine(item.second) && Fine(item.third)))
  }

  /** Some action that the rule gets to fails otherwise than by an outage, or
      it lacks the window spec it requires. */
  predicate Hampered(item: Item, up: bool) {
    item.rule.enabled &&
      if !item.rule.RequiresLayer(WindowLayer) then item.link.panics
      else up && (item.rule.window.None? || ReadBreaks(item) || (ReadGives(item) && item.link.panics))
  }

  lemma ReadByParts(lib: Library, spec: WindowSpec, tx: Transaction, window: seq<W.Entry>, item: Item)
    requires item.rule.window == Some(spec)
    ensures var r := ReadAll(lib, spec, 0, tx, window, Observes(item), []);
            && (r.Broke? <==> ReadBreaks(item))
            && (r.Got? <==> ReadGives(item))
  {
    hide Reach, W.Kept, W.CountOn, W.MaxKm, W.Devices;
    var at := Observes(item);
    var first := ReadOnce(lib, spec, tx, window, at(ReadSite(0, 0)), []);
    if first.More? {
      var second := ReadOnce(lib, spec, tx, window, at(ReadSite(0, 1)), first.got);
      assert ReadAll(lib, spec, 0, tx, window, at, []) == ReadAll(lib, spec, 0, tx, window, at, first.got);
    }
  }

  /** For a valid rule without run error, the step breaks exactly when hampered. */
  lemma HamperedExactly(c: Setting, item: Item)
    requires ValidRule(c.lib, item.rule) && NoRunError(c.lib, [item.rule])
    ensures c.StepFor(item).Broken? <==> Hampered(item, c.up)
  {
    if item.rule.RequiresLayer(WindowLayer) {
      ReadByParts(c.lib, item.rule.window.value, c.tx, c.window, item);
    }
    hide ReadAll;
    assert item.rule in [item.rule];
  }

  /** Nothing that the call gets to after Record fails otherwise than by an outage. */
  ghost predicate Unhampered(lib: Library, s: Stores, job: Job) {
    && !job.at(ConfigSite).panics && !job.at(RiskSite).panics
    && (forall k :: 0 <= k < |RulesFor(job).rules| ==> RuleUnhampered(job, k))
    && (EvaluationOf(lib, s, job).Completed? && DecisionOf(lib, s, job).Raise? ==> Works(job.at(PublishSite)))
    && Works(job.at(MarkSite))
  }

  predicate RuleUnhampered(job: Job, k: nat)
    requires k < |RulesFor(job).rules|
  {
    !Hampered(ItemAt(RulesFor(job).rules, job.at, k), Up(job))
  }

  lemma CompletedExactly(lib: Library, s: Stores, job: Job)
    requires SafeSet(lib, RulesFor(job)) && NoRunError(lib, RulesFor(job).rules)
    ensures EvaluationOf(lib, s, job).Completed?
       <==> forall k :: 0 <= k < |RulesFor(job).rules| ==> RuleUnhampered(job, k)
  {
    var rules := RulesFor(job);
    var window := WindowOf(Entered(s, job), job.tx.customerId);
    var c := Setting(lib, job.tx, RiskFor(job.at(RiskSite), rules), Up(job), window);
    var items := Agenda(rules.rules, job.at);
    EvaluateSelects(c, rules, job.at);
    forall k | 0 <= k < |rules.rules|
      ensures RuleUnhampered(job, k) <==> !c.StepFor(items[k]).Broken?
    {
      assert ValidRule(lib, rules.rules[k]);
      HamperedExactly(c, items[k]);
    }
    hide Setting.StepFor, Evaluate, RuleUnhampered, SafeSet;
    assert forall k :: 0 <= k < |items| ==> items[k] in items;
  }

  /** A call that gets through Record succeeds exactly when unhampered. */
  lemma SucceedsExactly(lib: Library, s: Stores, job: Job)
    requires SafeSet(lib, RulesFor(job)) && NoRunError(lib, RulesFor(job).rules)
    requires Proceeds(s, job)
    ensures Process(lib, s, job).outcome.Fresh() <==> Unhampered(lib, s, job)
  {
    hide Process, EvaluationOf, Decide, SafeSet, RuleUnhampered, Proceeds, NoRunError;
    CallByParts(lib, s, job);
    CompletedExactly(lib, s, job);
    var e := EvaluationOf(lib, s, job);
    if e.Completed? {
      NoBlowup(lib, job.tx, RulesFor(job), Up(job), e.hits, e.degraded);
    }
  }

  // ---- counting attempts ----

  function FreshOn(lib: Library, key: string): (Stores, Job) -> bool {
    (s: Stores, j: Job) => KeyOf(j.tx) == key && Process(lib, s, j).outcome.Fresh()
  }

  function FreshRecorded(lib: Library, key: string): (Stores, Job) -> bool {
    (s: Stores, j: Job) => KeyOf(j.tx) == key && Appends(s, j) && Process(lib, s, j).outcome.Fresh()
  }

  function FreshUnrecorded(lib: Library, key: string): (Stores, Job) -> bool {
    (s: Stores, j: Job) => KeyOf(j.tx) == key && !Appends(s, j) && Process(lib, s, j).outcome.Fresh()
  }

  /** Attempts that recorded and then ended in an error or a panic. */
  function BrokenRecorded(lib: Library, key: string): (Stores, Job) -> bool {
    (s: Stores, j: Job) => KeyOf(j.tx) == key && Appends(s, j) && !Process(lib, s, j).outcome.Verdict?
  }

  lemma {:induction false} TallySplit(lib: Library, jobs: seq<Job>, p: (Stores, Job) -> bool,
                                      q: (Stores, Job) -> bool, r: (Stores, Job) -> bool)
    requires forall s, j :: (p(s, j) <==> q(s, j) || r(s, j)) && !(q(s, j) && r(s, j))
    ensures Tally(lib, jobs, p) == Tally(lib, jobs, q) + Tally(lib, jobs, r)
  {
    hide RunAll;
    if jobs != [] {
      TallySplit(lib, jobs[..|jobs| - 1], p, q, r);
    }
  }

  lemma {:induction false} TallyNone(lib: Library, jobs: seq<Job>, p: (Stores, Job) -> bool)
    ensures Tally(lib, jobs, p) == 0 <==> forall k :: 0 <= k < |jobs| ==> !p(RunAll(lib, jobs[..k]).stores, jobs[k])
  {
    hide RunAll;
    if jobs != [] {
      var n := |jobs| - 1;
      TallyNone(lib, jobs[..n], p);
      assert forall k :: 0 <= k < n ==> jobs[..n][..k] == jobs[..k] && jobs[..n][k] == jobs[k];
      assert jobs[..n][..n] == jobs[..n];
    }
  }

  lemma {:induction false} FreshCountIsTally(lib: Library, jobs: seq<Job>, key: string)
    ensures FreshCount(jobs, RunAll(lib, jobs).outcomes, key) == Tally(lib, jobs, FreshOn(lib, key))
  {
    if jobs != [] {
      hide Process;
      var k := |jobs| - 1;
      var before, all := RunAll(lib, jobs[..k]), RunAll(lib, jobs).outcomes;
      RunAllLast(lib, jobs);
      assert all[..k] == before.outcomes;
      FreshCountIsTally(lib, jobs[..k], key);
    }
  }

  /** Entries ever appended for a key are its fresh verdicts that recorded and
      its attempts that recorded and then failed: one extra entry per failure. */
  lemma EntriesByFate(lib: Library, jobs: seq<Job>, c: string, key: string)
    requires forall j :: j in jobs ==> j.tx.customerId == c
    ensures LogCount(RunAll(lib, jobs).stores, c, key)
         == Tally(lib, jobs, FreshRecorded(lib, key)) + Tally(lib, jobs, BrokenRecorded(lib, key))
    ensures FreshCount(jobs, RunAll(lib, jobs).outcomes, key)
         == Tally(lib, jobs, FreshRecorded(lib, key)) + Tally(lib, jobs, FreshUnrecorded(lib, key))
  {
    RecordingsConserved(lib, jobs, c, key);
    FreshCountIsTally(lib, jobs, key);
    forall s, j | Appends(s, j) ensures !Process(lib, s, j).outcome.Verdict? <==> !Process(lib, s, j).outcome.Fresh() {
      RecordedVerdict(lib, s, j);
    }
    hide Process, Appends;
    TallySplit(lib, jobs, RecordsKey(key), FreshRecorded(lib, key), BrokenRecorded(lib, key));
    TallySplit(lib, jobs, FreshOn(lib, key), FreshRecorded(lib, key), FreshUnrecorded(lib, key));
  }

  // ---- exactly one entry ----

  ghost predicate Configured(lib: Library, job: Job) {
    SafeSet(lib, RulesFor(job)) && NoRunError(lib, RulesFor(job).rules)
  }

  /** With the window up at every Record on the key, a safe configuration there
      and no run error: the entries for a key are as many as its fresh verdicts exactly
      when every attempt on it that recorded was unhampered afterwards. */
  lemma EntriesExactly(lib: Library, jobs: seq<Job>, c: string, key: string)
    requires forall j :: j in jobs ==> j.tx.customerId == c && (KeyOf(j.tx) == key ==> Up(j) && Configured(lib, j))
    ensures LogCount(RunAll(lib, jobs).stores, c, key) == FreshCount(jobs, RunAll(lib, jobs).outcomes, key)
       <==> forall k :: 0 <= k < |jobs| && KeyOf(jobs[k].tx) == key && Appends(RunAll(lib, jobs[..k]).stores, jobs[k])
              ==> Unhampered(lib, RunAll(lib, jobs[..k]).stores, jobs[k])
  {
    hide Process, Appends, Unhampered, Tally, RunAll, LogCount, FreshCount;
    EntriesByFate(lib, jobs, c, key);
    TallyNone(lib, jobs, FreshUnrecorded(lib, key));
    TallyNone(lib, jobs, BrokenRecorded(lib, key));
    forall k | 0 <= k < |jobs|
      ensures var s := RunAll(lib, jobs[..k]).stores;
              && !FreshUnrecorded(lib, key)(s, jobs[k])
              && (BrokenRecorded(lib, key)(s, jobs[k]) <==>
                    KeyOf(jobs[k].tx) == key && Appends(s, jobs[k]) && !Unhampered(lib, s, jobs[k]))
    {
      if KeyOf(jobs[k].tx) == key {
        FateExactly(lib, RunAll(lib, jobs[..k]).stores, jobs[k]);
      }
    }
  }

  lemma FateExactly(lib: Library, s: Stores, job: Job)
    requires Up(job) && Configured(lib, job)
    ensures Process(lib, s, job).outcome.Fresh() ==> Appends(s, job)
    ensures Appends(s, job) ==> (!Process(lib, s, job).outcome.Verdict? <==> !Unhampered(lib, s, job))
  {
    hide Unhampered, SafeSet, NoRunError, EvaluationOf;
    if Proceeds(s, job) {
      hide Process;
      SucceedsExactly(lib, s, job);
      RecordedVerdict(lib, s, job);
    } else {
      StopsEarly(lib, s, job);
    }
  }

  /** Nothing goes wrong in any action. */
  ghost predicate Calm(job: Job) { forall site :: Fine(job.at(site)) }

  lemma CalmSucceeds(lib: Library, s: Stores, job: Job)
    requires Calm(job) && Configured(lib, job) && Proceeds(s, job)
    ensures Process(lib, s, job).outcome.Fresh() && Appends(s, job)
  {
    hide Process, EvaluationOf, SafeSet, NoRunError;
    forall k | 0 <= k < |RulesFor(job).rules| ensures RuleUnhampered(job, k) {
      CalmRule(lib, job, k);
    }
    assert Fine(job.at(ConfigSite)) && Fine(job.at(RiskSite)) && Fine(job.at(RecordSite))
        && Fine(job.at(PublishSite)) && Fine(job.at(MarkSite));
    SucceedsExactly(lib, s, job);
  }

  lemma CalmRule(lib: Library, job: Job, k: nat)
    requires Calm(job) && SafeSet(lib, RulesFor(job)) && k < |RulesFor(job).rules|
    ensures RuleUnhampered(job, k)
  {
    assert ValidRule(lib, RulesFor(job).rules[k]);
    assert Fine(job.at(ReadSite(k, 0))) && Fine(job.at(ReadSite(k, 1))) && Fine(job.at(ReadSite(k, 2)))
        && Fine(job.at(LinkSite(k)));
  }

  /** Every later look at the key comes while the marks of the earlier attempts would last. */
  ghost predicate WithinADay(jobs: seq<Job>, key: string) {
    forall i, j :: 0 <= i < j < |jobs| && KeyOf(jobs[i].tx) == key && KeyOf(jobs[j].tx) == key ==>
      LookedAt(jobs[j]) <= MarkedUntil(jobs[i])
  }

  ghost predicate Tried(jobs: seq<Job>, key: string) {
    exists k :: 0 <= k < |jobs| && KeyOf(jobs[k].tx) == key && Validate(jobs[k].tx).None?
  }

  ghost predicate CalmOn(lib: Library, jobs: seq<Job>, key: string) {
    forall j :: j in jobs && KeyOf(j.tx) == key ==> Calm(j) && Configured(lib, j)
  }

  /** The key is free until it is tried, and then held by one of its attempts. */
  ghost predicate HeldSinceTried(marks: Marks, jobs: seq<Job>, key: string) {
    if Tried(jobs, key)
    then key in marks && exists i :: 0 <= i < |jobs| && KeyOf(jobs[i].tx) == key && marks[key] == MarkedUntil(jobs[i])
    else key !in marks
  }

  lemma OtherKeyKeeps(lib: Library, s: Stores, job: Job, key: string)
    requires KeyOf(job.tx) != key
    ensures var t := Process(lib, s, job).stores;
            (key in t.marks <==> key in s.marks) && (key in s.marks ==> t.marks[key] == s.marks[key])
  {
    hide Process;
    ProcessMarks(lib, s, job);
  }

  /** One calm attempt: ignored if invalid, a duplicate while the key is held,
      and otherwise fresh, recorded, and holding the key. */
  lemma CalmAttempt(lib: Library, s: Stores, job: Job)
    requires Calm(job) && Configured(lib, job)
    ensures var r, key := Process(lib, s, job), KeyOf(job.tx);
            if Validate(job.tx).Some? then r.stores == s && !r.outcome.Fresh() && !Appends(s, job)
            else if SeenAt(s.marks, key, LookedAt(job)) then r.stores == s && !r.outcome.Fresh() && !Appends(s, job)
            else (r.outcome.Fresh() && Appends(s, job) && key in r.stores.marks
                  && r.stores.marks[key] == MarkedUntil(job))
  {
    hide FromConfig, SafeSet, NoRunError;
    assert Fine(job.at(SeenSite)) && Fine(job.at(RecordSite));
    if Proceeds(s, job) {
      CalmSucceeds(lib, s, job);
      ProcessMarks(lib, s, job);
    }
  }

  lemma CalmPrefix(lib: Library, jobs: seq<Job>, key: string)
    requires jobs != [] && CalmOn(lib, jobs, key) && WithinADay(jobs, key)
    ensures CalmOn(lib, jobs[..|jobs| - 1], key) && WithinADay(jobs[..|jobs| - 1], key)
  {
    hide Calm, Configured;
    assert forall j :: j in jobs[..|jobs| - 1] ==> j in jobs;
  }

  lemma TallyLast(lib: Library, jobs: seq<Job>, p: (Stores, Job) -> bool)
    requires jobs != []
    ensures var k := |jobs| - 1;
            Tally(lib, jobs, p) == Tally(lib, jobs[..k], p)
                + (if p(RunAll(lib, jobs[..k]).stores, jobs[k]) then 1 else 0)
  {
  }

  lemma CalmStart(lib: Library, key: string)
    ensures HeldSinceTried(RunAll(lib, []).stores.marks, [], key) && !Tried([], key)
    ensures Tally(lib, [], FreshOn(lib, key)) == Tally(lib, [], RecordsKey(key)) == 0
  {
  }

  lemma {:induction false} CalmRun(lib: Library, jobs: seq<Job>, key: string)
    requires CalmOn(lib, jobs, key) && WithinADay(jobs, key)
    ensures HeldSinceTried(RunAll(lib, jobs).stores.marks, jobs, key)
    ensures Tally(lib, jobs, FreshOn(lib, key)) == Tally(lib, jobs, RecordsKey(key))
        == (if Tried(jobs, key) then 1 else 0)
  {
    hide *;
    if jobs == [] {
      CalmStart(lib, key);
    } else {
      var init, last := jobs[..|jobs| - 1], jobs[|jobs| - 1];
      CalmPrefix(lib, jobs, key);
      CalmRun(lib, init, key);
      RunAllLast(lib, jobs);
      TriedLast(jobs, key);
      CalmLast(lib, RunAll(lib, init).stores, init, last, jobs, key);
      TallyLast(lib, jobs, FreshOn(lib, key));
      TallyLast(lib, jobs, RecordsKey(key));
    }
  }

  lemma TriedLast(jobs: seq<Job>, key: string)
    requires jobs != []
    ensures var n := |jobs| - 1;
            Tried(jobs, key) <==> Tried(jobs[..n], key) || (KeyOf(jobs[n].tx) == key && Validate(jobs[n].tx).None?)
  {
    var n := |jobs| - 1;
    if k :| 0 <= k < |jobs| && KeyOf(jobs[k].tx) == key && Validate(jobs[k].tx).None? {
      if k < n {
        assert jobs[..n][k] == jobs[k];
      }
    }
  }

  lemma CalmLast(lib: Library, s: Stores, init: seq<Job>, last: Job, jobs: seq<Job>, key: string)
    requires jobs == init + [last] && CalmOn(lib, jobs, key) && WithinADay(jobs, key)
        && HeldSinceTried(s.marks, init, key)
    requires Tried(jobs, key) <==> Tried(init, key) || (KeyOf(last.tx) == key && Validate(last.tx).None?)
    ensures HeldSinceTried(Process(lib, s, last).stores.marks, jobs, key)
    ensures FreshOn(lib, key)(s, last) == RecordsKey(key)(s, last) == (Tried(jobs, key) && !Tried(init, key))
  {
    hide Process, Appends, Calm, Configured, Tried;
    if KeyOf(last.tx) != key {
      OtherKeyKeeps(lib, s, last, key);
      HeldLonger(Process(lib, s, last).stores.marks, init, last, jobs, key);
    } else {
      assert last in jobs;
      CalmAttempt(lib, s, last);
      if Tried(init, key) {
        var i :| 0 <= i < |init| && KeyOf(init[i].tx) == key && s.marks[key] == MarkedUntil(init[i]);
        assert jobs[i] == init[i] && jobs[|init|] == last;
        assert LookedAt(jobs[|init|]) <= MarkedUntil(jobs[i]);
        HeldLonger(s.marks, init, last, jobs, key);
      } else {
        assert jobs[|init|] == last;
      }
    }
  }

  lemma HeldLonger(marks: Marks, init: seq<Job>, last: Job, jobs: seq<Job>, key: string)
    requires jobs == init + [last] && HeldSinceTried(marks, init, key) && Tried(jobs, key) == Tried(init, key)
    ensures HeldSinceTried(marks, jobs, key)
  {
    hide Tried;
    if Tried(init, key) {
      var i :| 0 <= i < |init| && KeyOf(init[i].tx) == key && marks[key] == MarkedUntil(init[i]);
      assert jobs[i] == init[i];
    }
  }

  /** Where nothing goes wrong for a key within a day, its transaction is in the
      window exactly once, and has exactly one fresh verdict, as soon as a valid
      attempt has been made, however many attempts follow. */
  lemma ExactlyOneEntry(lib: Library, jobs: seq<Job>, c: string, key: string)
    requires forall j :: j in jobs ==> j.tx.customerId == c
    requires CalmOn(lib, jobs, key) && WithinADay(jobs, key)
    ensures LogCount(RunAll(lib, jobs).stores, c, key) == FreshCount(jobs, RunAll(lib, jobs).outcomes, key)
         == (if Tried(jobs, key) then 1 else 0)
  {
    CalmRun(lib, jobs, key);
    RecordingsConserved(lib, jobs, c, key);
    FreshCountIsTally(lib, jobs, key);
  }
}
