/** What one Process call, and a run of them one after another, does to the
    stores: duplicates are inert, marks last, and the window log is conserved. */
module Guarantees {
  import opened Sequences
  import opened Domain
  import opened Scoring
  import opened RuleEvaluation
  import opened AlertId
  import opened Processing
  import opened I = IdempotencyStore
  import W = WindowStore

  // ---- one call ----

  /** The attempt gets as far as appending to the window. */
  predicate Appends(s: Stores, job: Job) {
    var seen, record := job.at(SeenSite), job.at(RecordSite);
    && Validate(job.tx).None?
    && !seen.panics && !seen.fault && !SeenAt(s.marks, KeyOf(job.tx), seen.now)
    && !record.panics && !record.fault && !record.down
  }

  function Recorded(job: Job): W.Recording {
    W.Recording(job.tx, job.at(RecordSite).now, job.at(RecordSite).later)
  }

  /** A call appends at most its own entry, exactly when it gets that far,
      whatever happens afterwards; other customers' windows are untouched. */
  lemma ProcessAppends(lib: Library, s: Stores, job: Job)
    ensures var t, c := Process(lib, s, job).stores, job.tx.customerId;
            && LogOf(t, c) == LogOf(s, c) + (if Appends(s, job) then [Recorded(job)] else [])
            && (forall d :: d != c ==> LogOf(t, d) == LogOf(s, d) && WindowOf(t, d) == WindowOf(s, d))
  {
  }

  /** A duplicate verdict changes nothing in any store. */
  lemma DuplicateIsInert(lib: Library, s: Stores, job: Job)
    requires Process(lib, s, job).outcome.Verdict? && Process(lib, s, job).outcome.duplicate
    ensures Process(lib, s, job).stores == s
    ensures SeenAt(s.marks, KeyOf(job.tx), job.at(SeenSite).now) && Validate(job.tx).None?
  {

  }

  /** A verdict that used the window in full has recorded its transaction. */
  lemma FullVerdictAppends(lib: Library, s: Stores, job: Job)
    requires Process(lib, s, job).outcome.Fresh() && !Process(lib, s, job).outcome.partial
    ensures Appends(s, job)
  {

  }

  /** Marks: a fresh verdict leaves its key marked for a day, having found it
      unmarked or expired; nothing else adds a mark, and only a look at an
      expired key removes one. */
  lemma ProcessMarks(lib: Library, s: Stores, job: Job)
    ensures var r, key, now := Process(lib, s, job), KeyOf(job.tx), job.at(SeenSite).now;
            && (r.outcome.Fresh() ==> key !in s.marks || now > s.marks[key])
            && (r.outcome.Fresh() ==>
                  r.stores.marks == s.marks[key := job.at(MarkSite).now + 24 * 3600 * 1_000_000_000])
            && (!r.outcome.Fresh() ==>
                  || r.stores.marks == s.marks
                  || (key in s.marks && now > s.marks[key] && r.stores.marks == s.marks - {key}))
  {
    hide FromConfig;
    var key := KeyOf(job.tx);
    var until := job.at(MarkSite).now + 24 * 3600 * 1_000_000_000;
    assert key in s.marks ==> (s.marks - {key})[key := until] == s.marks[key := until];
  }

  /** A valid transaction is taken for a duplicate exactly while its key is held. */
  lemma DuplicateWhileHeld(lib: Library, s: Stores, job: Job)
    requires Validate(job.tx).None? && !job.at(SeenSite).panics && !job.at(SeenSite).fault
    ensures var o := Process(lib, s, job).outcome;
            o.Verdict? && o.duplicate <==> KeyOf(job.tx) in s.marks && LookedAt(job) <= s.marks[KeyOf(job.tx)]
  {
    hide FromConfig;
  }

  /** Alerts: a verdict publishes exactly the alert it carries. */
  lemma ProcessAlerts(lib: Library, s: Stores, job: Job)
    requires Process(lib, s, job).outcome.Verdict?
    ensures Process(lib, s, job).stores.alerts == s.alerts + ToSeq(Process(lib, s, job).outcome.alert)
  {
    hide FromConfig;
  }

  /** An alert rests on a triggered rule and at least one category. */
  lemma AlertsAreFounded(lib: Library, s: Stores, job: Job)
    requires Process(lib, s, job).outcome.Verdict? && Process(lib, s, job).outcome.alert.Some?
    ensures Founded(Process(lib, s, job).outcome.alert.value, job.tx, Process(lib, s, job).outcome.partial)
  {
    hide FromConfig;
  }

  /** Where two customers' keys do collide, the second transaction is taken
      for a duplicate of the first and never evaluated. */
  lemma MistakenDuplicate(lib: Library, s: Stores, a: Job, b: Job)
    requires KeyOf(a.tx) == KeyOf(b.tx) && Process(lib, s, a).outcome.Fresh()
    requires Validate(b.tx).None? && !b.at(SeenSite).panics && !b.at(SeenSite).fault
    requires b.at(SeenSite).now <= a.at(MarkSite).now + 24 * 3600 * 1_000_000_000
    ensures Process(lib, Process(lib, s, a).stores, b) == End(Process(lib, s, a).stores, Verdict(true, None, false))
  {
    hide FromRecord, FromConfig;
    ProcessMarks(lib, s, a);
  }

  // ---- decision ----

  lemma SevereHit(hits: seq<RuleDef>)
    ensures (exists h :: h in hits && h.emits.severity.Rank() >= 3) <==>
            (exists s :: s in Severities(hits) && s.Rank() >= 3)
  {
    var sevs := Severities(hits);
    if h :| h in hits && h.emits.severity.Rank() >= 3 {
      var i :| 0 <= i < |hits| && hits[i] == h;
      assert sevs[i] in sevs;
    }
    if s :| s in sevs && s.Rank() >= 3 {
      var i :| 0 <= i < |sevs| && sevs[i] == s;
      assert hits[i] in hits;
    }
  }

  lemma OtherThanMedia(hits: seq<RuleDef>)
    ensures (exists h :: h in hits && !h.emits.severity.Media?) <==>
            (exists s :: s in Severities(hits) && !s.Media?)
  {
    var sevs := Severities(hits);
    if h :| h in hits && !h.emits.severity.Media? {
      var i :| 0 <= i < |hits| && hits[i] == h;
      assert sevs[i] in sevs;
    }
    if s :| s in sevs && !s.Media? {
      var i :| 0 <= i < |sevs| && sevs[i] == s;
      assert hits[i] in hits;
    }
  }

  /** At the default threshold, what raises an alert (or fails to compute its
      id): some alta or critica hit, or hits that are all media. */
  lemma DefaultThresholdDecides(lib: Library, tx: Transaction, rules: RuleSet, up: bool, hits: seq<RuleDef>,
                                degraded: bool)
    requires rules.profile.scoreMinimoAlerta == 0.5
    requires forall h :: h in hits ==> h.emits.severity.Valid()
    ensures !Decide(lib, tx, rules, up, hits, degraded).Quiet? <==>
              (exists h :: h in hits && h.emits.severity.Rank() >= 3) ||
              (hits != [] && forall h :: h in hits ==> h.emits.severity.Media?)
  {
    ValidHits(hits);
    DefaultThreshold(Severities(hits));
    SevereHit(hits);
    OtherThanMedia(hits);
    assert !Decide(lib, tx, rules, up, hits, degraded).Quiet?
      <==> hits != [] && ScoreOf(Severities(hits)) >= 0.5 by {
      hide ScoreOf, AlertIdOf, Pick, ById, Refs, RunningSeverity, Categories;
    }
    hide Decide, ScoreOf, Severities;
  }

  // ---- runs ----

  lemma RunAllLast(lib: Library, jobs: seq<Job>)
    requires jobs != []
    ensures var k := |jobs| - 1;
            var before := RunAll(lib, jobs[..k]);
            var end := Process(lib, before.stores, jobs[k]);
            RunAll(lib, jobs) == Ran(end.stores, before.outcomes + [end.outcome])
  {
  }

  /** How many of the jobs had the property, given the stores they started from. */
  function Tally(lib: Library, jobs: seq<Job>, p: (Stores, Job) -> bool): nat {
    if jobs == [] then 0
    else
      var k := |jobs| - 1;
      Tally(lib, jobs[..k], p) + (if p(RunAll(lib, jobs[..k]).stores, jobs[k]) then 1 else 0)
  }

  function RecordsKey(key: string): (Stores, Job) -> bool {
    (s: Stores, j: Job) => KeyOf(j.tx) == key && Appends(s, j)
  }

  /** The attempts on one key that recorded their transaction. */
  function Recordings(lib: Library, jobs: seq<Job>, key: string): nat {
    Tally(lib, jobs, RecordsKey(key))
  }

  function WithKey(key: string): W.Recording -> bool {
    (r: W.Recording) => KeyOf(r.tx) == key
  }

  function LogCount(s: Stores, c: string, key: string): nat {
    |Filter(LogOf(s, c), WithKey(key))|
  }

  lemma LogCountStep(lib: Library, s: Stores, job: Job, key: string)
    ensures var c := job.tx.customerId;
            LogCount(Process(lib, s, job).stores, c, key)
              == LogCount(s, c, key) + (if KeyOf(job.tx) == key && Appends(s, job) then 1 else 0)
  {
    ProcessAppends(lib, s, job);
    hide Process, Appends, Filter, LogOf;
    var log := LogOf(s, job.tx.customerId);
    FilterAppend(log, Recorded(job), WithKey(key));
    if !Appends(s, job) {
      assert log + [] == log;
    }
  }

  /** Entries ever appended for a key are the attempts on it that recorded:
      one for each success with the window, one more for each failure after it,
      none for a duplicate. */
  lemma {:induction false} RecordingsConserved(lib: Library, jobs: seq<Job>, c: string, key: string)
    requires forall j :: j in jobs ==> j.tx.customerId == c
    ensures LogCount(RunAll(lib, jobs).stores, c, key) == Recordings(lib, jobs, key)
  {
    hide Process, Appends;
    if jobs != [] {
      var k := |jobs| - 1;
      RunAllLast(lib, jobs);
      RecordingsConserved(lib, jobs[..k], c, key);
      LogCountStep(lib, RunAll(lib, jobs[..k]).stores, jobs[k], key);
    }
  }

  /** The fresh verdicts on one key. */
  function FreshCount(jobs: seq<Job>, outcomes: seq<Outcome>, key: string): nat
    requires |jobs| == |outcomes|
  {
    if jobs == [] then 0
    else
      var k := |jobs| - 1;
      FreshCount(jobs[..k], outcomes[..k], key) + (if KeyOf(jobs[k].tx) == key && outcomes[k].Fresh() then 1 else 0)
  }

  /** Where every call ends in a verdict that used the window in full. */
  predicate Untroubled(outcomes: seq<Outcome>) {
    forall o :: o in outcomes ==> o.Verdict? && !o.partial
  }

  /** Then the window holds exactly one entry per fresh verdict. */
  lemma {:induction false} OneEntryPerVerdict(lib: Library, jobs: seq<Job>, c: string, key: string)
    requires forall j :: j in jobs ==> j.tx.customerId == c
    requires Untroubled(RunAll(lib, jobs).outcomes)
    ensures LogCount(RunAll(lib, jobs).stores, c, key) == FreshCount(jobs, RunAll(lib, jobs).outcomes, key)
  {
    RecordingsConserved(lib, jobs, c, key);
    FullRunsRecord(lib, jobs, key);
  }

  lemma {:induction false} FullRunsRecord(lib: Library, jobs: seq<Job>, key: string)
    requires Untroubled(RunAll(lib, jobs).outcomes)
    ensures Recordings(lib, jobs, key) == FreshCount(jobs, RunAll(lib, jobs).outcomes, key)
  {
    hide Process, Appends;
    if jobs != [] {
      var k := |jobs| - 1;
      var before, all := RunAll(lib, jobs[..k]), RunAll(lib, jobs).outcomes;
      RunAllLast(lib, jobs);
      assert all[..k] == before.outcomes && all[k] == Process(lib, before.stores, jobs[k]).outcome;
      assert forall o :: o in before.outcomes ==> o in all;
      FullRunsRecord(lib, jobs[..k], key);
      assert all[k] in all;
      VerdictAppends(lib, before.stores, jobs[k]);
    }
  }

  /** Among full verdicts, the fresh ones are those that record. */
  lemma VerdictAppends(lib: Library, s: Stores, job: Job)
    requires Process(lib, s, job).outcome.Verdict? && !Process(lib, s, job).outcome.partial
    ensures Process(lib, s, job).outcome.Fresh() <==> Appends(s, job)
  {
    hide FromConfig;
  }

  // ---- at most once ----

  function LookedAt(j: Job): int { j.at(SeenSite).now }

  /** The mark of a fresh verdict lasts 24 hours, in nanoseconds. */
  function MarkedUntil(j: Job): int { j.at(MarkSite).now + 24 * 3600 * 1_000_000_000 }

  /** Later jobs look at the clock later. */
  predicate InTime(jobs: seq<Job>) {
    forall i, j :: 0 <= i < j < |jobs| ==> LookedAt(jobs[i]) <= LookedAt(jobs[j])
  }

  /** The mark of job p is still held, or some later job looked after it ran out. */
  ghost predicate HeldOrPast(lib: Library, jobs: seq<Job>, p: nat)
    requires p < |jobs|
  {
    var marks, key := RunAll(lib, jobs).stores.marks, KeyOf(jobs[p].tx);
    || (key in marks && marks[key] >= MarkedUntil(jobs[p]))
    || (exists m :: p < m < |jobs| && LookedAt(jobs[m]) > MarkedUntil(jobs[p]))
  }

  lemma {:induction false} MarkHeld(lib: Library, jobs: seq<Job>, p: nat)
    requires p < |jobs| && RunAll(lib, jobs).outcomes[p].Fresh()
    ensures HeldOrPast(lib, jobs, p)
  {
    hide Process;
    var k := |jobs| - 1;
    var init, last := jobs[..k], jobs[k];
    RunAllLast(lib, jobs);
    ProcessMarks(lib, RunAll(lib, init).stores, last);
    if p < k {
      MarkHeld(lib, init, p);
      if m :| p < m < k && LookedAt(init[m]) > MarkedUntil(init[p]) {
        assert jobs[m] == init[m];
      }
    }
  }

  /** Two fresh verdicts on the same key are more than a day apart: the second
      looked only after the first one's mark had run out. */
  lemma AtMostOnce(lib: Library, jobs: seq<Job>, p: nat, q: nat)
    requires InTime(jobs) && p < q < |jobs| && KeyOf(jobs[p].tx) == KeyOf(jobs[q].tx)
    requires RunAll(lib, jobs).outcomes[p].Fresh() && RunAll(lib, jobs).outcomes[q].Fresh()
    ensures LookedAt(jobs[q]) > jobs[p].at(MarkSite).now + 24 * 3600 * 1_000_000_000
  {
    hide Process;
    RunAllPrefix(lib, jobs, q + 1);
    RunAllPrefix(lib, jobs, q);
    var upTo, before := jobs[..q + 1], jobs[..q];
    RunAllLast(lib, upTo);
    assert upTo[..q] == before;
    ProcessMarks(lib, RunAll(lib, before).stores, jobs[q]);
    MarkHeld(lib, before, p);
    if m :| p < m < q && LookedAt(before[m]) > MarkedUntil(before[p]) {
      assert LookedAt(jobs[m]) <= LookedAt(jobs[q]);
    }
  }

  /** The mark of job p as it was set, or a later look after it ran out has removed it. */
  ghost predicate MarkStands(lib: Library, jobs: seq<Job>, p: nat)
    requires p < |jobs|
  {
    var marks, key := RunAll(lib, jobs).stores.marks, KeyOf(jobs[p].tx);
    || (key in marks && marks[key] == MarkedUntil(jobs[p]))
    || (key !in marks && exists m :: p < m < |jobs| && LookedAt(jobs[m]) > MarkedUntil(jobs[p]))
  }

  lemma {:induction false} MarkStandsUntilNext(lib: Library, jobs: seq<Job>, p: nat)
    requires p < |jobs| && RunAll(lib, jobs).outcomes[p].Fresh()
    requires forall m :: p < m < |jobs| && KeyOf(jobs[m].tx) == KeyOf(jobs[p].tx) ==>
               !RunAll(lib, jobs).outcomes[m].Fresh()
    ensures MarkStands(lib, jobs, p)
  {
    hide Process;
    var k := |jobs| - 1;
    var init, last := jobs[..k], jobs[k];
    RunAllLast(lib, jobs);
    ProcessMarks(lib, RunAll(lib, init).stores, last);
    if p < k {
      forall m | p < m < k && KeyOf(init[m].tx) == KeyOf(init[p].tx) ensures !RunAll(lib, init).outcomes[m].Fresh() {
        assert jobs[m] == init[m] && RunAll(lib, jobs).outcomes[m] == RunAll(lib, init).outcomes[m];
      }
      MarkStandsUntilNext(lib, init, p);
      if m :| p < m < k && LookedAt(init[m]) > MarkedUntil(init[p]) {
        assert jobs[m] == init[m];
      }
    }
  }

  lemma StandsBefore(lib: Library, jobs: seq<Job>, p: nat, q: nat)
    requires p < q < |jobs| && RunAll(lib, jobs).outcomes[p].Fresh()
    requires forall m :: p < m < q && KeyOf(jobs[m].tx) == KeyOf(jobs[p].tx) ==>
               !RunAll(lib, jobs).outcomes[m].Fresh()
    ensures MarkStands(lib, jobs[..q], p)
  {
    hide Process, RunAll, MarkStands, KeyOf;
    RunAllPrefix(lib, jobs, q);
    MarkStandsUntilNext(lib, jobs[..q], p);
  }

  /** The outcome at q is that of the call on the stores that the jobs before it left. */
  lemma OutcomeOf(lib: Library, jobs: seq<Job>, q: nat)
    requires q < |jobs|
    ensures RunAll(lib, jobs).outcomes[q] == Process(lib, RunAll(lib, jobs[..q]).stores, jobs[q]).outcome
  {
    hide Process;
    RunAllPrefix(lib, jobs, q + 1);
    RunAllLast(lib, jobs[..q + 1]);
    assert jobs[..q + 1][..q] == jobs[..q];
  }

  /** To the nanosecond: after a fresh verdict, and before the next one on the
      key, a valid attempt is a duplicate exactly if it looks no later than 24
      hours after the mark. */
  lemma DuplicateForADay(lib: Library, jobs: seq<Job>, p: nat, q: nat)
    requires InTime(jobs) && p < q < |jobs| && KeyOf(jobs[p].tx) == KeyOf(jobs[q].tx)
    requires RunAll(lib, jobs).outcomes[p].Fresh()
    requires forall m :: p < m < q && KeyOf(jobs[m].tx) == KeyOf(jobs[p].tx) ==>
               !RunAll(lib, jobs).outcomes[m].Fresh()
    requires Validate(jobs[q].tx).None? && !jobs[q].at(SeenSite).panics && !jobs[q].at(SeenSite).fault
    ensures RunAll(lib, jobs).outcomes[q].Verdict? && RunAll(lib, jobs).outcomes[q].duplicate
       <==> LookedAt(jobs[q]) <= jobs[p].at(MarkSite).now + 24 * 3600 * 1_000_000_000
  {
    hide Process, RunAll, KeyOf;
    var before := jobs[..q];
    StandsBefore(lib, jobs, p, q);
    OutcomeOf(lib, jobs, q);
    DuplicateWhileHeld(lib, RunAll(lib, before).stores, jobs[q]);
    if m :| p < m < q && LookedAt(before[m]) > MarkedUntil(before[p]) {
      assert LookedAt(jobs[m]) <= LookedAt(jobs[q]);
    }
  }

  lemma {:induction false} RunAllPrefix(lib: Library, jobs: seq<Job>, n: nat)
    requires n <= |jobs|
    ensures RunAll(lib, jobs[..n]).outcomes == RunAll(lib, jobs).outcomes[..n]
    decreases |jobs|
  {
    hide Process;
    if n < |jobs| {
      RunAllLast(lib, jobs);
      RunAllPrefix(lib, jobs[..|jobs| - 1], n);
      assert jobs[..|jobs| - 1][..n] == jobs[..n];
    } else {
      assert jobs[..n] == jobs;
    }
  }
}
