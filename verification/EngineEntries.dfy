/** The window entries of every run, read off the finished calls and their
    outcomes, whatever programs the compile cache holds and whether or not the
    customers' keys are apart (internal/pipeline/processor.go). */
module EngineEntries {
  import opened Sequences
  import opened Domain
  import opened RuleEvaluation
  import opened ProgramCache
  import opened Processing
  import opened Steps
  import opened Locality
  import opened Guarantees
  import opened Verdicts
  import opened Engine
  import opened EngineRuns
  import opened EngineOutcomes
  import D = Dispatch

  /** From the job and its outcome: the call got through Record with the window up. */
  predicate GotRecorded(job: Job, outcome: Outcome) {
    && Validate(job.tx).None? && Works(job.at(SeenSite)) && !(outcome.Verdict? && outcome.duplicate)
    && Works(job.at(RecordSite)) && Up(job)
  }

  /** The same of a call under way. */
  predicate HasRecorded(job: Job, pc: Pc) {
    !pc.Start? && !pc.AtRecord? && Up(job)
  }

  predicate On(job: Job, c: string, key: string) {
    job.tx.customerId == c && KeyOf(job.tx) == key
  }

  function RecordedOn(c: string, key: string): (Job, Outcome) -> bool {
    (job: Job, outcome: Outcome) => On(job, c, key) && GotRecorded(job, outcome)
  }

  function FreshRecordedOn(c: string, key: string): (Job, Outcome) -> bool {
    (job: Job, outcome: Outcome) => On(job, c, key) && GotRecorded(job, outcome) && outcome.Fresh()
  }

  function BrokenRecordedOn(c: string, key: string): (Job, Outcome) -> bool {
    (job: Job, outcome: Outcome) => On(job, c, key) && GotRecorded(job, outcome) && !outcome.Verdict?
  }

  /** How many of the finished calls have the property. */
  function CountOf(finished: seq<Job>, outcomes: seq<Outcome>, p: (Job, Outcome) -> bool): nat
    requires |finished| == |outcomes|
  {
    if finished == [] then 0
    else
      var k := |finished| - 1;
      CountOf(finished[..k], outcomes[..k], p) + (if p(finished[k], outcomes[k]) then 1 else 0)
  }

  lemma CountAppend(finished: seq<Job>, outcomes: seq<Outcome>, j: Job, o: Outcome, p: (Job, Outcome) -> bool)
    requires |finished| == |outcomes|
    ensures CountOf(finished + [j], outcomes + [o], p) == CountOf(finished, outcomes, p) + (if p(j, o) then 1 else 0)
  {
    assert (finished + [j])[..|finished|] == finished && (outcomes + [o])[..|finished|] == outcomes;
  }

  lemma {:induction false} CountSplit(finished: seq<Job>, outcomes: seq<Outcome>, c: string, key: string)
    requires |finished| == |outcomes|
    ensures CountOf(finished, outcomes, RecordedOn(c, key))
         == CountOf(finished, outcomes, FreshRecordedOn(c, key)) + CountOf(finished, outcomes, BrokenRecordedOn(c, key))
  {
    if finished != [] {
      CountSplit(finished[..|finished| - 1], outcomes[..|finished| - 1], c, key);
    }
  }

  /** Whether the call has recorded after the step. */
  predicate RecordedAfter(job: Job, next: Pc) {
    if next.Ended? then GotRecorded(job, next.outcome) else HasRecorded(job, next)
  }

  /** Only a Record that works with the window up makes a call one that has recorded. */
  lemma ActRecords(lib: Library, programs: Programs, s: Stores, job: Job, pc: Pc)
    requires pc.Ok() && !pc.Ended? && Underway(job, pc)
    ensures var after := RecordedAfter(job, Act(lib, programs, s, job, pc).pc);
            && (HasRecorded(job, pc) ==> after)
            && (after && !HasRecorded(job, pc) <==> pc.AtRecord? && Works(job.at(RecordSite)) && Up(job))
  {
    ActUnderway(lib, programs, s, job, pc);
    StartOrRecord(lib, programs, s, job, pc);
    hide Act, Founded;
  }

  lemma StartOrRecord(lib: Library, programs: Programs, s: Stores, job: Job, pc: Pc)
    requires pc.Ok() && !pc.Ended? && Underway(job, pc)
    ensures var next := Act(lib, programs, s, job, pc).pc;
            && (pc.Start? ==> if next.Ended? then !GotRecorded(job, next.outcome) else next.AtRecord?)
            && (pc.AtRecord? ==>
                  if next.Ended? then !Works(job.at(RecordSite))
                  else Works(job.at(RecordSite)) && !next.Start? && !next.AtRecord?)
  {
    hide After, Advance, AfterRead, ReadOnce, Founded;
  }

  lemma ActLog(lib: Library, programs: Programs, s: Stores, job: Job, pc: Pc, c: string)
    requires pc.Ok() && !pc.Ended?
    ensures var appends := c == job.tx.customerId && pc.AtRecord? && Works(job.at(RecordSite)) && Up(job);
            LogOf(Act(lib, programs, s, job, pc).stores, c)
                == LogOf(s, c) + (if appends then [Guarantees.Recorded(job)] else [])
  {
    hide After, Advance, AfterRead, ReadOnce;
    assert LogOf(s, c) + [] == LogOf(s, c);
  }

  lemma CountedLog(s: Stores, t: Stores, c: string, key: string, job: Job, appends: bool)
    requires LogOf(t, c) == LogOf(s, c) + (if appends then [Guarantees.Recorded(job)] else [])
    ensures LogCount(t, c, key) == LogCount(s, c, key) + (if appends && KeyOf(job.tx) == key then 1 else 0)
  {
    hide LogOf, Filter;
    if appends {
      FilterAppend(LogOf(s, c), Guarantees.Recorded(job), WithKey(key));
    } else {
      assert LogOf(s, c) + [] == LogOf(s, c);
    }
  }

  lemma OnMeans(job: Job, c: string, key: string)
    ensures On(job, c, key) <==> job.tx.customerId == c && KeyOf(job.tx) == key
  {
  }

  /** What one step adds to the log is what it adds to the fact of having recorded. */
  lemma ActLogs(lib: Library, programs: Programs, s: Stores, job: Job, pc: Pc, c: string, key: string)
    requires pc.Ok() && !pc.Ended? && Underway(job, pc)
    ensures var r := Act(lib, programs, s, job, pc);
            && (HasRecorded(job, pc) ==> RecordedAfter(job, r.pc))
            && LogCount(r.stores, c, key)
                 == LogCount(s, c, key)
                    + (if On(job, c, key) && RecordedAfter(job, r.pc) && !HasRecorded(job, pc) then 1 else 0)
  {
    hide *;
    ActRecords(lib, programs, s, job, pc);
    ActLog(lib, programs, s, job, pc, c);
    OnMeans(job, c, key);
    var appends := c == job.tx.customerId && pc.AtRecord? && Works(job.at(RecordSite)) && Up(job);
    CountedLog(s, Act(lib, programs, s, job, pc).stores, c, key, job, appends);
  }

  // ---- in every reachable state ----

  function InFlightCount(lib: Library, g: Engine, c: string, key: string): nat
    requires 0 < |g.pool.workers| == |g.pcs|
  {
    var w := Lane(lib, c, |g.pool.workers|);
    if InFlightOf(g, w, c) && On(JobAt(g, w), c, key) && HasRecorded(JobAt(g, w), g.pcs[w]) then 1 else 0
  }

  ghost predicate EntriesAt(lib: Library, g: Engine, c: string, key: string)
    requires 0 < |g.pool.workers| == |g.pcs| && |g.outcomes| == |g.pool.finished|
  {
    LogCount(g.stores, c, key) == CountOf(g.pool.finished, g.outcomes, RecordedOn(c, key))
        + InFlightCount(lib, g, c, key)
  }

  lemma EntriesOwn(lib: Library, customers: set<string>, g: Engine, w: nat, c: string, key: string)
    requires Structured(lib, customers, g) && Ready(lib, customers, g, Work(w))
    requires Underway(JobAt(g, w), g.pcs[w]) && EntriesAt(lib, g, c, key)
    requires Structured(lib, customers, Worked(lib, g, w))
    requires JobAt(g, w).tx.customerId == c && Lane(lib, c, |g.pool.workers|) == w
    ensures EntriesAt(lib, Worked(lib, g, w), c, key)
  {
    ActLogs(lib, g.programs, g.stores, JobAt(g, w), g.pcs[w], c, key);
    OwnCounts(lib, g, w, c, key);
    hide Act, D.Inv, PcOwn, LogCount, CountOf, GotRecorded, HasRecorded, Consistent, Underway, Lane, Worked;
  }

  lemma OwnCounts(lib: Library, g: Engine, w: nat, c: string, key: string)
    requires Busy(g, w) && JobAt(g, w).tx.customerId == c && Lane(lib, c, |g.pool.workers|) == w
    requires |g.pcs| == |g.pool.workers| && |g.outcomes| == |g.pool.finished|
    ensures var h, j := Worked(lib, g, w), JobAt(g, w);
            var a := Act(lib, g.programs, g.stores, j, g.pcs[w]);
            && |h.outcomes| == |h.pool.finished| && |h.pcs| == |h.pool.workers| == |g.pcs| && h.stores == a.stores
            && CountOf(h.pool.finished, h.outcomes, RecordedOn(c, key)) + InFlightCount(lib, h, c, key)
               == CountOf(g.pool.finished, g.outcomes, RecordedOn(c, key))
                  + (if On(j, c, key) && RecordedAfter(j, a.pc) then 1 else 0)
  {
    var a := Act(lib, g.programs, g.stores, JobAt(g, w), g.pcs[w]);
    hide Act, CountOf, GotRecorded, HasRecorded, Lane;
    if a.pc.Ended? {
      CountAppend(g.pool.finished, g.outcomes, JobAt(g, w), a.pc.outcome, RecordedOn(c, key));
    }
  }

  lemma EntriesOther(lib: Library, customers: set<string>, g: Engine, w: nat, c: string, key: string)
    requires Structured(lib, customers, g) && Ready(lib, customers, g, Work(w))
    requires Underway(JobAt(g, w), g.pcs[w]) && EntriesAt(lib, g, c, key)
    requires Structured(lib, customers, Worked(lib, g, w))
    requires JobAt(g, w).tx.customerId != c
    ensures EntriesAt(lib, Worked(lib, g, w), c, key)
  {
    var j := JobAt(g, w);
    ActLogs(lib, g.programs, g.stores, j, g.pcs[w], c, key);
    WorkedElsewhere(lib, customers, g, w, c);
    OtherCount(lib, g, w, c, key);
    hide Act, D.Inv, PcOwn, LogCount, CountOf, GotRecorded, HasRecorded, RecordedAfter, Consistent, Underway, Lane,
        Worked;
  }

  lemma OtherCount(lib: Library, g: Engine, w: nat, c: string, key: string)
    requires Busy(g, w) && JobAt(g, w).tx.customerId != c && |g.outcomes| == |g.pool.finished|
    ensures var h := Worked(lib, g, w);
            && |h.outcomes| == |h.pool.finished|
            && CountOf(h.pool.finished, h.outcomes, RecordedOn(c, key))
                == CountOf(g.pool.finished, g.outcomes, RecordedOn(c, key))
  {
    var a := Act(lib, g.programs, g.stores, JobAt(g, w), g.pcs[w]);
    hide Act, CountOf, GotRecorded;
    if a.pc.Ended? {
      CountAppend(g.pool.finished, g.outcomes, JobAt(g, w), a.pc.outcome, RecordedOn(c, key));
    }
  }

  lemma EntriesNext(lib: Library, customers: set<string>, g: Engine, ev: Label, c: string, key: string)
    requires Structured(lib, customers, g) && Ready(lib, customers, g, ev)
    requires ev.Work? ==> Underway(JobAt(g, ev.w), g.pcs[ev.w])
    requires EntriesAt(lib, g, c, key)
    ensures Structured(lib, customers, Next(lib, customers, g, ev))
    ensures EntriesAt(lib, Next(lib, customers, g, ev), c, key)
  {
    hide Act, D.Inv, LogCount, CountOf, Consistent, Underway;
    StructuredNext(lib, customers, g, ev);
    if ev.Work? {
      InFlightLane(lib, customers, g, ev.w);
      if JobAt(g, ev.w).tx.customerId == c {
        EntriesOwn(lib, customers, g, ev.w, c, key);
      } else {
        EntriesOther(lib, customers, g, ev.w, c, key);
      }
    }
  }

  lemma {:induction false} AlwaysEntries(lib: Library, customers: set<string>, n: int, bundle: Bundle, clock: int,
                              states: seq<Engine>, labels: seq<Label>, c: string, key: string)
    requires Execution(lib, customers, n, bundle, clock, states, labels)
    ensures Structured(lib, customers, states[|labels|]) && EntriesAt(lib, states[|labels|], c, key)
    decreases |labels|
  {
    AlwaysStructured(lib, customers, n, bundle, clock, states, labels);
    if labels != [] {
      ExecutionPrefix(lib, customers, n, bundle, clock, states, labels);
      AlwaysEntries(lib, customers, n, bundle, clock, states[..|labels|], labels[..|labels| - 1], c, key);
      OutcomesExplained(lib, customers, n, bundle, clock, states[..|labels|], labels[..|labels| - 1],
          states[|labels| - 1]);
      EntriesNext(lib, customers, states[|labels| - 1], labels[|labels| - 1], c, key);
    }
  }

  /** In every reachable state, with none of the customer's calls in flight: the
      entries ever appended for a key are the finished calls on it that got
      through Record, which are the fresh verdicts that did and the calls that
      did and then failed. */
  lemma EntriesAreAttempts(lib: Library, customers: set<string>, n: int, bundle: Bundle, clock: int,
                           states: seq<Engine>, labels: seq<Label>, g: Engine, c: string, key: string)
    requires Execution(lib, customers, n, bundle, clock, states, labels) && g == states[|labels|]
    requires |g.pool.workers| > 0 && !InFlightOf(g, Lane(lib, c, |g.pool.workers|), c)
    ensures |g.outcomes| == |g.pool.finished|
    ensures LogCount(g.stores, c, key) == CountOf(g.pool.finished, g.outcomes, RecordedOn(c, key))
    ensures LogCount(g.stores, c, key)
         == CountOf(g.pool.finished, g.outcomes, FreshRecordedOn(c, key))
          + CountOf(g.pool.finished, g.outcomes, BrokenRecordedOn(c, key))
  {
    AlwaysEntries(lib, customers, n, bundle, clock, states, labels, c, key);
    hide LogCount, CountOf;
    CountSplit(g.pool.finished, g.outcomes, c, key);
  }
}
