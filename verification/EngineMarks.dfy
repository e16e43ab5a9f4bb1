/** At most once under the pool (internal/pipeline/processor.go,
    internal/adapters/memory/idempotency_store.go): what the marks say about the
    finished calls in every reachable state, from the routing, the separation of
    keys and the expiry alone, whatever programs the compile cache holds. */
module EngineMarks {
  import opened Sequences
  import opened Domain
  import opened RuleEvaluation
  import opened ProgramCache
  import opened Processing
  import opened Steps
  import opened Locality
  import opened Guarantees
  import opened Engine
  import opened EngineRuns
  import opened I = IdempotencyStore
  import W = WindowStore
  import D = Dispatch

  // ---- one step ----

  /** Seen finds the key free or the call ends as a duplicate; only a Mark that
      works makes a verdict fresh. */
  lemma ActMarks(lib: Library, programs: Programs, s: Stores, job: Job, pc: Pc)
    requires pc.Ok() && !pc.Ended?
    ensures var r, key, o := Act(lib, programs, s, job, pc), KeyOf(job.tx), job.at(pc.Site());
            && (pc.Start? ==>
                  && (r.stores.marks == s.marks || r.stores.marks == AfterSeen(s.marks, key, o.now))
                  && (r.pc.Ended? && r.pc.outcome.Verdict? ==> r.pc.outcome.duplicate && SeenAt(s.marks, key, o.now))
                  && (!r.pc.Ended? ==> !SeenAt(s.marks, key, o.now)))
            && (!pc.Start? ==>
                  && (r.pc.Ended? && r.pc.outcome.Verdict? ==> r.pc.outcome.Fresh() && pc.AtMark?)
                  && r.stores.marks == (if r.pc.Ended? && r.pc.outcome.Fresh()
                                        then AfterMark(s.marks, key, IDEMPOTENCY_TTL, o.now)
                                        else s.marks))
  {
    hide After, Advance, AfterRead, ReadOnce, Validate;
    match pc {
      case AtRisk(up, rules) => AdvanceNoVerdict(lib, job.tx, Begin(up, rules, RiskFor(job.at(RiskSite), rules)));
      case AtRead(e, got) => ReadNoVerdict(lib, job, e, got, WindowOf(s, job.tx.customerId));
      case AtLink(e, window) =>
        if ProgramKey(e.Rule()) in programs {
          AfterNoVerdict(lib, job.tx, e, RunProgram(lib, programs[ProgramKey(e.Rule())], e.Env(job.tx, window)));
        }
      case AtStore(e, window, p) => AfterNoVerdict(lib, job.tx, e, RunProgram(lib, p, e.Env(job.tx, window)));
      case _ =>
    }
  }

  lemma {:induction false} AdvanceNoVerdict(lib: Library, tx: Transaction, e: State)
    ensures var pc := Advance(lib, tx, e); pc.Ended? ==> !pc.outcome.Verdict?
    decreases |e.rules.rules| - e.k
  {
    hide Decide;
    if e.Live() && e.Skips() {
      AdvanceNoVerdict(lib, tx, e.Next(Skip));
    }
  }

  lemma AfterNoVerdict(lib: Library, tx: Transaction, e: State, step: RuleStep)
    requires e.Live() && (step.Broken? ==> !step.outcome.Verdict?)
    ensures var pc := After(lib, tx, e, step); pc.Ended? ==> !pc.outcome.Verdict?
  {
    if !step.Broken? {
      AdvanceNoVerdict(lib, tx, e.Next(step));
    }
  }

  lemma ReadNoVerdict(lib: Library, job: Job, e: State, got: seq<nat>, window: seq<W.Entry>)
    requires AtRead(e, got).Ok()
    ensures var o := job.at(ReadSite(e.k, |got|));
            var pc := AfterRead(lib, job.tx, e, ReadOnce(lib, e.Rule().window.value, job.tx, window, o, got));
            pc.Ended? ==> !pc.outcome.Verdict?
  {
    hide After, W.Kept, W.CountOn, W.MaxKm, W.Devices, Reach;
    AfterNoVerdict(lib, job.tx, e, Degrade);
  }

  // ---- the marks against the finished calls ----

  predicate FreshAt(finished: seq<Job>, outcomes: seq<Outcome>, i: int, key: string) {
    0 <= i < |finished| == |outcomes| && outcomes[i].Fresh() && KeyOf(finished[i].tx) == key
  }

  /** The mark that lasts until this time is held, or the time has passed; and
      it was not set ahead of the clock. */
  predicate Held(marks: Marks, clock: int, key: string, until: int) {
    && ((key in marks && marks[key] >= until) || clock > until)
    && until <= clock + 24 * 3600 * 1_000_000_000
  }

  ghost predicate AllHeld(marks: Marks, clock: int, finished: seq<Job>, outcomes: seq<Outcome>) {
    forall i, key :: FreshAt(finished, outcomes, i, key) ==> Held(marks, clock, key, MarkedUntil(finished[i]))
  }

  /** A fresh verdict on the key set a mark that lasts until this time. */
  ghost predicate Earned(finished: seq<Job>, outcomes: seq<Outcome>, key: string, until: int) {
    exists i :: FreshAt(finished, outcomes, i, key) && MarkedUntil(finished[i]) == until
  }

  /** A held key is held on account of some fresh verdict. */
  ghost predicate AllEarned(marks: Marks, finished: seq<Job>, outcomes: seq<Outcome>) {
    forall key :: key in marks ==> Earned(finished, outcomes, key, marks[key])
  }

  /** The job looked after the marks of all fresh verdicts on its key had run out. */
  ghost predicate LooksLate(job: Job, finished: seq<Job>, outcomes: seq<Outcome>) {
    forall i :: FreshAt(finished, outcomes, i, KeyOf(job.tx)) ==> LookedAt(job) > MarkedUntil(finished[i])
  }

  ghost predicate FreshApart(finished: seq<Job>, outcomes: seq<Outcome>) {
    forall i, j, key :: i < j && FreshAt(finished, outcomes, i, key) && FreshAt(finished, outcomes, j, key) ==>
      LookedAt(finished[j]) > MarkedUntil(finished[i])
  }

  predicate DuplicateAt(outcomes: seq<Outcome>, i: int) {
    0 <= i < |outcomes| && outcomes[i].Verdict? && outcomes[i].duplicate
  }

  /** Some fresh verdict among the first n on the key of the job, and the job
      looked while its mark lasted. */
  ghost predicate FollowsFresh(finished: seq<Job>, outcomes: seq<Outcome>, job: Job, n: int) {
    exists i :: i < n && FreshAt(finished, outcomes, i, KeyOf(job.tx)) && LookedAt(job) <= MarkedUntil(finished[i])
  }

  /** A duplicate verdict looked while the mark of an earlier fresh one on its key lasted. */
  ghost predicate DuplicatesFollow(finished: seq<Job>, outcomes: seq<Outcome>)
    requires |finished| == |outcomes|
  {
    forall j :: DuplicateAt(outcomes, j) ==> FollowsFresh(finished, outcomes, finished[j], j)
  }

  ghost predicate LateAt(g: Engine, w: nat)
    requires w < |g.pcs| == |g.pool.workers|
  {
    g.pool.workers[w].current.Some? && !g.pcs[w].Start? ==> LooksLate(JobAt(g, w), g.pool.finished, g.outcomes)
  }

  ghost predicate MarksInv(g: Engine)
    requires |g.pcs| == |g.pool.workers| && |g.outcomes| == |g.pool.finished|
  {
    && AllHeld(g.stores.marks, g.clock, g.pool.finished, g.outcomes)
    && AllEarned(g.stores.marks, g.pool.finished, g.outcomes)
    && FreshApart(g.pool.finished, g.outcomes)
    && DuplicatesFollow(g.pool.finished, g.outcomes)
    && (forall w :: 0 <= w < |g.pcs| ==> LateAt(g, w))
  }

  // ---- single changes ----

  lemma HeldAfterSeen(marks: Marks, clock: int, look: string, now: int, finished: seq<Job>, outcomes: seq<Outcome>)
    requires AllHeld(marks, clock, finished, outcomes) && clock <= now
    ensures AllHeld(AfterSeen(marks, look, now), now, finished, outcomes) && AllHeld(marks, now, finished, outcomes)
  {
    forall i, key | FreshAt(finished, outcomes, i, key)
      ensures Held(AfterSeen(marks, look, now), now, key, MarkedUntil(finished[i]))
      ensures Held(marks, now, key, MarkedUntil(finished[i]))
    {
      assert Held(marks, clock, key, MarkedUntil(finished[i]));
    }
  }

  lemma EarnedAfterSeen(marks: Marks, look: string, now: int, finished: seq<Job>, outcomes: seq<Outcome>)
    requires AllEarned(marks, finished, outcomes)
    ensures AllEarned(AfterSeen(marks, look, now), finished, outcomes)
  {
    assert forall key :: key in AfterSeen(marks, look, now) ==> key in marks;
  }

  /** A look that finds the key free comes after every mark on it has run out. */
  lemma FreeIsLate(marks: Marks, clock: int, job: Job, finished: seq<Job>, outcomes: seq<Outcome>)
    requires AllHeld(marks, clock, finished, outcomes) && clock <= LookedAt(job)
        && !SeenAt(marks, KeyOf(job.tx), LookedAt(job))
    ensures LooksLate(job, finished, outcomes)
  {
    forall i | FreshAt(finished, outcomes, i, KeyOf(job.tx)) ensures LookedAt(job) > MarkedUntil(finished[i]) {
      assert Held(marks, clock, KeyOf(job.tx), MarkedUntil(finished[i]));
    }
  }

  lemma FreshAppend(finished: seq<Job>, outcomes: seq<Outcome>, j: Job, o: Outcome)
    requires |finished| == |outcomes|
    ensures forall i, key :: FreshAt(finished + [j], outcomes + [o], i, key)
              <==> FreshAt(finished, outcomes, i, key) || (i == |finished| && o.Fresh() && KeyOf(j.tx) == key)
  {
  }

  /** A call that ends otherwise than fresh changes none of this, as long as a
      duplicate found its key held. */
  lemma AppendOther(marks: Marks, clock: int, finished: seq<Job>, outcomes: seq<Outcome>, j: Job, o: Outcome)
    requires |finished| == |outcomes| && !o.Fresh()
    requires AllHeld(marks, clock, finished, outcomes) && FreshApart(finished, outcomes)
        && DuplicatesFollow(finished, outcomes)
    requires o.Verdict? ==> FollowsFresh(finished, outcomes, j, |finished|)
    ensures AllHeld(marks, clock, finished + [j], outcomes + [o])
    ensures AllEarned(marks, finished, outcomes) ==> AllEarned(marks, finished + [j], outcomes + [o])
    ensures FreshApart(finished + [j], outcomes + [o])
    ensures DuplicatesFollow(finished + [j], outcomes + [o])
    ensures forall k :: LooksLate(k, finished, outcomes) ==> LooksLate(k, finished + [j], outcomes + [o])
  {
    FreshAppend(finished, outcomes, j, o);
    EarnedAppend(finished, outcomes, j, o);
    hide Held, Earned, FollowsFresh;
    DuplicatesAppend(finished, outcomes, j, o);
  }

  lemma EarnedAppend(finished: seq<Job>, outcomes: seq<Outcome>, j: Job, o: Outcome)
    requires |finished| == |outcomes|
    ensures forall key, until ::
              Earned(finished, outcomes, key, until) ==> Earned(finished + [j], outcomes + [o], key, until)
  {
    FreshAppend(finished, outcomes, j, o);
    forall key, until | Earned(finished, outcomes, key, until)
      ensures Earned(finished + [j], outcomes + [o], key, until)
    {
      var i :| FreshAt(finished, outcomes, i, key) && MarkedUntil(finished[i]) == until;
      assert FreshAt(finished + [j], outcomes + [o], i, key);
    }
  }

  lemma DuplicatesAppend(finished: seq<Job>, outcomes: seq<Outcome>, j: Job, o: Outcome)
    requires |finished| == |outcomes| && DuplicatesFollow(finished, outcomes)
    requires o.Verdict? && o.duplicate ==> FollowsFresh(finished, outcomes, j, |finished|)
    ensures DuplicatesFollow(finished + [j], outcomes + [o])
  {
    var more, ends := finished + [j], outcomes + [o];
    FreshAppend(finished, outcomes, j, o);
    forall d | DuplicateAt(ends, d) ensures FollowsFresh(more, ends, more[d], d) {
      if d < |outcomes| {
        assert DuplicateAt(outcomes, d);
      }
      var i :| i < d && FreshAt(finished, outcomes, i, KeyOf(more[d].tx))
            && LookedAt(more[d]) <= MarkedUntil(finished[i]);
      assert FreshAt(more, ends, i, KeyOf(more[d].tx)) && more[i] == finished[i];
    }
  }

  /** A call that looked late and then marks. */
  lemma AppendFresh(marks: Marks, clock: int, finished: seq<Job>, outcomes: seq<Outcome>, j: Job, o: Outcome)
    requires |finished| == |outcomes| && o.Fresh() && clock <= j.at(MarkSite).now
    requires AllHeld(marks, clock, finished, outcomes) && AllEarned(marks, finished, outcomes)
    requires FreshApart(finished, outcomes) && DuplicatesFollow(finished, outcomes) && LooksLate(j, finished, outcomes)
    ensures var after, now := AfterMark(marks, KeyOf(j.tx), IDEMPOTENCY_TTL, j.at(MarkSite).now), j.at(MarkSite).now;
            AllHeld(after, now, finished + [j], outcomes + [o]) && AllEarned(after, finished + [j], outcomes + [o])
    ensures FreshApart(finished + [j], outcomes + [o]) && DuplicatesFollow(finished + [j], outcomes + [o])
    ensures forall k :: LooksLate(k, finished, outcomes) && KeyOf(k.tx) != KeyOf(j.tx) ==>
        LooksLate(k, finished + [j], outcomes + [o])
  {
    FreshAppend(finished, outcomes, j, o);
    DuplicatesAppend(finished, outcomes, j, o);
    HeldAfterMark(marks, clock, finished, outcomes, j, o);
    EarnedAfterMark(marks, finished, outcomes, j, o);
    hide AllHeld, AllEarned, DuplicatesFollow, AfterMark;
  }

  lemma HeldAfterMark(marks: Marks, clock: int, finished: seq<Job>, outcomes: seq<Outcome>, j: Job, o: Outcome)
    requires |finished| == |outcomes| && o.Fresh() && clock <= j.at(MarkSite).now
        && AllHeld(marks, clock, finished, outcomes)
    ensures AllHeld(AfterMark(marks, KeyOf(j.tx), IDEMPOTENCY_TTL, j.at(MarkSite).now), j.at(MarkSite).now,
                    finished + [j], outcomes + [o])
  {
    FreshAppend(finished, outcomes, j, o);
    var more, now := finished + [j], j.at(MarkSite).now;
    var after := AfterMark(marks, KeyOf(j.tx), IDEMPOTENCY_TTL, now);
    forall i, key | FreshAt(more, outcomes + [o], i, key) ensures Held(after, now, key, MarkedUntil(more[i])) {
      if i < |finished| {
        assert Held(marks, clock, key, MarkedUntil(finished[i]));
      }
    }
  }

  lemma EarnedAfterMark(marks: Marks, finished: seq<Job>, outcomes: seq<Outcome>, j: Job, o: Outcome)
    requires |finished| == |outcomes| && o.Fresh() && AllEarned(marks, finished, outcomes)
    ensures AllEarned(AfterMark(marks, KeyOf(j.tx), IDEMPOTENCY_TTL, j.at(MarkSite).now),
                      finished + [j], outcomes + [o])
  {
    EarnedAppend(finished, outcomes, j, o);
    FreshAppend(finished, outcomes, j, o);
    assert FreshAt(finished + [j], outcomes + [o], |finished|, KeyOf(j.tx));
    assert Earned(finished + [j], outcomes + [o], KeyOf(j.tx), MarkedUntil(j));
  }

  /** A look that finds the key held comes while the mark of a fresh verdict lasts. */
  lemma HeldFollows(marks: Marks, finished: seq<Job>, outcomes: seq<Outcome>, job: Job)
    requires AllEarned(marks, finished, outcomes) && SeenAt(marks, KeyOf(job.tx), LookedAt(job))
    ensures FollowsFresh(finished, outcomes, job, |finished|)
  {
    assert Earned(finished, outcomes, KeyOf(job.tx), marks[KeyOf(job.tx)]);
  }

  // ---- in every reachable state ----

  /** Two calls in flight are of different customers, and so on different keys. */
  lemma InFlightKeysDiffer(lib: Library, customers: set<string>, g: Engine, w: nat, v: nat)
    requires Structured(lib, customers, g) && Apart(customers) && w < |g.pcs| && v < |g.pcs| && v != w
    requires g.pool.workers[w].current.Some? && g.pool.workers[v].current.Some?
    ensures KeyOf(JobAt(g, w).tx) != KeyOf(JobAt(g, v).tx)
  {
    InFlightLane(lib, customers, g, w);
    InFlightLane(lib, customers, g, v);
    KeyInjective(JobAt(g, w).tx, JobAt(g, v).tx);
  }

  /** The shape of the state after a step. */
  lemma WorkedShape(lib: Library, g: Engine, w: nat)
    requires Busy(g, w) && |g.pcs| == |g.pool.workers| && |g.outcomes| == |g.pool.finished|
    ensures var h, j := Worked(lib, g, w), JobAt(g, w);
            var a := Act(lib, g.programs, g.stores, j, g.pcs[w]);
            && |h.pcs| == |h.pool.workers| == |g.pcs| && |h.outcomes| == |h.pool.finished|
            && h.stores == a.stores && h.clock == j.at(g.pcs[w].Site()).now
            && h.pool.finished == g.pool.finished + (if a.pc.Ended? then [j] else [])
            && h.outcomes == g.outcomes + (if a.pc.Ended? then [a.pc.outcome] else [])
            && (a.pc.Ended? ==> h.pool.workers[w].current.None?)
            && (!a.pc.Ended? ==> h.pool.workers[w] == g.pool.workers[w] && h.pcs[w] == a.pc)
            && (forall v :: 0 <= v < |g.pcs| && v != w ==>
                h.pool.workers[v] == g.pool.workers[v] && h.pcs[v] == g.pcs[v])
  {
    hide Act;
  }

  lemma MarksStep(lib: Library, customers: set<string>, g: Engine, w: nat)
    requires Structured(lib, customers, g) && Ready(lib, customers, g, Work(w)) && MarksInv(g)
    requires !Act(lib, g.programs, g.stores, JobAt(g, w), g.pcs[w]).pc.Ended?
    ensures |Worked(lib, g, w).pcs| == |Worked(lib, g, w).pool.workers|
    ensures |Worked(lib, g, w).outcomes| == |Worked(lib, g, w).pool.finished|
    ensures MarksInv(Worked(lib, g, w))
  {
    var j, h := JobAt(g, w), Worked(lib, g, w);
    var now := j.at(g.pcs[w].Site()).now;
    WorkedShape(lib, g, w);
    ActMarks(lib, g.programs, g.stores, j, g.pcs[w]);
    HeldAfterSeen(g.stores.marks, g.clock, KeyOf(j.tx), now, g.pool.finished, g.outcomes);
    EarnedAfterSeen(g.stores.marks, KeyOf(j.tx), now, g.pool.finished, g.outcomes);
    assert LateAt(g, w);
    hide Act, Worked, AfterSeen, AllHeld, AllEarned, FreshApart, DuplicatesFollow, LooksLate, D.Inv, PcOwn, SeenAt;
    assert h.pool.finished == g.pool.finished && h.outcomes == g.outcomes;
    if g.pcs[w].Start? {
      FreeIsLate(g.stores.marks, g.clock, j, g.pool.finished, g.outcomes);
    }
    forall v | 0 <= v < |h.pcs| ensures LateAt(h, v) {
      assert LateAt(g, v);
    }
  }

  lemma MarksEndOther(lib: Library, customers: set<string>, g: Engine, w: nat)
    requires Structured(lib, customers, g) && Ready(lib, customers, g, Work(w)) && MarksInv(g)
    requires var a := Act(lib, g.programs, g.stores, JobAt(g, w), g.pcs[w]); a.pc.Ended? && !a.pc.outcome.Fresh()
    ensures |Worked(lib, g, w).pcs| == |Worked(lib, g, w).pool.workers|
    ensures |Worked(lib, g, w).outcomes| == |Worked(lib, g, w).pool.finished|
    ensures MarksInv(Worked(lib, g, w))
  {
    var j, h := JobAt(g, w), Worked(lib, g, w);
    var a, now := Act(lib, g.programs, g.stores, j, g.pcs[w]), j.at(g.pcs[w].Site()).now;
    WorkedShape(lib, g, w);
    ActMarks(lib, g.programs, g.stores, j, g.pcs[w]);
    HeldAfterSeen(g.stores.marks, g.clock, KeyOf(j.tx), now, g.pool.finished, g.outcomes);
    EarnedAfterSeen(g.stores.marks, KeyOf(j.tx), now, g.pool.finished, g.outcomes);
    if a.pc.outcome.Verdict? {
      HeldFollows(g.stores.marks, g.pool.finished, g.outcomes, j);
    }
    hide Act, FollowsFresh, Worked, AfterSeen, AllHeld, FreshApart, DuplicatesFollow, LooksLate, D.Inv, PcOwn, SeenAt,
         FreshAt;
    AppendOther(h.stores.marks, now, g.pool.finished, g.outcomes, j, a.pc.outcome);
    hide AllEarned;
    forall v | 0 <= v < |h.pcs| ensures LateAt(h, v) {
      assert LateAt(g, v);
    }
  }

  lemma MarksEndFresh(lib: Library, customers: set<string>, g: Engine, w: nat)
    requires Structured(lib, customers, g) && Apart(customers) && Ready(lib, customers, g, Work(w)) && MarksInv(g)
    requires var a := Act(lib, g.programs, g.stores, JobAt(g, w), g.pcs[w]); a.pc.Ended? && a.pc.outcome.Fresh()
    ensures |Worked(lib, g, w).pcs| == |Worked(lib, g, w).pool.workers|
    ensures |Worked(lib, g, w).outcomes| == |Worked(lib, g, w).pool.finished|
    ensures MarksInv(Worked(lib, g, w))
  {
    var j, h := JobAt(g, w), Worked(lib, g, w);
    var a := Act(lib, g.programs, g.stores, j, g.pcs[w]);
    WorkedShape(lib, g, w);
    ActMarks(lib, g.programs, g.stores, j, g.pcs[w]);
    assert g.pcs[w].AtMark? && j.at(g.pcs[w].Site()) == j.at(MarkSite);
    assert LateAt(g, w);
    hide Act, Worked, AfterMark, AllHeld, AllEarned, FreshApart, DuplicatesFollow, LooksLate, D.Inv, PcOwn;
    AppendFresh(g.stores.marks, g.clock, g.pool.finished, g.outcomes, j, a.pc.outcome);
    forall v | 0 <= v < |h.pcs| ensures LateAt(h, v) {
      assert LateAt(g, v);
      if v != w && g.pool.workers[v].current.Some? {
        InFlightKeysDiffer(lib, customers, g, w, v);
      }
    }
  }

  lemma MarksNext(lib: Library, customers: set<string>, g: Engine, ev: Label)
    requires Structured(lib, customers, g) && Apart(customers) && Ready(lib, customers, g, ev) && MarksInv(g)
    ensures Structured(lib, customers, Next(lib, customers, g, ev)) && MarksInv(Next(lib, customers, g, ev))
  {
    StructuredNext(lib, customers, g, ev);
    if ev.Work? {
      var a := Act(lib, g.programs, g.stores, JobAt(g, ev.w), g.pcs[ev.w]);
      hide Act, Worked, MarksInv, Structured;
      if !a.pc.Ended? {
        MarksStep(lib, customers, g, ev.w);
      } else if a.pc.outcome.Fresh() {
        MarksEndFresh(lib, customers, g, ev.w);
      } else {
        MarksEndOther(lib, customers, g, ev.w);
      }
    } else {
      hide Act, Worked, AllHeld, AllEarned, FreshApart, DuplicatesFollow, LooksLate, D.Inv, PcOwn;
      var h := Next(lib, customers, g, ev);
      forall v | 0 <= v < |h.pcs| ensures LateAt(h, v) {
        assert LateAt(g, v);
      }
    }
  }

  lemma {:induction false} AlwaysMarks(lib: Library, customers: set<string>, n: int, bundle: Bundle, clock: int,
                            states: seq<Engine>, labels: seq<Label>)
    requires Execution(lib, customers, n, bundle, clock, states, labels) && Apart(customers)
    ensures Structured(lib, customers, states[|labels|]) && MarksInv(states[|labels|])
    decreases |labels|
  {
    AlwaysStructured(lib, customers, n, bundle, clock, states, labels);
    if labels != [] {
      ExecutionPrefix(lib, customers, n, bundle, clock, states, labels);
      AlwaysMarks(lib, customers, n, bundle, clock, states[..|labels|], labels[..|labels| - 1]);
      MarksNext(lib, customers, states[|labels| - 1], labels[|labels| - 1]);
    }
  }

  /** At most once: of two fresh verdicts on one idempotency key, anywhere in
      the engine, the one that finished second looked more than a day after the
      first was marked. */
  lemma AtMostOncePerDay(lib: Library, customers: set<string>, n: int, bundle: Bundle, clock: int,
                         states: seq<Engine>, labels: seq<Label>, g: Engine, i: nat, j: nat)
    requires Execution(lib, customers, n, bundle, clock, states, labels) && g == states[|labels|]
    requires Apart(customers)
    requires i < j < |g.pool.finished| == |g.outcomes|
    requires KeyOf(g.pool.finished[i].tx) == KeyOf(g.pool.finished[j].tx)
    requires g.outcomes[i].Fresh() && g.outcomes[j].Fresh()
    ensures LookedAt(g.pool.finished[j]) > g.pool.finished[i].at(MarkSite).now + 24 * 3600 * 1_000_000_000
  {
    AlwaysMarks(lib, customers, n, bundle, clock, states, labels);
    var key := KeyOf(g.pool.finished[i].tx);
    assert FreshAt(g.pool.finished, g.outcomes, i, key) && FreshAt(g.pool.finished, g.outcomes, j, key);
  }

  /** To the nanosecond: a verdict is a duplicate exactly if it looked no later
      than 24 hours after the mark of a fresh verdict on its key that had finished
      before it. */
  lemma DuplicateForADay(lib: Library, customers: set<string>, n: int, bundle: Bundle, clock: int,
                         states: seq<Engine>, labels: seq<Label>, g: Engine, j: nat)
    requires Execution(lib, customers, n, bundle, clock, states, labels) && g == states[|labels|]
    requires Apart(customers)
    requires j < |g.pool.finished| == |g.outcomes| && g.outcomes[j].Verdict?
    ensures g.outcomes[j].duplicate <==>
              exists i :: 0 <= i < j && g.outcomes[i].Fresh()
                && KeyOf(g.pool.finished[i].tx) == KeyOf(g.pool.finished[j].tx)
                && LookedAt(g.pool.finished[j]) <= g.pool.finished[i].at(MarkSite).now + 24 * 3600 * 1_000_000_000
  {
    AlwaysMarks(lib, customers, n, bundle, clock, states, labels);
    hide Execution, Structured, AllHeld, AllEarned;
    var job := g.pool.finished[j];
    if g.outcomes[j].duplicate {
      assert DuplicateAt(g.outcomes, j);
      var i :| i < j && FreshAt(g.pool.finished, g.outcomes, i, KeyOf(job.tx))
            && LookedAt(job) <= MarkedUntil(g.pool.finished[i]);
    } else {
      forall i | 0 <= i < j && g.outcomes[i].Fresh() && KeyOf(g.pool.finished[i].tx) == KeyOf(job.tx)
        ensures LookedAt(job) > MarkedUntil(g.pool.finished[i])
      {
        assert FreshAt(g.pool.finished, g.outcomes, i, KeyOf(job.tx));
        assert FreshAt(g.pool.finished, g.outcomes, j, KeyOf(job.tx));
      }
    }
  }
}
