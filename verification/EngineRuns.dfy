/** What holds in every state the engine reaches, whatever the interleaving. */
module EngineRuns {
  import opened Sequences
  import opened Domain
  import opened RuleEvaluation
  import opened ProgramCache
  import opened Processing
  import opened Steps
  import opened Locality
  import opened Guarantees
  import opened Attempts
  import opened Retries
  import opened Verdicts
  import opened Engine
  import D = Dispatch

  lemma {:induction false} AlwaysStructured(lib: Library, customers: set<string>, n: int, bundle: Bundle, clock: int,
                                 states: seq<Engine>, labels: seq<Label>)
    requires Execution(lib, customers, n, bundle, clock, states, labels)
    ensures Structured(lib, customers, states[|labels|])
    decreases |labels|
  {
    if labels == [] {
      StructuredInitial(lib, customers, n, bundle, clock);
    } else {
      ExecutionPrefix(lib, customers, n, bundle, clock, states, labels);
      AlwaysStructured(lib, customers, n, bundle, clock, states[..|labels|], labels[..|labels| - 1]);
      StructuredNext(lib, customers, states[|labels| - 1], labels[|labels| - 1]);
    }
  }

  // ---- the order of clock readings ----

  /** Jobs of one customer look at the clock one after another. */
  ghost predicate Clocked(lib: Library, g: Engine, c: string)
    requires |g.pool.workers| > 0 && |g.pcs| == |g.pool.workers|
  {
    var w, done := Lane(lib, c, |g.pool.workers|), Filter(g.pool.finished, Mine(c));
    && InTime(done)
    && (forall j :: j in done ==> LookedAt(j) <= g.clock)
    && (InFlightOf(g, w, c) && !g.pcs[w].Start? ==>
          LookedAt(JobAt(g, w)) <= g.clock && forall j :: j in done ==> LookedAt(j) <= LookedAt(JobAt(g, w)))
  }

  /** A job that has made its first step looked after every finished job of its customer. */
  lemma LookedLast(lib: Library, customers: set<string>, g: Engine, w: nat, c: string)
    requires Structured(lib, customers, g) && Ready(lib, customers, g, Work(w)) && Clocked(lib, g, c)
    requires JobAt(g, w).tx.customerId == c
    ensures LookedAt(JobAt(g, w)) <= Worked(lib, g, w).clock && g.clock <= Worked(lib, g, w).clock
    ensures forall i :: i in Filter(g.pool.finished, Mine(c)) ==> LookedAt(i) <= LookedAt(JobAt(g, w))
  {
    hide Act, D.Inv, PcOwn, InTime, Filter;
    InFlightLane(lib, customers, g, w);
  }

  lemma InTimeAppend(done: seq<Job>, j: Job)
    requires InTime(done) && forall i :: i in done ==> LookedAt(i) <= LookedAt(j)
    ensures InTime(done + [j])
  {
  }

  lemma ClockedEnd(lib: Library, customers: set<string>, g: Engine, w: nat, c: string)
    requires Structured(lib, customers, g) && Ready(lib, customers, g, Work(w)) && Clocked(lib, g, c)
    requires JobAt(g, w).tx.customerId == c && Lane(lib, c, |g.pool.workers|) == w
    requires Act(lib, g.programs, g.stores, JobAt(g, w), g.pcs[w]).pc.Ended?
    requires Structured(lib, customers, Worked(lib, g, w))
    ensures Clocked(lib, Worked(lib, g, w), c)
  {
    var j := JobAt(g, w);
    LookedLast(lib, customers, g, w, c);
    InTimeAppend(Filter(g.pool.finished, Mine(c)), j);
    hide Act, D.Inv, PcOwn, Filter, LookedAt, Consistent, Lane, InTime;
    FinishedAppend(g.pool.finished, g.outcomes, j, Act(lib, g.programs, g.stores, j, g.pcs[w]).pc.outcome, c);
  }

  lemma ClockedOwn(lib: Library, customers: set<string>, g: Engine, w: nat, c: string)
    requires Structured(lib, customers, g) && Ready(lib, customers, g, Work(w)) && Clocked(lib, g, c)
    requires JobAt(g, w).tx.customerId == c
    requires Structured(lib, customers, Worked(lib, g, w))
    ensures Clocked(lib, Worked(lib, g, w), c)
  {
    InFlightLane(lib, customers, g, w);
    if Act(lib, g.programs, g.stores, JobAt(g, w), g.pcs[w]).pc.Ended? {
      ClockedEnd(lib, customers, g, w, c);
    } else {
      LookedLast(lib, customers, g, w, c);
      hide Act, D.Inv, PcOwn, Filter, LookedAt, Consistent, Lane, InTime;
    }
  }

  lemma ClockedForeign(lib: Library, customers: set<string>, g: Engine, w: nat, c: string)
    requires Structured(lib, customers, g) && Ready(lib, customers, g, Work(w)) && Clocked(lib, g, c)
    requires JobAt(g, w).tx.customerId != c
    requires Structured(lib, customers, Worked(lib, g, w))
    ensures Clocked(lib, Worked(lib, g, w), c)
  {
    assert Worked(lib, g, w).clock >= g.clock;
    hide Act, D.Inv, PcOwn, InTime, Worked, Filter;
    WorkedElsewhere(lib, customers, g, w, c);
  }

  lemma ClockedNext(lib: Library, customers: set<string>, g: Engine, ev: Label, c: string)
    requires Structured(lib, customers, g) && Ready(lib, customers, g, ev) && Clocked(lib, g, c)
    ensures Structured(lib, customers, Next(lib, customers, g, ev))
    ensures Clocked(lib, Next(lib, customers, g, ev), c)
  {
    hide Act, D.Inv, InTime;
    StructuredNext(lib, customers, g, ev);
    if ev.Work? {
      if JobAt(g, ev.w).tx.customerId == c {
        ClockedOwn(lib, customers, g, ev.w, c);
      } else {
        ClockedForeign(lib, customers, g, ev.w, c);
      }
    }
  }

  lemma {:induction false} AlwaysClocked(lib: Library, customers: set<string>, n: int, bundle: Bundle, clock: int,
                              states: seq<Engine>, labels: seq<Label>, c: string)
    requires Execution(lib, customers, n, bundle, clock, states, labels)
    ensures Structured(lib, customers, states[|labels|]) && Clocked(lib, states[|labels|], c)
    decreases |labels|
  {
    AlwaysStructured(lib, customers, n, bundle, clock, states, labels);
    if labels != [] {
      ExecutionPrefix(lib, customers, n, bundle, clock, states, labels);
      AlwaysClocked(lib, customers, n, bundle, clock, states[..|labels|], labels[..|labels| - 1], c);
      ClockedNext(lib, customers, states[|labels| - 1], labels[|labels| - 1], c);
    }
  }

  // ---- the main theorems ----

  /** Colon-free customer ids satisfy the condition on keys. */
  lemma ColonFreeApart(customers: set<string>)
    requires forall c :: c in customers ==> ':' !in c
    ensures Apart(customers)
  {
    forall c, d | c in customers && d in customers && c != d ensures KeysApart(c, d) {
      FreeSeparate(c, d, ':');
    }
  }

  lemma RoutesAreByCustomer(lib: Library, n: nat)
    requires n > 0
    ensures D.RoutesByCustomer(Route(lib, n), CustomerOf(), lib.hash, n)
  {
  }

  /** The rule lists ever activated never give one (id, version) two compilations. */
  ghost predicate Versioned(lib: Library, g: Engine) {
    Agree(lib, g.activated)
  }

  /** Reduction: in every state an execution reaches, the jobs of a customer
      that have finished are a prefix of those accepted, and with none in flight
      their outcomes, and the customer's marks, window, log and alerts, are
      those of running just these jobs one after another without interruption
      or cache, from empty stores. A job in flight will end the same way. */
  lemma Reduction(lib: Library, customers: set<string>, n: int, bundle: Bundle, clock: int,
                  states: seq<Engine>, labels: seq<Label>, g: Engine, c: string)
    requires Execution(lib, customers, n, bundle, clock, states, labels) && g == states[|labels|]
    requires Apart(customers) && c in customers && Versioned(lib, g)
    ensures Structured(lib, customers, g) && Reduced(lib, g, c)
    ensures Filter(g.pool.finished, Mine(c)) <= Filter(g.pool.accepted, Mine(c))
  {
    AgreementIsDiscipline(lib, g.activated);
    var comp :| AllDisciplined(lib, g.activated, comp);
    Reachable(lib, customers, n, bundle, clock, states, labels, comp);
    RoutesAreByCustomer(lib, |g.pool.workers|);
    D.CustomerInOrder(g.pool, Route(lib, |g.pool.workers|), CustomerOf(), lib.hash, c);
  }

  /** When the closed pool has drained, each customer's results are those of
      the sequential run over everything accepted, in submission order. */
  lemma DrainedEqualsSequential(lib: Library, customers: set<string>, n: int, bundle: Bundle, clock: int,
                                states: seq<Engine>, labels: seq<Label>, g: Engine, c: string)
    requires Execution(lib, customers, n, bundle, clock, states, labels) && g == states[|labels|]
    requires Apart(customers) && c in customers && Versioned(lib, g) && D.AllExited(g.pool)
    ensures Structured(lib, customers, g)
    ensures var alone := RunAll(lib, Filter(g.pool.accepted, Mine(c)));
            && OutcomesOf(g.pool.finished, g.outcomes, c) == alone.outcomes
            && ViewOf(g.stores, c) == ViewOf(alone.stores, c)
  {
    Reduction(lib, customers, n, bundle, clock, states, labels, g, c);
    RoutesAreByCustomer(lib, |g.pool.workers|);
    D.CloseIsComplete(g.pool, Route(lib, |g.pool.workers|), CustomerOf(), lib.hash, c);
    assert g.pool.workers[Lane(lib, c, |g.pool.workers|)] == D.Worker([], None, true);
  }

  /** Between jobs, the sink holds one alert for each finished attempt at a
      transaction that published, whether or not it then succeeded; and within a
      day at most one, exactly when no attempt that published and failed at Mark
      is followed by another that publishes. */
  lemma AlertsOfAttempts(lib: Library, customers: set<string>, n: int, bundle: Bundle, clock: int,
                         states: seq<Engine>, labels: seq<Label>, g: Engine, c: string, t: string)
    requires Execution(lib, customers, n, bundle, clock, states, labels) && g == states[|labels|]
    requires Apart(customers) && c in customers && Versioned(lib, g)
    requires |g.pool.workers| > 0 && !InFlightOf(g, Lane(lib, c, |g.pool.workers|), c)
    ensures var done := Filter(g.pool.finished, Mine(c));
            && AlertCount(g.stores, c, t) == Tally(lib, done, PublishesFor(lib, c, t))
            && (WithinADay(done, Join(c, ':', t)) ==>
                  (AlertCount(g.stores, c, t) <= 1 <==>
                    forall p, q :: p < q && PublishesAt(lib, done, c, t, p) && !Works(done[p].at(MarkSite))
                      ==> !PublishesAt(lib, done, c, t, q)))
  {
    var done := Filter(g.pool.finished, Mine(c));
    AlwaysClocked(lib, customers, n, bundle, clock, states, labels, c);
    assert InTime(done);
    hide Structured, Tally, AlertCount, RunAll, InTime, WithinADay, PublishesAt;
    Reduction(lib, customers, n, bundle, clock, states, labels, g, c);
    SameAlerts(g.stores, RunAll(lib, done).stores, c, t);
    AlertsAreAttempts(lib, done, c, t);
    if WithinADay(done, Join(c, ':', t)) {
      AtMostOneAlertExactly(lib, done, c, t);
    }
  }

  lemma SameAlerts(s: Stores, t: Stores, c: string, id: string)
    requires ViewOf(s, c) == ViewOf(t, c)
    ensures AlertCount(s, c, id) == AlertCount(t, c, id)
  {
    FilterNested(s.alerts, IsFor(c), About(c, id));
    FilterNested(t.alerts, IsFor(c), About(c, id));
  }

  /** Where two finished jobs of one customer stand in the customer's own list. */
  lemma {:induction false} Position(finished: seq<Job>, outcomes: seq<Outcome>, c: string, i: nat) returns (p: nat)
    requires i < |finished| == |outcomes| && finished[i].tx.customerId == c
    ensures p == |Filter(finished[..i], Mine(c))|
    ensures p < |Filter(finished, Mine(c))| == |OutcomesOf(finished, outcomes, c)|
    ensures Filter(finished, Mine(c))[p] == finished[i] && OutcomesOf(finished, outcomes, c)[p] == outcomes[i]
    decreases |finished|
  {
    var k := |finished| - 1;
    assert finished == finished[..k] + [finished[k]] && outcomes == outcomes[..k] + [outcomes[k]];
    FinishedAppend(finished[..k], outcomes[..k], finished[k], outcomes[k], c);
    SameLength(finished[..k], outcomes[..k], c);
    if i == k {
      p := |Filter(finished[..k], Mine(c))|;
    } else {
      p := Position(finished[..k], outcomes[..k], c, i);
      assert finished[..k][..i] == finished[..i];
    }
  }

  lemma {:induction false} SameLength(finished: seq<Job>, outcomes: seq<Outcome>, c: string)
    requires |finished| == |outcomes|
    ensures |Filter(finished, Mine(c))| == |OutcomesOf(finished, outcomes, c)|
  {
    if finished != [] {
      var k := |finished| - 1;
      SameLength(finished[..k], outcomes[..k], c);
    }
  }

  lemma {:induction false} FilterGrows(finished: seq<Job>, c: string, i: nat, j: nat)
    requires i < j <= |finished| && finished[i].tx.customerId == c
    ensures |Filter(finished[..i], Mine(c))| < |Filter(finished[..j], Mine(c))|
    decreases j
  {
    assert finished[..j] == finished[..j - 1] + [finished[j - 1]];
    FilterAppend(finished[..j - 1], finished[j - 1], Mine(c));
    if i < j - 1 {
      FilterGrows(finished, c, i, j - 1);
    }
  }
}
