/** A transaction that nothing goes wrong for is in the window exactly once,
    whatever the interleaving and whatever else goes wrong
    (internal/pipeline/processor.go). */
module EngineOnce {
  import opened Sequences
  import opened Domain
  import opened RuleEvaluation
  import opened Processing
  import opened Guarantees
  import opened Verdicts
  import opened Attempts
  import opened Engine
  import opened EngineRuns
  import opened EngineSafety
  import opened EngineOutcomes
  import opened EngineEntries
  import opened EngineMarks
  import D = Dispatch

  /** Nothing goes wrong in the calls on the key: their actions work, their rule
      sets are safe, and no condition ever active under one of their rules' keys
      ends in a run error. */
  ghost predicate CalmJob(lib: Library, activated: seq<seq<RuleDef>>, job: Job) {
    Calm(job) && SafeSet(lib, RulesFor(job)) && !RunErrorFor(lib, activated, RulesFor(job).rules)
  }

  lemma CalmOutcome(lib: Library, job: Job, outcome: Outcome)
    requires Calm(job) && Explained(job, outcome) && SafeOutcome(job, outcome) && outcome != Failed(RunFailed)
    ensures if Validate(job.tx).None? then outcome.Verdict? else !outcome.Verdict?
    ensures GotRecorded(job, outcome) <==> outcome.Fresh()
  {
    hide Validate, Founded;
    assert Fine(job.at(SeenSite)) && Fine(job.at(RecordSite)) && Fine(job.at(PublishSite)) && Fine(job.at(MarkSite));
    assert forall k, j :: Fine(job.at(ReadSite(k, j)));
    assert forall site :: Fine(job.at(site));
  }

  lemma {:induction false} CountNone(finished: seq<Job>, outcomes: seq<Outcome>, p: (Job, Outcome) -> bool)
    requires |finished| == |outcomes| && forall i :: 0 <= i < |finished| ==> !p(finished[i], outcomes[i])
    ensures CountOf(finished, outcomes, p) == 0
  {
    if finished != [] {
      CountNone(finished[..|finished| - 1], outcomes[..|finished| - 1], p);
    }
  }

  lemma {:induction false} CountOne(finished: seq<Job>, outcomes: seq<Outcome>, p: (Job, Outcome) -> bool, i: nat)
    requires i < |finished| == |outcomes| && p(finished[i], outcomes[i])
    requires forall j :: 0 <= j < |finished| && j != i ==> !p(finished[j], outcomes[j])
    ensures CountOf(finished, outcomes, p) == 1
  {
    var k := |finished| - 1;
    if i < k {
      CountOne(finished[..k], outcomes[..k], p, i);
    } else {
      CountNone(finished[..k], outcomes[..k], p);
    }
  }

  /** Each finished call on the key records exactly if it is fresh, and is fresh
      or a duplicate if its transaction is valid. */
  lemma CalmFinished(lib: Library, customers: set<string>, n: int, bundle: Bundle, clock: int,
                     states: seq<Engine>, labels: seq<Label>, g: Engine, i: nat)
    requires Execution(lib, customers, n, bundle, clock, states, labels) && g == states[|labels|]
    requires i < |g.pool.finished| == |g.outcomes| && CalmJob(lib, g.activated, g.pool.finished[i])
    ensures GotRecorded(g.pool.finished[i], g.outcomes[i]) <==> g.outcomes[i].Fresh()
    ensures Validate(g.pool.finished[i].tx).None? <==> g.outcomes[i].Verdict?
  {
    OutcomesExplained(lib, customers, n, bundle, clock, states, labels, g);
    SafeCalls(lib, customers, n, bundle, clock, states, labels, g, i);
    AlwaysListed(lib, customers, n, bundle, clock, states, labels);
    hide Execution, Structured, Explained, SafeOutcome, SafeSet, Calm;
    CalmOutcome(lib, g.pool.finished[i], g.outcomes[i]);
  }

  /** Fresh verdicts on one key within a day are one and the same. */
  lemma OneFresh(finished: seq<Job>, outcomes: seq<Outcome>, c: string, key: string, i: nat, j: nat)
    requires |finished| == |outcomes| && FreshApart(finished, outcomes)
    requires WithinADay(Filter(finished, Mine(c)), key)
    requires FreshAt(finished, outcomes, i, key) && FreshAt(finished, outcomes, j, key)
    requires finished[i].tx.customerId == c && finished[j].tx.customerId == c
    ensures i == j
  {
    if i != j {
      var first, second := if i < j then i else j, if i < j then j else i;
      assert LookedAt(finished[second]) > MarkedUntil(finished[first]);
      var p := Position(finished, outcomes, c, first);
      var q := Position(finished, outcomes, c, second);
      FilterGrows(finished, c, first, second);
    }
  }

  /** Everything accepted has finished. */
  lemma DrainedFinished(lib: Library, customers: set<string>, n: int, bundle: Bundle, clock: int,
                        states: seq<Engine>, labels: seq<Label>, g: Engine, c: string)
    requires Execution(lib, customers, n, bundle, clock, states, labels) && g == states[|labels|]
    requires D.AllExited(g.pool)
    ensures Structured(lib, customers, g)
    ensures Filter(g.pool.finished, Mine(c)) == Filter(g.pool.accepted, Mine(c))
    ensures !InFlightOf(g, Lane(lib, c, |g.pool.workers|), c)
  {
    AlwaysStructured(lib, customers, n, bundle, clock, states, labels);
    RoutesAreByCustomer(lib, |g.pool.workers|);
    D.CloseIsComplete(g.pool, Route(lib, |g.pool.workers|), CustomerOf(), lib.hash, c);
    assert g.pool.workers[Lane(lib, c, |g.pool.workers|)] == D.Worker([], None, true);
  }

  /** A valid finished call on the key has a fresh verdict beside it, its own or
      the one it is a duplicate of, by the same customer. */
  lemma SomeFresh(lib: Library, customers: set<string>, g: Engine, c: string, key: string, i: nat) returns (f: nat)
    requires Structured(lib, customers, g) && Apart(customers) && MarksInv(g)
    requires i < |g.outcomes| && On(g.pool.finished[i], c, key) && g.outcomes[i].Verdict?
    ensures FreshAt(g.pool.finished, g.outcomes, f, key) && g.pool.finished[f].tx.customerId == c
  {
    if g.outcomes[i].duplicate {
      assert DuplicateAt(g.outcomes, i);
      var d :| d < i && FreshAt(g.pool.finished, g.outcomes, d, KeyOf(g.pool.finished[i].tx))
            && LookedAt(g.pool.finished[i]) <= MarkedUntil(g.pool.finished[d]);
      f := d;
    } else {
      f := i;
    }
    assert g.pool.finished[f] in g.pool.accepted && g.pool.finished[i] in g.pool.accepted by {
      assert g.pool.finished[f] in g.pool.finished && g.pool.finished[i] in g.pool.finished;
    }
    KeyInjective(g.pool.finished[f].tx, g.pool.finished[i].tx);
  }

  /** Where nothing goes wrong for a key within a day, a drained engine has its
      transaction in the window log exactly once, as soon as one valid attempt
      was accepted, however many were. */
  lemma OnceInTheWindow(lib: Library, customers: set<string>, n: int, bundle: Bundle, clock: int,
                        states: seq<Engine>, labels: seq<Label>, g: Engine, c: string, key: string)
    requires Execution(lib, customers, n, bundle, clock, states, labels) && g == states[|labels|]
    requires Apart(customers) && D.AllExited(g.pool)
    requires forall j :: j in g.pool.accepted && On(j, c, key) ==> CalmJob(lib, g.activated, j)
    requires WithinADay(Filter(g.pool.accepted, Mine(c)), key)
    ensures LogCount(g.stores, c, key) == (if Tried(Filter(g.pool.accepted, Mine(c)), key) then 1 else 0)
  {
    DrainedFinished(lib, customers, n, bundle, clock, states, labels, g, c);
    EntriesAreAttempts(lib, customers, n, bundle, clock, states, labels, g, c, key);
    AlwaysMarks(lib, customers, n, bundle, clock, states, labels);
    var finished, outcomes := g.pool.finished, g.outcomes;
    assert forall i :: 0 <= i < |finished| ==> finished[i] in finished;
    forall i | 0 <= i < |finished| && On(finished[i], c, key)
      ensures GotRecorded(finished[i], outcomes[i]) <==> outcomes[i].Fresh()
      ensures Validate(finished[i].tx).None? <==> outcomes[i].Verdict?
    {
      CalmFinished(lib, customers, n, bundle, clock, states, labels, g, i);
    }
    hide Execution, CalmJob, LogCount, CountOf, GotRecorded, Lane, WithinADay, Filter, Validate;
    if Tried(Filter(finished, Mine(c)), key) {
      var i := TriedAt(finished, c, key);
      var f := SomeFresh(lib, customers, g, c, key, i);
      ExactlyOne(finished, outcomes, c, key, f);
    } else {
      hide Structured, MarksInv, Tried;
      NoneRecorded(finished, outcomes, c, key);
    }
  }

  lemma TriedAt(finished: seq<Job>, c: string, key: string) returns (i: nat)
    requires Tried(Filter(finished, Mine(c)), key)
    ensures i < |finished| && On(finished[i], c, key) && Validate(finished[i].tx).None?
  {
    hide Validate;
    var jobs := Filter(finished, Mine(c));
    var k :| 0 <= k < |jobs| && KeyOf(jobs[k].tx) == key && Validate(jobs[k].tx).None?;
    FilterMember(finished, Mine(c), jobs[k]);
    var m :| 0 <= m < |finished| && finished[m] == jobs[k];
    i := m;
  }

  lemma ExactlyOne(finished: seq<Job>, outcomes: seq<Outcome>, c: string, key: string, f: nat)
    requires |finished| == |outcomes| && FreshApart(finished, outcomes)
    requires WithinADay(Filter(finished, Mine(c)), key)
    requires FreshAt(finished, outcomes, f, key) && finished[f].tx.customerId == c
    requires forall i :: 0 <= i < |finished| && On(finished[i], c, key) ==>
               (GotRecorded(finished[i], outcomes[i]) <==> outcomes[i].Fresh())
    ensures CountOf(finished, outcomes, RecordedOn(c, key)) == 1
  {
    hide GotRecorded, CountOf, WithinADay, FreshApart;
    forall j | 0 <= j < |finished| && RecordedOn(c, key)(finished[j], outcomes[j]) ensures j == f {
      OneFresh(finished, outcomes, c, key, f, j);
    }
    CountOne(finished, outcomes, RecordedOn(c, key), f);
  }

  lemma NoneRecorded(finished: seq<Job>, outcomes: seq<Outcome>, c: string, key: string)
    requires |finished| == |outcomes| && !Tried(Filter(finished, Mine(c)), key)
    ensures CountOf(finished, outcomes, RecordedOn(c, key)) == 0
  {
    hide CountOf;
    forall i | 0 <= i < |finished| ensures !RecordedOn(c, key)(finished[i], outcomes[i]) {
      ValidIsTried(finished, c, key, i);
    }
    CountNone(finished, outcomes, RecordedOn(c, key));
  }

  lemma ValidIsTried(finished: seq<Job>, c: string, key: string, i: nat)
    requires i < |finished|
    ensures On(finished[i], c, key) && Validate(finished[i].tx).None? ==> Tried(Filter(finished, Mine(c)), key)
  {
    hide Validate;
    FilterMember(finished, Mine(c), finished[i]);
    if On(finished[i], c, key) && Validate(finished[i].tx).None? {
      var jobs := Filter(finished, Mine(c));
      var k :| 0 <= k < |jobs| && jobs[k] == finished[i];
    }
  }
}
