/** Why the routing matters: Seen and Mark are separate actions, so two workers
    inside Process with the same transaction both find it unseen. */
module Unrouted {
  import opened Sequences
  import opened Domain
  import opened Processing
  import opened ProgramCache
  import opened Steps
  import opened RuleEvaluation
  import opened I = IdempotencyStore
  import G = Guarantees

  /** Workers sharing the stores, each with its own job and place in it. */
  datatype Crew = Crew(programs: Programs, stores: Stores, jobs: seq<Job>, pcs: seq<Pc>)

  predicate CanStep(crew: Crew, w: nat) {
    w < |crew.jobs| == |crew.pcs| && crew.pcs[w].Ok() && !crew.pcs[w].Ended?
  }

  function Step(lib: Library, crew: Crew, w: nat): Crew
    requires CanStep(crew, w)
  {
    var a := Act(lib, crew.programs, crew.stores, crew.jobs[w], crew.pcs[w]);
    crew.(programs := a.programs, stores := a.stores, pcs := crew.pcs[w := a.pc])
  }

  /** The crew after the scheduled steps; a worker that has ended is passed over. */
  function Play(lib: Library, crew: Crew, schedule: seq<nat>): Crew
    decreases |schedule|
  {
    if schedule == [] then crew
    else Play(lib, if CanStep(crew, schedule[0]) then Step(lib, crew, schedule[0]) else crew, schedule[1..])
  }

  lemma PlayOn(lib: Library, crew: Crew, w: nat, rest: seq<nat>)
    requires CanStep(crew, w)
    ensures Play(lib, crew, [w] + rest) == Play(lib, Step(lib, crew, w), rest)
  {
    assert ([w] + rest)[1..] == rest;
  }

  /** Nothing goes wrong and no rules are active. */
  predicate Plain(job: Job) {
    && Validate(job.tx).None?
    && (forall site: Site :: site in {SeenSite, RecordSite, ConfigSite, RiskSite, MarkSite} ==>
          !job.at(site).panics && !job.at(site).fault && !job.at(site).down)
    && job.at(ConfigSite).rules.rules == []
  }

  /** A fresh verdict without an alert. */
  const DONE := Verdict(false, None, false)

  function Effect(s: Stores, job: Job): Stores {
    WithMark(WithRecord(s, job.tx, job.at(RecordSite)), job.tx, job.at(MarkSite))
  }

  lemma PlainDecides(lib: Library, tx: Transaction, rules: RuleSet, risk: RiskProfile)
    requires rules.rules == []
    ensures Advance(lib, tx, Begin(true, rules, risk)) == AtMark(None, false)
  {
  }

  /** The rest of a plain call that has found its key unseen. */
  lemma PlainRest(lib: Library, crew: Crew, w: nat, rest: seq<nat>)
    requires CanStep(crew, w) && Plain(crew.jobs[w]) && crew.pcs[w] == AtRecord
    ensures Play(lib, crew, [w, w, w, w] + rest)
         == Play(lib, crew.(stores := Effect(crew.stores, crew.jobs[w]), pcs := crew.pcs[w := Ended(DONE)]), rest)
  {
    hide Advance, Play, WithRecord, WithMark;
    var job := crew.jobs[w];
    var rules := job.at(ConfigSite).rules;
    PlainDecides(lib, job.tx, rules, RiskFor(job.at(RiskSite), rules));
    var c1 := Step(lib, crew, w);
    var c2 := Step(lib, c1, w);
    var c3 := Step(lib, c2, w);
    var c4 := Step(lib, c3, w);
    PlayOn(lib, crew, w, [w, w, w] + rest);
    PlayOn(lib, c1, w, [w, w] + rest);
    PlayOn(lib, c2, w, [w] + rest);
    PlayOn(lib, c3, w, rest);
    assert [w, w, w, w] + rest == [w] + ([w, w, w] + rest);
    assert [w, w, w] + rest == [w] + ([w, w] + rest);
    assert [w, w] + rest == [w] + ([w] + rest);
    assert c4.pcs == crew.pcs[w := Ended(DONE)];
  }

  /** Two plain attempts at one transaction, on two workers. */
  function Pair(a: Job, b: Job): Crew {
    Crew(map[], EMPTY_STORES, [a, b], [Start, Start])
  }

  const BOTH_LOOK_FIRST: seq<nat> := [0, 1] + ([0, 0, 0, 0] + ([1, 1, 1, 1] + []))

  /** Without the routing: when both look before either marks, both process
      the transaction, and it is recorded twice. */
  lemma BothProcess(lib: Library, a: Job, b: Job)
    requires Plain(a) && Plain(b) && a.tx == b.tx
    ensures var end := Play(lib, Pair(a, b), BOTH_LOOK_FIRST);
            && end.pcs == [Ended(DONE), Ended(DONE)]
            && LogOf(end.stores, a.tx.customerId) == [G.Recorded(a), G.Recorded(b)]
  {
    hide Play, Validate;
    var c0 := Pair(a, b);
    var c1 := Step(lib, c0, 0);
    var c2 := Step(lib, c1, 1);
    assert c2 == c0.(pcs := [AtRecord, AtRecord]);
    PlayOn(lib, c0, 0, BOTH_LOOK_FIRST[1..]);
    PlayOn(lib, c1, 1, BOTH_LOOK_FIRST[2..]);
    assert BOTH_LOOK_FIRST == [0] + BOTH_LOOK_FIRST[1..] && BOTH_LOOK_FIRST[1..] == [1] + BOTH_LOOK_FIRST[2..];
    assert BOTH_LOOK_FIRST[2..] == [0, 0, 0, 0] + ([1, 1, 1, 1] + []);
    PlainRest(lib, c2, 0, [1, 1, 1, 1] + []);
    assert c2.pcs[0 := Ended(DONE)] == [Ended(DONE), AtRecord];
    var c3 := c2.(stores := Effect(EMPTY_STORES, a), pcs := [Ended(DONE), AtRecord]);
    PlainRest(lib, c3, 1, []);
    assert c3.pcs[1 := Ended(DONE)] == [Ended(DONE), Ended(DONE)];
    var c4 := c3.(stores := Effect(c3.stores, b), pcs := [Ended(DONE), Ended(DONE)]);
    PlayNothing(lib, c4);
  }

  lemma PlayNothing(lib: Library, crew: Crew)
    ensures Play(lib, crew, []) == crew
  {}

  /** On one worker, one after the other, the second is a duplicate as long as
      the first one's mark lasts, and nothing is recorded twice. */
  lemma SecondIsDuplicate(lib: Library, a: Job, b: Job)
    requires Plain(a) && Plain(b) && a.tx == b.tx
    requires b.at(SeenSite).now <= a.at(MarkSite).now + 24 * 3600 * 1_000_000_000
    ensures RunAll(lib, [a, b]).outcomes == [DONE, Verdict(true, None, false)]
    ensures LogOf(RunAll(lib, [a, b]).stores, a.tx.customerId) == [G.Recorded(a)]
  {
    hide Process, RunAll;
    var first := End(Effect(EMPTY_STORES, a), DONE);
    FirstLook(lib, EMPTY_STORES, a);
    SecondLook(lib, first.stores, b);
    G.RunAllLast(lib, [a]);
    G.RunAllLast(lib, [a, b]);
    assert [a, b][..1] == [a] && [a][..0] == [];
    assert RunAll(lib, []) == Ran(EMPTY_STORES, []) by { RunNone(lib); }
  }

  lemma RunNone(lib: Library)
    ensures RunAll(lib, []) == Ran(EMPTY_STORES, [])
  {
  }

  lemma FirstLook(lib: Library, s: Stores, a: Job)
    requires Plain(a) && KeyOf(a.tx) !in s.marks
    ensures Process(lib, s, a) == End(Effect(s, a), DONE)
  {
    hide WithRecord, WithMark;
  }

  lemma SecondLook(lib: Library, s: Stores, b: Job)
    requires Plain(b) && SeenAt(s.marks, KeyOf(b.tx), b.at(SeenSite).now)
    ensures Process(lib, s, b) == End(s, Verdict(true, None, false))
  {
  }
}
