/** The running engine: the pool, the Process calls its workers are in the
    middle of, the stores they share, and the configuration, switch and clock
    they observe. Its main theorem reduces every interleaving of the separately
    locked actions to one uninterrupted run per customer, in submission order. */
module Engine {
  import opened Sequences
  import opened Domain
  import opened Config
  import opened ProgramCache
  import opened Processing
  import opened Steps
  import opened Locality
  import D = Dispatch

  datatype Engine = Engine(
    pool: D.PoolState<Job>,
    pcs: seq<Pc>,                    // where each worker's job stands
    outcomes: seq<Outcome>,          // of the finished jobs, in the order they finished
    stores: Stores,
    programs: Programs,
    cfg: Provider,
    activated: seq<seq<RuleDef>>,    // every rule list that has been active
    down: bool,
    clock: int,                      // the latest reading that an action began with
    latest: seq<int>)                // per worker, the latest reading it has made

  function CustomerOf(): Job -> string {
    (j: Job) => j.tx.customerId
  }

  function Mine(c: string): Job -> bool {
    D.OfCustomer(CustomerOf(), c)
  }

  function Lane(lib: Library, c: string, n: nat): nat
    requires n > 0
  {
    D.WorkerIndex(lib.hash(c), n)
  }

  function Route(lib: Library, n: nat): Job -> nat
    requires n > 0
  {
    (j: Job) => Lane(lib, j.tx.customerId, n)
  }

  function Initial(n: int, bundle: Bundle, clock: int): Engine {
    var pool := D.Started<Job>(n);
    Engine(pool, seq(|pool.workers|, _ => Start), [], EMPTY_STORES, map[], Started(bundle), [bundle.rules], false,
           clock, seq(|pool.workers|, _ => clock))
  }

  datatype Label =
    | Enqueue(j: Job) | Refuse(j: Job) | Pull(w: nat) | Work(w: nat) | Shut | Leave(w: nat)
    | StageBundle(b: Bundle) | ReloadConfig | Switch(d: bool)

  /** What an action of worker w finds: a clock no earlier than any action's
      before it and than any reading of its own worker's, and the switch and the
      rule set as they are. A second reading may overlap with other workers' actions. */
  predicate Consistent(g: Engine, w: nat, o: Observation)
    requires w < |g.latest|
  {
    && g.clock <= o.now <= o.later && g.latest[w] <= o.now
    && o.down == g.down && o.rules == g.cfg.active
  }

  /** Worker w is inside a Process call. */
  predicate Busy(g: Engine, w: nat) {
    && w < |g.pool.workers| && w < |g.pcs| && w < |g.latest|
    && g.pool.workers[w].current.Some? && g.pcs[w].Ok() && !g.pcs[w].Ended?
  }

  function JobAt(g: Engine, w: nat): Job
    requires w < |g.pool.workers| && g.pool.workers[w].current.Some?
  {
    g.pool.workers[w].current.value
  }

  predicate Ready(lib: Library, customers: set<string>, g: Engine, ev: Label) {
    && |g.pool.workers| > 0
    && var route := Route(lib, |g.pool.workers|);
       match ev
       case Enqueue(j) => j.tx.customerId in customers && D.Enabled(g.pool, D.Submit(j), route)
       case Refuse(j) => D.Enabled(g.pool, D.Drop(j), route)
       case Pull(w) => D.Enabled(g.pool, D.Take(w), route) && w < |g.pcs|
       case Work(w) => Busy(g, w) && Consistent(g, w, JobAt(g, w).at(g.pcs[w].Site()))
       case Shut => D.Enabled(g.pool, D.Close, route)
       case Leave(w) => D.Enabled(g.pool, D.Exit(w), route)
       case _ => true
  }

  function Worked(lib: Library, g: Engine, w: nat): Engine
    requires Busy(g, w)
  {
    var job := JobAt(g, w);
    var o := job.at(g.pcs[w].Site());
    var a := Act(lib, g.programs, g.stores, job, g.pcs[w]);
    var moved := g.(programs := a.programs, stores := a.stores, clock := o.now, latest := g.latest[w := o.later]);
    if a.pc.Ended? then
      moved.(pool := D.Next(g.pool, D.Finish(w), Route(lib, |g.pool.workers|)), pcs := g.pcs[w := Start],
             outcomes := g.outcomes + [a.pc.outcome])
    else
      moved.(pcs := g.pcs[w := a.pc])
  }

  function Next(lib: Library, customers: set<string>, g: Engine, ev: Label): Engine
    requires Ready(lib, customers, g, ev)
  {
    var route := Route(lib, |g.pool.workers|);
    match ev
    case Enqueue(j) => g.(pool := D.Next(g.pool, D.Submit(j), route))
    case Refuse(j) => g.(pool := D.Next(g.pool, D.Drop(j), route))
    case Pull(w) => g.(pool := D.Next(g.pool, D.Take(w), route), pcs := g.pcs[w := Start])
    case Work(w) => Worked(lib, g, w)
    case Shut => g.(pool := D.Next(g.pool, D.Close, route))
    case Leave(w) => g.(pool := D.Next(g.pool, D.Exit(w), route))
    case StageBundle(b) => g.(cfg := Stage(g.cfg, b))
    case ReloadConfig =>
      var cfg := AfterReload(lib, g.cfg);
      g.(cfg := cfg, activated := if Swaps(lib, g.cfg) then g.activated + [cfg.active.rules] else g.activated)
    case Switch(d) => g.(down := d)
  }

  // ---- runs ----

  /** states[i + 1] follows states[i] by labels[i], from a freshly built engine. */
  ghost predicate Execution(lib: Library, customers: set<string>, n: int, bundle: Bundle, clock: int,
                            states: seq<Engine>, labels: seq<Label>) {
    && |states| == |labels| + 1
    && states[0] == Initial(n, bundle, clock)
    && (forall i :: 0 <= i < |labels| ==>
          Ready(lib, customers, states[i], labels[i]) && states[i + 1] == Next(lib, customers, states[i], labels[i]))
  }

  lemma ExecutionPrefix(lib: Library, customers: set<string>, n: int, bundle: Bundle, clock: int,
                        states: seq<Engine>, labels: seq<Label>)
    requires Execution(lib, customers, n, bundle, clock, states, labels) && labels != []
    ensures Execution(lib, customers, n, bundle, clock, states[..|labels|], labels[..|labels| - 1])
    ensures Ready(lib, customers, states[|labels| - 1], labels[|labels| - 1])
    ensures states[|labels|] == Next(lib, customers, states[|labels| - 1], labels[|labels| - 1])
  {
  }

  // ---- structure ----

  /** No customer's key can be taken for another's. */
  ghost predicate Apart(customers: set<string>) {
    forall c, d :: c in customers && d in customers && c != d ==> KeysApart(c, d)
  }

  ghost predicate Structured(lib: Library, customers: set<string>, g: Engine) {
    && |g.pool.workers| > 0
    && D.Inv(g.pool, Route(lib, |g.pool.workers|))
    && |g.pcs| == |g.latest| == |g.pool.workers|
    && |g.outcomes| == |g.pool.finished|
    && (forall j :: j in g.pool.accepted ==> j.tx.customerId in customers)
    && (forall w :: 0 <= w < |g.pcs| ==> g.pcs[w].Ok() && !g.pcs[w].Ended?)
    && (forall w :: 0 <= w < |g.pcs| && g.pool.workers[w].current.Some? ==> PcOwn(JobAt(g, w), g.pcs[w]))
    && g.cfg.active.rules in g.activated
  }

  lemma StructuredInitial(lib: Library, customers: set<string>, n: int, bundle: Bundle, clock: int)
    ensures Structured(lib, customers, Initial(n, bundle, clock))
  {
    var g := Initial(n, bundle, clock);
    D.InvInit<Job>(n, Route(lib, |g.pool.workers|));
  }

  /** A job in flight belongs to the worker of its customer. */
  lemma InFlightLane(lib: Library, customers: set<string>, g: Engine, w: nat)
    requires Structured(lib, customers, g) && w < |g.pool.workers| && g.pool.workers[w].current.Some?
    ensures Lane(lib, JobAt(g, w).tx.customerId, |g.pool.workers|) == w
    ensures JobAt(g, w).tx.customerId in customers
  {
    D.LaneMember(g.pool, Route(lib, |g.pool.workers|), w, JobAt(g, w));
  }

  lemma WorkedPool(lib: Library, g: Engine, w: nat)
    requires Busy(g, w)
    ensures var h := Worked(lib, g, w);
            var a := Act(lib, g.programs, g.stores, JobAt(g, w), g.pcs[w]);
            && h.pool.accepted == g.pool.accepted
            && |h.pool.workers| == |g.pool.workers|
            && (a.pc.Ended? ==> h.pool == D.Next(g.pool, D.Finish(w), Route(lib, |g.pool.workers|)))
            && (!a.pc.Ended? ==> h.pool == g.pool)
  {
  }

  lemma StructuredWork(lib: Library, customers: set<string>, g: Engine, w: nat)
    requires Structured(lib, customers, g) && Busy(g, w)
    ensures Structured(lib, customers, Worked(lib, g, w))
  {
    hide D.Inv, Act, PcOwn;
    var route := Route(lib, |g.pool.workers|);
    ActOwn(lib, g.programs, g.stores, JobAt(g, w), g.pcs[w]);
    WorkedPool(lib, g, w);
    D.InvStep(g.pool, D.Finish(w), route);
  }

  lemma StructuredPool(lib: Library, customers: set<string>, g: Engine, ev: Label)
    requires Structured(lib, customers, g) && Ready(lib, customers, g, ev)
    requires ev.Enqueue? || ev.Refuse? || ev.Pull? || ev.Shut? || ev.Leave?
    ensures Structured(lib, customers, Next(lib, customers, g, ev))
  {
    hide D.Inv;
    var route := Route(lib, |g.pool.workers|);
    match ev {
      case Enqueue(j) => D.InvStep(g.pool, D.Submit(j), route);
      case Refuse(j) => D.InvStep(g.pool, D.Drop(j), route);
      case Pull(w) => D.InvStep(g.pool, D.Take(w), route);
      case Shut => D.InvStep(g.pool, D.Close, route);
      case Leave(w) => D.InvStep(g.pool, D.Exit(w), route);
    }
  }

  lemma StructuredConfig(lib: Library, customers: set<string>, g: Engine, ev: Label)
    requires Structured(lib, customers, g) && Ready(lib, customers, g, ev)
    requires ev.StageBundle? || ev.ReloadConfig? || ev.Switch?
    ensures Structured(lib, customers, Next(lib, customers, g, ev))
  {
    hide D.Inv, ValidBundle, PcOwn;
  }

  lemma StructuredNext(lib: Library, customers: set<string>, g: Engine, ev: Label)
    requires Structured(lib, customers, g) && Ready(lib, customers, g, ev)
    ensures Structured(lib, customers, Next(lib, customers, g, ev))
  {
    hide Structured;
    match ev {
      case Work(w) => StructuredWork(lib, customers, g, w);
      case StageBundle(_) => StructuredConfig(lib, customers, g, ev);
      case ReloadConfig => StructuredConfig(lib, customers, g, ev);
      case Switch(_) => StructuredConfig(lib, customers, g, ev);
      case _ => StructuredPool(lib, customers, g, ev);
    }
  }

  // ---- the compile cache ----

  ghost predicate CacheInv(lib: Library, g: Engine, comp: string -> Option<Program>) {
    && Coherent(g.programs, comp)
    && (forall w :: 0 <= w < |g.pcs| && w < |g.pool.workers| && g.pool.workers[w].current.Some?
          ==> PcDisciplined(lib, g.pcs[w], comp))
  }

  lemma CacheNext(lib: Library, customers: set<string>, g: Engine, ev: Label, comp: string -> Option<Program>)
    requires Structured(lib, customers, g) && Ready(lib, customers, g, ev)
    requires CacheInv(lib, g, comp) && AllDisciplined(lib, g.activated, comp)
    ensures CacheInv(lib, Next(lib, customers, g, ev), comp)
  {
    hide Act, D.Inv, Coherent, Disciplined;
    if ev.Work? {
      var w := ev.w;
      ActDisciplined(lib, g.programs, g.stores, JobAt(g, w), g.pcs[w], comp);
    }
  }

  // ---- the reduction ----

  /** The outcomes of one customer's finished jobs, in order. */
  function OutcomesOf(finished: seq<Job>, outcomes: seq<Outcome>, c: string): seq<Outcome>
    requires |finished| == |outcomes|
  {
    if finished == [] then []
    else
      var k := |finished| - 1;
      OutcomesOf(finished[..k], outcomes[..k], c) + (if finished[k].tx.customerId == c then [outcomes[k]] else [])
  }

  /** The customer's finished jobs have gone, and the job in flight will go,
      exactly as in an uninterrupted run of that customer's jobs alone. */
  ghost predicate Reduced(lib: Library, g: Engine, c: string)
    requires |g.pool.workers| > 0 && |g.pcs| == |g.pool.workers| && |g.outcomes| == |g.pool.finished|
    requires forall w :: 0 <= w < |g.pcs| ==> g.pcs[w].Ok()
  {
    var w := Lane(lib, c, |g.pool.workers|);
    var alone := RunAll(lib, Filter(g.pool.finished, Mine(c)));
    && OutcomesOf(g.pool.finished, g.outcomes, c) == alone.outcomes
    && if InFlightOf(g, w, c)
       then SameEnd(Finish(lib, g.stores, JobAt(g, w), g.pcs[w]), Process(lib, alone.stores, JobAt(g, w)), c)
       else ViewOf(g.stores, c) == ViewOf(alone.stores, c)
  }

  predicate InFlightOf(g: Engine, w: nat, c: string)
    requires w < |g.pool.workers|
  {
    g.pool.workers[w].current.Some? && JobAt(g, w).tx.customerId == c
  }

  lemma ReducedInitial(lib: Library, n: int, bundle: Bundle, clock: int, c: string)
    ensures Reduced(lib, Initial(n, bundle, clock), c)
  {
  }

  lemma ReducedPull(lib: Library, customers: set<string>, g: Engine, w: nat, c: string)
    requires Structured(lib, customers, g) && Ready(lib, customers, g, Pull(w)) && Reduced(lib, g, c)
    ensures Reduced(lib, Next(lib, customers, g, Pull(w)), c)
  {
    hide Process, RunAll, ViewOf;
    var j := g.pool.workers[w].queue[0];
    D.LaneMember(g.pool, Route(lib, |g.pool.workers|), w, j);
    if j.tx.customerId == c {
      ProcessLocal(lib, g.stores, RunAll(lib, Filter(g.pool.finished, Mine(c))).stores, j);
    }
  }

  /** Appending one finished job to the filtered lists. */
  lemma FinishedAppend(finished: seq<Job>, outcomes: seq<Outcome>, j: Job, o: Outcome, c: string)
    requires |finished| == |outcomes|
    ensures OutcomesOf(finished + [j], outcomes + [o], c)
         == OutcomesOf(finished, outcomes, c) + (if j.tx.customerId == c then [o] else [])
    ensures Filter(finished + [j], Mine(c)) == Filter(finished, Mine(c)) + (if j.tx.customerId == c then [j] else [])
  {
    assert (finished + [j])[..|finished|] == finished && (outcomes + [o])[..|finished|] == outcomes;
    FilterAppend(finished, j, Mine(c));
  }

  lemma RunAllAppend(lib: Library, jobs: seq<Job>, j: Job)
    ensures var before := RunAll(lib, jobs);
            var end := Process(lib, before.stores, j);
            && RunAll(lib, jobs + [j]).stores == end.stores
            && RunAll(lib, jobs + [j]).outcomes == before.outcomes + [end.outcome]
  {
    assert (jobs + [j])[..|jobs|] == jobs;
  }

  /** A step inside the customer's own job. */
  lemma ReducedStep(lib: Library, customers: set<string>, g: Engine, w: nat, comp: string -> Option<Program>)
    requires Structured(lib, customers, g) && Busy(g, w) && CacheInv(lib, g, comp)
    requires !Act(lib, g.programs, g.stores, JobAt(g, w), g.pcs[w]).pc.Ended?
    requires Structured(lib, customers, Worked(lib, g, w))
    requires Reduced(lib, g, JobAt(g, w).tx.customerId)
    ensures Reduced(lib, Worked(lib, g, w), JobAt(g, w).tx.customerId)
  {
    InFlightLane(lib, customers, g, w);
    ActFinishes(lib, g.programs, g.stores, JobAt(g, w), g.pcs[w], comp);
  }

  lemma EndedFinish(lib: Library, s: Stores, j: Job, pc: Pc)
    requires pc.Ended?
    ensures Finish(lib, s, j, pc) == End(s, pc.outcome)
  {
  }

  /** The last step of the customer's own job. */
  lemma ReducedEnd(lib: Library, customers: set<string>, g: Engine, w: nat, comp: string -> Option<Program>)
    requires Structured(lib, customers, g) && Busy(g, w) && CacheInv(lib, g, comp)
    requires Act(lib, g.programs, g.stores, JobAt(g, w), g.pcs[w]).pc.Ended?
    requires Structured(lib, customers, Worked(lib, g, w))
    requires Reduced(lib, g, JobAt(g, w).tx.customerId)
    ensures Reduced(lib, Worked(lib, g, w), JobAt(g, w).tx.customerId)
  {
    hide Act, Process, RunAll, ViewOf, Finish, D.Inv, PcOwn, Filter, OutcomesOf, Coherent;
    var j := JobAt(g, w);
    var c := j.tx.customerId;
    InFlightLane(lib, customers, g, w);
    var a := Act(lib, g.programs, g.stores, j, g.pcs[w]);
    var done := Filter(g.pool.finished, Mine(c));
    assert SameEnd(End(a.stores, a.pc.outcome), Process(lib, RunAll(lib, done).stores, j), c) by {
      ActFinishes(lib, g.programs, g.stores, j, g.pcs[w], comp);
      EndedFinish(lib, a.stores, j, a.pc);
    }
    FinishedAppend(g.pool.finished, g.outcomes, j, a.pc.outcome, c);
    RunAllAppend(lib, done, j);
  }

  /** What a step of some other customer's job leaves as it was. */
  lemma WorkedElsewhere(lib: Library, customers: set<string>, g: Engine, w: nat, c: string)
    requires Structured(lib, customers, g) && Busy(g, w) && c != JobAt(g, w).tx.customerId
    requires Structured(lib, customers, Worked(lib, g, w))
    ensures var h, v := Worked(lib, g, w), Lane(lib, c, |g.pool.workers|);
            && |h.pool.workers| == |g.pool.workers|
            && h.stores == Act(lib, g.programs, g.stores, JobAt(g, w), g.pcs[w]).stores
            && OutcomesOf(h.pool.finished, h.outcomes, c) == OutcomesOf(g.pool.finished, g.outcomes, c)
            && Filter(h.pool.finished, Mine(c)) == Filter(g.pool.finished, Mine(c))
            && InFlightOf(h, v, c) == InFlightOf(g, v, c)
            && (InFlightOf(g, v, c) ==> JobAt(h, v) == JobAt(g, v) && h.pcs[v] == g.pcs[v])
  {
    hide Act, D.Inv, PcOwn;
    var a := Act(lib, g.programs, g.stores, JobAt(g, w), g.pcs[w]);
    if a.pc.Ended? {
      FinishedAppend(g.pool.finished, g.outcomes, JobAt(g, w), a.pc.outcome, c);
    }
  }

  /** A step of some other customer's job. */
  lemma ReducedForeign(lib: Library, customers: set<string>, g: Engine, w: nat, c: string)
    requires Structured(lib, customers, g) && Busy(g, w)
    requires c != JobAt(g, w).tx.customerId && KeysApart(JobAt(g, w).tx.customerId, c)
    requires Reduced(lib, g, c)
    ensures Structured(lib, customers, Worked(lib, g, w))
    ensures Reduced(lib, Worked(lib, g, w), c)
  {
    hide Act, Process, RunAll, ViewOf, Finish, D.Inv, PcOwn, Worked, Filter, OutcomesOf;
    StructuredWork(lib, customers, g, w);
    WorkedElsewhere(lib, customers, g, w, c);
    var a := Act(lib, g.programs, g.stores, JobAt(g, w), g.pcs[w]);
    ActForeign(lib, g.programs, g.stores, JobAt(g, w), g.pcs[w], c);
    var v := Lane(lib, c, |g.pool.workers|);
    if InFlightOf(g, v, c) {
      FinishLocal(lib, g.stores, a.stores, JobAt(g, v), g.pcs[v]);
    }
  }

  /** Steps that neither touch the stores nor start or finish a job. */
  lemma ReducedFrame(lib: Library, customers: set<string>, g: Engine, h: Engine, c: string)
    requires Structured(lib, customers, g) && Structured(lib, customers, h) && Reduced(lib, g, c)
    requires h.stores == g.stores && h.pcs == g.pcs && h.outcomes == g.outcomes && h.pool.finished == g.pool.finished
    requires |h.pool.workers| == |g.pool.workers|
    requires forall w :: 0 <= w < |g.pool.workers| ==> h.pool.workers[w].current == g.pool.workers[w].current
    ensures Reduced(lib, h, c)
  {
  }

  lemma ReducedNext(lib: Library, customers: set<string>, g: Engine, ev: Label, comp: string -> Option<Program>,
                    c: string)
    requires Structured(lib, customers, g) && Ready(lib, customers, g, ev) && CacheInv(lib, g, comp)
    requires Apart(customers) && c in customers && Reduced(lib, g, c)
    ensures Structured(lib, customers, Next(lib, customers, g, ev))
    ensures Reduced(lib, Next(lib, customers, g, ev), c)
  {
    hide Act, Process, RunAll, Reduced, CacheInv, D.Inv, PcOwn;
    StructuredNext(lib, customers, g, ev);
    match ev {
      case Pull(w) => ReducedPull(lib, customers, g, w, c);
      case Work(w) =>
        InFlightLane(lib, customers, g, w);
        if JobAt(g, w).tx.customerId != c {
          ReducedForeign(lib, customers, g, w, c);
        } else if Act(lib, g.programs, g.stores, JobAt(g, w), g.pcs[w]).pc.Ended? {
          ReducedEnd(lib, customers, g, w, comp);
        } else {
          ReducedStep(lib, customers, g, w, comp);
        }
      case _ => ReducedFrame(lib, customers, g, Next(lib, customers, g, ev), c);
    }
  }

  lemma ActivatedGrows(lib: Library, customers: set<string>, g: Engine, ev: Label, comp: string -> Option<Program>)
    requires Ready(lib, customers, g, ev) && AllDisciplined(lib, Next(lib, customers, g, ev).activated, comp)
    ensures AllDisciplined(lib, g.activated, comp)
  {
    hide Act, Disciplined, Consistent;
  }

  /** What holds after every run: structure, cache and reduction. */
  lemma {:induction false} Reachable(lib: Library, customers: set<string>, n: int, bundle: Bundle, clock: int,
                          states: seq<Engine>, labels: seq<Label>, comp: string -> Option<Program>)
    requires Execution(lib, customers, n, bundle, clock, states, labels)
    requires Apart(customers) && AllDisciplined(lib, states[|labels|].activated, comp)
    ensures Structured(lib, customers, states[|labels|])
    ensures CacheInv(lib, states[|labels|], comp)
    ensures forall c :: c in customers ==> Reduced(lib, states[|labels|], c)
    decreases |labels|
  {
    var k := |labels|;
    if k == 0 {
      StructuredInitial(lib, customers, n, bundle, clock);
      forall c | c in customers ensures Reduced(lib, states[0], c) {
        ReducedInitial(lib, n, bundle, clock, c);
      }
    } else {
      ExecutionPrefix(lib, customers, n, bundle, clock, states, labels);
      hide Execution, Structured, CacheInv, Reduced, Next, AllDisciplined;
      var g, ev := states[k - 1], labels[k - 1];
      ActivatedGrows(lib, customers, g, ev, comp);
      Reachable(lib, customers, n, bundle, clock, states[..k], labels[..k - 1], comp);
      StructuredNext(lib, customers, g, ev);
      CacheNext(lib, customers, g, ev, comp);
      forall c | c in customers ensures Reduced(lib, states[k], c) {
        ReducedNext(lib, customers, g, ev, comp, c);
      }
    }
  }
}
