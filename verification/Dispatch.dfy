/** The worker pool (internal/pipeline/dispatch/pool.go) as a system of bounded
    FIFO queues. Workers and submitters take turns in any order; running a job
    is Take ... Finish, and a recovered panic is a Finish like any other. */
module Dispatch {
  import opened Sequences

  const QUEUE_CAPACITY := 64

  datatype Worker<J> = Worker(queue: seq<J>, current: Option<J>, exited: bool)
  {
    function InFlight(): seq<J> { if current.Some? then [current.value] else [] }
  }

  datatype PoolState<J> = PoolState(workers: seq<Worker<J>>, accepted: seq<J>, finished: seq<J>, closed: bool)

  /** The worker a job belongs to, by the hash of its customer. */
  function WorkerIndex(hash: nat, n: nat): (w: nat)
    requires n > 0
    ensures w < n && hash == hash / n * n + w
  {
    hash % n
  }

  datatype PoolEvent<J> = Submit(j: J) | Drop(j: J) | Take(w: nat) | Finish(w: nat) | Close | Exit(w: nat)

  function Started<J>(n: int): PoolState<J> {
    PoolState(seq(if n < 1 then 1 else n, _ => Worker([], None, false)), [], [], false)
  }

  /** A Submit completes only into a queue with room; a worker leaves only once
      the pool is closed and its queue is drained. */
  predicate Enabled<J>(p: PoolState<J>, ev: PoolEvent<J>, route: J -> nat) {
    match ev
    case Submit(j) => !p.closed && route(j) < |p.workers| && |p.workers[route(j)].queue| < QUEUE_CAPACITY
    case Drop(j) => !p.closed
    case Take(w) => w < |p.workers| && p.workers[w].current.None? && p.workers[w].queue != []
    case Finish(w) => w < |p.workers| && p.workers[w].current.Some?
    case Close => !p.closed
    case Exit(w) => w < |p.workers| && p.closed && p.workers[w] == Worker([], None, false)
  }

  function Next<J>(p: PoolState<J>, ev: PoolEvent<J>, route: J -> nat): PoolState<J>
    requires Enabled(p, ev, route)
  {
    match ev
    case Submit(j) =>
      var w := p.workers[route(j)];
      p.(workers := p.workers[route(j) := w.(queue := w.queue + [j])], accepted := p.accepted + [j])
    case Drop(j) => p
    case Take(i) =>
      var w := p.workers[i];
      p.(workers := p.workers[i := w.(queue := w.queue[1..], current := Some(w.queue[0]))])
    case Finish(i) =>
      var w := p.workers[i];
      p.(workers := p.workers[i := w.(current := None)], finished := p.finished + [w.current.value])
    case Close => p.(closed := true)
    case Exit(i) => p.(workers := p.workers[i := p.workers[i].(exited := true)])
  }

  // ---- the invariant ----

  function RoutedTo<J>(route: J -> nat, w: nat): J -> bool {
    (j: J) => route(j) == w
  }

  /** Finished, in flight and queued, in this order, are what the worker's lane accepted. */
  ghost predicate LaneInOrder<J>(p: PoolState<J>, route: J -> nat, w: nat)
    requires w < |p.workers|
  {
    Filter(p.finished, RoutedTo(route, w)) + (p.workers[w].InFlight() + p.workers[w].queue)
      == Filter(p.accepted, RoutedTo(route, w))
  }

  ghost predicate Inv<J>(p: PoolState<J>, route: J -> nat) {
    && |p.workers| > 0
    && (forall w :: 0 <= w < |p.workers| ==> LaneInOrder(p, route, w))
    && (forall w :: 0 <= w < |p.workers| ==> |p.workers[w].queue| <= 64)
    && (forall w :: 0 <= w < |p.workers| && p.workers[w].exited ==> p.workers[w] == Worker([], None, true) && p.closed)
    && (forall j :: j in p.accepted ==> route(j) < |p.workers|)
    && (forall j :: j in p.finished ==> j in p.accepted)
  }

  lemma InvInit<J>(n: int, route: J -> nat)
    ensures Inv(Started<J>(n), route)
  {
  }

  /** A job in a lane is routed there. */
  lemma LaneMember<J>(p: PoolState<J>, route: J -> nat, w: nat, j: J)
    requires Inv(p, route) && w < |p.workers|
    requires j in p.workers[w].InFlight() || j in p.workers[w].queue
    ensures route(j) == w && j in p.accepted
  {
    assert LaneInOrder(p, route, w);
    assert j in Filter(p.accepted, RoutedTo(route, w));
    FilterMember(p.accepted, RoutedTo(route, w), j);
  }

  lemma SubmitLane<J>(p: PoolState<J>, j: J, route: J -> nat, w: nat)
    requires w < |p.workers| && LaneInOrder(p, route, w) && Enabled(p, Submit(j), route)
    ensures LaneInOrder(Next(p, Submit(j), route), route, w)
  {
    FilterAppend(p.accepted, j, RoutedTo(route, w));
    var done, v := Filter(p.finished, RoutedTo(route, w)), p.workers[w];
    assert done + (v.InFlight() + (v.queue + [j])) == done + (v.InFlight() + v.queue) + [j];
  }

  lemma TakeLane<J>(p: PoolState<J>, i: nat, route: J -> nat, w: nat)
    requires w < |p.workers| && LaneInOrder(p, route, w) && Enabled(p, Take(i), route)
    ensures LaneInOrder(Next(p, Take(i), route), route, w)
  {
    var q := p.workers[i].queue;
    assert [q[0]] + q[1..] == [] + q;
  }

  lemma FinishLane<J>(p: PoolState<J>, i: nat, route: J -> nat, w: nat)
    requires w < |p.workers| && LaneInOrder(p, route, w) && Enabled(p, Finish(i), route)
    requires route(p.workers[i].current.value) == i
    ensures LaneInOrder(Next(p, Finish(i), route), route, w)
  {
    var j := p.workers[i].current.value;
    FilterAppend(p.finished, j, RoutedTo(route, w));
    var done, q := Filter(p.finished, RoutedTo(route, w)), p.workers[w].queue;
    assert done + ([j] + q) == done + [j] + ([] + q);
  }

  lemma LaneStep<J>(p: PoolState<J>, ev: PoolEvent<J>, route: J -> nat, w: nat)
    requires Inv(p, route) && Enabled(p, ev, route) && w < |p.workers|
    ensures LaneInOrder(Next(p, ev, route), route, w)
  {
    assert LaneInOrder(p, route, w);
    match ev {
      case Submit(j) => SubmitLane(p, j, route, w);
      case Take(i) => TakeLane(p, i, route, w);
      case Finish(i) =>
        LaneMember(p, route, i, p.workers[i].current.value);
        FinishLane(p, i, route, w);
      case _ =>
    }
  }

  /** Every step keeps the invariant. */
  lemma InvStep<J>(p: PoolState<J>, ev: PoolEvent<J>, route: J -> nat)
    requires Inv(p, route) && Enabled(p, ev, route)
    ensures Inv(Next(p, ev, route), route)
  {
    forall w | 0 <= w < |p.workers| ensures LaneInOrder(Next(p, ev, route), route, w) {
      LaneStep(p, ev, route, w);
    }
    if ev.Finish? {
      LaneMember(p, route, ev.w, p.workers[ev.w].current.value);
    }
  }

  // ---- per customer ----

  function OfCustomer<J>(customer: J -> string, c: string): J -> bool {
    (j: J) => customer(j) == c
  }

  /** Jobs of one customer share a worker. */
  ghost predicate RoutesByCustomer<J(!new)>(route: J -> nat, customer: J -> string, hash: string -> nat, n: nat)
    requires n > 0
  {
    forall j :: route(j) == WorkerIndex(hash(customer(j)), n)
  }

  /** For each customer, finished, in flight and queued are the submission
      order, and no other worker holds a job of theirs. */
  lemma CustomerInOrder<J(!new)>(p: PoolState<J>, route: J -> nat, customer: J -> string, hash: string -> nat,
                                 c: string)
    requires Inv(p, route) && RoutesByCustomer(route, customer, hash, |p.workers|)
    ensures var w, mine := WorkerIndex(hash(c), |p.workers|), OfCustomer(customer, c);
            Filter(p.finished, mine) + Filter(p.workers[w].InFlight(), mine) + Filter(p.workers[w].queue, mine)
              == Filter(p.accepted, mine)
    ensures forall v, j :: 0 <= v < |p.workers| && v != WorkerIndex(hash(c), |p.workers|) && customer(j) == c
              ==> j !in p.workers[v].InFlight() && j !in p.workers[v].queue
  {
    var w, mine := WorkerIndex(hash(c), |p.workers|), OfCustomer(customer, c);
    var lane := RoutedTo(route, w);
    assert LaneInOrder(p, route, w);
    FilterNested(p.finished, lane, mine);
    FilterNested(p.accepted, lane, mine);
    FilterConcat(Filter(p.finished, lane), p.workers[w].InFlight() + p.workers[w].queue, mine);
    FilterConcat(p.workers[w].InFlight(), p.workers[w].queue, mine);
    forall v, j | 0 <= v < |p.workers| && v != w && customer(j) == c
      ensures j !in p.workers[v].InFlight() && j !in p.workers[v].queue
    {
      if j in p.workers[v].InFlight() || j in p.workers[v].queue {
        LaneMember(p, route, v, j);
      }
    }
  }

  // ---- shutting down ----

  function WorkerLoad<J>(w: Worker<J>): nat {
    2 * |w.queue| + |w.InFlight()| + (if w.exited then 0 else 1)
  }

  function Load<J>(workers: seq<Worker<J>>): nat {
    if workers == [] then 0 else Load(workers[..|workers| - 1]) + WorkerLoad(workers[|workers| - 1])
  }

  lemma {:induction false} LoadUpdate<J>(workers: seq<Worker<J>>, i: nat, w: Worker<J>)
    requires i < |workers|
    ensures Load(workers[i := w]) == Load(workers) - WorkerLoad(workers[i]) + WorkerLoad(w)
  {
    var n := |workers| - 1;
    if i == n {
      assert workers[i := w][..n] == workers[..n];
    } else {
      assert workers[i := w][..n] == workers[..n][i := w];
      LoadUpdate(workers[..n], i, w);
    }
  }

  /** Every step of a worker uses up load. */
  lemma WorkerStepUsesLoad<J>(p: PoolState<J>, ev: PoolEvent<J>, route: J -> nat)
    requires Enabled(p, ev, route) && (ev.Take? || ev.Finish? || ev.Exit?)
    ensures Load(Next(p, ev, route).workers) < Load(p.workers)
  {
    LoadUpdate(p.workers, ev.w, Next(p, ev, route).workers[ev.w]);
  }

  predicate AllExited<J>(p: PoolState<J>) {
    forall w :: 0 <= w < |p.workers| ==> p.workers[w].exited
  }

  /** A closed pool is never stuck before every worker has left. */
  lemma CloseProgress<J>(p: PoolState<J>, route: J -> nat) returns (ev: PoolEvent<J>)
    requires Inv(p, route) && p.closed && !AllExited(p)
    ensures Enabled(p, ev, route) && (ev.Take? || ev.Finish? || ev.Exit?)
  {
    var w :| 0 <= w < |p.workers| && !p.workers[w].exited;
    ev := if p.workers[w].current.Some? then Finish(w) else if p.workers[w].queue != [] then Take(w) else Exit(w);
  }

  /** When Close returns, every customer's accepted jobs have run, each exactly
      once and in submission order, and nothing else has. */
  lemma CloseIsComplete<J(!new)>(p: PoolState<J>, route: J -> nat, customer: J -> string, hash: string -> nat,
                                 c: string)
    requires Inv(p, route) && RoutesByCustomer(route, customer, hash, |p.workers|) && AllExited(p)
    ensures Filter(p.finished, OfCustomer(customer, c)) == Filter(p.accepted, OfCustomer(customer, c))
  {
    CustomerInOrder(p, route, customer, hash, c);
    assert p.workers[WorkerIndex(hash(c), |p.workers|)] == Worker([], None, true);
  }

  // ---- runs ----

  /** states[i + 1] follows states[i] by events[i], starting from a new pool. */
  ghost predicate Run<J(!new)>(n: int, states: seq<PoolState<J>>, events: seq<PoolEvent<J>>, route: J -> nat) {
    && |states| == |events| + 1
    && states[0] == Started(n)
    && (forall i :: 0 <= i < |events| ==>
          Enabled(states[i], events[i], route) && states[i + 1] == Next(states[i], events[i], route))
  }

  /** The jobs that the given events submitted. */
  function Submitted<J>(events: seq<PoolEvent<J>>): seq<J> {
    if events == [] then []
    else
      var init, last := events[..|events| - 1], events[|events| - 1];
      Submitted(init) + (if last.Submit? then [last.j] else [])
  }

  /** Nowhere in the pool. */
  ghost predicate Absent<J>(p: PoolState<J>, j: J) {
    && j !in p.finished
    && (forall w :: 0 <= w < |p.workers| ==> j !in p.workers[w].InFlight() && j !in p.workers[w].queue)
  }

  lemma NotAccepted<J>(p: PoolState<J>, route: J -> nat, j: J)
    requires Inv(p, route) && j !in p.accepted
    ensures Absent(p, j)
  {
    forall w | 0 <= w < |p.workers|
      ensures j !in p.workers[w].InFlight() && j !in p.workers[w].queue
    {
      if j in p.workers[w].InFlight() || j in p.workers[w].queue {
        LaneMember(p, route, w, j);
      }
    }
  }

  /** The invariant holds along every run, what was accepted is exactly what a
      Submit enqueued, and a job that was only ever dropped is never queued or run. */
  lemma {:induction false} RunKeepsInv<J(!new)>(n: int, states: seq<PoolState<J>>, events: seq<PoolEvent<J>>,
                                                route: J -> nat)
    requires Run(n, states, events, route)
    ensures Inv(states[|events|], route)
    ensures states[|events|].accepted == Submitted(events)
    ensures forall j :: j !in Submitted(events) ==> Absent(states[|events|], j)
    decreases |events|
  {
    var k := |events|;
    if k == 0 {
      InvInit<J>(n, route);
    } else {
      RunKeepsInv(n, states[..k], events[..k - 1], route);
      assert Enabled(states[k - 1], events[k - 1], route);
      assert Next(states[k - 1], events[k - 1], route).accepted
          == states[k - 1].accepted + (if events[k - 1].Submit? then [events[k - 1].j] else []);
      hide Next, Enabled, Inv;
      InvStep(states[k - 1], events[k - 1], route);
    }
    hide Absent, Inv;
    forall j | j !in Submitted(events) ensures Absent(states[k], j) {
      NotAccepted(states[k], route, j);
    }
  }
}
