/** The worker pool as an object (internal/pipeline/dispatch/pool.go). Each
    method is one move of some goroutine; any order of the moves is a run of the
    step system in module Dispatch. */
module Pool {
  import opened Sequences
  import opened D = Dispatch

  class Pool<J(!new)> {
    const route: J -> nat
    var workers: seq<Worker<J>>
    var closed: bool
    ghost var accepted: seq<J>
    ghost var finished: seq<J>

    ghost function State(): PoolState<J>
      reads this
    {
      PoolState(workers, accepted, finished, closed)
    }

    ghost predicate Valid()
      reads this
    {
      Inv(State(), route)
    }

    /** At least one worker, each with an empty queue of its own. */
    constructor (count: int, route: J -> nat)
      ensures this.route == route && State() == Started(count) && Valid()
      ensures |workers| == if count < 1 then 1 else count
      ensures forall w :: w in workers ==> w == Worker([], None, false)
    {
      var n := if count < 1 then 1 else count;
      var started: seq<Worker<J>> := [];
      for i := 0 to n
        invariant started == seq(i, _ => Worker([], None, false))
      {
        started := started + [Worker([], None, false)];
      }
      this.route, workers, closed, accepted, finished := route, started, false, [], [];
      new;
      InvInit<J>(count, route);
    }

    /** A Submit that has completed: the job went into a queue with room, or it
        was dropped because the context was done. When both were possible,
        sends says which one the select took. */
    method Submit(j: J, done: bool, sends: bool) returns (enqueued: bool)
      requires Valid() && !closed && route(j) < |workers|
      requires done || |workers[route(j)].queue| < 64
      modifies this
      ensures enqueued == (|old(workers)[route(j)].queue| < 64 && (sends || !done))
      ensures State() == if enqueued then Next(old(State()), D.Submit(j), route) else old(State())
      ensures Valid()
    {
      var idx := route(j);
      enqueued := |workers[idx].queue| < QUEUE_CAPACITY && (sends || !done);
      if enqueued {
        InvStep(State(), D.Submit(j), route);
        workers := workers[idx := workers[idx].(queue := workers[idx].queue + [j])];
        accepted := accepted + [j];
      }
    }

    /** What worker w does next: finish the job it runs, whether that returns or
        panics; else receive from its queue; else, once the queue is closed, leave. */
    ghost function Turn(w: nat): Option<PoolEvent<J>>
      requires w < |workers|
      reads this
    {
      if workers[w].current.Some? then Some(Finish(w))
      else if workers[w].queue != [] then Some(Take(w))
      else if closed && !workers[w].exited then Some(Exit(w))
      else None
    }

    method RunWorker(w: nat) returns (moved: bool)
      requires Valid() && w < |workers|
      modifies this
      ensures moved <==> old(Turn(w)).Some?
      ensures moved ==> Enabled(old(State()), old(Turn(w)).value, route)
      ensures State() == if moved then Next(old(State()), old(Turn(w)).value, route) else old(State())
      ensures Valid() && closed == old(closed) && accepted == old(accepted)
    {
      moved := true;
      var v := workers[w];
      if v.current.Some? {
        InvStep(State(), Finish(w), route);
        workers := workers[w := v.(current := None)];
        finished := finished + [v.current.value];
      } else if v.queue != [] {
        InvStep(State(), Take(w), route);
        workers := workers[w := v.(queue := v.queue[1..], current := Some(v.queue[0]))];
      } else if closed && !v.exited {
        InvStep(State(), Exit(w), route);
        workers := workers[w := v.(exited := true)];
      } else {
        moved := false;
      }
    }

    /** Some worker that has not left; all have, when there is none. */
    method Remaining() returns (w: nat)
      ensures w <= |workers|
      ensures w < |workers| ==> !workers[w].exited
      ensures w == |workers| ==> AllExited(State())
    {
      w := 0;
      while w < |workers| && workers[w].exited
        invariant w <= |workers| && forall v :: 0 <= v < w ==> workers[v].exited
      {
        w := w + 1;
      }
    }

    /** Closes the queues and lets the workers move, in any order, until all
        have left: this ends, and then every customer's accepted jobs have run
        exactly once, in submission order. */
    method Close(ghost customer: J -> string, ghost hash: string -> nat, ghost c: string)
      requires Valid() && !closed && RoutesByCustomer(route, customer, hash, |workers|)
      modifies this
      ensures Valid() && AllExited(State()) && accepted == old(accepted)
      ensures Filter(finished, OfCustomer(customer, c)) == Filter(accepted, OfCustomer(customer, c))
    {
      InvStep(State(), D.Close, route);
      closed := true;
      var w: nat := Remaining();
      while w < |workers|
        invariant Valid() && closed && accepted == old(accepted) && |workers| == |old(workers)|
        invariant w <= |workers|
        invariant w < |workers| ==> !workers[w].exited
        invariant w == |workers| ==> AllExited(State())
        decreases Load(workers)
      {
        assert 0 <= w < |workers| && !workers[w].exited;
        var v: nat :| v < |workers| && !workers[v].exited;
        ghost var before, ev := State(), Turn(v);
        var moved := RunWorker(v);
        WorkerStepUsesLoad(before, ev.value, route);
        w := Remaining();
      }
      CloseIsComplete(State(), route, customer, hash, c);
    }
  }
}
