/** One synchronous request (internal/adapters/httpapi/handlers.go, processOne)
    on a pool that is busy with others: the handler, its Submit, the closure a
    worker runs for it and the channel between them, interleaved in any order. */
module SingleRequest {
  import opened Sequences
  import opened Domain
  import D = Dispatch

  /** A queued closure: this request's, or some other's. */
  datatype Task = Mine | Theirs(customerId: string)

  /** Where this request's closure is. */
  datatype Place = Unsubmitted | Queued | Running | Ended(outcome: Outcome) | Dropped

  datatype Reply = Completed(outcome: Outcome) | ContextDone

  datatype Call = Call(
    customerId: string,
    pool: D.PoolState<Task>,
    place: Place,
    channel: seq<Outcome>,      // buffered, with room for one
    cancelled: bool,
    reply: Option<Reply>,
    counted: seq<Outcome>)      // the verdicts handed to record

  /** Foreign is another request's Submit. */
  datatype Event =
    | Cancel | Foreign(customerId: string)
    | Enqueue | Drop | TakeDone | TakeContext
    | Take(w: nat) | End(w: nat, outcome: Outcome)

  function RouteBy(hash: string -> nat, c: Call): Task -> nat
    requires |c.pool.workers| > 0
  {
    (t: Task) => D.WorkerIndex(hash(if t.Mine? then c.customerId else t.customerId), |c.pool.workers|)
  }

  predicate Enabled(hash: string -> nat, c: Call, ev: Event) {
    && |c.pool.workers| > 0
    && var route := RouteBy(hash, c);
       match ev
       case Cancel => !c.cancelled
       case Foreign(o) => D.Enabled(c.pool, D.Submit(Theirs(o)), route)
       case Enqueue => c.place.Unsubmitted? && D.Enabled(c.pool, D.Submit(Mine), route)
       case Drop => c.place.Unsubmitted? && c.cancelled
       case Take(w) => D.Enabled(c.pool, D.Take(w), route)
       case End(w, _) =>
         D.Enabled(c.pool, D.Finish(w), route) && (c.pool.workers[w].current == Some(Mine) ==> |c.channel| < 1)
       case TakeDone => !c.place.Unsubmitted? && c.reply.None? && c.channel != []
       case TakeContext => !c.place.Unsubmitted? && c.reply.None? && c.cancelled
  }

  /** The closure sends on its channel when Process returns and when it panics. */
  function Next(hash: string -> nat, c: Call, ev: Event): Call
    requires Enabled(hash, c, ev)
  {
    var route := RouteBy(hash, c);
    match ev
    case Cancel => c.(cancelled := true)
    case Foreign(o) => c.(pool := D.Next(c.pool, D.Submit(Theirs(o)), route))
    case Enqueue => c.(pool := D.Next(c.pool, D.Submit(Mine), route), place := Queued)
    case Drop => c.(place := Dropped)
    case Take(w) =>
      c.(pool := D.Next(c.pool, D.Take(w), route),
         place := if c.pool.workers[w].queue[0].Mine? then Running else c.place)
    case End(w, outcome) =>
      var d := c.(pool := D.Next(c.pool, D.Finish(w), route));
      if c.pool.workers[w].current == Some(Mine) then
        d.(place := Ended(outcome), channel := c.channel + [outcome])
      else
        d
    case TakeDone =>
      var outcome := c.channel[0];
      c.(channel := c.channel[1..], reply := Some(Completed(outcome)),
         counted := if outcome.Verdict? then c.counted + [outcome] else c.counted)
    case TakeContext => c.(reply := Some(ContextDone))
  }

  // ---- the invariant ----

  function Lane(hash: string -> nat, c: Call): nat
    requires |c.pool.workers| > 0
  {
    D.WorkerIndex(hash(c.customerId), |c.pool.workers|)
  }

  predicate HoldsNone(w: D.Worker<Task>) {
    w.current != Some(Mine) && Mine !in w.queue
  }

  predicate Once(queue: seq<Task>) {
    forall i, j :: 0 <= i < j < |queue| ==> !(queue[i].Mine? && queue[j].Mine?)
  }

  /** The closure is where the place says, once, in its customer's lane. */
  predicate Located(hash: string -> nat, c: Call) {
    && |c.pool.workers| > 0
    && var lane := Lane(hash, c);
       && (forall w :: 0 <= w < |c.pool.workers| && w != lane ==> HoldsNone(c.pool.workers[w]))
       && (c.pool.workers[lane].current == Some(Mine) <==> c.place.Running?)
       && (Mine in c.pool.workers[lane].queue <==> c.place.Queued?)
       && Once(c.pool.workers[lane].queue)
  }

  predicate Open(c: Call) {
    && !c.pool.closed
    && (forall w :: 0 <= w < |c.pool.workers| ==> |c.pool.workers[w].queue| <= 64)
  }

  /** What was sent and not yet taken, and what the reply rests on. */
  predicate Answers(c: Call) {
    && (c.channel == if c.place.Ended? && !(c.reply.Some? && c.reply.value.Completed?) then [c.place.outcome] else [])
    && (c.place.Dropped? ==> c.cancelled)
    && (c.reply.Some? ==> !c.place.Unsubmitted?)
    && (c.reply == Some(ContextDone) ==> c.cancelled)
    && (c.reply.Some? && c.reply.value.Completed? ==> c.place == Ended(c.reply.value.outcome))
    && c.counted == (if c.reply.Some? && c.reply.value.Completed? && c.reply.value.outcome.Verdict?
                     then [c.reply.value.outcome] else [])
  }

  predicate Inv(hash: string -> nat, c: Call) {
    Located(hash, c) && Open(c) && Answers(c)
  }

  /** A request that has not submitted yet, on a pool in any condition. */
  predicate Fresh(hash: string -> nat, c: Call) {
    && |c.pool.workers| > 0 && Open(c)
    && (forall w :: 0 <= w < |c.pool.workers| ==> HoldsNone(c.pool.workers[w]))
    && c == Call(c.customerId, c.pool, Unsubmitted, [], false, None, [])
  }

  lemma TakeLocated(hash: string -> nat, c: Call, w: nat)
    requires Located(hash, c) && Enabled(hash, c, Take(w))
    ensures Located(hash, Next(hash, c, Take(w)))
  {
    var q := c.pool.workers[w].queue;
    assert q == [q[0]] + q[1..];
  }

  lemma LocatedNext(hash: string -> nat, c: Call, ev: Event)
    requires Inv(hash, c) && Enabled(hash, c, ev)
    ensures Located(hash, Next(hash, c, ev))
  {
    if ev.Take? {
      TakeLocated(hash, c, ev.w);
    }
  }

  lemma AnswersNext(hash: string -> nat, c: Call, ev: Event)
    requires Inv(hash, c) && Enabled(hash, c, ev)
    ensures Answers(Next(hash, c, ev))
  {
    hide D.Next;
    if ev.Take? && c.pool.workers[ev.w].queue[0].Mine? {
      assert Mine in c.pool.workers[ev.w].queue;
    }
  }

  lemma OpenNext(hash: string -> nat, c: Call, ev: Event)
    requires Open(c) && Enabled(hash, c, ev)
    ensures Open(Next(hash, c, ev))
  {
  }

  lemma InvNext(hash: string -> nat, c: Call, ev: Event)
    requires Inv(hash, c) && Enabled(hash, c, ev)
    ensures Inv(hash, Next(hash, c, ev))
  {
    LocatedNext(hash, c, ev);
    AnswersNext(hash, c, ev);
    OpenNext(hash, c, ev);
    hide Located, Answers, Open, Next, Enabled;
  }

  // ---- progress ----

  /** Until there is an answer something can move, without any cancellation or
      other request: a Submit blocked on a full queue waits for a worker that can. */
  lemma Progress(hash: string -> nat, c: Call) returns (ev: Event)
    requires Inv(hash, c) && c.reply.None?
    ensures Enabled(hash, c, ev) && !ev.Cancel? && !ev.Foreign?
  {
    var lane := Lane(hash, c);
    var w := c.pool.workers[lane];
    if c.place.Unsubmitted? && |w.queue| < 64 {
      ev := Enqueue;
    } else if c.place.Ended? {
      ev := TakeDone;
    } else if c.place.Dropped? {
      ev := TakeContext;
    } else {
      ev := if w.current.Some? then End(lane, Panicked(InAction)) else Take(lane);
    }
  }

  /** Steps left, at most. */
  function Measure(c: Call): nat {
    D.Load(c.pool.workers) + (if c.place.Unsubmitted? then 3 else 0)
      + (if c.cancelled then 0 else 1) + (if c.reply.Some? then 0 else 1)
  }

  lemma SubmitLoads(hash: string -> nat, c: Call, ev: Event)
    requires Enabled(hash, c, ev) && (ev.Enqueue? || ev.Foreign?)
    ensures D.Load(Next(hash, c, ev).pool.workers) == D.Load(c.pool.workers) + 2
  {
    var i := RouteBy(hash, c)(if ev.Enqueue? then Mine else Theirs(ev.customerId));
    D.LoadUpdate(c.pool.workers, i, Next(hash, c, ev).pool.workers[i]);
  }

  lemma MeasureDecreases(hash: string -> nat, c: Call, ev: Event)
    requires Inv(hash, c) && Enabled(hash, c, ev)
    ensures if ev.Foreign? then Measure(Next(hash, c, ev)) == Measure(c) + 2
            else Measure(Next(hash, c, ev)) < Measure(c)
  {
    hide D.Load;
    match ev {
      case Foreign(_) => SubmitLoads(hash, c, ev);
      case Enqueue => SubmitLoads(hash, c, ev);
      case Take(w) =>
        D.WorkerStepUsesLoad(c.pool, D.Take(w), RouteBy(hash, c));
        assert c.pool.workers[w].queue[0].Mine? ==> Mine in c.pool.workers[w].queue;
      case End(w, _) => D.WorkerStepUsesLoad(c.pool, D.Finish(w), RouteBy(hash, c));
      case _ =>
    }
  }

  // ---- runs ----

  ghost predicate Run(hash: string -> nat, states: seq<Call>, events: seq<Event>) {
    && |states| == |events| + 1
    && Fresh(hash, states[0])
    && (forall i :: 0 <= i < |events| ==>
          Enabled(hash, states[i], events[i]) && states[i + 1] == Next(hash, states[i], events[i]))
  }

  function IsForeign(): Event -> bool { (ev: Event) => ev.Foreign? }

  /** Over every interleaving, with the pool and its other users: the request is
      answered with its own call's outcome, or with the context's error after a
      cancellation; it is counted once when the answer is a verdict and not
      otherwise; the send never blocks the worker; until there is an answer
      something can move; and the run is no longer than the measure of its first
      state and three more steps for each job of another request. */
  lemma {:induction false} EveryRun(hash: string -> nat, states: seq<Call>, events: seq<Event>)
    requires Run(hash, states, events)
    ensures var c := states[|events|];
            && Inv(hash, c)
            && (c.place.Running? ==> c.channel == [])
            && (c.reply.None? ==> exists ev :: Enabled(hash, c, ev) && !ev.Cancel? && !ev.Foreign?)
            && |events| + Measure(c) <= Measure(states[0]) + 3 * |Filter(events, IsForeign())|
    decreases |events|
  {
    var k := |events|;
    if k > 0 {
      EveryRun(hash, states[..k], events[..k - 1]);
      assert Enabled(hash, states[k - 1], events[k - 1]);
      hide Next, Enabled, Measure, Located, Open;
      InvNext(hash, states[k - 1], events[k - 1]);
      MeasureDecreases(hash, states[k - 1], events[k - 1]);
    }
    if states[k].reply.None? {
      var ev := Progress(hash, states[k]);
    }
  }

  /** A verdict that was reached is missing from the metrics exactly when the
      handler had given up on it. */
  lemma {:induction false} CountedUnlessAbandoned(hash: string -> nat, states: seq<Call>, events: seq<Event>)
    requires Run(hash, states, events)
    ensures var c := states[|events|];
            c.place.Ended? && c.place.outcome.Verdict? && c.reply.Some? ==>
              (c.counted == [c.place.outcome] <==> c.reply.value.Completed?) &&
              (c.counted == [] <==> c.reply.value.ContextDone?)
  {
    EveryRun(hash, states, events);
  }

  /** Such a run, on any pool whose worker for the customer is idle: the
      transaction is processed, and never counted. */
  lemma AbandonedRun(hash: string -> nat, c: Call, verdict: Outcome) returns (states: seq<Call>, events: seq<Event>)
    requires Fresh(hash, c) && verdict.Verdict?
    requires c.pool.workers[Lane(hash, c)] == D.Worker([], None, false)
    ensures Run(hash, states, events)
    ensures var d := states[|events|];
            d.place == Ended(verdict) && d.reply == Some(ContextDone) && d.counted == []
  {
    var lane := Lane(hash, c);
    events := [Enqueue, Take(lane), Cancel, TakeContext, End(lane, verdict)];
    var s1 := Next(hash, c, Enqueue);
    assert s1.pool.workers[lane].queue == [Mine];
    var s2 := Next(hash, s1, Take(lane));
    var s3 := Next(hash, s2, Cancel);
    var s4 := Next(hash, s3, TakeContext);
    states := [c, s1, s2, s3, s4, Next(hash, s4, End(lane, verdict))];
  }
}
