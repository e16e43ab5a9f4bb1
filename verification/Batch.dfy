/** One batch request against the pool (internal/adapters/httpapi/handlers.go,
    postTransactionBatch): the submitting loop, the closures the workers run,
    and the WaitGroup between them, interleaved in any order. */
module Batch {
  import opened Sequences
  import D = Dispatch

  /** A queued closure: item number index of this batch, or some other request's job. */
  datatype Task = Item(index: nat, customerId: string) | Other(customerId: string)

  /** How Process ends inside the closure. */
  datatype Result = Counted(duplicate: bool, partial: bool, alert: bool) | Errored | Panics

  datatype Batch = Batch(
    customers: seq<string>,     // of the transactions, in array order
    pool: D.PoolState<Task>,
    tallied: seq<bool>,         // per worker: the job in flight has updated the totals
    next: nat,                  // the loop variable
    adding: bool,               // between wg.Add and the end of Submit
    cancelled: bool,            // the request's context is done
    wg: int,
    total: nat, alerts: nat, dups: nat, partials: nat, latencies: nat,
    dropped: nat, errors: nat, panics: nat,
    done: seq<nat>,             // the items wg.Done was called for, in order
    results: seq<Result>,       // how this batch's closures ended, in order of their bookkeeping
    returned: bool)

  /** Foreign is another request's Submit; the rest is this batch and the workers. */
  datatype Event =
    | Cancel | Foreign(customerId: string)
    | Add | Enqueue | Drop | Return
    | Take(w: nat) | Tally(w: nat, r: Result) | Done(w: nat)

  function RouteBy(hash: string -> nat, n: nat): Task -> nat
    requires n > 0
  {
    (t: Task) => D.WorkerIndex(hash(t.customerId), n)
  }

  predicate Shaped(b: Batch) {
    && |b.pool.workers| > 0 && |b.tallied| == |b.pool.workers|
    && b.next <= |b.customers| && (b.adding ==> b.next < |b.customers|)
  }

  function Current(b: Batch): Task
    requires b.next < |b.customers|
  {
    Item(b.next, b.customers[b.next])
  }

  predicate Enabled(hash: string -> nat, b: Batch, ev: Event) {
    && Shaped(b) && !b.returned
    && var route := RouteBy(hash, |b.pool.workers|);
       match ev
       case Cancel => !b.cancelled
       case Foreign(c) => D.Enabled(b.pool, D.Submit(Other(c)), route)
       case Add => !b.adding && b.next < |b.customers|
       case Enqueue => b.adding && D.Enabled(b.pool, D.Submit(Current(b)), route)
       case Drop => b.adding && b.cancelled
       case Take(w) => D.Enabled(b.pool, D.Take(w), route)
       case Tally(w, _) => D.Enabled(b.pool, D.Finish(w), route) && !b.tallied[w]
       case Done(w) => D.Enabled(b.pool, D.Finish(w), route) && b.tallied[w]
       case Return => b.next == |b.customers| && !b.adding && b.wg == 0
  }

  /** The totals after one closure's bookkeeping; other requests keep their own. */
  function Tallied(b: Batch, t: Task, r: Result): Batch {
    if t.Other? then b
    else
      var d := b.(results := b.results + [r]);
      match r
      case Errored => d.(errors := b.errors + 1)
      case Panics => d.(panics := b.panics + 1)
      case Counted(duplicate, partial, alert) =>
        var c := d.(total := b.total + 1, latencies := b.latencies + 1);
        if duplicate then c.(dups := c.dups + 1)
        else c.(partials := c.partials + (if partial then 1 else 0), alerts := c.alerts + (if alert then 1 else 0))
  }

  function Next(hash: string -> nat, b: Batch, ev: Event): Batch
    requires Enabled(hash, b, ev)
  {
    var route := RouteBy(hash, |b.pool.workers|);
    match ev
    case Cancel => b.(cancelled := true)
    case Foreign(c) => b.(pool := D.Next(b.pool, D.Submit(Other(c)), route))
    case Add => b.(adding := true, wg := b.wg + 1)
    case Enqueue => b.(pool := D.Next(b.pool, D.Submit(Current(b)), route), adding := false, next := b.next + 1)
    case Drop =>
      b.(adding := false, next := b.next + 1, wg := b.wg - 1, dropped := b.dropped + 1, done := b.done + [b.next])
    case Take(w) => b.(pool := D.Next(b.pool, D.Take(w), route), tallied := b.tallied[w := false])
    case Tally(w, r) => Tallied(b, b.pool.workers[w].current.value, r).(tallied := b.tallied[w := true])
    case Done(w) =>
      var t := b.pool.workers[w].current.value;
      var c := b.(pool := D.Next(b.pool, D.Finish(w), route), tallied := b.tallied[w := false]);
      if t.Item? then c.(wg := b.wg - 1, done := b.done + [t.index]) else c
    case Return => b.(returned := true)
  }

  // ---- adding up over the workers ----

  function IsItem(): Task -> bool {
    (t: Task) => t.Item?
  }

  function IsIndex(k: nat): Task -> bool {
    (t: Task) => t.Item? && t.index == k
  }

  /** The closures at one worker that have not called Done and satisfy p. */
  function OpenAt(w: D.Worker<Task>, p: Task -> bool): nat {
    |Filter(w.queue, p)| + (if w.current.Some? && p(w.current.value) then 1 else 0)
  }

  function OpenOver(ws: seq<D.Worker<Task>>, p: Task -> bool): nat {
    if ws == [] then 0 else OpenOver(ws[..|ws| - 1], p) + OpenAt(ws[|ws| - 1], p)
  }

  /** One when the closure in flight is this batch's and has updated the totals. */
  function TalliedAt(w: D.Worker<Task>, tallied: bool): nat {
    if tallied && w.current.Some? && w.current.value.Item? then 1 else 0
  }

  function TalliedOver(ws: seq<D.Worker<Task>>, ts: seq<bool>): nat
    requires |ws| == |ts|
  {
    if ws == [] then 0 else TalliedOver(ws[..|ws| - 1], ts[..|ws| - 1]) + TalliedAt(ws[|ws| - 1], ts[|ws| - 1])
  }

  /** Steps the worker still has to make. */
  function WorkAt(w: D.Worker<Task>, tallied: bool): nat {
    3 * |w.queue| + (if w.current.None? then 0 else if tallied then 1 else 2)
  }

  function WorkOver(ws: seq<D.Worker<Task>>, ts: seq<bool>): nat
    requires |ws| == |ts|
  {
    if ws == [] then 0 else WorkOver(ws[..|ws| - 1], ts[..|ws| - 1]) + WorkAt(ws[|ws| - 1], ts[|ws| - 1])
  }

  /** Changing one worker changes the sums by the change at that worker. */
  lemma {:induction false} OpenUpdate(ws: seq<D.Worker<Task>>, i: nat, w: D.Worker<Task>, p: Task -> bool)
    requires i < |ws|
    ensures OpenOver(ws[i := w], p) + OpenAt(ws[i], p) == OpenOver(ws, p) + OpenAt(w, p)
  {
    hide OpenAt;
    var k := |ws| - 1;
    if i == k {
      assert ws[i := w][..k] == ws[..k];
    } else {
      assert ws[i := w][..k] == ws[..k][i := w];
      OpenUpdate(ws[..k], i, w, p);
    }
  }

  lemma {:induction false} SumsUpdate(ws: seq<D.Worker<Task>>, ts: seq<bool>, i: nat, w: D.Worker<Task>, t: bool)
    requires i < |ws| == |ts|
    ensures TalliedOver(ws[i := w], ts[i := t]) + TalliedAt(ws[i], ts[i]) == TalliedOver(ws, ts) + TalliedAt(w, t)
    ensures WorkOver(ws[i := w], ts[i := t]) + WorkAt(ws[i], ts[i]) == WorkOver(ws, ts) + WorkAt(w, t)
  {
    hide TalliedAt, WorkAt;
    var k := |ws| - 1;
    if i == k {
      assert ws[i := w][..k] == ws[..k] && ts[i := t][..k] == ts[..k];
    } else {
      assert ws[i := w][..k] == ws[..k][i := w] && ts[i := t][..k] == ts[..k][i := t];
      SumsUpdate(ws[..k], ts[..k], i, w, t);
    }
  }

  lemma {:induction false} TalliedAreOpen(ws: seq<D.Worker<Task>>, ts: seq<bool>)
    requires |ws| == |ts|
    ensures TalliedOver(ws, ts) <= OpenOver(ws, IsItem())
  {
    if ws != [] {
      TalliedAreOpen(ws[..|ws| - 1], ts[..|ws| - 1]);
    }
  }

  lemma {:induction false} IndexedAreItems(ws: seq<D.Worker<Task>>, k: nat)
    ensures OpenOver(ws, IsIndex(k)) <= OpenOver(ws, IsItem())
  {
    if ws != [] {
      IndexedAreItems(ws[..|ws| - 1], k);
      FewerIndexed(ws[|ws| - 1].queue, k);
    }
  }

  lemma {:induction false} FewerIndexed(ts: seq<Task>, k: nat)
    ensures |Filter(ts, IsIndex(k))| <= |Filter(ts, IsItem())|
  {
    if ts != [] {
      FewerIndexed(ts[..|ts| - 1], k);
    }
  }

  lemma {:induction false} OpenSomewhere(ws: seq<D.Worker<Task>>) returns (i: nat)
    requires OpenOver(ws, IsItem()) > 0
    ensures i < |ws| && (ws[i].current.Some? || ws[i].queue != [])
  {
    var k := |ws| - 1;
    if ws[k].current.Some? || ws[k].queue != [] {
      i := k;
    } else {
      i := OpenSomewhere(ws[..k]);
    }
  }

  // ---- the invariant ----

  /** The closures of this batch, or of its item k, still to call Done. */
  function Open(b: Batch): nat { OpenOver(b.pool.workers, IsItem()) }

  function OpenItem(b: Batch, k: nat): nat { OpenOver(b.pool.workers, IsIndex(k)) }

  function TalliedNow(b: Batch): nat
    requires Shaped(b)
  {
    TalliedOver(b.pool.workers, b.tallied)
  }

  function WorkLeft(b: Batch): nat
    requires Shaped(b)
  {
    WorkOver(b.pool.workers, b.tallied)
  }

  /** Item k is open or done, once, as soon as the loop has passed it. */
  ghost predicate OnceItem(b: Batch, k: nat) {
    OpenItem(b, k) + multiset(b.done)[k] == (if k < b.next then 1 else 0)
  }

  ghost predicate Once(b: Batch) {
    forall k: nat :: OnceItem(b, k)
  }

  /** The WaitGroup counts the open closures and the one being added, and the
      totals count what was tallied. */
  predicate Balanced(b: Batch)
    requires Shaped(b)
  {
    && b.wg == Open(b) + (if b.adding then 1 else 0)
    && b.next == Open(b) + |b.done|
    && b.total + b.errors + b.panics + b.dropped == TalliedNow(b) + |b.done|
  }

  function IsCounted(): Result -> bool { (r: Result) => r.Counted? }

  function IsErrored(): Result -> bool { (r: Result) => r.Errored? }

  function IsPanic(): Result -> bool { (r: Result) => r.Panics? }

  function IsDuplicate(): Result -> bool { (r: Result) => r.Counted? && r.duplicate }

  function IsPartial(): Result -> bool { (r: Result) => r.Counted? && !r.duplicate && r.partial }

  function IsAlert(): Result -> bool { (r: Result) => r.Counted? && !r.duplicate && r.alert }

  function CountOf(b: Batch, p: Result -> bool): nat { |Filter(b.results, p)| }

  /** Each total counts the closures that ended its way. */
  predicate Totalled(b: Batch) {
    && b.total == b.latencies == CountOf(b, IsCounted())
    && b.errors == CountOf(b, IsErrored())
    && b.panics == CountOf(b, IsPanic())
    && b.dups == CountOf(b, IsDuplicate())
    && b.partials == CountOf(b, IsPartial())
    && b.alerts == CountOf(b, IsAlert())
  }

  predicate Lively(b: Batch)
    requires Shaped(b)
  {
    && !b.pool.closed
    && (forall w :: 0 <= w < |b.pool.workers| ==> |b.pool.workers[w].queue| <= 64)
    && (forall w :: 0 <= w < |b.pool.workers| && b.pool.workers[w].current.None? ==> !b.tallied[w])
  }

  ghost predicate Inv(b: Batch) {
    && Shaped(b) && Balanced(b) && Totalled(b) && Once(b) && Lively(b)
    && (b.returned ==> b.next == |b.customers| && !b.adding && b.wg == 0)
  }

  /** A batch that has not begun, on a pool that may be busy with other requests. */
  predicate Fresh(b: Batch) {
    && Shaped(b) && Lively(b) && Open(b) == 0
    && b == Batch(b.customers, b.pool, b.tallied, 0, false, false, 0, 0, 0, 0, 0, 0, 0, 0, 0, [], [], false)
  }

  lemma InvFresh(b: Batch)
    requires Fresh(b)
    ensures Inv(b)
  {
    TalliedAreOpen(b.pool.workers, b.tallied);
    forall k: nat ensures OnceItem(b, k) {
      IndexedAreItems(b.pool.workers, k);
    }
  }

  // ---- what each event does to the sums ----

  /** The task an event submits. */
  function Submitted(b: Batch, ev: Event): Task
    requires ev.Foreign? || (ev.Enqueue? && b.next < |b.customers|)
  {
    if ev.Foreign? then Other(ev.customerId) else Current(b)
  }

  lemma SubmitOpens(hash: string -> nat, b: Batch, ev: Event, p: Task -> bool)
    requires Enabled(hash, b, ev) && (ev.Enqueue? || ev.Foreign?)
    ensures OpenOver(Next(hash, b, ev).pool.workers, p)
         == OpenOver(b.pool.workers, p) + (if p(Submitted(b, ev)) then 1 else 0)
  {
    var ws, t := b.pool.workers, Submitted(b, ev);
    var i := RouteBy(hash, |ws|)(t);
    FilterAppend(ws[i].queue, t, p);
    OpenUpdate(ws, i, ws[i].(queue := ws[i].queue + [t]), p);
  }

  lemma SubmitSums(hash: string -> nat, b: Batch, ev: Event)
    requires Enabled(hash, b, ev) && (ev.Enqueue? || ev.Foreign?)
    ensures var c := Next(hash, b, ev);
            Shaped(c) && TalliedNow(c) == TalliedNow(b) && WorkLeft(c) == WorkLeft(b) + 3
  {
    var ws, ts, t := b.pool.workers, b.tallied, Submitted(b, ev);
    var i := RouteBy(hash, |ws|)(t);
    SumsUpdate(ws, ts, i, ws[i].(queue := ws[i].queue + [t]), ts[i]);
    assert ts[i := ts[i]] == ts;
  }

  lemma TakeOpens(hash: string -> nat, b: Batch, i: nat, p: Task -> bool)
    requires Enabled(hash, b, Take(i))
    ensures OpenOver(Next(hash, b, Take(i)).pool.workers, p) == OpenOver(b.pool.workers, p)
  {
    var ws, q := b.pool.workers, b.pool.workers[i].queue;
    assert q == [q[0]] + q[1..];
    FilterConcat([q[0]], q[1..], p);
    OpenUpdate(ws, i, ws[i].(queue := q[1..], current := Some(q[0])), p);
  }

  lemma TakeSums(hash: string -> nat, b: Batch, i: nat)
    requires Enabled(hash, b, Take(i)) && Lively(b)
    ensures var c := Next(hash, b, Take(i));
            Shaped(c) && TalliedNow(c) == TalliedNow(b) && WorkLeft(c) + 1 == WorkLeft(b)
  {
    var ws, q := b.pool.workers, b.pool.workers[i].queue;
    SumsUpdate(ws, b.tallied, i, ws[i].(queue := q[1..], current := Some(q[0])), false);
  }

  lemma TallySums(hash: string -> nat, b: Batch, i: nat, r: Result)
    requires Enabled(hash, b, Tally(i, r))
    ensures var c, t := Next(hash, b, Tally(i, r)), b.pool.workers[i].current.value;
            && Shaped(c) && c.pool == b.pool && WorkLeft(c) + 1 == WorkLeft(b)
            && TalliedNow(c) == TalliedNow(b) + (if t.Item? then 1 else 0)
  {
    SumsUpdate(b.pool.workers, b.tallied, i, b.pool.workers[i], true);
    assert b.pool.workers[i := b.pool.workers[i]] == b.pool.workers;
  }

  lemma DoneOpens(hash: string -> nat, b: Batch, i: nat, p: Task -> bool)
    requires Enabled(hash, b, Done(i))
    ensures OpenOver(Next(hash, b, Done(i)).pool.workers, p) + (if p(b.pool.workers[i].current.value) then 1 else 0)
         == OpenOver(b.pool.workers, p)
  {
    OpenUpdate(b.pool.workers, i, b.pool.workers[i].(current := None), p);
  }

  lemma DoneSums(hash: string -> nat, b: Batch, i: nat)
    requires Enabled(hash, b, Done(i))
    ensures var c, t := Next(hash, b, Done(i)), b.pool.workers[i].current.value;
            && Shaped(c) && WorkLeft(c) + 1 == WorkLeft(b)
            && TalliedNow(c) + (if t.Item? then 1 else 0) == TalliedNow(b)
  {
    SumsUpdate(b.pool.workers, b.tallied, i, b.pool.workers[i].(current := None), false);
  }

  lemma BalancedLoop(hash: string -> nat, b: Batch, ev: Event)
    requires Shaped(b) && Balanced(b) && Enabled(hash, b, ev) && !ev.Take? && !ev.Tally? && !ev.Done?
    ensures Shaped(Next(hash, b, ev)) && Balanced(Next(hash, b, ev))
  {
    hide OpenOver, TalliedOver, WorkOver;
    if ev.Enqueue? || ev.Foreign? {
      SubmitOpens(hash, b, ev, IsItem());
      SubmitSums(hash, b, ev);
    }
  }

  lemma BalancedTake(hash: string -> nat, b: Batch, w: nat)
    requires Shaped(b) && Balanced(b) && Lively(b) && Enabled(hash, b, Take(w))
    ensures Shaped(Next(hash, b, Take(w))) && Balanced(Next(hash, b, Take(w)))
  {
    hide OpenOver, TalliedOver, WorkOver, Lively;
    TakeOpens(hash, b, w, IsItem());
    TakeSums(hash, b, w);
  }

  lemma BalancedTally(hash: string -> nat, b: Batch, w: nat, r: Result)
    requires Shaped(b) && Balanced(b) && Enabled(hash, b, Tally(w, r))
    ensures Shaped(Next(hash, b, Tally(w, r))) && Balanced(Next(hash, b, Tally(w, r)))
  {
    hide OpenOver, TalliedOver, WorkOver;
    TallySums(hash, b, w, r);
  }

  lemma BalancedDone(hash: string -> nat, b: Batch, w: nat)
    requires Shaped(b) && Balanced(b) && Enabled(hash, b, Done(w))
    ensures Shaped(Next(hash, b, Done(w))) && Balanced(Next(hash, b, Done(w)))
  {
    hide OpenOver, TalliedOver, WorkOver;
    DoneOpens(hash, b, w, IsItem());
    DoneSums(hash, b, w);
  }

  lemma BalancedNext(hash: string -> nat, b: Batch, ev: Event)
    requires Shaped(b) && Balanced(b) && Lively(b) && Enabled(hash, b, ev)
    ensures Shaped(Next(hash, b, ev)) && Balanced(Next(hash, b, ev))
  {
    hide Balanced, Lively, Next, Enabled;
    match ev {
      case Take(w) => BalancedTake(hash, b, w);
      case Tally(w, r) => BalancedTally(hash, b, w, r);
      case Done(w) => BalancedDone(hash, b, w);
      case _ => BalancedLoop(hash, b, ev);
    }
  }

  lemma OnceItemNext(hash: string -> nat, b: Batch, ev: Event, k: nat)
    requires OnceItem(b, k) && Enabled(hash, b, ev)
    ensures OnceItem(Next(hash, b, ev), k)
  {
    hide OpenOver, D.Next, Tallied;
    match ev {
      case Enqueue => SubmitOpens(hash, b, ev, IsIndex(k));
      case Foreign(_) => SubmitOpens(hash, b, ev, IsIndex(k));
      case Take(w) => TakeOpens(hash, b, w, IsIndex(k));
      case Done(w) => OnceItemDone(hash, b, w, k);
      case Drop => CountAppend(b.done, b.next, k);
      case Tally(w, r) => TalliedKeeps(b, b.pool.workers[w].current.value, r);
      case _ =>
    }
  }

  lemma TalliedKeeps(b: Batch, t: Task, r: Result)
    ensures var c := Tallied(b, t, r); c.pool == b.pool && c.done == b.done && c.next == b.next
  {
  }

  lemma OnceItemDone(hash: string -> nat, b: Batch, w: nat, k: nat)
    requires OnceItem(b, k) && Enabled(hash, b, Done(w))
    ensures OnceItem(Next(hash, b, Done(w)), k)
  {
    DoneOpens(hash, b, w, IsIndex(k));
    hide OpenOver, D.Next, D.Enabled;
    var t := b.pool.workers[w].current.value;
    if t.Item? {
      CountAppend(b.done, t.index, k);
    }
  }

  lemma CountAppend(done: seq<nat>, x: nat, k: nat)
    ensures multiset(done + [x])[k] == multiset(done)[k] + (if x == k then 1 else 0)
  {
  }

  lemma OnceNext(hash: string -> nat, b: Batch, ev: Event)
    requires Once(b) && Enabled(hash, b, ev)
    ensures Once(Next(hash, b, ev))
  {
    hide OnceItem, Next, Enabled;
    forall k: nat ensures OnceItem(Next(hash, b, ev), k) {
      OnceItemNext(hash, b, ev, k);
    }
  }

  lemma TotalledNext(hash: string -> nat, b: Batch, ev: Event)
    requires Totalled(b) && Enabled(hash, b, ev)
    ensures Totalled(Next(hash, b, ev))
  {
    hide D.Next, Tallied;
    if ev.Tally? {
      TotalledTally(b, b.pool.workers[ev.w].current.value, ev.r);
    }
  }

  lemma TotalledTally(b: Batch, t: Task, r: Result)
    requires Totalled(b)
    ensures Totalled(Tallied(b, t, r))
  {
    if t.Item? {
      hide Filter;
      FilterAppend(b.results, r, IsCounted());
      FilterAppend(b.results, r, IsErrored());
      FilterAppend(b.results, r, IsPanic());
      FilterAppend(b.results, r, IsDuplicate());
      FilterAppend(b.results, r, IsPartial());
      FilterAppend(b.results, r, IsAlert());
    }
  }

  /** Every event of every interleaving keeps the books. */
  lemma InvNext(hash: string -> nat, b: Batch, ev: Event)
    requires Inv(b) && Enabled(hash, b, ev)
    ensures Inv(Next(hash, b, ev))
  {
    hide Balanced, Once, Totalled;
    BalancedNext(hash, b, ev);
    TotalledNext(hash, b, ev);
    OnceNext(hash, b, ev);
    if ev.Return? {
      assert Next(hash, b, ev).wg == 0;
    }
  }

  /** When Wait returns, Done has been called exactly once for each item, every
      item is in exactly one of four totals: counted, failed, panicked, dropped. */
  lemma Accounting(b: Batch)
    requires Inv(b) && b.returned
    ensures forall k: nat :: multiset(b.done)[k] == (if k < |b.customers| then 1 else 0)
    ensures |b.customers| == b.total + b.errors + b.dropped + b.panics && Totalled(b)
  {
    TalliedAreOpen(b.pool.workers, b.tallied);
    forall k: nat ensures multiset(b.done)[k] == (if k < |b.customers| then 1 else 0) {
      IndexedAreItems(b.pool.workers, k);
      assert OnceItem(b, k);
    }
  }

  // ---- progress ----

  /** A worker with a job, or with something queued, can always move. */
  lemma WorkerMoves(hash: string -> nat, b: Batch, w: nat) returns (ev: Event)
    requires Inv(b) && !b.returned && w < |b.pool.workers|
    requires b.pool.workers[w].current.Some? || b.pool.workers[w].queue != []
    ensures Enabled(hash, b, ev) && !ev.Cancel? && !ev.Foreign?
  {
    if b.pool.workers[w].current.None? {
      ev := Take(w);
    } else if b.tallied[w] {
      ev := Done(w);
    } else {
      ev := Tally(w, Errored);
    }
  }

  /** Before Wait returns some participant can move, without any cancellation or other request:
      a full queue always has a worker that can. */
  lemma Progress(hash: string -> nat, b: Batch) returns (ev: Event)
    requires Inv(b) && !b.returned
    ensures Enabled(hash, b, ev) && !ev.Cancel? && !ev.Foreign?
  {
    if b.adding {
      var w := RouteBy(hash, |b.pool.workers|)(Current(b));
      if |b.pool.workers[w].queue| < D.QUEUE_CAPACITY {
        ev := Enqueue;
      } else {
        ev := WorkerMoves(hash, b, w);
      }
    } else if b.next < |b.customers| {
      ev := Add;
    } else if b.wg == 0 {
      ev := Return;
    } else {
      var w := OpenSomewhere(b.pool.workers);
      ev := WorkerMoves(hash, b, w);
    }
  }

  /** Steps left, at most. */
  function Measure(b: Batch): nat
    requires Shaped(b)
  {
    5 * (|b.customers| - b.next) + (if b.adding then 0 else 1) + WorkLeft(b)
      + (if b.returned then 0 else 1) + (if b.cancelled then 0 else 1)
  }

  /** Every event of the batch itself uses up measure; a job of another request adds three. */
  lemma MeasureDecreases(hash: string -> nat, b: Batch, ev: Event)
    requires Inv(b) && Enabled(hash, b, ev)
    ensures Shaped(Next(hash, b, ev))
    ensures if ev.Foreign? then Measure(Next(hash, b, ev)) == Measure(b) + 3
            else Measure(Next(hash, b, ev)) < Measure(b)
  {
    hide Inv, WorkOver, TalliedOver, OpenOver;
    match ev {
      case Enqueue => SubmitSums(hash, b, ev);
      case Foreign(_) => SubmitSums(hash, b, ev);
      case Take(w) =>
        assert Lively(b) by { LivelyInv(b); }
        TakeSums(hash, b, w);
      case Tally(w, r) => TallySums(hash, b, w, r);
      case Done(w) => DoneSums(hash, b, w);
      case _ =>
    }
  }

  lemma LivelyInv(b: Batch)
    requires Inv(b)
    ensures Lively(b)
  {
  }

  // ---- runs ----

  ghost predicate Run(hash: string -> nat, states: seq<Batch>, events: seq<Event>) {
    && |states| == |events| + 1
    && Fresh(states[0])
    && (forall i :: 0 <= i < |events| ==>
          Enabled(hash, states[i], events[i]) && states[i + 1] == Next(hash, states[i], events[i]))
  }

  function IsForeign(): Event -> bool { (ev: Event) => ev.Foreign? }

  /** Each item done once and in exactly one of the totals, and each total
      exactly the number of items that ended its way. */
  ghost predicate Settled(b: Batch) {
    && (forall k: nat :: multiset(b.done)[k] == (if k < |b.customers| then 1 else 0))
    && |b.customers| == b.total + b.errors + b.dropped + b.panics
    && Totalled(b)
  }

  /** Over every interleaving: the books stay balanced; the run is no longer
      than the measure of its first state and four more steps for each job of
      another request; the last state can go on unless Wait has returned; and
      then all items are accounted for. */
  lemma {:induction false} EveryRun(hash: string -> nat, states: seq<Batch>, events: seq<Event>)
    requires Run(hash, states, events)
    ensures Inv(states[|events|]) && Shaped(states[0])
    ensures |events| + Measure(states[|events|]) <= Measure(states[0]) + 4 * |Filter(events, IsForeign())|
    ensures !states[|events|].returned ==>
        exists ev :: Enabled(hash, states[|events|], ev) && !ev.Cancel? && !ev.Foreign?
    ensures states[|events|].returned ==> Settled(states[|events|])
    decreases |events|
  {
    var k := |events|;
    if k == 0 {
      InvFresh(states[0]);
    } else {
      EveryRun(hash, states[..k], events[..k - 1]);
      assert Enabled(hash, states[k - 1], events[k - 1]);
      InvNext(hash, states[k - 1], events[k - 1]);
      MeasureDecreases(hash, states[k - 1], events[k - 1]);
    }
    if states[k].returned {
      Accounting(states[k]);
    } else {
      var ev := Progress(hash, states[k]);
    }
  }
}
