/** In every state the engine reaches, each window is the customer's own history
    cut by the TTL, so what a query sees is known exactly. */
module EngineWindows {
  import opened Sequences
  import opened Domain
  import opened RuleEvaluation
  import opened ProgramCache
  import opened Processing
  import opened Steps
  import opened Locality
  import opened Engine
  import opened EngineRuns
  import D = Dispatch
  import W = WindowStore

  /** The customer's window against the customer's log, whose evictions began by
      one time and whose stamps were made by another. */
  ghost predicate WindowMatchesLog(s: Stores, c: string, clock: int, latest: int) {
    && WindowOf(s, c) == W.Replay(LogOf(s, c), WINDOW_TTL)
    && W.Monotone(LogOf(s, c))
    && (forall r :: r in LogOf(s, c) ==>
          r.evictAt <= clock && r.stampAt <= latest && r.tx.customerId == c && Validate(r.tx).None?)
  }

  /** Past its first step a job's transaction has been validated. */
  ghost predicate PastValidation(g: Engine)
    requires |g.pcs| == |g.pool.workers|
  {
    forall w :: 0 <= w < |g.pcs| && g.pool.workers[w].current.Some? && !g.pcs[w].Start?
      ==> Validate(JobAt(g, w).tx).None?
  }

  /** The latest reading of the worker that c's jobs go to. */
  function LatestFor(lib: Library, g: Engine, c: string): int
    requires 0 < |g.pool.workers| == |g.latest|
  {
    g.latest[Lane(lib, c, |g.pool.workers|)]
  }

  ghost predicate WindowInv(lib: Library, g: Engine)
    requires 0 < |g.pool.workers| == |g.latest| && |g.pcs| == |g.pool.workers|
  {
    PastValidation(g) && forall c :: WindowMatchesLog(g.stores, c, g.clock, LatestFor(lib, g, c))
  }

  /** Only Record touches windows and logs. */
  lemma ActWindows(lib: Library, programs: Programs, s: Stores, job: Job, pc: Pc)
    requires pc.Ok() && !pc.Ended?
    ensures var t := Act(lib, programs, s, job, pc).stores;
            || (t.windows == s.windows && t.log == s.log)
            || (pc.AtRecord? && t == WithRecord(s, job.tx, job.at(RecordSite)))
    ensures pc.Start? && !Act(lib, programs, s, job, pc).pc.Ended? ==> Validate(job.tx).None?
  {
    hide After, Advance, AfterRead, ReadOnce;
  }

  lemma RecordMatchesLog(s: Stores, tx: Transaction, o: Observation, clock: int, latest: int)
    requires WindowMatchesLog(s, tx.customerId, clock, latest) && Validate(tx).None?
    requires clock <= o.now <= o.later && latest <= o.now
    ensures WindowMatchesLog(WithRecord(s, tx, o), tx.customerId, o.now, o.later)
  {
    var log := LogOf(s, tx.customerId);
    var r := W.Recording(tx, o.now, o.later);
    assert (log + [r])[..|log|] == log;
  }

  lemma LaterClock(s: Stores, t: Stores, c: string, clock: int, latest: int, clock': int, latest': int)
    requires WindowMatchesLog(s, c, clock, latest) && clock <= clock' && latest <= latest'
    requires WindowOf(t, c) == WindowOf(s, c) && LogOf(t, c) == LogOf(s, c)
    ensures WindowMatchesLog(t, c, clock', latest')
  {
  }

  lemma WindowWorkFor(lib: Library, customers: set<string>, g: Engine, w: nat, c: string)
    requires Structured(lib, customers, g) && Ready(lib, customers, g, Work(w)) && WindowInv(lib, g)
    requires Structured(lib, customers, Worked(lib, g, w))
    ensures WindowMatchesLog(Worked(lib, g, w).stores, c, Worked(lib, g, w).clock, LatestFor(lib, Worked(lib, g, w), c))
  {
    var j, h := JobAt(g, w), Worked(lib, g, w);
    var o := j.at(g.pcs[w].Site());
    InFlightLane(lib, customers, g, w);
    ActWindows(lib, g.programs, g.stores, j, g.pcs[w]);
    assert h.stores == Act(lib, g.programs, g.stores, j, g.pcs[w]).stores && h.clock == o.now;
    assert LatestFor(lib, h, c) == if Lane(lib, c, |g.pool.workers|) == w then o.later else LatestFor(lib, g, c);
    assert WindowMatchesLog(g.stores, c, g.clock, LatestFor(lib, g, c));
    hide Act, Worked, D.Inv, PcOwn, WindowMatchesLog, Structured, WindowInv;
    if c == j.tx.customerId && h.stores == WithRecord(g.stores, j.tx, o) {
      RecordMatchesLog(g.stores, j.tx, o, g.clock, LatestFor(lib, g, c));
    } else {
      LaterClock(g.stores, h.stores, c, g.clock, LatestFor(lib, g, c), h.clock, LatestFor(lib, h, c));
    }
  }

  lemma PastValidationWork(lib: Library, customers: set<string>, g: Engine, w: nat)
    requires Structured(lib, customers, g) && Ready(lib, customers, g, Work(w)) && PastValidation(g)
    requires Structured(lib, customers, Worked(lib, g, w))
    ensures PastValidation(Worked(lib, g, w))
  {
    ActWindows(lib, g.programs, g.stores, JobAt(g, w), g.pcs[w]);
    hide Act, D.Inv, PcOwn;
  }

  lemma WindowNext(lib: Library, customers: set<string>, g: Engine, ev: Label)
    requires Structured(lib, customers, g) && Ready(lib, customers, g, ev) && WindowInv(lib, g)
    ensures Structured(lib, customers, Next(lib, customers, g, ev))
    ensures WindowInv(lib, Next(lib, customers, g, ev))
  {
    hide Act, D.Inv, WindowMatchesLog;
    StructuredNext(lib, customers, g, ev);
    if ev.Work? {
      PastValidationWork(lib, customers, g, ev.w);
      forall c ensures WindowMatchesLog(Worked(lib, g, ev.w).stores, c, Worked(lib, g, ev.w).clock,
                                        LatestFor(lib, Worked(lib, g, ev.w), c)) {
        WindowWorkFor(lib, customers, g, ev.w, c);
      }
    } else {
      var h := Next(lib, customers, g, ev);
      assert h.stores == g.stores && h.clock == g.clock && h.latest == g.latest;
      forall c ensures WindowMatchesLog(h.stores, c, h.clock, LatestFor(lib, h, c)) {
        assert WindowMatchesLog(g.stores, c, g.clock, LatestFor(lib, g, c));
      }
    }
  }

  lemma {:induction false} AlwaysWindows(lib: Library, customers: set<string>, n: int, bundle: Bundle, clock: int,
                              states: seq<Engine>, labels: seq<Label>)
    requires Execution(lib, customers, n, bundle, clock, states, labels)
    ensures Structured(lib, customers, states[|labels|]) && WindowInv(lib, states[|labels|])
    decreases |labels|
  {
    AlwaysStructured(lib, customers, n, bundle, clock, states, labels);
    if labels != [] {
      ExecutionPrefix(lib, customers, n, bundle, clock, states, labels);
      AlwaysWindows(lib, customers, n, bundle, clock, states[..|labels|], labels[..|labels| - 1]);
      WindowNext(lib, customers, states[|labels| - 1], labels[|labels| - 1]);
    }
  }

  /** What a query at a given time, over a given span, sees of a log's history. */
  ghost predicate SeesCutHistory(s: Stores, c: string, span: int, at: int)
    requires LogOf(s, c) != []
  {
    var log := LogOf(s, c);
    var ttl := 600 * 1_000_000_000;
    var cut := log[|log| - 1].evictAt - ttl;
    && W.Kept(WindowOf(s, c), at - span) == W.Kept(W.History(log), W.Max(cut, at - span))
    && (span <= ttl ==> W.Kept(WindowOf(s, c), at - span) == W.Kept(W.History(log), at - span))
    && (W.Kept(WindowOf(s, c), at - span) == W.Kept(W.History(log), at - span) <==>
          forall e :: e in W.History(log) ==> !(at - span < e.recordedAt <= cut))
  }

  lemma MatchingSeesCut(s: Stores, c: string, clock: int, latest: int, span: int, at: int)
    requires WindowMatchesLog(s, c, clock, latest) && LogOf(s, c) != [] && at >= clock
    ensures SeesCutHistory(s, c, span, at)
  {
    hide W.Replay, W.History, W.Kept, W.Monotone;
    var log := LogOf(s, c);
    var last := log[|log| - 1];
    assert last in log && last.evictAt <= clock;
    W.QueryRange(log, WINDOW_TTL, span, at);
    W.QueryExact(log, WINDOW_TTL, span, at);
    if span <= WINDOW_TTL {
      W.SpanWithinTtl(log, WINDOW_TTL, span, at);
    }
  }

  /** In every reachable state a query ranges over exactly the history entries
      recorded after both the last eviction's cutoff and its own. */
  lemma QueriesSeeCutHistory(lib: Library, customers: set<string>, n: int, bundle: Bundle, clock: int,
                             states: seq<Engine>, labels: seq<Label>, g: Engine, c: string, span: int, at: int)
    requires Execution(lib, customers, n, bundle, clock, states, labels) && g == states[|labels|]
    requires LogOf(g.stores, c) != [] && at >= g.clock
    ensures SeesCutHistory(g.stores, c, span, at)
  {
    hide SeesCutHistory, LogOf;
    AlwaysWindows(lib, customers, n, bundle, clock, states, labels);
    hide WindowMatchesLog;
    assert WindowMatchesLog(g.stores, c, g.clock, LatestFor(lib, g, c));
    MatchingSeesCut(g.stores, c, g.clock, LatestFor(lib, g, c), span, at);
  }

  /** In every reachable state every window is sorted, none of its entries is
      stamped later than the last reading of its customer's worker, and any
      cutoff, an eviction's or a query's, takes a prefix off it. */
  lemma EvictionsDropPrefixes(lib: Library, customers: set<string>, n: int, bundle: Bundle, clock: int,
                              states: seq<Engine>, labels: seq<Label>, g: Engine, c: string, cutoff: int)
    requires Execution(lib, customers, n, bundle, clock, states, labels) && g == states[|labels|]
    ensures 0 < |g.pool.workers| == |g.latest|
    ensures W.Sorted(WindowOf(g.stores, c))
    ensures forall e :: e in WindowOf(g.stores, c) ==> e.recordedAt <= LatestFor(lib, g, c)
    ensures W.SuffixOf(W.Kept(WindowOf(g.stores, c), cutoff), WindowOf(g.stores, c))
  {
    AlwaysWindows(lib, customers, n, bundle, clock, states, labels);
    assert WindowMatchesLog(g.stores, c, g.clock, LatestFor(lib, g, c));
    W.WindowEvictsPrefix(LogOf(g.stores, c), WINDOW_TTL, cutoff);
    forall e | e in WindowOf(g.stores, c) ensures e.recordedAt <= LatestFor(lib, g, c) {
      ReplayMember(LogOf(g.stores, c), e);
    }
  }

  /** In every reachable state, over any span, the three channel counts add up
      to the entries in span, which are never fewer than the distinct devices. */
  lemma ChannelCountsAddUp(lib: Library, customers: set<string>, n: int, bundle: Bundle, clock: int,
                           states: seq<Engine>, labels: seq<Label>, g: Engine, c: string, cutoff: int)
    requires Execution(lib, customers, n, bundle, clock, states, labels) && g == states[|labels|]
    ensures var inSpan := W.Kept(WindowOf(g.stores, c), cutoff);
            && W.CountOn(inSpan, Pix) + W.CountOn(inSpan, Ted) + W.CountOn(inSpan, Card) == |inSpan|
            && |W.Devices(inSpan)| <= |inSpan|
  {
    WindowsHoldKnownChannels(lib, customers, n, bundle, clock, states, labels, g, c);
    W.KeptValid(WindowOf(g.stores, c), cutoff);
    W.ChannelsPartition(W.Kept(WindowOf(g.stores, c), cutoff));
  }

  lemma WindowsHoldKnownChannels(lib: Library, customers: set<string>, n: int, bundle: Bundle, clock: int,
                                 states: seq<Engine>, labels: seq<Label>, g: Engine, c: string)
    requires Execution(lib, customers, n, bundle, clock, states, labels) && g == states[|labels|]
    ensures forall e :: e in WindowOf(g.stores, c) ==> e.tx.channel.Valid()
  {
    AlwaysWindows(lib, customers, n, bundle, clock, states, labels);
    assert WindowMatchesLog(g.stores, c, g.clock, LatestFor(lib, g, c));
    forall e | e in WindowOf(g.stores, c) ensures e.tx.channel.Valid() {
      ReplayMember(LogOf(g.stores, c), e);
    }
  }

  lemma {:induction false} ReplayMember(log: seq<W.Recording>, e: W.Entry)
    requires e in W.Replay(log, WINDOW_TTL)
    ensures exists r :: r in log && r.tx == e.tx && r.stampAt == e.recordedAt
  {
    var k := |log| - 1;
    var init, last := log[..k], log[k];
    assert last in log;
    if e != W.Entry(last.tx, last.stampAt) {
      FilterMember(W.Replay(init, WINDOW_TTL), W.After(last.evictAt - WINDOW_TTL), e);
      ReplayMember(init, e);
      var r :| r in init && r.tx == e.tx && r.stampAt == e.recordedAt;
      assert r in log;
    }
  }
}
