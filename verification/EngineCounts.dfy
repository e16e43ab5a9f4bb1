/** The three channel counts a rule sees come from three reads with three clock
    readings (internal/engine/evaluator.go, buildEnv), between which other
    workers move: how the counts relate to the customer's window all the same. */
module EngineCounts {
  import opened Sequences
  import opened Domain
  import opened RuleEvaluation
  import opened ProgramCache
  import opened Processing
  import opened Steps
  import opened Locality
  import opened Engine
  import opened EngineRuns
  import opened EngineWindows
  import D = Dispatch
  import W = WindowStore

  /** The counts read so far are those of the window at the clocks of their own
      reads, which do not run backwards. */
  ghost predicate CountsSoFar(window: seq<W.Entry>, spec: WindowSpec, k: nat, at: Site -> Observation,
                              got: seq<nat>, latest: int) {
    && |got| <= 3
    && (forall i :: 0 <= i < |got| ==>
          && got[i] == W.CountOn(W.Kept(window, at(ReadSite(k, i)).now - Reach(spec)), CHANNELS[i])
          && at(ReadSite(k, i)).now <= latest)
    && (forall i, j :: 0 <= i < j < |got| ==> at(ReadSite(k, i)).now <= at(ReadSite(k, j)).now)
  }

  ghost predicate PcCounts(window: seq<W.Entry>, job: Job, pc: Pc, latest: int) {
    match pc
    case AtRead(e, got) =>
      e.Live() && e.Rule().window.Some? && CountsSoFar(window, e.Rule().window.value, e.k, job.at, got, latest)
    case AtLink(e, Some(Counts(pix, ted, card))) =>
      e.Live() && e.Rule().window.Some?
          && CountsSoFar(window, e.Rule().window.value, e.k, job.at, [pix, ted, card], latest)
    case _ => true
  }

  lemma {:induction false} AdvanceCounts(lib: Library, window: seq<W.Entry>, job: Job, e: State, latest: int)
    ensures PcCounts(window, job, Advance(lib, job.tx, e), latest)
    decreases |e.rules.rules| - e.k
  {
    hide Decide;
    if e.Live() && e.Skips() {
      AdvanceCounts(lib, window, job, e.Next(Skip), latest);
    }
  }

  lemma AfterCounts(lib: Library, window: seq<W.Entry>, job: Job, e: State, step: RuleStep, latest: int)
    requires e.Live()
    ensures PcCounts(window, job, After(lib, job.tx, e, step), latest)
  {
    if !step.Broken? {
      AdvanceCounts(lib, window, job, e.Next(step), latest);
    }
  }

  lemma ReadCounts(lib: Library, s: Stores, job: Job, e: State, got: seq<nat>, latest: int)
    requires AtRead(e, got).Ok() && PcCounts(WindowOf(s, job.tx.customerId), job, AtRead(e, got), latest)
    requires var o := job.at(ReadSite(e.k, |got|)); latest <= o.now <= o.later
    ensures var window, o := WindowOf(s, job.tx.customerId), job.at(ReadSite(e.k, |got|));
            var reading := ReadOnce(lib, e.Rule().window.value, job.tx, window, o, got);
            PcCounts(window, job, AfterRead(lib, job.tx, e, reading), o.later)
  {
    hide W.Kept, W.CountOn, W.MaxKm, W.Devices, Reach, After;
    AfterCounts(lib, WindowOf(s, job.tx.customerId), job, e, Degrade, job.at(ReadSite(e.k, |got|)).later);
  }

  /** A step of the call's own. */
  lemma ActCounts(lib: Library, programs: Programs, s: Stores, job: Job, pc: Pc, latest: int)
    requires pc.Ok() && !pc.Ended? && PcCounts(WindowOf(s, job.tx.customerId), job, pc, latest)
    requires latest <= job.at(pc.Site()).now <= job.at(pc.Site()).later
    ensures var r := Act(lib, programs, s, job, pc);
            PcCounts(WindowOf(r.stores, job.tx.customerId), job, r.pc, job.at(pc.Site()).later)
  {
    hide After, Advance, AfterRead, ReadOnce, WindowOf, CountsSoFar;
    var o, window := job.at(pc.Site()), WindowOf(s, job.tx.customerId);
    match pc {
      case AtRisk(up, rules) => AdvanceCounts(lib, window, job, Begin(up, rules, RiskFor(o, rules)), o.later);
      case AtRead(e, got) => ReadCounts(lib, s, job, e, got, latest);
      case AtLink(e, seen) =>
        if ProgramKey(e.Rule()) in programs {
          AfterCounts(lib, window, job, e, RunProgram(lib, programs[ProgramKey(e.Rule())], e.Env(job.tx, seen)),
              o.later);
        }
      case AtStore(e, seen, p) => AfterCounts(lib, window, job, e, RunProgram(lib, p, e.Env(job.tx, seen)), o.later);
      case _ =>
    }
  }

  // ---- in every reachable state ----

  ghost predicate CountsAt(g: Engine, w: nat)
    requires w < |g.pcs| == |g.pool.workers| == |g.latest|
  {
    g.pool.workers[w].current.Some? ==>
      PcCounts(WindowOf(g.stores, JobAt(g, w).tx.customerId), JobAt(g, w), g.pcs[w], g.latest[w])
  }

  ghost predicate CountsInv(g: Engine)
    requires |g.pcs| == |g.pool.workers| == |g.latest|
  {
    forall w :: 0 <= w < |g.pcs| ==> CountsAt(g, w)
  }

  lemma CountsOwn(lib: Library, customers: set<string>, g: Engine, w: nat)
    requires Structured(lib, customers, g) && Ready(lib, customers, g, Work(w)) && CountsAt(g, w)
    requires Structured(lib, customers, Worked(lib, g, w))
    ensures CountsAt(Worked(lib, g, w), w)
  {
    ActCounts(lib, g.programs, g.stores, JobAt(g, w), g.pcs[w], g.latest[w]);
    hide Act, D.Inv, PcOwn, PcCounts, WindowOf;
    var h := Worked(lib, g, w);
    StartCounts(WindowOf(h.stores, JobAt(g, w).tx.customerId), JobAt(g, w), h.latest[w]);
  }

  lemma StartCounts(window: seq<W.Entry>, job: Job, latest: int)
    ensures PcCounts(window, job, Start, latest)
  {
  }

  lemma OtherWindow(lib: Library, programs: Programs, s: Stores, job: Job, pc: Pc, c: string)
    requires pc.Ok() && !pc.Ended? && c != job.tx.customerId
    ensures WindowOf(Act(lib, programs, s, job, pc).stores, c) == WindowOf(s, c)
  {
    hide After, Advance, AfterRead, ReadOnce;
  }

  lemma OtherWorker(lib: Library, g: Engine, w: nat, v: nat)
    requires Busy(g, w) && v != w && v < |g.pcs| == |g.pool.workers| == |g.latest|
    ensures var h := Worked(lib, g, w);
            && |h.pcs| == |h.pool.workers| == |h.latest| == |g.pcs|
            && h.pcs[v] == g.pcs[v] && h.latest[v] == g.latest[v] && h.pool.workers[v] == g.pool.workers[v]
            && h.stores == Act(lib, g.programs, g.stores, JobAt(g, w), g.pcs[w]).stores
  {
    hide Act;
  }

  lemma CountsOther(lib: Library, customers: set<string>, g: Engine, w: nat, v: nat)
    requires Structured(lib, customers, g) && Ready(lib, customers, g, Work(w))
    requires v < |g.pcs| && v != w && CountsAt(g, v)
    requires Structured(lib, customers, Worked(lib, g, w))
    ensures CountsAt(Worked(lib, g, w), v)
  {
    hide Act, Worked, D.Inv, PcOwn, PcCounts, WindowOf, Consistent;
    OtherWorker(lib, g, w, v);
    if g.pool.workers[v].current.Some? {
      InFlightLane(lib, customers, g, w);
      InFlightLane(lib, customers, g, v);
      OtherWindow(lib, g.programs, g.stores, JobAt(g, w), g.pcs[w], JobAt(g, v).tx.customerId);
    }
  }

  lemma CountsNext(lib: Library, customers: set<string>, g: Engine, ev: Label)
    requires Structured(lib, customers, g) && Ready(lib, customers, g, ev) && CountsInv(g)
    ensures Structured(lib, customers, Next(lib, customers, g, ev)) && CountsInv(Next(lib, customers, g, ev))
  {
    StructuredNext(lib, customers, g, ev);
    var h := Next(lib, customers, g, ev);
    forall v | 0 <= v < |h.pcs| ensures CountsAt(h, v) {
      hide Act, D.Inv, PcOwn, WindowOf, CountsSoFar;
      assert CountsAt(g, v);
      if ev.Work? {
        if v == ev.w {
          CountsOwn(lib, customers, g, v);
        } else {
          CountsOther(lib, customers, g, ev.w, v);
        }
      }
    }
  }

  lemma {:induction false} AlwaysCounts(lib: Library, customers: set<string>, n: int, bundle: Bundle, clock: int,
                             states: seq<Engine>, labels: seq<Label>)
    requires Execution(lib, customers, n, bundle, clock, states, labels)
    ensures Structured(lib, customers, states[|labels|]) && CountsInv(states[|labels|])
    decreases |labels|
  {
    AlwaysStructured(lib, customers, n, bundle, clock, states, labels);
    if labels != [] {
      ExecutionPrefix(lib, customers, n, bundle, clock, states, labels);
      AlwaysCounts(lib, customers, n, bundle, clock, states[..|labels|], labels[..|labels| - 1]);
      CountsNext(lib, customers, states[|labels| - 1], labels[|labels| - 1]);
    }
  }

  /** When a call has read its three counts, at whatever moments, they add up to
      no fewer than the entries in span at the last read and no more than those
      in span at the first; to exactly those when the clock stood still. */
  lemma ReadCountsAddUp(lib: Library, customers: set<string>, n: int, bundle: Bundle, clock: int,
                        states: seq<Engine>, labels: seq<Label>, g: Engine, w: nat)
    requires Execution(lib, customers, n, bundle, clock, states, labels) && g == states[|labels|]
    requires w < |g.pool.workers| && w < |g.pcs| && g.pool.workers[w].current.Some?
    requires g.pcs[w].AtLink? && g.pcs[w].window.Some? && g.pcs[w].window.value.Counts?
    requires g.pcs[w].e.Live() && g.pcs[w].e.Rule().window.Some?
    ensures var job, e, counts := JobAt(g, w), g.pcs[w].e, g.pcs[w].window.value;
            var window, span := WindowOf(g.stores, job.tx.customerId), Reach(e.Rule().window.value);
            var first, last := job.at(ReadSite(e.k, 0)).now, job.at(ReadSite(e.k, 2)).now;
            var sum := counts.pix + counts.ted + counts.card;
            && first <= last
            && |W.Kept(window, last - span)| <= sum <= |W.Kept(window, first - span)|
            && (first == last ==> sum == |W.Kept(window, last - span)|)
  {
    hide Structured, Execution, W.CountOn, W.Kept, Reach, WindowOf, CountsSoFar;
    AlwaysCounts(lib, customers, n, bundle, clock, states, labels);
    assert CountsAt(g, w);
    var job, e, counts := JobAt(g, w), g.pcs[w].e, g.pcs[w].window.value;
    WindowsHoldKnownChannels(lib, customers, n, bundle, clock, states, labels, g, job.tx.customerId);
    SoFarAddsUp(WindowOf(g.stores, job.tx.customerId), e.Rule().window.value, e.k, job.at,
                counts.pix, counts.ted, counts.card, g.latest[w]);
  }

  lemma SoFarAddsUp(window: seq<W.Entry>, spec: WindowSpec, k: nat, at: Site -> Observation,
                    pix: nat, ted: nat, card: nat, latest: int)
    requires CountsSoFar(window, spec, k, at, [pix, ted, card], latest)
    requires forall e :: e in window ==> e.tx.channel.Valid()
    ensures var first, last, span := at(ReadSite(k, 0)).now, at(ReadSite(k, 2)).now, Reach(spec);
            && first <= last
            && |W.Kept(window, last - span)| <= pix + ted + card <= |W.Kept(window, first - span)|
  {
    hide W.CountOn, W.Kept, Reach;
    var got := [pix, ted, card];
    assert got[0] == pix && got[1] == ted && got[2] == card;
    W.CountsBetween(window, at(ReadSite(k, 0)).now - Reach(spec), at(ReadSite(k, 1)).now - Reach(spec),
                    at(ReadSite(k, 2)).now - Reach(spec));
  }
}
