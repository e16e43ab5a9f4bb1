/** The same Process call cut at every point where it takes or releases a lock:
    one step is one separately locked action and the local code after it. */
module Steps {
  import opened Sequences
  import opened Domain
  import opened RuleEvaluation
  import opened ProgramCache
  import opened Processing
  import opened I = IdempotencyStore

  /** Where a worker stands inside Process. */
  datatype Pc =
    | Start
    | AtRecord
    | AtConfig(up: bool)
    | AtRisk(up: bool, rules: RuleSet)
    | AtRead(e: State, got: seq<nat>)
    | AtLink(e: State, window: Option<WindowValue>)
    | AtStore(e: State, window: Option<WindowValue>, program: Program)
    | AtPublish(alert: Alert, partial: bool)
    | AtMark(raised: Option<Alert>, partial: bool)
    | Ended(outcome: Outcome)
  {
    predicate Ok() {
      match this
      case AtRead(e, got) => e.Live() && !e.Skips() && e.Reads() && e.Rule().window.Some? && |got| < 3
      case AtLink(e, _) => e.Live() && !e.Skips()
      case AtStore(e, _, _) => e.Live() && !e.Skips()
      case _ => true
    }

    /** The action the next step performs. */
    function Site(): Site
      requires Ok() && !Ended?
    {
      match this
      case Start => SeenSite
      case AtRecord => RecordSite
      case AtConfig(_) => ConfigSite
      case AtRisk(_, _) => RiskSite
      case AtRead(e, got) => ReadSite(e.k, |got|)
      case AtLink(e, _) => LinkSite(e.k)
      case AtStore(e, _, _) => StoreSite(e.k)
      case AtPublish(_, _) => PublishSite
      case AtMark(_, _) => MarkSite
    }
  }

  // ---- local code between actions ----

  function Decided(lib: Library, tx: Transaction, e: State): Pc {
    match Decide(lib, tx, e.rules, e.up, e.hits, e.degraded)
    case Quiet => AtMark(None, Partial(e.up, e.degraded))
    case Raise(alert) => AtPublish(alert, Partial(e.up, e.degraded))
    case Blowup => Ended(Panicked(ZeroDivision))
  }

  /** From the top of the loop over the rules to its next action. */
  function Advance(lib: Library, tx: Transaction, e: State): (pc: Pc)
    ensures pc.Ok()
    decreases |e.rules.rules| - e.k
  {
    if !e.Live() then Decided(lib, tx, e)
    else if e.Skips() then Advance(lib, tx, e.Next(Skip))
    else if !e.Reads() then AtLink(e, None)
    else if e.Rule().window.None? then Ended(Panicked(NilWindow))
    else AtRead(e, [])
  }

  function After(lib: Library, tx: Transaction, e: State, step: RuleStep): (pc: Pc)
    requires e.Live()
    ensures pc.Ok()
  {
    match step
    case Broken(outcome) => Ended(outcome)
    case _ => Advance(lib, tx, e.Next(step))
  }

  function AfterRead(lib: Library, tx: Transaction, e: State, reading: Reading): (pc: Pc)
    requires e.Live() && !e.Skips() && e.Reads() && e.Rule().window.Some?
    requires reading.More? ==> |reading.got| < 3
    ensures pc.Ok()
  {
    match reading
    case More(got) => AtRead(e, got)
    case Got(v) => AtLink(e, Some(v))
    case Down => After(lib, tx, e, Degrade)
    case Broke(outcome) => Ended(outcome)
  }

  // ---- one step ----

  datatype Acted = Acted(programs: Programs, stores: Stores, pc: Pc)

  function Act(lib: Library, programs: Programs, s: Stores, job: Job, pc: Pc): (r: Acted)
    requires pc.Ok() && !pc.Ended?
    ensures r.pc.Ok()
  {
    var tx, o := job.tx, job.at(pc.Site());
    match pc
    case Start =>
      var why := Validate(tx);
      if why.Some? then Acted(programs, s, Ended(Failed(Invalid(why.value))))
      else if o.panics then Acted(programs, s, Ended(Panicked(InAction)))
      else if o.fault then Acted(programs, s, Ended(Failed(SeenFailed)))
      else
        var seen := SeenAt(s.marks, KeyOf(tx), o.now);
        Acted(programs, WithSeen(s, tx, o), if seen then Ended(Verdict(true, None, false)) else AtRecord)
    case AtRecord =>
      if o.panics then Acted(programs, s, Ended(Panicked(InAction)))
      else if o.fault then Acted(programs, s, Ended(Failed(RecordFailed)))
      else if o.down then Acted(programs, s, AtConfig(false))
      else Acted(programs, WithRecord(s, tx, o), AtConfig(true))
    case AtConfig(up) =>
      Acted(programs, s, if o.panics then Ended(Panicked(InAction)) else AtRisk(up, o.rules))
    case AtRisk(up, rules) =>
      var next :=
        if o.panics then Ended(Panicked(InAction)) else Advance(lib, tx, Begin(up, rules, RiskFor(o, rules)));
      Acted(programs, s, next)
    case AtRead(e, got) =>
      var reading := ReadOnce(lib, e.Rule().window.value, tx, WindowOf(s, tx.customerId), o, got);
      Acted(programs, s, AfterRead(lib, tx, e, reading))
    case AtLink(e, window) =>
      if o.panics then Acted(programs, s, Ended(Panicked(InAction)))
      else if ProgramKey(e.Rule()) in programs then
        var p := programs[ProgramKey(e.Rule())];
        Acted(programs, s, After(lib, tx, e, RunProgram(lib, p, e.Env(tx, window))))
      else
        var compiled := lib.compile(e.Rule().condition);
        Acted(programs, s, if compiled.None? then Ended(Failed(CompileFailed)) else AtStore(e, window, compiled.value))
    case AtStore(e, window, p) =>
      Acted(programs[ProgramKey(e.Rule()) := p], s, After(lib, tx, e, RunProgram(lib, p, e.Env(tx, window))))
    case AtPublish(alert, partial) =>
      if o.panics then Acted(programs, s, Ended(Panicked(InAction)))
      else if o.fault then Acted(programs, s, Ended(Failed(PublishFailed)))
      else Acted(programs, WithAlert(s, alert), AtMark(Some(alert), partial))
    case AtMark(raised, partial) =>
      if o.panics then Acted(programs, s, Ended(Panicked(InAction)))
      else if o.fault then Acted(programs, s, Ended(Failed(MarkFailed)))
      else Acted(programs, WithMark(s, tx, o), Ended(Verdict(false, raised, partial)))
  }

  // ---- completing a run from the middle ----

  function FromStep(lib: Library, s: Stores, job: Job, e: State, step: RuleStep): End
    requires e.Live()
  {
    match step
    case Broken(outcome) => End(s, outcome)
    case _ => FromLoop(lib, s, job, e.Next(step))
  }

  /** How the call would end if nothing else ran any more. */
  function Finish(lib: Library, s: Stores, job: Job, pc: Pc): End
    requires pc.Ok()
  {
    match pc
    case Start => Process(lib, s, job)
    case AtRecord => FromRecord(lib, s, job)
    case AtConfig(up) => FromConfig(lib, s, job, up)
    case AtRisk(up, rules) => FromRisk(lib, s, job, up, rules)
    case AtRead(e, got) =>
      var reading := ReadAll(lib, e.Rule().window.value, e.k, job.tx, WindowOf(s, job.tx.customerId), job.at, got);
      FromStep(lib, s, job, e, AfterReading(lib, e, job.tx, reading, job.at(LinkSite(e.k))))
    case AtLink(e, window) =>
      FromStep(lib, s, job, e, Judge(lib, e.Rule(), e.Env(job.tx, window), job.at(LinkSite(e.k))))
    case AtStore(e, window, p) =>
      FromStep(lib, s, job, e, RunProgram(lib, p, e.Env(job.tx, window)))
    case AtPublish(alert, partial) => FromPublish(s, job, alert, partial)
    case AtMark(raised, partial) => FromMark(s, job, raised, partial)
    case Ended(outcome) => End(s, outcome)
  }

  lemma {:induction false} AdvanceFinishes(lib: Library, s: Stores, job: Job, e: State)
    ensures Finish(lib, s, job, Advance(lib, job.tx, e)) == FromLoop(lib, s, job, e)
    decreases |e.rules.rules| - e.k
  {
    hide ReadAll, Judge, Decide;
    if e.Live() && e.Skips() {
      AdvanceFinishes(lib, s, job, e.Next(Skip));
    }
  }

  lemma AfterFinishes(lib: Library, s: Stores, job: Job, e: State, step: RuleStep)
    requires e.Live()
    ensures Finish(lib, s, job, After(lib, job.tx, e, step)) == FromStep(lib, s, job, e, step)
  {
    if !step.Broken? {
      AdvanceFinishes(lib, s, job, e.Next(step));
    }
  }

  /** The rules a step may still consult obey the discipline comp. */
  ghost predicate PcDisciplined(lib: Library, pc: Pc, comp: string -> Option<Program>) {
    match pc
    case AtRisk(_, rules) => Disciplined(lib, rules.rules, comp)
    case AtRead(e, _) => Disciplined(lib, e.rules.rules, comp)
    case AtLink(e, _) => Disciplined(lib, e.rules.rules, comp)
    case AtStore(e, _, p) =>
      Disciplined(lib, e.rules.rules, comp) && e.Live() && lib.compile(e.Rule().condition) == Some(p)
    case _ => true
  }

  lemma {:induction false} AdvanceDisciplined(lib: Library, tx: Transaction, e: State, comp: string -> Option<Program>)
    requires Disciplined(lib, e.rules.rules, comp)
    ensures PcDisciplined(lib, Advance(lib, tx, e), comp)
    decreases |e.rules.rules| - e.k
  {
    if e.Live() && e.Skips() {
      AdvanceDisciplined(lib, tx, e.Next(Skip), comp);
    }
  }

  lemma AfterDisciplined(lib: Library, tx: Transaction, e: State, step: RuleStep, comp: string -> Option<Program>)
    requires e.Live() && Disciplined(lib, e.rules.rules, comp)
    ensures PcDisciplined(lib, After(lib, tx, e, step), comp)
  {
    if !step.Broken? {
      AdvanceDisciplined(lib, tx, e.Next(step), comp);
    }
  }

  /** The step that reads the configuration finds a disciplined rule set. */
  ghost predicate FindsDiscipline(lib: Library, job: Job, pc: Pc, comp: string -> Option<Program>) {
    pc.AtConfig? ==> Disciplined(lib, job.at(ConfigSite).rules.rules, comp)
  }

  lemma LinkDisciplined(lib: Library, programs: Programs, s: Stores, job: Job, pc: Pc, comp: string -> Option<Program>)
    requires pc.Ok() && pc.AtLink? && PcDisciplined(lib, pc, comp)
    ensures PcDisciplined(lib, Act(lib, programs, s, job, pc).pc, comp)
  {
    var e, key := pc.e, ProgramKey(pc.e.Rule());
    if key in programs {
      AfterDisciplined(lib, job.tx, e, RunProgram(lib, programs[key], e.Env(job.tx, pc.window)), comp);
    }
  }

  lemma StoreDisciplined(lib: Library, programs: Programs, s: Stores, job: Job, pc: Pc, comp: string -> Option<Program>)
    requires pc.Ok() && pc.AtStore? && Coherent(programs, comp) && PcDisciplined(lib, pc, comp)
    ensures Coherent(Act(lib, programs, s, job, pc).programs, comp)
    ensures PcDisciplined(lib, Act(lib, programs, s, job, pc).pc, comp)
  {
    CacheTransparent(lib, programs, comp, pc.e.rules.rules, pc.e.Rule());
    AfterDisciplined(lib, job.tx, pc.e, RunProgram(lib, pc.program, pc.e.Env(job.tx, pc.window)), comp);
  }

  lemma ActDisciplined(lib: Library, programs: Programs, s: Stores, job: Job, pc: Pc, comp: string -> Option<Program>)
    requires pc.Ok() && !pc.Ended?
    requires Coherent(programs, comp) && PcDisciplined(lib, pc, comp) && FindsDiscipline(lib, job, pc, comp)
    ensures Coherent(Act(lib, programs, s, job, pc).programs, comp)
    ensures PcDisciplined(lib, Act(lib, programs, s, job, pc).pc, comp)
  {
    hide After, Advance, Disciplined, Coherent, ReadOnce, WindowOf;
    match pc {
      case AtRisk(up, rules) =>
        AdvanceDisciplined(lib, job.tx, Begin(up, rules, RiskFor(job.at(RiskSite), rules)), comp);
      case AtRead(e, got) => AfterDisciplined(lib, job.tx, e, Degrade, comp);
      case AtLink(_, _) => LinkDisciplined(lib, programs, s, job, pc, comp);
      case AtStore(_, _, _) => StoreDisciplined(lib, programs, s, job, pc, comp);
      case _ =>
    }
  }

  lemma RiskFinishes(lib: Library, programs: Programs, s: Stores, job: Job, pc: Pc)
    requires pc.AtRisk?
    ensures var r := Act(lib, programs, s, job, pc);
            Finish(lib, r.stores, job, r.pc) == Finish(lib, s, job, pc)
  {
    hide Advance, Loop, FromLoop;
    AdvanceFinishes(lib, s, job, Begin(pc.up, pc.rules, RiskFor(job.at(RiskSite), pc.rules)));
  }

  lemma ReadFinishes(lib: Library, programs: Programs, s: Stores, job: Job, pc: Pc)
    requires pc.Ok() && pc.AtRead?
    ensures var r := Act(lib, programs, s, job, pc);
            Finish(lib, r.stores, job, r.pc) == Finish(lib, s, job, pc)
  {
    hide After, Advance, FromLoop;
    AfterFinishes(lib, s, job, pc.e, Degrade);
  }

  lemma LinkFinishes(lib: Library, programs: Programs, s: Stores, job: Job, pc: Pc, comp: string -> Option<Program>)
    requires pc.Ok() && pc.AtLink? && Coherent(programs, comp) && PcDisciplined(lib, pc, comp)
    ensures var r := Act(lib, programs, s, job, pc);
            Finish(lib, r.stores, job, r.pc) == Finish(lib, s, job, pc)
  {
    hide After, Advance, FromLoop, Coherent, Disciplined;
    var e := pc.e;
    CacheTransparent(lib, programs, comp, e.rules.rules, e.Rule());
    if ProgramKey(e.Rule()) in programs {
      AfterFinishes(lib, s, job, e, RunProgram(lib, programs[ProgramKey(e.Rule())], e.Env(job.tx, pc.window)));
    }
  }

  lemma CompiledFinishes(lib: Library, programs: Programs, s: Stores, job: Job, pc: Pc)
    requires pc.Ok() && pc.AtStore?
    ensures var r := Act(lib, programs, s, job, pc);
            Finish(lib, r.stores, job, r.pc) == Finish(lib, s, job, pc)
  {
    hide After, Advance, FromLoop;
    AfterFinishes(lib, s, job, pc.e, RunProgram(lib, pc.program, pc.e.Env(job.tx, pc.window)));
  }

  lemma StoreActFinishes(lib: Library, programs: Programs, s: Stores, job: Job, pc: Pc)
    requires pc.Ok() && !pc.Ended? && !pc.AtRisk? && !pc.AtRead? && !pc.AtLink? && !pc.AtStore?
    ensures var r := Act(lib, programs, s, job, pc);
            Finish(lib, r.stores, job, r.pc) == Finish(lib, s, job, pc)
  {
    hide After, Advance, FromLoop, FromRisk, WithSeen, WithRecord, WithMark, WithAlert;
  }

  /** No step changes how the call will end: small steps, with the cache, agree
      with the uninterrupted run, without it. */
  lemma ActFinishes(lib: Library, programs: Programs, s: Stores, job: Job, pc: Pc, comp: string -> Option<Program>)
    requires pc.Ok() && !pc.Ended?
    requires Coherent(programs, comp) && PcDisciplined(lib, pc, comp)
    ensures var r := Act(lib, programs, s, job, pc);
            Finish(lib, r.stores, job, r.pc) == Finish(lib, s, job, pc)
  {
    hide Act, Finish;
    match pc {
      case AtRisk(_, _) => RiskFinishes(lib, programs, s, job, pc);
      case AtRead(_, _) => ReadFinishes(lib, programs, s, job, pc);
      case AtLink(_, _) => LinkFinishes(lib, programs, s, job, pc, comp);
      case AtStore(_, _, _) => CompiledFinishes(lib, programs, s, job, pc);
      case _ => StoreActFinishes(lib, programs, s, job, pc);
    }
  }
}
