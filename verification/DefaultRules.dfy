/** The rules the engine ships with (internal/config/default_rules.json and
    default_profile.json): what each of them hits on, in terms of the
    transaction, the customer's limit and the window, and hence what alerts. */
module DefaultRules {
  import opened Sequences
  import opened Domain
  import opened RuleEvaluation
  import opened Config
  import opened Processing
  import opened Verdicts
  import opened Attempts
  import opened Conditions
  import opened AlertContents
  import W = WindowStore

  const VELOCIDADE_PIX := RuleDef(
    "velocidade-pix", 4, true, [EventLayer, WindowLayer], Some(WindowSpec(300, Count)),
    "channel == \"pix\" && window.count_channel_pix > 8", RuleEmits(Alta, "velocidade"))

  const VALOR_ATIPICO := RuleDef(
    "valor-atipico", 2, true, [EventLayer, CustomerRiskLayer], None,
    "amount > risk.limite_valor", RuleEmits(Media, "valor"))

  const VALOR_CRITICO := RuleDef(
    "valor-critico", 1, false, [EventLayer, CustomerRiskLayer], None,
    "amount > (risk.limite_valor * 5)", RuleEmits(Critica, "valor"))

  const GEOLOC_DISTANTE := RuleDef(
    "geoloc-distante", 1, true, [EventLayer, WindowLayer], Some(WindowSpec(3600, GeoDistance)),
    "window.max_distance_km > 100", RuleEmits(Alta, "geolocalizacao"))

  const DEVICE_MULTIPLO := RuleDef(
    "device-multiplo", 1, true, [EventLayer, WindowLayer], Some(WindowSpec(600, DeviceDiversity)),
    "window.distinct_devices > 1", RuleEmits(Alta, "dispositivo"))

  const DEFAULT_RULES := [VELOCIDADE_PIX, VALOR_ATIPICO, VALOR_CRITICO, GEOLOC_DISTANTE, DEVICE_MULTIPLO]

  const DEFAULT_PROFILE := OperationalProfile(5, RiskProfile(5000.0, "padrao"), 0.5)

  // ---- what the conditions mean ----

  /** The condition compiles, and wherever its variables are there it matches exactly what it says. */
  ghost predicate Means(lib: Library, condition: string, there: Env -> bool, says: Env -> bool) {
    && lib.compile(condition).Some?
    && forall env :: there(env) ==>
         lib.run(lib.compile(condition).value, env) == if says(env) then Matched else Unmatched
  }

  predicate HasCounts(env: Env) { env.window.Some? && env.window.value.Counts? }

  predicate HasDistance(env: Env) { env.window.Some? && env.window.value.MaxDistance? }

  predicate HasDevices(env: Env) { env.window.Some? && env.window.value.DistinctDevices? }

  predicate HasRisk(env: Env) { env.risk.Some? }

  predicate PixOverEight(env: Env) { HasCounts(env) && env.channel == Pix && env.window.value.pix > 8 }

  predicate OverLimit(env: Env) { HasRisk(env) && env.amount > env.risk.value.limiteValor }

  predicate OverHundredKm(env: Env) { HasDistance(env) && env.window.value.km > 100.0 }

  predicate OverOneDevice(env: Env) { HasDevices(env) && env.window.value.n > 1 }

  ghost predicate Interprets(lib: Library) {
    && Means(lib, VELOCIDADE_PIX.condition, HasCounts, PixOverEight)
    && Means(lib, VALOR_ATIPICO.condition, HasRisk, OverLimit)
    && lib.compile(VALOR_CRITICO.condition).Some?
    && Means(lib, GEOLOC_DISTANTE.condition, HasDistance, OverHundredKm)
    && Means(lib, DEVICE_MULTIPLO.condition, HasDevices, OverOneDevice)
  }

  /** The call finds the default bundle active. */
  predicate FindsDefaults(job: Job) {
    RulesFor(job).rules == DEFAULT_RULES && RulesFor(job).profile == DEFAULT_PROFILE
  }

  // ---- what the rules look for ----

  /** The customer's entries, this transaction's among them if it was recorded,
      that are younger than so many seconds when rule k first reads the window. */
  function Recent(s: Stores, job: Job, k: nat, seconds: int): seq<W.Entry> {
    W.Kept(WindowOf(Entered(s, job), job.tx.customerId), job.at(ReadSite(k, 0)).now - seconds * 1_000_000_000)
  }

  /** A pix transaction, and more than 8 of them within 300 s. */
  ghost predicate Burst(s: Stores, job: Job) {
    var w := Recent(s, job, 0, 300);
    job.tx.channel == Pix && |set i: nat | i < |w| && w[i].tx.channel == Pix| > 8
  }

  /** An amount above the customer's own limit, or above 5000 for a customer without a profile. */
  predicate Atypical(job: Job) {
    var stored := job.at(RiskSite).risk;
    job.tx.amount > if stored.Some? then stored.value.limiteValor else 5000.0
  }

  /** Another transaction within 3600 s, as far as the window goes back, was made more than 100 km away. */
  ghost predicate Far(lib: Library, s: Stores, job: Job) {
    exists e :: e in Recent(s, job, 3, 3600) && e.tx.transactionId != job.tx.transactionId
      && lib.distance(job.tx.geo, e.tx.geo) > 100.0
  }

  /** Two transactions within 600 s were made from different devices. */
  ghost predicate SeveralDevices(s: Stores, job: Job) {
    var w := Recent(s, job, 4, 600);
    exists i, j :: 0 <= i < j < |w| && w[i].tx.deviceId != "" && w[j].tx.deviceId != ""
      && w[i].tx.deviceId != w[j].tx.deviceId
  }

  // ---- what hits ----

  lemma DefaultsAreSafe(lib: Library, job: Job)
    requires Interprets(lib) && FindsDefaults(job)
    ensures SafeSet(lib, RulesFor(job))
  {
    hide Means;
    forall r | r in DEFAULT_RULES ensures ValidRule(lib, r) {
      DefaultIsValid(lib, r);
    }
  }

  lemma DefaultIsValid(lib: Library, r: RuleDef)
    requires Interprets(lib) && r in DEFAULT_RULES
    ensures ValidRule(lib, r)
  {
  }

  lemma RecentIsInSpan(s: Stores, job: Job, k: nat)
    requires FindsDefaults(job) && k < 5 && DEFAULT_RULES[k].window.Some?
    ensures k < |RulesFor(job).rules| && RulesFor(job).rules[k].window.Some?
    ensures InSpan(s, job, k, 0) == Recent(s, job, k, DEFAULT_RULES[k].window.value.spanSeconds)
  {
    SpanDoesNotWrap(DEFAULT_RULES[k].window.value);
    hide W.Kept, Entered;
  }

  /** A rule with the condition, run where its variables are there, matches when the condition says so. */
  lemma MeansMatch(lib: Library, condition: string, there: Env -> bool, says: Env -> bool, env: Env)
    requires Means(lib, condition, there, says) && there(env)
    ensures lib.compile(condition).Some?
    ensures lib.run(lib.compile(condition).value, env) == Matched <==> says(env)
  {
  }

  lemma DefaultAt(job: Job)
    requires FindsDefaults(job)
    ensures |RulesFor(job).rules| == 5
    ensures RulesFor(job).rules[0] == VELOCIDADE_PIX && RulesFor(job).rules[1] == VALOR_ATIPICO
    ensures RulesFor(job).rules[2] == VALOR_CRITICO && RulesFor(job).rules[3] == GEOLOC_DISTANTE
    ensures RulesFor(job).rules[4] == DEVICE_MULTIPLO
    ensures forall i, j :: 0 <= i < j < |RulesFor(job).rules| ==>
              RulesFor(job).rules[i].ruleId != RulesFor(job).rules[j].ruleId
    ensures Runs(job, 1) && !Runs(job, 2)
  {
  }

  lemma VelocidadeSees(lib: Library, s: Stores, job: Job) returns (env: Env)
    requires FindsDefaults(job) && EvaluationOf(lib, s, job).Completed?
    ensures |RulesFor(job).rules| == 5
    ensures Runs(job, 0) ==>
              env.channel == job.tx.channel && HasCounts(env)
              && env.window.value.pix == W.CountOn(Recent(s, job, 0, 300), Pix)
    ensures Runs(job, 0) ==> lib.compile(VELOCIDADE_PIX.condition).Some?
    ensures VELOCIDADE_PIX in EvaluationOf(lib, s, job).hits <==>
              Runs(job, 0) && lib.run(lib.compile(VELOCIDADE_PIX.condition).value, env) == Matched
  {
    DefaultAt(job);
    RecentIsInSpan(s, job, 0);
    hide *;
    env := HitsExactly(lib, s, job, 0);
  }

  lemma VelocidadeHits(lib: Library, s: Stores, job: Job)
    requires Interprets(lib) && FindsDefaults(job) && EvaluationOf(lib, s, job).Completed?
    ensures |RulesFor(job).rules| == 5
    ensures VELOCIDADE_PIX in EvaluationOf(lib, s, job).hits <==> Runs(job, 0) && Burst(s, job)
  {
    hide Means, EvaluationOf, RulesFor, Runs, Recent, FindsDefaults, W.CountOn;
    var env := VelocidadeSees(lib, s, job);
    if Runs(job, 0) {
      MeansMatch(lib, VELOCIDADE_PIX.condition, HasCounts, PixOverEight, env);
      W.CountOnPositions(Recent(s, job, 0, 300), Pix);
    }
  }

  lemma ValorHits(lib: Library, s: Stores, job: Job)
    requires Interprets(lib) && FindsDefaults(job) && EvaluationOf(lib, s, job).Completed?
    ensures VALOR_ATIPICO in EvaluationOf(lib, s, job).hits <==> Atypical(job)
  {
    DefaultAt(job);
    hide Means, EvaluationOf, Runs, Entered, W.Kept, W.CountOn, W.MaxKm, W.Devices, InSpan;
    var env := HitsExactly(lib, s, job, 1);
    MeansMatch(lib, VALOR_ATIPICO.condition, HasRisk, OverLimit, env);
  }

  lemma CriticoIsOff(lib: Library, s: Stores, job: Job)
    requires FindsDefaults(job) && EvaluationOf(lib, s, job).Completed?
    ensures VALOR_CRITICO !in EvaluationOf(lib, s, job).hits
  {
    DefaultAt(job);
    hide EvaluationOf, Runs, Entered, W.Kept, W.CountOn, W.MaxKm, W.Devices, InSpan;
    var env := HitsExactly(lib, s, job, 2);
  }

  lemma GeolocSees(lib: Library, s: Stores, job: Job) returns (env: Env)
    requires FindsDefaults(job) && EvaluationOf(lib, s, job).Completed?
    ensures |RulesFor(job).rules| == 5
    ensures Runs(job, 3) ==>
              HasDistance(env) && env.window.value.km == W.MaxKm(lib, Recent(s, job, 3, 3600), job.tx)
    ensures Runs(job, 3) ==> lib.compile(GEOLOC_DISTANTE.condition).Some?
    ensures GEOLOC_DISTANTE in EvaluationOf(lib, s, job).hits <==>
              Runs(job, 3) && lib.run(lib.compile(GEOLOC_DISTANTE.condition).value, env) == Matched
  {
    DefaultAt(job);
    RecentIsInSpan(s, job, 3);
    hide *;
    env := HitsExactly(lib, s, job, 3);
  }

  lemma GeolocHits(lib: Library, s: Stores, job: Job)
    requires Interprets(lib) && FindsDefaults(job) && EvaluationOf(lib, s, job).Completed?
    ensures |RulesFor(job).rules| == 5
    ensures GEOLOC_DISTANTE in EvaluationOf(lib, s, job).hits <==> Runs(job, 3) && Far(lib, s, job)
  {
    hide Means, EvaluationOf, RulesFor, Runs, Recent, FindsDefaults, W.MaxKm;
    var env := GeolocSees(lib, s, job);
    if Runs(job, 3) {
      MeansMatch(lib, GEOLOC_DISTANTE.condition, HasDistance, OverHundredKm, env);
      W.MaxKmIsMaximum(lib, Recent(s, job, 3, 3600), job.tx);
    }
  }

  lemma DeviceSees(lib: Library, s: Stores, job: Job) returns (env: Env)
    requires FindsDefaults(job) && EvaluationOf(lib, s, job).Completed?
    ensures |RulesFor(job).rules| == 5
    ensures Runs(job, 4) ==> HasDevices(env) && env.window.value.n == |W.Devices(Recent(s, job, 4, 600))|
    ensures Runs(job, 4) ==> lib.compile(DEVICE_MULTIPLO.condition).Some?
    ensures DEVICE_MULTIPLO in EvaluationOf(lib, s, job).hits <==>
              Runs(job, 4) && lib.run(lib.compile(DEVICE_MULTIPLO.condition).value, env) == Matched
  {
    DefaultAt(job);
    RecentIsInSpan(s, job, 4);
    hide *;
    env := HitsExactly(lib, s, job, 4);
  }

  lemma DeviceHits(lib: Library, s: Stores, job: Job)
    requires Interprets(lib) && FindsDefaults(job) && EvaluationOf(lib, s, job).Completed?
    ensures |RulesFor(job).rules| == 5
    ensures DEVICE_MULTIPLO in EvaluationOf(lib, s, job).hits <==> Runs(job, 4) && SeveralDevices(s, job)
  {
    hide Means, EvaluationOf, RulesFor, Runs, Recent, FindsDefaults, W.Devices;
    var env := DeviceSees(lib, s, job);
    if Runs(job, 4) {
      MeansMatch(lib, DEVICE_MULTIPLO.condition, HasDevices, OverOneDevice, env);
      W.SeveralDevices(Recent(s, job, 4, 600));
    }
  }

  /** Which of the default rules hit in a call whose evaluation completes, and that no others do. */
  lemma DefaultHits(lib: Library, s: Stores, job: Job)
    requires Interprets(lib) && FindsDefaults(job) && EvaluationOf(lib, s, job).Completed?
    ensures forall h :: h in EvaluationOf(lib, s, job).hits <==>
              || (h == VELOCIDADE_PIX && Runs(job, 0) && Burst(s, job))
              || (h == VALOR_ATIPICO && Atypical(job))
              || (h == GEOLOC_DISTANTE && Runs(job, 3) && Far(lib, s, job))
              || (h == DEVICE_MULTIPLO && Runs(job, 4) && SeveralDevices(s, job))
  {
    HitsOfTheSet(lib, s, job);
    hide EvaluationOf, Runs, Burst, Atypical, Far, SeveralDevices;
    VelocidadeHits(lib, s, job);
    ValorHits(lib, s, job);
    CriticoIsOff(lib, s, job);
    GeolocHits(lib, s, job);
    DeviceHits(lib, s, job);
    hide Interprets;
  }

  ghost predicate InCategory(hits: seq<RuleDef>, c: string) {
    exists h :: h in hits && h.emits.category == c
  }

  /** What default rules that hit come to. */
  lemma DefaultsAlarm(hits: seq<RuleDef>, v: bool, a: bool, g: bool, d: bool)
    requires forall h :: h in hits <==>
               || (h == VELOCIDADE_PIX && v) || (h == VALOR_ATIPICO && a)
               || (h == GEOLOC_DISTANTE && g) || (h == DEVICE_MULTIPLO && d)
    ensures Alarming(hits) <==> v || a || g || d
    ensures forall severity :: WorstOf(severity, hits) ==> severity == if v || g || d then Alta else Media
    ensures forall c :: InCategory(hits, c) <==>
              || (c == "velocidade" && v) || (c == "valor" && a)
              || (c == "geolocalizacao" && g) || (c == "dispositivo" && d)
  {
    assert VELOCIDADE_PIX in hits <==> v;
    assert VALOR_ATIPICO in hits <==> a;
    assert GEOLOC_DISTANTE in hits <==> g;
    assert DEVICE_MULTIPLO in hits <==> d;
    if hits != [] {
      assert hits[0] in hits;
    }
  }

  /** Some rule hits that reads the window. */
  ghost predicate WindowAlarm(lib: Library, s: Stores, job: Job)
    requires FindsDefaults(job)
  {
    || (Runs(job, 0) && Burst(s, job))
    || (Runs(job, 3) && Far(lib, s, job))
    || (Runs(job, 4) && SeveralDevices(s, job))
  }

  /** With the default bundle, a fresh verdict carries an alert exactly if one
      of the four enabled rules hits, each as far as outages let it read the
      window. The alert is alta if a window rule hits and media otherwise, and
      its categories are those of the rules that hit. */
  lemma DefaultBundleAlerts(lib: Library, s: Stores, job: Job)
    requires Interprets(lib) && FindsDefaults(job) && Process(lib, s, job).outcome.Fresh()
    ensures var alert := Process(lib, s, job).outcome.alert;
            && (alert.Some? <==> Atypical(job) || WindowAlarm(lib, s, job))
            && (alert.Some? ==>
                  && alert.value.severity == (if WindowAlarm(lib, s, job) then Alta else Media)
                  && forall c :: c in alert.value.categories <==>
                       || (c == "velocidade" && Runs(job, 0) && Burst(s, job))
                       || (c == "valor" && Atypical(job))
                       || (c == "geolocalizacao" && Runs(job, 3) && Far(lib, s, job))
                       || (c == "dispositivo" && Runs(job, 4) && SeveralDevices(s, job)))
  {
    hide Process, EvaluationOf, Runs, Burst, Atypical, Far, SeveralDevices, Interprets, SafeSet;
    DefaultsAreSafe(lib, job);
    DefaultThresholdVerdict(lib, s, job);
    VerdictExactly(lib, s, job);
    DefaultHits(lib, s, job);
    hide Means, Identifies, Alarming, WorstOf;
    DefaultsAlarm(EvaluationOf(lib, s, job).hits, Runs(job, 0) && Burst(s, job), Atypical(job),
                  Runs(job, 3) && Far(lib, s, job), Runs(job, 4) && SeveralDevices(s, job));
  }

  // ---- that there are such calls ----

  /** The library with programs that do what the default conditions say. */
  function Interpreting(lib: Library): Library {
    lib.(compile := (c: string) => Some(Program(CodeOf(c))), run := RunCode)
  }

  function CodeOf(condition: string): int {
    if condition == VELOCIDADE_PIX.condition then 1
    else if condition == VALOR_ATIPICO.condition then 2
    else if condition == GEOLOC_DISTANTE.condition then 3
    else if condition == DEVICE_MULTIPLO.condition then 4
    else 0
  }

  function RunCode(p: Program, env: Env): RunResult {
    var matched :=
      if p.code == 1 then PixOverEight(env)
      else if p.code == 2 then OverLimit(env)
      else if p.code == 3 then OverHundredKm(env)
      else p.code == 4 && OverOneDevice(env);
    if matched then Matched else Unmatched
  }

  /** The four conditions are told apart by their lengths. */
  lemma CodesDiffer()
    ensures CodeOf(VELOCIDADE_PIX.condition) == 1 && CodeOf(VALOR_ATIPICO.condition) == 2
    ensures CodeOf(GEOLOC_DISTANTE.condition) == 3 && CodeOf(DEVICE_MULTIPLO.condition) == 4
  {
    assert |VELOCIDADE_PIX.condition| == 48 && |VALOR_ATIPICO.condition| == 26;
    assert |GEOLOC_DISTANTE.condition| == 28 && |DEVICE_MULTIPLO.condition| == 27;
  }

  lemma CanInterpret(lib: Library)
    ensures Interprets(Interpreting(lib))
  {
    CodesDiffer();
    hide CodeOf;
  }

  /** With that library, every call that finds the default bundle and that
      nothing goes wrong in reaches a fresh verdict. */
  lemma CalmDefaultsSucceed(lib: Library, s: Stores, job: Job)
    requires Calm(job) && FindsDefaults(job) && Proceeds(s, job)
    ensures Interprets(Interpreting(lib)) && Process(Interpreting(lib), s, job).outcome.Fresh()
  {
    CanInterpret(lib);
    var m := Interpreting(lib);
    DefaultsAreSafe(m, job);
    assert NoRunError(m, RulesFor(job).rules);
    hide *;
    CalmSucceeds(m, s, job);
  }
}
