/** Entities of the detection engine: transactions, rules, bundles, alerts,
    and the library code the engine calls but this model leaves abstract. */
module Domain {
  import opened Sequences

  // ---- severities (internal/domain/severity.go) ----

  /** Unset is the empty string, Other any string outside the rank table. */
  datatype Severity = Unset | Baixa | Media | Alta | Critica | Other(name: string)
  {
    predicate Valid() { Baixa? || Media? || Alta? || Critica? }

    function Rank(): nat {
      match this
      case Baixa => 1
      case Media => 2
      case Alta => 3
      case Critica => 4
      case _ => 0
    }
  }

  function MaxSeverity(a: Severity, b: Severity): Severity {
    if a.Rank() >= b.Rank() then a else b
  }

  // ---- transactions (internal/domain/transaction.go) ----

  datatype Channel = Pix | Ted | Card | OtherChannel(name: string)
  {
    predicate Valid() { !OtherChannel? }
  }

  datatype Geo = Geo(country: string, lat: real, lon: real)

  /** Whole seconds since 1970-01-01T00:00:00Z, rounded down, and the rest in nanoseconds. */
  datatype Instant = Instant(sec: int, nsec: nat)

  /** 0001-01-01T00:00:00Z, the zero value of a time. */
  const ZERO_INSTANT := Instant(-62_135_596_800, 0)

  datatype Transaction = Transaction(
    customerId: string, transactionId: string, amount: real, currency: string,
    channel: Channel, deviceId: string, geo: Geo, capturedAt: Instant)

  datatype InvalidTransaction =
    NoCustomer | NoTransaction | BadAmount | NoCurrency | BadChannel | NoCapturedAt

  /** The demand that the error names is one the transaction does not meet. */
  predicate Unmet(t: Transaction, why: InvalidTransaction) {
    match why
    case NoCustomer => t.customerId == ""
    case NoTransaction => t.transactionId == ""
    case BadAmount => t.amount <= 0.0
    case NoCurrency => t.currency == ""
    case BadChannel => t.channel.OtherChannel?
    case NoCapturedAt => t.capturedAt == ZERO_INSTANT
  }

  function Validate(t: Transaction): (r: Option<InvalidTransaction>)
    ensures r.None? <==> t.customerId != "" && t.transactionId != "" && t.amount > 0.0 && t.currency != ""
                         && t.channel in {Pix, Ted, Card} && t.capturedAt != Instant(-62_135_596_800, 0)
    ensures r.Some? ==> Unmet(t, r.value)
  {
    if t.customerId == "" then Some(NoCustomer)
    else if t.transactionId == "" then Some(NoTransaction)
    else if t.amount <= 0.0 then Some(BadAmount)
    else if t.currency == "" then Some(NoCurrency)
    else if !t.channel.Valid() then Some(BadChannel)
    else if t.capturedAt == ZERO_INSTANT then Some(NoCapturedAt)
    else None
  }

  function KeyOf(t: Transaction): string {
    Join(t.customerId, ':', t.transactionId)
  }

  /** The idempotency keys of two customers' transactions are never mistaken for each other. */
  predicate KeysApart(c: string, d: string) {
    Separate(c, d, ':')
  }

  /** Between such customers the key identifies customer and transaction. */
  lemma KeyInjective(a: Transaction, b: Transaction)
    requires a.customerId == b.customerId || KeysApart(a.customerId, b.customerId)
    ensures KeyOf(a) == KeyOf(b) <==> a.customerId == b.customerId && a.transactionId == b.transactionId
  {
    if KeyOf(a) == KeyOf(b) {
      if a.customerId == b.customerId {
        JoinSameHead(a.customerId, a.transactionId, b.transactionId, ':');
      } else if |a.customerId| <= |b.customerId| {
        CollisionForcesPrefix(a.customerId, a.transactionId, b.customerId, b.transactionId, ':');
      } else {
        CollisionForcesPrefix(b.customerId, b.transactionId, a.customerId, a.transactionId, ':');
      }
    }
  }

  /** A customer id with a colon can share keys: customer a with transaction
      b:c, and customer a:b with transaction c. */
  lemma ColonCollides(a: Transaction, b: Transaction)
    requires a.customerId == "a" && a.transactionId == "b:c"
    requires b.customerId == "a:b" && b.transactionId == "c"
    ensures KeyOf(a) == KeyOf(b) == "a:b:c" && !KeysApart(a.customerId, b.customerId)
  {
  }

  // ---- rules (internal/domain/rule.go) ----

  datatype WindowType = Count | GeoDistance | DeviceDiversity | OtherType(name: string)

  datatype WindowSpec = WindowSpec(spanSeconds: int, kind: WindowType)

  datatype Layer = EventLayer | WindowLayer | CustomerRiskLayer | OtherLayer(name: string)

  datatype RuleEmits = RuleEmits(severity: Severity, category: string)

  datatype RuleDef = RuleDef(
    ruleId: string, version: int, enabled: bool, requires_: seq<Layer>,
    window: Option<WindowSpec>, condition: string, emits: RuleEmits)
  {
    predicate RequiresLayer(layer: Layer) { layer in requires_ }
  }

  datatype RuleRef = RuleRef(ruleId: string, version: int)

  datatype RiskProfile = RiskProfile(limiteValor: real, nivel: string)

  datatype OperationalProfile = OperationalProfile(
    version: int, defaultCustomerRisk: RiskProfile, scoreMinimoAlerta: real)

  datatype Bundle = Bundle(rules: seq<RuleDef>, profile: OperationalProfile)

  datatype RuleSet = RuleSet(version: int, rules: seq<RuleDef>, profile: OperationalProfile)

  // ---- verdicts and alerts ----

  datatype Alert = Alert(
    alertId: string, customerId: string, transactionId: string, severity: Severity,
    categories: set<string>, score: real, triggered: seq<RuleRef>, partial: bool)

  datatype Fault =
    | Invalid(why: InvalidTransaction)
    | SeenFailed | RecordFailed | ReadFailed | CompileFailed | RunFailed | PublishFailed | MarkFailed

  /** Why a call panics: in an action that observes a panic, or in the local
      code, at a missing window spec or at a bucket of width zero. */
  datatype PanicCause = InAction | NilWindow | ZeroDivision

  /** How one call of Process ends. */
  datatype Outcome =
    | Verdict(duplicate: bool, alert: Option<Alert>, partial: bool)
    | Failed(fault: Fault)
    | Panicked(cause: PanicCause)
  {
    /** A successful verdict that is not a duplicate. */
    predicate Fresh() { Verdict? && !duplicate }
  }

  // ---- durations ----

  /** Two's complement of 64 bits, the width of a duration. */
  function Wrap64(x: int): int {
    (x + 0x8000_0000_0000_0000) % 0x1_0000_0000_0000_0000 - 0x8000_0000_0000_0000
  }

  /** A duration with its sign changed; the least one has no other sign. */
  function Negated(d: int): int {
    Wrap64(-d)
  }

  // ---- code that is not modelled ----

  datatype Program = Program(code: int)

  datatype WindowValue =
    | Counts(pix: nat, ted: nat, card: nat)
    | MaxDistance(km: real)
    | DistinctDevices(n: nat)

  /** The environment a condition runs in. */
  datatype Env = Env(
    amount: real, currency: string, channel: Channel, deviceId: string, customerId: string,
    risk: Option<RiskProfile>, window: Option<WindowValue>)

  datatype RunResult = Matched | Unmatched | NotBoolean | RunError

  /** The expression compiler and machine, the great-circle distance, SHA-256 in
      hexadecimal, the UTC timestamp format, and the hash that routes customers. */
  datatype Library = Library(
    compile: string -> Option<Program>,
    run: (Program, Env) -> RunResult,
    distance: (Geo, Geo) -> real,
    sha256: string -> string,
    stamp: int -> string,
    hash: string -> nat)

  // ---- one attempt at one transaction ----

  /** The separately locked actions of one Process call. Rule k of the active
      set may make up to three window reads. */
  datatype Site =
    | SeenSite | RecordSite | ConfigSite | RiskSite
    | ReadSite(k: nat, j: nat) | LinkSite(k: nat) | StoreSite(k: nat)
    | PublishSite | MarkSite

  /** What an action finds around it: the clock (later is a second reading made
      by the same action), the window switch, the active rule set, the stored
      risk profile, whether the port returns another error, whether it panics. */
  datatype Observation = Observation(
    now: int, later: int, down: bool, rules: RuleSet, risk: Option<RiskProfile>,
    fault: bool, panics: bool)

  /** A queued transaction, with what each action of its run will observe. */
  datatype Job = Job(id: nat, tx: Transaction, at: Site -> Observation)
}
