/** Validation of a bundle (internal/config/bundle.go) and hot reload
    (internal/adapters/memory/config_provider.go). The JSON round trip of a
    staged bundle is taken as the identity. */
module Config {
  import opened Sequences
  import opened Domain

  datatype ConfigError =
    | BadThreshold | BadRiskLimit
    | EmptyRuleId | DuplicateRuleId | BadSeverity | NoCategory | NoCondition
    | NoWindowSpec | BadSpan | BadCondition

  predicate ValidProfile(p: OperationalProfile) {
    0.0 <= p.scoreMinimoAlerta <= 1.0 && p.defaultCustomerRisk.limiteValor > 0.0
  }

  /** What a rule must satisfy on its own. */
  predicate ValidRule(lib: Library, r: RuleDef) {
    && r.ruleId != ""
    && r.emits.severity.Valid()
    && r.emits.category != ""
    && r.condition != ""
    && (r.RequiresLayer(WindowLayer) ==> r.window.Some?)
    && (r.window.Some? ==> r.window.value.spanSeconds > 0)
    && lib.compile(r.condition).Some?
  }

  predicate ValidRules(lib: Library, rules: seq<RuleDef>) {
    && (forall r :: r in rules ==> ValidRule(lib, r))
    && (forall i, j :: 0 <= i < j < |rules| ==> rules[i].ruleId != rules[j].ruleId)
  }

  predicate ValidBundle(lib: Library, b: Bundle) {
    ValidProfile(b.profile) && ValidRules(lib, b.rules)
  }

  /** Validation asks nothing of a rule's version, and of a category only that
      there is one. */
  lemma VersionAndCategoryUnchecked(lib: Library, r: RuleDef, version: int, category: string)
    requires r.emits.category != "" && category != ""
    ensures ValidRule(lib, r) <==> ValidRule(lib, r.(version := version))
    ensures ValidRule(lib, r) <==> ValidRule(lib, r.(emits := r.emits.(category := category)))
  {
  }

  method CheckProfile(p: OperationalProfile) returns (r: Option<ConfigError>)
    ensures r.None? <==> ValidProfile(p)
    ensures r.None? <==> 0.0 <= p.scoreMinimoAlerta <= 1.0 && p.defaultCustomerRisk.limiteValor > 0.0
  {
    if p.scoreMinimoAlerta < 0.0 || p.scoreMinimoAlerta > 1.0 {
      return Some(BadThreshold);
    }
    if p.defaultCustomerRisk.limiteValor <= 0.0 {
      return Some(BadRiskLimit);
    }
    return None;
  }

  /** Checks one rule against the ids seen so far; the id joins them even when
      a later check fails. */
  method CheckRule(lib: Library, r: RuleDef, seen: set<string>) returns (error: Option<ConfigError>, seen': set<string>)
    ensures error.None? <==> ValidRule(lib, r) && r.ruleId !in seen
    ensures error.None? <==>
              && r.ruleId != "" && r.ruleId !in seen
              && r.emits.severity in {Baixa, Media, Alta, Critica} && r.emits.category != "" && r.condition != ""
              && (WindowLayer in r.requires_ ==> r.window.Some?)
              && (r.window.Some? ==> r.window.value.spanSeconds > 0)
              && lib.compile(r.condition).Some?
    ensures error == Some(DuplicateRuleId) <==> r.ruleId != "" && r.ruleId in seen
    ensures error.None? ==> seen' == seen + {r.ruleId}
  {
    seen' := seen;
    if r.ruleId == "" {
      return Some(EmptyRuleId), seen';
    }
    if r.ruleId in seen {
      return Some(DuplicateRuleId), seen';
    }
    seen' := seen + {r.ruleId};
    if !r.emits.severity.Valid() {
      return Some(BadSeverity), seen';
    }
    if r.emits.category == "" {
      return Some(NoCategory), seen';
    }
    if r.condition == "" {
      return Some(NoCondition), seen';
    }
    if r.RequiresLayer(WindowLayer) && r.window.None? {
      return Some(NoWindowSpec), seen';
    }
    if r.window.Some? && r.window.value.spanSeconds <= 0 {
      return Some(BadSpan), seen';
    }
    if lib.compile(r.condition).None? {
      return Some(BadCondition), seen';
    }
    return None, seen';
  }

  /** Accepts exactly the valid bundles, unchanged, and nothing in part. */
  method Load(lib: Library, rules: seq<RuleDef>, profile: OperationalProfile) returns (r: Result<Bundle, ConfigError>)
    ensures r.Ok? <==> ValidBundle(lib, Bundle(rules, profile))
    ensures r.Ok? ==> r.value == Bundle(rules, profile)
  {
    var profileError := CheckProfile(profile);
    if profileError.Some? {
      return Err(profileError.value);
    }
    var seen: set<string> := {};
    for i := 0 to |rules|
      invariant ValidRules(lib, rules[..i])
      invariant seen == set r | r in rules[..i] :: r.ruleId
    {
      var error;
      assert rules[..i + 1] == rules[..i] + [rules[i]];
      error, seen := CheckRule(lib, rules[i], seen);
      if error.Some? {
        if ValidRule(lib, rules[i]) {
          var r :| r in rules[..i] && r.ruleId == rules[i].ruleId;
          var j :| 0 <= j < i && rules[j] == r;
        }
        return Err(error.value);
      }
    }
    assert rules[..|rules|] == rules;
    return Ok(Bundle(rules, profile));
  }

  // ---- the provider, as a value ----

  datatype Provider = Provider(active: RuleSet, version: nat, staged: Option<Bundle>)

  function Started(initial: Bundle): Provider {
    Provider(RuleSet(1, initial.rules, initial.profile), 1, None)
  }

  function Stage(p: Provider, b: Bundle): Provider {
    p.(staged := Some(b))
  }

  function Swap(p: Provider, b: Bundle): Provider {
    Provider(RuleSet(p.version + 1, b.rules, b.profile), p.version + 1, None)
  }

  /** A staged bundle that does not validate leaves everything as it was, staged bundle included. */
  function AfterReload(lib: Library, p: Provider): Provider {
    if p.staged.Some? && ValidBundle(lib, p.staged.value) then Swap(p, p.staged.value) else p
  }

  datatype Event = StageEvent(b: Bundle) | ReloadEvent

  function AfterEvents(lib: Library, p: Provider, events: seq<Event>): Provider {
    if events == [] then p
    else
      var q := AfterEvents(lib, p, events[..|events| - 1]);
      match events[|events| - 1]
      case StageEvent(b) => Stage(q, b)
      case ReloadEvent => AfterReload(lib, q)
  }

  predicate Swaps(lib: Library, p: Provider) {
    p.staged.Some? && ValidBundle(lib, p.staged.value)
  }

  /** The number of reloads in the run that had a valid bundle to swap in. */
  function SwapCount(lib: Library, p: Provider, events: seq<Event>): nat {
    if events == [] then 0
    else
      var init := events[..|events| - 1];
      SwapCount(lib, p, init) +
        (if events[|events| - 1].ReloadEvent? && Swaps(lib, AfterEvents(lib, p, init)) then 1 else 0)
  }

  predicate ValidSet(lib: Library, rs: RuleSet) {
    ValidProfile(rs.profile) && ValidRules(lib, rs.rules)
  }

  /** The bundle the last effective reload swapped in, or the initial one. */
  function LastSwapped(lib: Library, initial: Bundle, events: seq<Event>): Bundle {
    if events == [] then initial
    else
      var init := events[..|events| - 1];
      var q := AfterEvents(lib, Started(initial), init);
      if events[|events| - 1].ReloadEvent? && Swaps(lib, q) then q.staged.value
      else LastSwapped(lib, initial, init)
  }

  /** Over every run of staging and reloading that starts from a valid bundle:
      the active set is valid, it is the last bundle swapped in, and its version
      counts the swaps. */
  lemma {:induction false} ReloadSafety(lib: Library, initial: Bundle, events: seq<Event>)
    requires ValidBundle(lib, initial)
    ensures var p := AfterEvents(lib, Started(initial), events);
            && ValidSet(lib, p.active)
            && p.active.version == p.version == 1 + SwapCount(lib, Started(initial), events)
            && Bundle(p.active.rules, p.active.profile) == LastSwapped(lib, initial, events)
  {
    if events != [] {
      ReloadSafety(lib, initial, events[..|events| - 1]);
    }
  }

  // ---- the provider, as the object the engine shares ----

  class ConfigProvider {
    var active: RuleSet
    var version: nat
    var override: Option<Bundle>

    ghost function State(): Provider
      reads this
    {
      Provider(active, version, override)
    }

    constructor (initial: Bundle)
      ensures State() == Started(initial)
    {
      active, version, override := RuleSet(1, initial.rules, initial.profile), 1, None;
    }

    method Current() returns (rs: RuleSet)
      ensures rs == State().active
    {
      rs := active;
    }

    method SetOverride(b: Bundle)
      modifies this
      ensures State() == Stage(old(State()), b)
      ensures override == Some(b) && active == old(active) && version == old(version)
    {
      override := Some(b);
    }

    /** Reports an error exactly when a staged bundle is invalid. */
    method Reload(lib: Library) returns (error: Option<ConfigError>)
      modifies this
      ensures State() == AfterReload(lib, old(State()))
      ensures error.Some? <==> old(override).Some? && !ValidBundle(lib, old(override).value)
      ensures if old(override).Some? && error.None? then
                && override == None && version == old(version) + 1
                && active == RuleSet(version, old(override).value.rules, old(override).value.profile)
              else
                override == old(override) && version == old(version) && active == old(active)
    {
      if override.None? {
        return None;
      }
      var loaded := Load(lib, override.value.rules, override.value.profile);
      if loaded.Err? {
        return Some(loaded.error);
      }
      version := version + 1;
      active := RuleSet(version, loaded.value.rules, loaded.value.profile);
      override := None;
      return None;
    }
  }
}
