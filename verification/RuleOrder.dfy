/** The evaluation loop as a selection (internal/engine/evaluator.go): each rule's
    fate depends on the rule and on what its own reads and its cache lookup
    find, so the order of the rules matters to neither the set of hits nor
    anything computed from it. */
module RuleOrder {
  import opened Sequences
  import opened Domain
  import opened Scoring
  import opened RuleEvaluation
  import opened AlertId
  import opened Processing
  import W = WindowStore

  /** A rule with what its three possible reads and its cache lookup observe. */
  datatype Item = Item(rule: RuleDef, first: Observation, second: Observation, third: Observation, link: Observation)

  function ItemAt(rules: seq<RuleDef>, at: Site -> Observation, k: nat): Item
    requires k < |rules|
  {
    Item(rules[k], at(ReadSite(k, 0)), at(ReadSite(k, 1)), at(ReadSite(k, 2)), at(LinkSite(k)))
  }

  function Agenda(rules: seq<RuleDef>, at: Site -> Observation): seq<Item> {
    seq(|rules|, k requires 0 <= k < |rules| => ItemAt(rules, at, k))
  }

  /** What is the same for all rules of one evaluation. */
  datatype Setting = Setting(lib: Library, tx: Transaction, risk: RiskProfile, up: bool, window: seq<W.Entry>)
  {
    /** The item's rule evaluated as the only one. */
    function StepFor(item: Item): RuleStep {
      StepOf(lib, Alone(item), tx, window, Observes(item))
    }

    function Alone(item: Item): State {
      Begin(up, RuleSet(0, [item.rule], OperationalProfile(0, RiskProfile(0.0, ""), 0.0)), risk)
    }
  }

  function Observes(item: Item): Site -> Observation {
    (site: Site) =>
      if !site.ReadSite? then item.link
      else if site.j == 0 then item.first
      else if site.j == 1 then item.second
      else item.third
  }

  function Hits(c: Setting): Item -> bool {
    (item: Item) => c.StepFor(item).Hit?
  }

  function RuleOf(): Item -> RuleDef {
    (item: Item) => item.rule
  }

  lemma {:induction false} ReadsAlike(lib: Library, spec: WindowSpec, k: nat, l: nat, tx: Transaction,
                                      window: seq<W.Entry>,
                                      at: Site -> Observation, au: Site -> Observation, got: seq<nat>)
    requires |got| < 3 && forall j :: 0 <= j < 3 ==> at(ReadSite(k, j)) == au(ReadSite(l, j))
    ensures ReadAll(lib, spec, k, tx, window, at, got) == ReadAll(lib, spec, l, tx, window, au, got)
    decreases 3 - |got|
  {
    hide ReadOnce;
    var r := ReadOnce(lib, spec, tx, window, at(ReadSite(k, |got|)), got);
    if r.More? {
      ReadsAlike(lib, spec, k, l, tx, window, at, au, r.got);
    }
  }

  /** Where a rule stands in the list does not matter to its step. */
  lemma StepOfItem(c: Setting, e: State, at: Site -> Observation)
    requires e.Live() && e.up == c.up && e.risk == c.risk
    ensures StepOf(c.lib, e, c.tx, c.window, at) == c.StepFor(ItemAt(e.rules.rules, at, e.k))
  {
    hide ReadAll, Judge;
    var item := ItemAt(e.rules.rules, at, e.k);
    if e.Rule().window.Some? {
      ReadsAlike(c.lib, e.Rule().window.value, e.k, 0, c.tx, c.window, at, Observes(item), []);
    }
    assert Judge(c.lib, e.Rule(), e.Env(c.tx, None), at(LinkSite(e.k)))
        == Judge(c.lib, e.Rule(), c.Alone(item).Env(c.tx, None), Observes(item)(LinkSite(0)));
  }

  ghost predicate NoneBroken(c: Setting, items: seq<Item>) {
    forall i :: i in items ==> !c.StepFor(i).Broken?
  }

  ghost predicate SomeDegrade(c: Setting, items: seq<Item>) {
    exists i :: i in items && c.StepFor(i).Degrade?
  }

  lemma SelectFirst(c: Setting, item: Item, rest: seq<Item>)
    ensures Map(Filter([item] + rest, Hits(c)), RuleOf())
         == (if c.StepFor(item).Hit? then [item.rule] else []) + Map(Filter(rest, Hits(c)), RuleOf())
    ensures NoneBroken(c, [item] + rest) <==> !c.StepFor(item).Broken? && NoneBroken(c, rest)
    ensures SomeDegrade(c, [item] + rest) <==> c.StepFor(item).Degrade? || SomeDegrade(c, rest)
  {
    FilterConcat([item], rest, Hits(c));
    assert forall i :: i in [item] + rest <==> i == item || i in rest;
  }

  /** The evaluation completes exactly when none of the items breaks, and then
      it has added the rules of those that hit, in order. */
  ghost predicate Selects(c: Setting, e: State, items: seq<Item>, end: Evaluation) {
    && (end.Completed? <==> NoneBroken(c, items))
    && (end.Completed? ==>
          && end.hits == e.hits + Map(Filter(items, Hits(c)), RuleOf())
          && end.degraded == (e.degraded || SomeDegrade(c, items)))
  }

  lemma SelectsNext(c: Setting, e: State, item: Item, rest: seq<Item>, end: Evaluation)
    requires e.Live() && item.rule == e.Rule()
    requires var step := c.StepFor(item);
             if step.Broken? then end.Aborted? else Selects(c, e.Next(step), rest, end)
    ensures Selects(c, e, [item] + rest, end)
  {
    SelectFirst(c, item, rest);
    hide NoneBroken, SomeDegrade, Filter, Map, Setting.StepFor;
    if end.Completed? {
      var more := Map(Filter(rest, Hits(c)), RuleOf());
      assert (e.hits + [item.rule]) + more == e.hits + ([item.rule] + more) && [] + more == more;
    }
  }

  lemma {:induction false} LoopSelects(c: Setting, e: State, at: Site -> Observation)
    requires e.k <= |e.rules.rules| && e.up == c.up && e.risk == c.risk
    ensures Selects(c, e, Agenda(e.rules.rules, at)[e.k..], Loop(c.lib, e, c.tx, c.window, at))
    decreases |e.rules.rules| - e.k
  {
    hide StepOf;
    var all := Agenda(e.rules.rules, at);
    if e.Live() {
      var item, step := ItemAt(e.rules.rules, at, e.k), StepOf(c.lib, e, c.tx, c.window, at);
      assert all[e.k..] == [item] + all[e.k + 1..];
      StepOfItem(c, e, at);
      hide Agenda, Selects;
      if !step.Broken? {
        LoopSelects(c, e.Next(step), at);
      }
      SelectsNext(c, e, item, all[e.k + 1..], Loop(c.lib, e, c.tx, c.window, at));
    } else {
      assert all[e.k..] == [] && e.hits + [] == e.hits;
    }
  }

  /** The same from the first rule on. */
  lemma EvaluateSelects(c: Setting, rules: RuleSet, at: Site -> Observation)
    ensures var items := Agenda(rules.rules, at);
            var end := Evaluate(c.lib, rules, c.tx, c.risk, c.up, c.window, at);
            && (end.Completed? <==> NoneBroken(c, items))
            && (end.Completed? ==>
                  end.hits == Map(Filter(items, Hits(c)), RuleOf()) && end.degraded == SomeDegrade(c, items))
  {
    LoopSelects(c, Begin(c.up, rules, c.risk), at);
    assert Agenda(rules.rules, at)[0..] == Agenda(rules.rules, at);
  }

  /** When a property of the rule alone decides which rules hit, the hits are the rules with it. */
  lemma SelectedMembers(c: Setting, rules: seq<RuleDef>, at: Site -> Observation, p: RuleDef -> bool)
    requires forall k :: 0 <= k < |rules| ==>
               !c.StepFor(ItemAt(rules, at, k)).Broken? && (c.StepFor(ItemAt(rules, at, k)).Hit? <==> p(rules[k]))
    ensures NoneBroken(c, Agenda(rules, at))
    ensures forall h :: h in Map(Filter(Agenda(rules, at), Hits(c)), RuleOf()) <==> h in rules && p(h)
  {
    hide Setting.StepFor;
    var items := Agenda(rules, at);
    var hit := Filter(items, Hits(c));
    forall h | h in Map(hit, RuleOf()) ensures h in rules && p(h) {
      var i :| 0 <= i < |hit| && hit[i].rule == h;
      FilterMember(items, Hits(c), hit[i]);
      var k :| 0 <= k < |items| && items[k] == hit[i];
    }
    forall h | h in rules && p(h) ensures h in Map(hit, RuleOf()) {
      var k :| 0 <= k < |rules| && rules[k] == h;
      FilterMember(items, Hits(c), items[k]);
      var i :| 0 <= i < |hit| && hit[i] == items[k];
      assert Map(hit, RuleOf())[i] == h;
    }
  }

  /** Rule lists that are permutations of each other, each rule keeping what it
      observes, evaluate alike: both complete or neither does, with the same
      hits up to order, the same degradation, and hence the same categories,
      score and decision to alert, and for valid severities the same severity. */
  lemma RuleOrderIrrelevant(c: Setting, r: RuleSet, q: RuleSet, at: Site -> Observation, au: Site -> Observation)
    requires multiset(Agenda(r.rules, at)) == multiset(Agenda(q.rules, au)) && r.profile == q.profile
    ensures var x := Evaluate(c.lib, r, c.tx, c.risk, c.up, c.window, at);
            var y := Evaluate(c.lib, q, c.tx, c.risk, c.up, c.window, au);
            && (x.Completed? <==> y.Completed?)
            && (x.Completed? ==>
                  && multiset(x.hits) == multiset(y.hits) && x.degraded == y.degraded
                  && Categories(x.hits) == Categories(y.hits)
                  && ScoreOf(Severities(x.hits)) == ScoreOf(Severities(y.hits))
                  && (Decide(c.lib, c.tx, r, c.up, x.hits, x.degraded).Quiet? <==>
                      Decide(c.lib, c.tx, q, c.up, y.hits, y.degraded).Quiet?)
                  && ((forall h :: h in x.hits ==> h.emits.severity.Valid()) ==>
                        RunningSeverity(x.hits) == RunningSeverity(y.hits)))
  {
    var a, b := Agenda(r.rules, at), Agenda(q.rules, au);
    EvaluateSelects(c, r, at);
    EvaluateSelects(c, q, au);
    hide Evaluate, Agenda, Decide, ScoreOf, Severities, Categories, RunningSeverity;
    assert forall i :: i in a <==> i in multiset(a);
    assert forall i :: i in b <==> i in multiset(b);
    FilterPermutes(a, b, Hits(c));
    MapPermutes(Filter(a, Hits(c)), Filter(b, Hits(c)), RuleOf());
    var x := Evaluate(c.lib, r, c.tx, c.risk, c.up, c.window, at);
    var y := Evaluate(c.lib, q, c.tx, c.risk, c.up, c.window, au);
    if x.Completed? {
      OrderIrrelevant(x.hits, y.hits);
      QuietAlike(c, r, q, x.hits, y.hits, x.degraded);
    }
  }

  lemma QuietAlike(c: Setting, r: RuleSet, q: RuleSet, a: seq<RuleDef>, b: seq<RuleDef>, degraded: bool)
    requires r.profile == q.profile && multiset(a) == multiset(b) && ScoreOf(Severities(a)) == ScoreOf(Severities(b))
    ensures Decide(c.lib, c.tx, r, c.up, a, degraded).Quiet? <==> Decide(c.lib, c.tx, q, c.up, b, degraded).Quiet?
  {
    hide ScoreOf, Severities, AlertIdOf, Categories, RunningSeverity, Refs;
    assert |a| == |multiset(a)| == |multiset(b)| == |b|;
  }
}
