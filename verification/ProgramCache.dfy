/** The cache of compiled conditions, keyed rule_id@version (internal/engine/evaluator.go, programFor). */
module ProgramCache {
  import opened Sequences
  import opened Domain

  type Programs = map<string, Program>

  function ProgramKey(rule: RuleDef): string {
    Join(rule.ruleId, '@', DecimalInt(rule.version))
  }

  /** The key identifies id and version, whatever characters the id has. */
  lemma ProgramKeyInjective(a: RuleDef, b: RuleDef)
    ensures ProgramKey(a) == ProgramKey(b) <==> a.ruleId == b.ruleId && a.version == b.version
  {
    if ProgramKey(a) == ProgramKey(b) {
      SplitAtLast(a.ruleId, DecimalInt(a.version), b.ruleId, DecimalInt(b.version), '@');
      DecimalIntInjective(a.version, b.version);
    }
  }

  /** Every rule's condition compiles to what comp assigns to its key. */
  ghost predicate Disciplined(lib: Library, rules: seq<RuleDef>, comp: string -> Option<Program>) {
    forall r :: r in rules ==> comp(ProgramKey(r)) == lib.compile(r.condition)
  }

  /** No two rules of the given lists share id and version but not the compilation. */
  ghost predicate Agree(lib: Library, lists: seq<seq<RuleDef>>) {
    forall a, b, r, q ::
      (a in lists && b in lists && r in a && q in b && r.ruleId == q.ruleId && r.version == q.version)
      ==> lib.compile(r.condition) == lib.compile(q.condition)
  }

  ghost predicate AllDisciplined(lib: Library, lists: seq<seq<RuleDef>>, comp: string -> Option<Program>) {
    forall a :: a in lists ==> Disciplined(lib, a, comp)
  }

  ghost predicate Listed(lists: seq<seq<RuleDef>>, r: RuleDef) {
    exists a :: a in lists && r in a
  }

  ghost predicate Keyed(lists: seq<seq<RuleDef>>, key: string, r: RuleDef) {
    Listed(lists, r) && ProgramKey(r) == key
  }

  ghost function CompilationAt(lib: Library, lists: seq<seq<RuleDef>>, key: string): Option<Program> {
    if r :| Keyed(lists, key, r) then lib.compile(r.condition) else None
  }

  /** Agreement on (id, version) is the same as some assignment of compilations to keys. */
  lemma AgreementIsDiscipline(lib: Library, lists: seq<seq<RuleDef>>)
    ensures Agree(lib, lists) <==> exists comp :: AllDisciplined(lib, lists, comp)
  {
    if Agree(lib, lists) {
      var comp := (key: string) => CompilationAt(lib, lists, key);
      forall a, r | a in lists && r in a ensures comp(ProgramKey(r)) == lib.compile(r.condition) {
        assert Keyed(lists, ProgramKey(r), r);
        var q :| Keyed(lists, ProgramKey(r), q) && CompilationAt(lib, lists, ProgramKey(r)) == lib.compile(q.condition);
        ProgramKeyInjective(r, q);
      }
      assert AllDisciplined(lib, lists, comp);
    }
    if comp :| AllDisciplined(lib, lists, comp) {
      forall a, b, r, q | a in lists && b in lists && r in a && q in b &&
        r.ruleId == q.ruleId && r.version == q.version
        ensures lib.compile(r.condition) == lib.compile(q.condition)
      {
        assert Disciplined(lib, a, comp) && Disciplined(lib, b, comp);
        ProgramKeyInjective(r, q);
      }
    }
  }

  /** Every cached program is the compilation assigned to its key. */
  ghost predicate Coherent(programs: Programs, comp: string -> Option<Program>) {
    forall key :: key in programs ==> comp(key) == Some(programs[key])
  }

  /** What programFor returns: the cached program, or else the compiled condition. */
  function Acquire(lib: Library, programs: Programs, rule: RuleDef): Option<Program> {
    if ProgramKey(rule) in programs then Some(programs[ProgramKey(rule)]) else lib.compile(rule.condition)
  }

  /** Under the discipline the cache is transparent. */
  lemma CacheTransparent(lib: Library, programs: Programs, comp: string -> Option<Program>, rules: seq<RuleDef>,
                         rule: RuleDef)
    requires Coherent(programs, comp) && Disciplined(lib, rules, comp) && rule in rules
    ensures Acquire(lib, programs, rule) == lib.compile(rule.condition)
    ensures forall p :: lib.compile(rule.condition) == Some(p) ==> Coherent(programs[ProgramKey(rule) := p], comp)
  {
  }

  // ---- exactly when the cache is transparent ----

  /** The cache after the conditions of the given rules were compiled and
      stored, in this order; a concurrent second miss stores again. */
  function Stored(lib: Library, rules: seq<RuleDef>): Programs {
    if rules == [] then map[]
    else
      var soFar, r := Stored(lib, rules[..|rules| - 1]), rules[|rules| - 1];
      match lib.compile(r.condition)
      case None => soFar
      case Some(p) => soFar[ProgramKey(r) := p]
  }

  /** Whatever rules of the lists were looked up before, a lookup gives the
      compilation of the rule's own condition. */
  ghost predicate Transparent(lib: Library, lists: seq<seq<RuleDef>>) {
    forall past, r :: (forall q :: q in past ==> Listed(lists, q)) && Listed(lists, r) ==>
      Acquire(lib, Stored(lib, past), r) == lib.compile(r.condition)
  }

  lemma {:induction false} StoredCoherent(lib: Library, lists: seq<seq<RuleDef>>, comp: string -> Option<Program>,
                                          past: seq<RuleDef>)
    requires AllDisciplined(lib, lists, comp) && forall q :: q in past ==> Listed(lists, q)
    ensures Coherent(Stored(lib, past), comp)
  {
    if past != [] {
      var last := past[|past| - 1];
      StoredCoherent(lib, lists, comp, past[..|past| - 1]);
      assert Listed(lists, last);
      var a :| a in lists && last in a;
      assert Disciplined(lib, a, comp);
    }
  }

  /** The cache is transparent for the lists that are ever activated exactly
      when equal id and version imply equal compilation. */
  lemma TransparentExactly(lib: Library, lists: seq<seq<RuleDef>>)
    ensures Transparent(lib, lists) <==> Agree(lib, lists)
  {
    if Agree(lib, lists) {
      AgreementIsDiscipline(lib, lists);
      var comp :| AllDisciplined(lib, lists, comp);
      forall past, r | (forall q :: q in past ==> Listed(lists, q)) && Listed(lists, r)
        ensures Acquire(lib, Stored(lib, past), r) == lib.compile(r.condition)
      {
        StoredCoherent(lib, lists, comp, past);
        var a :| a in lists && r in a;
        assert Disciplined(lib, a, comp);
      }
    }
    if Transparent(lib, lists) {
      forall a, b, r, q | a in lists && b in lists && r in a && q in b &&
        r.ruleId == q.ruleId && r.version == q.version
        ensures lib.compile(r.condition) == lib.compile(q.condition)
      {
        assert Listed(lists, r) && Listed(lists, q);
        OneStored(lib, r, q);
        OneStored(lib, q, r);
        assert Acquire(lib, Stored(lib, [r]), q) == lib.compile(q.condition);
        assert Acquire(lib, Stored(lib, [q]), r) == lib.compile(r.condition);
      }
    }
  }

  /** One lookup decides the next one with the same id and version. */
  lemma OneStored(lib: Library, r: RuleDef, q: RuleDef)
    requires r.ruleId == q.ruleId && r.version == q.version
    ensures lib.compile(r.condition).Some? ==> Acquire(lib, Stored(lib, [r]), q) == lib.compile(r.condition)
  {
    ProgramKeyInjective(r, q);
    assert [r][..0] == [];
  }
}
