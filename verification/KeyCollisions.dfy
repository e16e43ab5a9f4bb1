/** Exactly when customers do not disturb each other through the idempotency
    keys (internal/domain/transaction.go, internal/pipeline/processor.go). */
module KeyCollisions {
  import opened Sequences
  import opened Domain
  import opened Processing
  import opened Guarantees
  import opened Verdicts
  import opened Locality
  import opened Unrouted
  import opened OutageAlerts

  /** A call shows in the view of no other customer whose keys are apart. */
  lemma ProcessForeign(lib: Library, s: Stores, job: Job, c: string)
    requires c != job.tx.customerId && KeysApart(job.tx.customerId, c)
    ensures ViewOf(Process(lib, s, job).stores, c) == ViewOf(s, c)
  {
    ProcessAppends(lib, s, job);
    ProcessMarks(lib, s, job);
    CallByParts(lib, s, job);
    hide Process, Publication;
    var t := Process(lib, s, job).stores;
    ForeignKey(job.tx, c);
    assert MarksOf(t.marks, c) == MarksOf(s.marks, c);
    if Publication(lib, s, job).Some? {
      PublishedId(lib, s, job);
      FilterAppend(s.alerts, Publication(lib, s, job).value, IsFor(c));
    } else {
      assert s.alerts + [] == s.alerts;
    }
  }

  /** A first call of one customer does not change how a call of the other ends. */
  predicate Undisturbed(lib: Library, a: Job, b: Job) {
    Process(lib, Process(lib, EMPTY_STORES, a).stores, b).outcome == Process(lib, EMPTY_STORES, b).outcome
  }

  ghost predicate Independent(c: string, d: string) {
    forall lib, a, b :: CustomerOf(a) == c && CustomerOf(b) == d ==> Undisturbed(lib, a, b)
  }

  function CustomerOf(job: Job): string { job.tx.customerId }

  const NO_RULES := RuleSet(1, [], OperationalProfile(1, RiskProfile(1.0, ""), 0.5))

  function CallFor(customerId: string, transactionId: string): Job {
    Smooth(NO_RULES).(tx := SAMPLE.(customerId := customerId, transactionId := transactionId))
  }

  lemma CollidingCalls(lib: Library, c: string, t: string, d: string, u: string)
    requires c != "" && d != "" && t != "" && u != "" && Join(c, ':', t) == Join(d, ':', u)
    ensures var a, b := CallFor(c, t), CallFor(d, u);
            CustomerOf(a) == c && CustomerOf(b) == d && !Undisturbed(lib, a, b)
  {
    var a, b := CallFor(c, t), CallFor(d, u);
    assert Plain(a) && Plain(b) && KeyOf(a.tx) == KeyOf(b.tx);
    assert b.at(SeenSite).now == a.at(MarkSite).now == 0;
    hide Process, Plain;
    FirstLook(lib, EMPTY_STORES, a);
    FirstLook(lib, EMPTY_STORES, b);
    assert !b.at(SeenSite).panics && !b.at(SeenSite).fault && Validate(b.tx).None?;
    MistakenDuplicate(lib, EMPTY_STORES, a, b);
  }

  /** Two customers are independent exactly when their keys are apart. */
  lemma IndependentExactly(lib: Library, c: string, d: string)
    requires c != d && c != "" && d != ""
    ensures Independent(c, d) <==> KeysApart(c, d)
  {
    if KeysApart(c, d) {
      forall m, a, b | CustomerOf(a) == c && CustomerOf(b) == d ensures Undisturbed(m, a, b) {
        ProcessForeign(m, EMPTY_STORES, a, d);
        ProcessLocal(m, Process(m, EMPTY_STORES, a).stores, EMPTY_STORES, b);
      }
    } else {
      JoinCollision(c, d, ':');
      var t, u :| t != "" && u != "" && Join(c, ':', t) == Join(d, ':', u);
      CollidingCalls(lib, c, t, d, u);
    }
  }
}
