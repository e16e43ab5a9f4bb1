/** What an alert says, at any threshold: when one is raised, and each of its
    fields in terms of the rules that hit (internal/pipeline/processor.go,
    Process and alertID). */
module AlertContents {
  import opened Sequences
  import opened Domain
  import opened Scoring
  import opened RuleEvaluation
  import opened AlertId
  import opened Config
  import opened Processing
  import opened Verdicts

  /** Something hit, and the score of the hits reaches the threshold. */
  predicate Reaches(hits: seq<RuleDef>, threshold: real) {
    hits != [] && ScoreOf(Severities(hits)) >= threshold
  }

  /** The severity is that of some hit, and no hit is worse. */
  ghost predicate WorstOf(severity: Severity, hits: seq<RuleDef>) {
    && (exists h :: h in hits && h.emits.severity == severity)
    && (forall h :: h in hits ==> h.emits.severity.Rank() <= severity.Rank())
  }

  /** The start of the time slot, towards 1970, that the second lies in. */
  function SlotStart(sec: int, width: nat): int
    requires width > 0
  {
    if sec >= 0 then sec - sec % width else sec + (-sec) % width
  }

  /** The id: the slot is as wide as the window of the last of the worst hits, or 60 seconds. */
  ghost predicate Identifies(lib: Library, tx: Transaction, hits: seq<RuleDef>, id: string) {
    exists i :: 0 <= i < |hits| && LastOfWorst(hits, i) &&
      var width := if hits[i].window.Some? then hits[i].window.value.spanSeconds else 60;
      width > 0 &&
      id == lib.sha256("v1|" + tx.customerId + "|" + tx.transactionId + "|"
                       + lib.stamp(SlotStart(tx.capturedAt.sec, width)))
  }

  ghost predicate Says(lib: Library, tx: Transaction, hits: seq<RuleDef>, partial: bool, a: Alert) {
    && a.customerId == tx.customerId && a.transactionId == tx.transactionId
    && WorstOf(a.severity, hits)
    && (forall c :: c in a.categories <==> exists h :: h in hits && h.emits.category == c)
    && a.score == ScoreOf(Severities(hits))
    && |a.triggered| == |hits|
    && (forall i :: 0 <= i < |hits| ==> a.triggered[i] == RuleRef(hits[i].ruleId, hits[i].version))
    && a.partial == partial
    && Identifies(lib, tx, hits, a.alertId)
  }

  lemma SlotIsBucket(sec: int, width: nat)
    requires width > 0
    ensures Bucket(sec, width) == SlotStart(sec, width)
  {
    if sec >= 0 {
      DivisionParts(sec, width);
    } else {
      DivisionParts(-sec, width);
      assert Bucket(sec, width) == -((-sec) / width * width);
    }
  }

  lemma WidthOfPick(r: RuleDef)
    requires r.window.Some? ==> 0 < r.window.value.spanSeconds <= 9_223_372_036
    ensures BucketSeconds(Some(r)) == if r.window.Some? then r.window.value.spanSeconds else 60
  {
    if r.window.Some? {
      WidthAsDeclared(r);
    }
  }

  lemma PreimageText(lib: Library, c: string, t: string, bucket: int)
    ensures Preimage(lib, c, t, bucket) == "v1|" + c + "|" + t + "|" + lib.stamp(bucket)
  {
    var s := lib.stamp(bucket);
    assert "v1" + ['|'] == "v1|";
    assert "v1" + ['|'] + (c + ['|'] + t + ['|'] + s) == "v1|" + c + "|" + t + "|" + s;
  }

  lemma IdSays(lib: Library, tx: Transaction, hits: seq<RuleDef>, i: nat)
    requires i < |hits| && LastOfWorst(hits, i)
    requires hits[i].window.Some? ==> 0 < hits[i].window.value.spanSeconds <= 9_223_372_036
    ensures AlertIdOf(lib, tx, Some(hits[i])).Some?
    ensures Identifies(lib, tx, hits, AlertIdOf(lib, tx, Some(hits[i])).value)
  {
    hide LastOfWorst, BucketSeconds, Bucket, Preimage, SlotStart;
    WidthOfPick(hits[i]);
    var width := BucketSeconds(Some(hits[i]));
    SlotIsBucket(tx.capturedAt.sec, width);
    PreimageText(lib, tx.customerId, tx.transactionId, Bucket(tx.capturedAt.sec, width));
  }

  lemma DecideByParts(lib: Library, tx: Transaction, rules: RuleSet, up: bool, hits: seq<RuleDef>, degraded: bool)
    ensures var d := Decide(lib, tx, rules, up, hits, degraded);
            var id := AlertIdOf(lib, tx, Pick(Refs(hits), ById(rules.rules)));
            d == if !Reaches(hits, rules.profile.scoreMinimoAlerta) then Quiet
                 else if id.None? then Blowup
                 else Raise(Alert(id.value, tx.customerId, tx.transactionId, RunningSeverity(hits), Categories(hits),
                                  ScoreOf(Severities(hits)), Refs(hits), !up || degraded))
  {
    hide ScoreOf, Severities, Pick, ById, Refs, Categories, RunningSeverity, AlertIdOf;
  }

  lemma {:induction false} PartsSay(lib: Library, tx: Transaction, hits: seq<RuleDef>, partial: bool, a: Alert, i: nat)
    requires i < |hits| && LastOfWorst(hits, i) && RunningSeverity(hits) == hits[i].emits.severity
    requires Identifies(lib, tx, hits, a.alertId)
    requires a == Alert(a.alertId, tx.customerId, tx.transactionId, RunningSeverity(hits), Categories(hits),
                        ScoreOf(Severities(hits)), Refs(hits), partial)
    ensures Says(lib, tx, hits, partial, a)
  {
    hide RunningSeverity, Severities, ScoreOf, Identifies;
    assert hits[i] in hits;
    assert WorstOf(a.severity, hits);
    hide WorstOf;
  }

  /** For hits of a safe rule set: an alert is raised exactly if the score
      reaches the threshold, and it says what the hits are. */
  lemma DecideSays(lib: Library, tx: Transaction, rules: RuleSet, up: bool, hits: seq<RuleDef>, degraded: bool)
    requires SafeSet(lib, rules) && forall h :: h in hits ==> h in rules.rules
    ensures var d := Decide(lib, tx, rules, up, hits, degraded);
            && (d.Raise? <==> Reaches(hits, rules.profile.scoreMinimoAlerta))
            && (d.Raise? ==> Says(lib, tx, hits, !up || degraded, d.alert))
  {
    DecideByParts(lib, tx, rules, up, hits, degraded);
    if hits != [] {
      var i := HitsAgree(lib, hits, rules.rules);
      assert hits[i] in hits && ValidRule(lib, hits[i]);
      IdSays(lib, tx, hits, i);
      hide *;
      var a := Alert(AlertIdOf(lib, tx, Some(hits[i])).value, tx.customerId, tx.transactionId, RunningSeverity(hits),
                     Categories(hits), ScoreOf(Severities(hits)), Refs(hits), !up || degraded);
      PartsSay(lib, tx, hits, !up || degraded, a, i);
    }
  }

  /** A fresh verdict of a call that found a safe rule set carries an alert
      exactly if something hit and the score of the hits reaches the set's own
      threshold; and then the alert says exactly what the hits are. */
  lemma VerdictExactly(lib: Library, s: Stores, job: Job)
    requires SafeSet(lib, RulesFor(job)) && Process(lib, s, job).outcome.Fresh()
    ensures EvaluationOf(lib, s, job).Completed?
    ensures var o, hits := Process(lib, s, job).outcome, EvaluationOf(lib, s, job).hits;
            && (o.alert.Some? <==>
                  hits != [] && ScoreOf(Severities(hits)) >= RulesFor(job).profile.scoreMinimoAlerta)
            && (o.alert.Some? ==> Says(lib, job.tx, hits, o.partial, o.alert.value))
  {
    hide Process, EvaluationOf, Decide, SafeSet, Says;
    CallByParts(lib, s, job);
    HitsOfTheSet(lib, s, job);
    var e := EvaluationOf(lib, s, job);
    DecideSays(lib, job.tx, RulesFor(job), Up(job), e.hits, e.degraded);
  }
}
