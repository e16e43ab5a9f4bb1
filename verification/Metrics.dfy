/** The counters behind /metrics (internal/adapters/httpapi/metrics.go) and the
    way verdicts reach them (handlers.go, record). */
module Metrics {
  import opened Sequences
  import opened Domain
  import opened Processing
  import G = Guarantees
  import E = Evaluator

  datatype Counters = Counters(
    processed: nat, duplicates: nat, alerts: nat, partials: nat,
    byCategory: map<string, nat>, latencies: seq<int>)

  const ZERO := Counters(0, 0, 0, 0, map[], [])

  function Get(m: map<string, nat>, c: string): nat {
    if c in m then m[c] else 0
  }

  function AddAll(m: map<string, nat>, categories: seq<string>): map<string, nat> {
    if categories == [] then m
    else
      var k := |categories| - 1;
      var n := AddAll(m, categories[..k]);
      n[categories[k] := Get(n, categories[k]) + 1]
  }

  function Duplicate(c: Counters): Counters {
    c.(processed := c.processed + 1, duplicates := c.duplicates + 1)
  }

  function Processed(c: Counters, latency: int, partial: bool, categories: seq<string>): Counters {
    Counters(c.processed + 1, c.duplicates,
             c.alerts + (if |categories| > 0 then 1 else 0),
             c.partials + (if partial then 1 else 0),
             AddAll(c.byCategory, categories),
             c.latencies + [latency])
  }

  class Metrics {
    var processed: nat
    var duplicates: nat
    var alerts: nat
    var partials: nat
    var byCategory: map<string, nat>
    var latencies: seq<int>

    ghost function State(): Counters
      reads this
    {
      Counters(processed, duplicates, alerts, partials, byCategory, latencies)
    }

    constructor ()
      ensures State() == ZERO
    {
      processed, duplicates, alerts, partials, byCategory, latencies := 0, 0, 0, 0, map[], [];
    }

    method RecordDuplicate()
      modifies this
      ensures State() == Duplicate(old(State()))
    {
      processed := processed + 1;
      duplicates := duplicates + 1;
    }

    method RecordProcessed(latency: int, partial: bool, categories: seq<string>)
      modifies this
      ensures State() == Processed(old(State()), latency, partial, categories)
    {
      processed := processed + 1;
      latencies := latencies + [latency];
      if partial {
        partials := partials + 1;
      }
      if |categories| > 0 {
        alerts := alerts + 1;
        for i := 0 to |categories|
          invariant byCategory == AddAll(old(byCategory), categories[..i])
          invariant State().(byCategory := old(byCategory))
                 == Processed(old(State()), latency, partial, categories).(byCategory := old(byCategory))
        {
          assert categories[..i + 1][..i] == categories[..i];
          byCategory := byCategory[categories[i] := Get(byCategory, categories[i]) + 1];
        }
        assert categories[..|categories|] == categories;
      }
    }

    /** A copy of the counters and the category counts. */
    method Snapshot() returns (s: Counters)
      ensures s == State()
    {
      s := Counters(processed, duplicates, alerts, partials, byCategory, latencies);
    }
  }

  // ---- recording verdicts ----

  /** A verdict as it reaches record: with its latency, and with the list the
      alert's categories were put in (empty when there is no alert). */
  datatype Record = Record(duplicate: bool, partial: bool, alert: Option<Alert>, latency: int, listed: seq<string>)

  /** What record is called with for a verdict of Process. */
  ghost predicate Reports(r: Record, verdict: Outcome) {
    && verdict == Verdict(r.duplicate, r.alert, r.partial)
    && (if r.alert.Some? then E.Lists(r.listed, r.alert.value.categories) else r.listed == [])
  }

  /** An alert has categories, listed without repetition; a duplicate has no alert. */
  ghost predicate Listed(r: Record) {
    && (if r.alert.Some? then r.listed != [] && E.Lists(r.listed, r.alert.value.categories) else r.listed == [])
    && (r.duplicate ==> r.alert.None?)
  }

  /** Every verdict of Process is recorded well: an alert rests on a category. */
  lemma VerdictsAreListed(lib: Library, s: Stores, job: Job, r: Record)
    requires Reports(r, Process(lib, s, job).outcome)
    ensures Listed(r)
  {
    if r.alert.Some? {
      G.AlertsAreFounded(lib, s, job);
      var c :| c in r.alert.value.categories;
      assert c in r.listed;
    }
    if r.duplicate {
      G.DuplicateIsInert(lib, s, job);
    }
  }

  function AfterRecord(c: Counters, r: Record): Counters {
    if r.duplicate then Duplicate(c) else Processed(c, r.latency, r.partial, r.listed)
  }

  /** One verdict counted; a verdict without an alert has no categories. */
  method RecordVerdict(m: Metrics, r: Record)
    requires r.alert.None? ==> r.listed == []
    modifies m
    ensures m.State() == AfterRecord(old(m.State()), r)
  {
    if r.duplicate {
      m.RecordDuplicate();
      return;
    }
    var categories := [];
    if r.alert.Some? {
      categories := r.listed;
    }
    m.RecordProcessed(r.latency, r.partial, categories);
  }

  /** The counters after the records, in the order the mutex admitted them. */
  function AfterRecords(records: seq<Record>): Counters {
    if records == [] then ZERO
    else AfterRecord(AfterRecords(records[..|records| - 1]), records[|records| - 1])
  }

  function Raised(): Record -> bool {
    (r: Record) => r.alert.Some?
  }

  function RaisedIn(category: string): Record -> bool {
    (r: Record) => r.alert.Some? && category in r.alert.value.categories
  }

  function Repeated(): Record -> bool {
    (r: Record) => r.duplicate
  }

  function Incomplete(): Record -> bool {
    (r: Record) => !r.duplicate && r.partial
  }

  function Timed(): Record -> bool {
    (r: Record) => !r.duplicate
  }

  function LatencyOf(): Record -> int {
    (r: Record) => r.latency
  }

  ghost predicate NoRepeats(list: seq<string>) {
    forall i, j :: 0 <= i < j < |list| ==> list[i] != list[j]
  }

  lemma {:induction false} AddAllCounts(m: map<string, nat>, categories: seq<string>, c: string)
    requires NoRepeats(categories)
    ensures Get(AddAll(m, categories), c) == Get(m, c) + (if c in categories then 1 else 0)
  {
    if categories != [] {
      var k := |categories| - 1;
      AddAllCounts(m, categories[..k], c);
      assert categories == categories[..k] + [categories[k]];
    }
  }

  /** Over every sequence of recorded verdicts: what was processed is duplicates
      plus latencies, which are those of the other verdicts in order; duplicates,
      partials and alerts count the verdicts that are duplicate, fresh but
      partial, and with an alert, and each category's counter counts exactly the
      alerts in that category, so never more than there are alerts. */
  lemma {:induction false} Conservation(records: seq<Record>, category: string)
    requires forall r :: r in records ==> Listed(r)
    ensures var c := AfterRecords(records);
            && c.processed == c.duplicates + |c.latencies| == |records|
            && c.duplicates == |Filter(records, Repeated())|
            && c.latencies == Map(Filter(records, Timed()), LatencyOf())
            && c.partials == |Filter(records, Incomplete())|
            && c.alerts == |Filter(records, Raised())|
            && Get(c.byCategory, category) == |Filter(records, RaisedIn(category))| <= c.alerts
  {
    if records != [] {
      var k := |records| - 1;
      Conservation(records[..k], category);
      var r := records[k];
      assert Listed(r);
      AddAllCounts(AfterRecords(records[..k]).byCategory, r.listed, category);
      var timed := Filter(records[..k], Timed());
      assert Map(timed + [r], LatencyOf()) == Map(timed, LatencyOf()) + [r.latency];
    }
  }

  /** The categories of all recorded alerts, as they were listed. */
  function AllListed(records: seq<Record>): seq<string> {
    if records == [] then []
    else AllListed(records[..|records| - 1]) + records[|records| - 1].listed
  }

  /** The counters as a multiset of categories. */
  ghost predicate Tallies(m: map<string, nat>, ms: multiset<string>) {
    forall c :: Get(m, c) == ms[c]
  }

  lemma {:induction false} AddAllTallies(m: map<string, nat>, ms: multiset<string>, categories: seq<string>)
    requires Tallies(m, ms)
    ensures Tallies(AddAll(m, categories), ms + multiset(categories))
  {
    if categories == [] {
      assert ms + multiset(categories) == ms;
    } else {
      var k := |categories| - 1;
      var last, soFar := categories[k], AddAll(m, categories[..k]);
      AddAllTallies(m, ms, categories[..k]);
      assert multiset(categories) == multiset(categories[..k]) + multiset{last} by {
        assert categories == categories[..k] + [last];
      }
      forall c ensures Get(AddAll(m, categories), c) == (ms + multiset(categories))[c] {
        assert Get(soFar, c) == (ms + multiset(categories[..k]))[c];
      }
    }
  }

  /** Nothing is lost between the counters: byCategory holds, with multiplicity,
      every category of every recorded alert. */
  lemma {:induction false} CategoriesConserved(records: seq<Record>)
    requires forall r :: r in records ==> Listed(r)
    ensures Tallies(AfterRecords(records).byCategory, multiset(AllListed(records)))
  {
    if records != [] {
      var k := |records| - 1;
      var init, r := records[..k], records[k];
      CategoriesConserved(init);
      assert Listed(r);
      AddAllTallies(AfterRecords(init).byCategory, multiset(AllListed(init)), r.listed);
      assert r.listed == [] ==> AllListed(init) + r.listed == AllListed(init);
    }
  }
}
