/** The sliding window kept for each customer (internal/adapters/memory/window_store.go):
    what Record and the three queries compute, how the answers relate to the
    history that is never evicted, and the store itself. */
module WindowStore {
  import opened Sequences
  import opened Domain

  /** Times and durations are in nanoseconds. */
  datatype Entry = Entry(tx: Transaction, recordedAt: int)

  function After(cutoff: int): Entry -> bool {
    (e: Entry) => e.recordedAt > cutoff
  }

  /** The entries recorded strictly after the cutoff. */
  function Kept(entries: seq<Entry>, cutoff: int): seq<Entry> {
    Filter(entries, After(cutoff))
  }

  /** The window after a Record that evicts at one clock reading and stamps at the next. */
  function Recorded(window: seq<Entry>, tx: Transaction, ttl: int, evictAt: int, stampAt: int): seq<Entry> {
    Kept(window, evictAt - ttl) + [Entry(tx, stampAt)]
  }

  // ---- queries, over the entries in span ----

  function OnChannel(channel: Channel): Entry -> bool {
    (e: Entry) => e.tx.channel == channel
  }

  function CountOn(entries: seq<Entry>, channel: Channel): nat {
    |Filter(entries, OnChannel(channel))|
  }

  /** The greatest distance from tx to another transaction, or zero. */
  function MaxKm(lib: Library, entries: seq<Entry>, tx: Transaction): real {
    if entries == [] then 0.0
    else
      var soFar, e := MaxKm(lib, entries[..|entries| - 1], tx), entries[|entries| - 1];
      var d := lib.distance(tx.geo, e.tx.geo);
      if e.tx.transactionId != tx.transactionId && d > soFar then d else soFar
  }

  function Devices(entries: seq<Entry>): set<string> {
    set e | e in entries && e.tx.deviceId != "" :: e.tx.deviceId
  }

  /** MaxKm is an upper bound that is attained, or zero when nothing is farther. */
  lemma {:induction false} MaxKmIsMaximum(lib: Library, entries: seq<Entry>, tx: Transaction)
    ensures MaxKm(lib, entries, tx) >= 0.0
    ensures forall e :: e in entries && e.tx.transactionId != tx.transactionId
              ==> lib.distance(tx.geo, e.tx.geo) <= MaxKm(lib, entries, tx)
    ensures MaxKm(lib, entries, tx) == 0.0 ||
              exists e :: e in entries && e.tx.transactionId != tx.transactionId &&
                lib.distance(tx.geo, e.tx.geo) == MaxKm(lib, entries, tx)
  {
    if entries != [] {
      MaxKmIsMaximum(lib, entries[..|entries| - 1], tx);
      assert entries == entries[..|entries| - 1] + [entries[|entries| - 1]];
    }
  }

  // ---- the counts, from the entries' positions ----

  /** The positions of the entries on the channel. */
  ghost function OnChannelAt(entries: seq<Entry>, channel: Channel): set<nat> {
    set i: nat | i < |entries| && entries[i].tx.channel == channel
  }

  lemma OnChannelAppend(init: seq<Entry>, last: Entry, channel: Channel)
    ensures |OnChannelAt(init + [last], channel)|
         == |OnChannelAt(init, channel)| + (if last.tx.channel == channel then 1 else 0)
  {
    assert OnChannelAt(init + [last], channel)
        == OnChannelAt(init, channel) + (if last.tx.channel == channel then {|init|} else {});
  }

  lemma {:induction false} CountOnPositions(entries: seq<Entry>, channel: Channel)
    ensures CountOn(entries, channel) == |OnChannelAt(entries, channel)|
  {
    if entries != [] {
      var k := |entries| - 1;
      CountOnPositions(entries[..k], channel);
      FilterAppend(entries[..k], entries[k], OnChannel(channel));
      assert entries == entries[..k] + [entries[k]];
      OnChannelAppend(entries[..k], entries[k], channel);
    }
  }

  /** No earlier entry has the device of entry i, and it has one. */
  predicate NewDevice(entries: seq<Entry>, i: nat)
    requires i < |entries|
  {
    entries[i].tx.deviceId != "" && forall j :: 0 <= j < i ==> entries[j].tx.deviceId != entries[i].tx.deviceId
  }

  /** The positions at which a device is seen for the first time. */
  ghost function NewDeviceAt(entries: seq<Entry>): set<nat> {
    set i: nat | i < |entries| && NewDevice(entries, i)
  }

  lemma NewDeviceLast(init: seq<Entry>, last: Entry)
    ensures NewDevice(init + [last], |init|) <==> last.tx.deviceId != "" && last.tx.deviceId !in Devices(init)
  {
    if last.tx.deviceId in Devices(init) {
      var e :| e in init && e.tx.deviceId == last.tx.deviceId;
      var j :| 0 <= j < |init| && init[j] == e;
      assert (init + [last])[j] == e;
    }
  }

  /** A further entry adds a position exactly if its device is new. */
  lemma NewDevicesAppend(init: seq<Entry>, last: Entry)
    ensures |NewDeviceAt(init + [last])|
         == |NewDeviceAt(init)| + (if NewDevice(init + [last], |init|) then 1 else 0)
  {
    var entries := init + [last];
    forall i: nat | i < |init| ensures NewDevice(entries, i) == NewDevice(init, i) {
      assert entries[i] == init[i] && forall j :: 0 <= j < i ==> entries[j] == init[j];
    }
    hide NewDevice;
    assert NewDeviceAt(entries) == NewDeviceAt(init) + (if NewDevice(entries, |init|) then {|init|} else {});
  }

  lemma DevicesAppend(init: seq<Entry>, last: Entry)
    ensures Devices(init + [last]) == Devices(init) + (if last.tx.deviceId == "" then {} else {last.tx.deviceId})
    ensures |Devices(init + [last])| ==
              |Devices(init)| + (if last.tx.deviceId != "" && last.tx.deviceId !in Devices(init) then 1 else 0)
  {
    var d := last.tx.deviceId;
    assert Devices(init + [last]) == Devices(init) + (if d == "" then {} else {d});
    if d in Devices(init) {
      assert Devices(init) + {d} == Devices(init);
    }
  }

  lemma {:induction false} DevicesAtPositions(entries: seq<Entry>)
    ensures |Devices(entries)| == |NewDeviceAt(entries)|
  {
    if entries != [] {
      var init, last := entries[..|entries| - 1], entries[|entries| - 1];
      assert entries == init + [last];
      DevicesAtPositions(init);
      NewDeviceLast(init, last);
      NewDevicesAppend(init, last);
      DevicesAppend(init, last);
    }
  }

  /** The distinct devices are as many as the entries with a device that no earlier entry has. */
  lemma DevicesPositions(entries: seq<Entry>)
    ensures |Devices(entries)| == |set i: nat | i < |entries| && entries[i].tx.deviceId != ""
                                     && (forall j :: 0 <= j < i ==> entries[j].tx.deviceId != entries[i].tx.deviceId)|
  {
    DevicesAtPositions(entries);
    hide Devices;
    assert NewDeviceAt(entries) == set i: nat | i < |entries| && entries[i].tx.deviceId != ""
                                     && forall j :: 0 <= j < i ==> entries[j].tx.deviceId != entries[i].tx.deviceId;
  }

  /** More than one device is the same as two entries with different ones. */
  lemma SeveralDevices(entries: seq<Entry>)
    ensures |Devices(entries)| > 1 <==>
              exists i, j :: 0 <= i < j < |entries| && entries[i].tx.deviceId != "" && entries[j].tx.deviceId != ""
                && entries[i].tx.deviceId != entries[j].tx.deviceId
  {
    var all := Devices(entries);
    if i, j :| 0 <= i < j < |entries| && entries[i].tx.deviceId != "" && entries[j].tx.deviceId != ""
               && entries[i].tx.deviceId != entries[j].tx.deviceId {
      assert entries[i] in entries && entries[j] in entries;
      TwoMembers(all, entries[i].tx.deviceId, entries[j].tx.deviceId);
    }
    if |all| > 1 {
      var x :| x in all;
      assert all != {x};
      var y :| y in all && y != x;
      var i :| 0 <= i < |entries| && entries[i].tx.deviceId == x;
      var j :| 0 <= j < |entries| && entries[j].tx.deviceId == y;
      assert if i < j then i < j else j < i;
    }
  }

  lemma TwoMembers<T>(s: set<T>, x: T, y: T)
    requires x in s && y in s && x != y
    ensures |s| > 1
  {
    assert {x, y} <= s && |{x, y}| == 2;
    assert s == {x, y} + (s - {x, y});
  }

  // ---- the never-evicted history ----

  /** One successful Record: what was recorded, and its two clock readings. */
  datatype Recording = Recording(tx: Transaction, evictAt: int, stampAt: int)

  function Replay(log: seq<Recording>, ttl: int): seq<Entry> {
    if log == [] then []
    else
      var r := log[|log| - 1];
      Recorded(Replay(log[..|log| - 1], ttl), r.tx, ttl, r.evictAt, r.stampAt)
  }

  /** Every entry ever appended. */
  function History(log: seq<Recording>): seq<Entry> {
    if log == [] then []
    else
      var r := log[|log| - 1];
      History(log[..|log| - 1]) + [Entry(r.tx, r.stampAt)]
  }

  /** The clock does not run backwards from one reading to the next. */
  predicate Monotone(log: seq<Recording>) {
    && (forall r :: r in log ==> r.evictAt <= r.stampAt)
    && (forall i, j :: 0 <= i < j < |log| ==> log[i].stampAt <= log[j].evictAt)
  }

  predicate Sorted(entries: seq<Entry>) {
    forall i, j :: 0 <= i < j < |entries| ==> entries[i].recordedAt <= entries[j].recordedAt
  }

  function Max(a: int, b: int): int { if a >= b then a else b }

  /** Two cutoffs in a row act as the later one. */
  lemma KeptTwice(entries: seq<Entry>, c: int, d: int)
    ensures Kept(Kept(entries, c), d) == Kept(entries, Max(c, d))
  {
    if c <= d {
      FilterNested(entries, After(c), After(d));
    } else {
      KeptNested(entries, c, d);
    }
  }

  lemma {:induction false} KeptNested(entries: seq<Entry>, c: int, d: int)
    requires d <= c
    ensures Kept(Kept(entries, c), d) == Kept(entries, c)
  {
    forall e | e in Kept(entries, c) ensures After(d)(e) {
      FilterMember(entries, After(c), e);
    }
    FilterAll(Kept(entries, c), After(d));
  }

  /** The window is the history cut at the last eviction. */
  lemma {:induction false} ReplayIsCutHistory(log: seq<Recording>, ttl: int)
    requires log != [] && ttl > 0 && Monotone(log)
    ensures Replay(log, ttl) == Kept(History(log), log[|log| - 1].evictAt - ttl)
  {
    hide Filter;
    var init, r := log[..|log| - 1], log[|log| - 1];
    var cutoff := r.evictAt - ttl;
    FilterAppend(History(init), Entry(r.tx, r.stampAt), After(cutoff));
    if init != [] {
      ReplayIsCutHistory(init, ttl);
      var previous := init[|init| - 1];
      assert previous == log[|log| - 2] && previous.evictAt <= previous.stampAt <= r.evictAt;
      KeptTwice(History(init), previous.evictAt - ttl, cutoff);
    }
  }

  /** A query at a time no earlier than the last eviction ranges over exactly
      the history entries younger than both the TTL at that eviction and the
      span at the query. */
  lemma QueryRange(log: seq<Recording>, ttl: int, span: int, at: int)
    requires log != [] && ttl > 0 && Monotone(log) && at >= log[|log| - 1].evictAt
    ensures Kept(Replay(log, ttl), at - span)
         == Kept(History(log), Max(log[|log| - 1].evictAt - ttl, at - span))
  {
    ReplayIsCutHistory(log, ttl);
    KeptTwice(History(log), log[|log| - 1].evictAt - ttl, at - span);
  }

  /** Within the TTL, eviction is invisible to queries. */
  lemma SpanWithinTtl(log: seq<Recording>, ttl: int, span: int, at: int)
    requires log != [] && ttl > 0 && Monotone(log) && at >= log[|log| - 1].evictAt
    requires span <= ttl
    ensures Kept(Replay(log, ttl), at - span) == Kept(History(log), at - span)
  {
    QueryRange(log, ttl, span, at);
  }

  /** A span longer than the TTL by at least the time since the last eviction
      adds nothing: the query sees the TTL's worth of history and no more. */
  lemma LongSpanSeesTtl(log: seq<Recording>, ttl: int, span: int, at: int)
    requires log != [] && ttl > 0 && Monotone(log) && at >= log[|log| - 1].evictAt
    requires span >= ttl + (at - log[|log| - 1].evictAt)
    ensures Kept(Replay(log, ttl), at - span) == Replay(log, ttl) == Kept(History(log), log[|log| - 1].evictAt - ttl)
  {
    ReplayIsCutHistory(log, ttl);
    QueryRange(log, ttl, span, at);
  }

  lemma {:induction false} EqualCuts(entries: seq<Entry>, c: int, d: int)
    requires c <= d
    ensures Kept(entries, c) == Kept(entries, d) <==>
              (forall e :: e in entries ==> !(c < e.recordedAt <= d))
  {
    if forall e :: e in entries ==> !(c < e.recordedAt <= d) {
      FilterAgree(entries, After(c), After(d));
    } else {
      var e :| e in entries && c < e.recordedAt <= d;
      FilterMember(entries, After(c), e);
      FilterMember(entries, After(d), e);
    }
  }

  /** For any span, exactly when the answer is the never-evicted one: when no
      entry in span is already older than the TTL was at the last eviction. */
  lemma QueryExact(log: seq<Recording>, ttl: int, span: int, at: int)
    requires log != [] && ttl > 0 && Monotone(log) && at >= log[|log| - 1].evictAt
    ensures Kept(Replay(log, ttl), at - span) == Kept(History(log), at - span) <==>
              (forall e :: e in History(log) ==>
                !(at - span < e.recordedAt <= log[|log| - 1].evictAt - ttl))
  {
    QueryRange(log, ttl, span, at);
    var cut := log[|log| - 1].evictAt - ttl;
    if at - span <= cut {
      EqualCuts(History(log), at - span, cut);
    }
  }

  /** Entries stay in the order of their time stamps. */
  lemma {:induction false} HistorySorted(log: seq<Recording>)
    requires Monotone(log)
    ensures Sorted(History(log)) && |History(log)| == |log|
    ensures forall i :: 0 <= i < |log| ==> History(log)[i] == Entry(log[i].tx, log[i].stampAt)
  {
    if log != [] {
      HistorySorted(log[..|log| - 1]);
    }
  }

  /** What a cutoff removes from a sorted window is a prefix. */
  lemma {:induction false} EvictionDropsPrefix(entries: seq<Entry>, cutoff: int) returns (n: nat)
    requires Sorted(entries)
    ensures n <= |entries| && Kept(entries, cutoff) == entries[n..]
    ensures forall i :: 0 <= i < n ==> entries[i].recordedAt <= cutoff
  {
    if entries == [] {
      n := 0;
    } else {
      var init, last := entries[..|entries| - 1], entries[|entries| - 1];
      n := EvictionDropsPrefix(init, cutoff);
      if last.recordedAt > cutoff {
        assert init[n..] + [last] == entries[n..];
      } else {
        if n < |init| {
          assert entries[n] == init[n..][0] && entries[n].recordedAt <= last.recordedAt;
          FilterMember(init, After(cutoff), entries[n]);
        }
        n := |entries|;
      }
    }
  }

  // ---- windows are sorted, so cutoffs take prefixes off them ----

  ghost predicate SuffixOf<T>(a: seq<T>, b: seq<T>) {
    |a| <= |b| && a == b[|b| - |a|..]
  }

  lemma SortedEvictsPrefix(entries: seq<Entry>, cutoff: int)
    ensures Sorted(entries) ==> SuffixOf(Kept(entries, cutoff), entries)
  {
    if Sorted(entries) {
      var n := EvictionDropsPrefix(entries, cutoff);
    }
  }

  /** The windows that Record builds under a clock that does not run backwards
      are sorted, so what any eviction or query cutoff takes off one is a prefix. */
  lemma WindowEvictsPrefix(log: seq<Recording>, ttl: int, cutoff: int)
    requires ttl > 0 && Monotone(log)
    ensures Sorted(Replay(log, ttl)) && SuffixOf(Kept(Replay(log, ttl), cutoff), Replay(log, ttl))
  {
    if log != [] {
      ReplayIsCutHistory(log, ttl);
      HistorySorted(log);
      var n := EvictionDropsPrefix(History(log), log[|log| - 1].evictAt - ttl);
    }
    SortedEvictsPrefix(Replay(log, ttl), cutoff);
  }

  lemma SortedRecorded(window: seq<Entry>, tx: Transaction, ttl: int, evictAt: int, stampAt: int)
    ensures (Sorted(window) && forall e :: e in window ==> e.recordedAt <= stampAt) ==>
              Sorted(Recorded(window, tx, ttl, evictAt, stampAt))
  {
    if Sorted(window) {
      SortedEvictsPrefix(window, evictAt - ttl);
    }
  }

  // ---- what a TTL shorter than a span loses ----

  /** Two recordings, the first evicted by the second exactly one TTL later. */
  function TwoRecordings(first: Transaction, second: Transaction, ttl: int): seq<Recording> {
    [Recording(first, 0, 0), Recording(second, ttl, ttl)]
  }

  lemma TwoRecordingsReplay(first: Transaction, second: Transaction, ttl: int)
    requires ttl > 0
    ensures Monotone(TwoRecordings(first, second, ttl))
    ensures History(TwoRecordings(first, second, ttl)) == [Entry(first, 0), Entry(second, ttl)]
    ensures Replay(TwoRecordings(first, second, ttl), ttl) == [Entry(second, ttl)]
  {
    var log := TwoRecordings(first, second, ttl);
    assert log[..1] == [Recording(first, 0, 0)] && log[..1][..0] == [];
    assert Replay(log[..1], ttl) == [Entry(first, 0)] && History(log[..1]) == [Entry(first, 0)];
    FilterAppend([], Entry(first, 0), After(0));
    assert [] + [Entry(first, 0)] == [Entry(first, 0)];
  }

  lemma KeptAll(entries: seq<Entry>, cutoff: int)
    requires forall e :: e in entries ==> e.recordedAt > cutoff
    ensures Kept(entries, cutoff) == entries
  {
    FilterAll(entries, After(cutoff));
  }

  /** For every span above the TTL there is a log, and a time right after its
      last Record, at which an entry in span is missing from the answer: the
      channel count is 1 where the history has 2. */
  lemma LongSpanLoses(tx: Transaction, ttl: int, span: int)
    requires 0 < ttl < span
    ensures var log := TwoRecordings(tx, tx, ttl);
            && Monotone(log)
            && CountOn(Kept(History(log), ttl - span), tx.channel) == 2
            && CountOn(Kept(Replay(log, ttl), ttl - span), tx.channel) == 1
  {
    var log := TwoRecordings(tx, tx, ttl);
    TwoRecordingsReplay(tx, tx, ttl);
    KeptAll(History(log), ttl - span);
    KeptAll(Replay(log, ttl), ttl - span);
    FilterAll(History(log), OnChannel(tx.channel));
    FilterAll(Replay(log, ttl), OnChannel(tx.channel));
  }

  predicate CanAsk(log: seq<Recording>, at: int) {
    log != [] && Monotone(log) && at >= log[|log| - 1].evictAt
  }

  predicate Complete(log: seq<Recording>, ttl: int, span: int, at: int) {
    Kept(Replay(log, ttl), at - span) == Kept(History(log), at - span)
  }

  ghost predicate NeverLoses(ttl: int, span: int) {
    forall log, at :: CanAsk(log, at) ==> Complete(log, ttl, span, at)
  }

  /** The TTL never shows in what a query sees exactly when the span is within it. */
  lemma NeverLosesExactly(tx: Transaction, ttl: int, span: int)
    requires ttl > 0
    ensures NeverLoses(ttl, span) <==> span <= ttl
  {
    if span <= ttl {
      forall log, at | CanAsk(log, at) ensures Complete(log, ttl, span, at)
      {
        SpanWithinTtl(log, ttl, span, at);
      }
    } else {
      LongSpanLoses(tx, ttl, span);
      var log := TwoRecordings(tx, tx, ttl);
      assert CanAsk(log, ttl) && !Complete(log, ttl, span, ttl);
    }
  }

  /** The default rule that looks back 3600 s for a far transaction, over the
      600 s that are kept: of two transactions 600 s apart it misses the first,
      however far away it was made. */
  lemma HourlyRuleMisses(lib: Library, far: Transaction, near: Transaction)
    requires far.transactionId != near.transactionId && lib.distance(near.geo, far.geo) > 100.0
    ensures var second := 1_000_000_000;
            var log, at := TwoRecordings(far, near, 600 * second), 600 * second;
            && Monotone(log) && at == log[1].evictAt
            && MaxKm(lib, Kept(History(log), at - 3600 * second), near) > 100.0
            && MaxKm(lib, Kept(Replay(log, 600 * second), at - 3600 * second), near) == 0.0
  {
    var ttl, span := 600_000_000_000, 3_600_000_000_000;
    var log := TwoRecordings(far, near, ttl);
    TwoRecordingsReplay(far, near, ttl);
    KeptAll(History(log), ttl - span);
    KeptAll(Replay(log, ttl), ttl - span);
    MaxKmIsMaximum(lib, History(log), near);
    assert History(log)[0] == Entry(far, 0);
    assert [Entry(near, ttl)][..0] == [];
  }

  // ---- the three channel counts against the device count ----

  lemma {:induction false} DevicesBounded(entries: seq<Entry>)
    ensures |Devices(entries)| <= |entries|
  {
    if entries != [] {
      var init, last := entries[..|entries| - 1], entries[|entries| - 1];
      DevicesBounded(init);
      assert entries == init + [last];
      DevicesAppend(init, last);
    }
  }

  lemma {:induction false} CountsPartition(entries: seq<Entry>)
    requires forall e :: e in entries ==> e.tx.channel.Valid()
    ensures CountOn(entries, Pix) + CountOn(entries, Ted) + CountOn(entries, Card) == |entries|
  {
    if entries != [] {
      var last := entries[|entries| - 1];
      assert last in entries;
      CountsPartition(entries[..|entries| - 1]);
    }
  }

  /** Over entries of known channels, the channel counts add up to the number of
      entries, which bounds the number of distinct devices. */
  lemma ChannelsPartition(entries: seq<Entry>)
    requires forall e :: e in entries ==> e.tx.channel.Valid()
    ensures CountOn(entries, Pix) + CountOn(entries, Ted) + CountOn(entries, Card) == |entries|
    ensures |Devices(entries)| <= |entries|
  {
    CountsPartition(entries);
    DevicesBounded(entries);
  }

  /** A later cutoff leaves no more entries of a channel. */
  lemma {:induction false} CountAntitone(entries: seq<Entry>, c: int, d: int, channel: Channel)
    requires c <= d
    ensures CountOn(Kept(entries, d), channel) <= CountOn(Kept(entries, c), channel)
  {
    if entries != [] {
      var init, last := entries[..|entries| - 1], entries[|entries| - 1];
      CountAntitone(init, c, d, channel);
      FilterAppend(Kept(init, c), last, OnChannel(channel));
      FilterAppend(Kept(init, d), last, OnChannel(channel));
    }
  }

  /** Counts of the three channels as of three cutoffs, none earlier than the
      one before: their sum lies between the entries after the last cutoff and
      the entries after the first. */
  lemma CountsBetween(entries: seq<Entry>, first: int, second: int, third: int)
    requires first <= second <= third && forall e :: e in entries ==> e.tx.channel.Valid()
    ensures var sum := CountOn(Kept(entries, first), Pix) + CountOn(Kept(entries, second), Ted)
        + CountOn(Kept(entries, third), Card);
            |Kept(entries, third)| <= sum <= |Kept(entries, first)|
  {
    KeptValid(entries, first);
    KeptValid(entries, third);
    ChannelsPartition(Kept(entries, first));
    ChannelsPartition(Kept(entries, third));
    CountAntitone(entries, first, second, Ted);
    CountAntitone(entries, second, third, Ted);
    CountAntitone(entries, first, third, Pix);
    CountAntitone(entries, first, third, Card);
  }

  lemma KeptValid(entries: seq<Entry>, cutoff: int)
    requires forall e :: e in entries ==> e.tx.channel.Valid()
    ensures forall e :: e in Kept(entries, cutoff) ==> e.tx.channel.Valid()
  {
    forall e | e in Kept(entries, cutoff) ensures e.tx.channel.Valid() {
      FilterMember(entries, After(cutoff), e);
    }
  }

  // ---- the store ----

  /** A slice header: the first len elements of a backing array. */
  datatype Slice = Slice(buf: array<Entry>, len: nat)

  class Store {
    var byCust: map<string, Slice>
    var down: bool

    ghost function Bufs(): set<array<Entry>>
      reads this`byCust
    {
      set c | c in byCust :: byCust[c].buf
    }

    ghost predicate Valid()
      reads this`byCust, Bufs()
    {
      && (forall c :: c in byCust ==> byCust[c].len <= byCust[c].buf.Length)
      && (forall c, d :: c in byCust && d in byCust && c != d ==> byCust[c].buf != byCust[d].buf)
    }

    ghost function Window(customerId: string): seq<Entry>
      requires Valid()
      reads this`byCust, Bufs()
    {
      if customerId in byCust then byCust[customerId].buf[..byCust[customerId].len] else []
    }

    constructor ()
      ensures Valid() && Bufs() == {} && !down
      ensures forall c :: Window(c) == []
    {
      byCust, down := map[], false;
    }

    method SetDown(d: bool)
      modifies this`down
      ensures down == d
    {
      down := d;
    }

    /** Compacts the first len entries of buf into its own front while reading
        them: the write position never overtakes the read position. */
    static method CompactInPlace(buf: array<Entry>, len: nat, cutoff: int) returns (kept: nat)
      requires len <= buf.Length
      modifies buf
      ensures kept <= len
      ensures buf[..kept] == Kept(old(buf[..len]), cutoff)
      ensures buf[len..] == old(buf[len..])
    {
      kept := 0;
      ghost var before := buf[..];
      for i := 0 to len
        invariant kept <= i
        invariant buf[..kept] == Kept(before[..i], cutoff)
        invariant forall j :: i <= j < buf.Length ==> buf[j] == before[j]
      {
        var e := buf[i];
        assert e == before[i] && before[..i + 1] == before[..i] + [before[i]];
        FilterAppend(before[..i], e, After(cutoff));
        if e.recordedAt > cutoff {
          buf[kept] := e;
          kept := kept + 1;
          assert buf[..kept] == buf[..kept - 1] + [e];
        }
      }
      assert before[..len] == old(buf[..len]);
    }

    /** Drops the customer's entries older than ttl: a prefix, if the window is sorted. */
    method Evict(customerId: string, ttl: int, now: int)
      requires Valid()
      modifies this`byCust, Bufs()
      ensures Valid() && fresh(Bufs() - old(Bufs()))
      ensures customerId in byCust
      ensures Window(customerId) == Kept(old(Window(customerId)), now - ttl)
      ensures Sorted(old(Window(customerId))) ==> SuffixOf(Window(customerId), old(Window(customerId)))
      ensures forall d :: d != customerId ==> Window(d) == old(Window(d))
    {
      hide Sorted, SuffixOf;
      SortedEvictsPrefix(Window(customerId), now - ttl);
      if customerId in byCust {
        var slice := byCust[customerId];
        var kept := CompactInPlace(slice.buf, slice.len, now - ttl);
        byCust := byCust[customerId := Slice(slice.buf, kept)];
      } else {
        var none := new Entry[0];
        byCust := byCust[customerId := Slice(none, 0)];
      }
    }

    /** Appends to the customer's slice, in place while the array has room. */
    method Append(customerId: string, e: Entry)
      requires Valid() && customerId in byCust
      modifies this`byCust, Bufs()
      ensures Valid() && fresh(Bufs() - old(Bufs()))
      ensures Window(customerId) == old(Window(customerId)) + [e]
      ensures forall d :: d != customerId ==> Window(d) == old(Window(d))
    {
      var slice := byCust[customerId];
      if slice.len < slice.buf.Length {
        slice.buf[slice.len] := e;
        byCust := byCust[customerId := Slice(slice.buf, slice.len + 1)];
        assert slice.buf[..slice.len + 1] == old(slice.buf[..slice.len]) + [e];
      } else {
        var grown := new Entry[2 * slice.len + 1](_ => e);
        forall i | 0 <= i < slice.len {
          grown[i] := slice.buf[i];
        }
        byCust := byCust[customerId := Slice(grown, slice.len + 1)];
        assert grown[..slice.len + 1] == old(slice.buf[..slice.len]) + [e];
      }
    }

    /** False means the store is down, and then nothing has changed. */
    method Record(customerId: string, tx: Transaction, ttl: int, evictAt: int, stampAt: int) returns (ok: bool)
      requires Valid()
      modifies this`byCust, Bufs()
      ensures Valid() && fresh(Bufs() - old(Bufs()))
      ensures ok == !down
      ensures Window(customerId) ==
                if ok then Recorded(old(Window(customerId)), tx, ttl, evictAt, stampAt)
                else old(Window(customerId))
      ensures Sorted(old(Window(customerId)))
              && (forall e :: e in old(Window(customerId)) ==> e.recordedAt <= stampAt) ==>
                Sorted(Window(customerId))
      ensures forall d :: d != customerId ==> Window(d) == old(Window(d))
    {
      if down {
        return false;
      }
      Evict(customerId, ttl, evictAt);
      Append(customerId, Entry(tx, stampAt));
      SortedRecorded(old(Window(customerId)), tx, ttl, evictAt, stampAt);
      return true;
    }

    method CountByChannel(customerId: string, channel: Channel, span: int, now: int) returns (r: Option<nat>)
      requires Valid()
      ensures r == if down then None else Some(CountOn(Kept(Window(customerId), now + Negated(span)), channel))
      ensures r.Some? ==>
                var w := Kept(Window(customerId), now + Negated(span));
                r.value == |set i: nat | i < |w| && w[i].tx.channel == channel|
    {
      CountOnPositions(Kept(Window(customerId), now + Negated(span)), channel);
      if down {
        return None;
      }
      var cutoff, count := now + Negated(span), 0;
      if customerId in byCust {
        var slice := byCust[customerId];
        ghost var w := slice.buf[..slice.len];
        for i := 0 to slice.len
          invariant count == CountOn(Kept(w[..i], cutoff), channel)
        {
          var e := slice.buf[i];
          assert w[..i + 1] == w[..i] + [e];
          FilterAppend(w[..i], e, After(cutoff));
          FilterAppend(Kept(w[..i], cutoff), e, OnChannel(channel));
          if e.tx.channel == channel && e.recordedAt > cutoff {
            count := count + 1;
          }
        }
        assert w[..slice.len] == w == Window(customerId);
      }
      return Some(count);
    }

    method MaxDistanceKm(lib: Library, customerId: string, tx: Transaction, span: int, now: int)
      returns (r: Option<real>)
      requires Valid()
      ensures r == if down then None else Some(MaxKm(lib, Kept(Window(customerId), now + Negated(span)), tx))
    {
      if down {
        return None;
      }
      var cutoff, maxKm := now + Negated(span), 0.0;
      if customerId in byCust {
        var slice := byCust[customerId];
        ghost var w := slice.buf[..slice.len];
        for i := 0 to slice.len
          invariant maxKm == MaxKm(lib, Kept(w[..i], cutoff), tx)
        {
          var e := slice.buf[i];
          assert w[..i + 1] == w[..i] + [e];
          FilterAppend(w[..i], e, After(cutoff));
          assert (Kept(w[..i], cutoff) + [e])[..|Kept(w[..i], cutoff)|] == Kept(w[..i], cutoff);
          if e.tx.transactionId != tx.transactionId && e.recordedAt > cutoff {
            var d := lib.distance(tx.geo, e.tx.geo);
            if d > maxKm {
              maxKm := d;
            }
          }
        }
        assert w[..slice.len] == w == Window(customerId);
      }
      return Some(maxKm);
    }

    method DistinctDeviceCount(customerId: string, span: int, now: int) returns (r: Option<nat>)
      requires Valid()
      ensures r == if down then None else Some(|Devices(Kept(Window(customerId), now + Negated(span)))|)
      ensures r.Some? ==>
                var w := Kept(Window(customerId), now + Negated(span));
                r.value == |set i: nat | i < |w| && w[i].tx.deviceId != ""
                              && (forall j :: 0 <= j < i ==> w[j].tx.deviceId != w[i].tx.deviceId)|
    {
      DevicesPositions(Kept(Window(customerId), now + Negated(span)));
      if down {
        return None;
      }
      var cutoff: int, devices: set<string> := now + Negated(span), {};
      if customerId in byCust {
        var slice := byCust[customerId];
        ghost var w := slice.buf[..slice.len];
        for i := 0 to slice.len
          invariant devices == Devices(Kept(w[..i], cutoff))
        {
          var e := slice.buf[i];
          assert w[..i + 1] == w[..i] + [e];
          FilterAppend(w[..i], e, After(cutoff));
          if e.tx.deviceId != "" && e.recordedAt > cutoff {
            devices := devices + {e.tx.deviceId};
          }
        }
        assert w[..slice.len] == w == Window(customerId);
      }
      return Some(|devices|);
    }
  }
}
