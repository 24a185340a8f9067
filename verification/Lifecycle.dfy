// Rows of detected opportunities: how a detection updates one and how it ages out.
//
// The one-to-one screener (backend/src/option_arb/services/screener.py) and the structured one
// (backend/src/option_arb/structured/screener.py) keep the same columns and differ in which row a
// detection is credited to.  With every row go the snapshots stored for it and, for the statements
// below, every detection it ever absorbed.
module Lifecycle {
  import opened RealArithmetic
  import opened Snapshots
  import opened StableSorting
  import opened Wrappers

  datatype LiveStatus = Live | Stale | Gone // Gone: the instrument's expiry has passed

  datatype CloseReason = ByStaleness | ByExpiry

  datatype Key =
    | Pair(instrument: string, buyFrom: string, sellTo: string)
    | Structure(strategy: string, underlying: string, expires: int, strikes: seq<real>)

  // `value` is the profit in USD, `rate` the APR of a pair or the edge per unit of a structure, and
  // `figures` are the other economics, in column order.
  datatype Detection = Detection(
    key: Key, expiry: int, value: real, rate: real, figures: seq<real>, mix: seq<LegId>)

  datatype Row = Row(
    key: Key,
    detectedAt: int,
    expiry: int,
    value: real,
    rate: real,
    figures: seq<real>,
    mix: seq<LegId>,
    live: LiveStatus,
    lastSeenAt: int,
    samplesCount: nat,
    peakValue: real,
    peakRate: real,
    closedAt: Option<int>,
    closeReason: Option<CloseReason>,
    lastSnapshotAt: Option<int>,
    lastSnapshotValue: Option<real>)

  datatype Entry = Entry(row: Row, snaps: seq<Sample>, seen: seq<Sample>)

  function Sampled(d: Detection, now: int): Sample {
    Sample(now, d.value, d.rate, d.figures, d.mix)
  }

  function NewEntry(d: Detection, now: int): Entry {
    Entry(Row(d.key, now, d.expiry, d.value, d.rate, d.figures, d.mix, Live, now, 1, d.value, d.rate, None,
              None, Some(now), Some(d.value)),
          [Sampled(d, now)], [Sampled(d, now)])
  }

  function Due(r: Row, d: Detection, now: int, c: Cadence): bool {
    ShouldSnapshot(r.lastSnapshotAt, r.lastSnapshotValue, d.value, now, c, r.mix != d.mix)
  }

  function Refreshed(e: Entry, d: Detection, now: int, c: Cadence): Entry {
    var due := Due(e.row, d, now, c);
    Entry(
      e.row.(
        live := Live, closedAt := None, closeReason := None,
        value := d.value, rate := d.rate, figures := d.figures, mix := d.mix,
        lastSeenAt := now, samplesCount := e.row.samplesCount + 1,
        peakValue := Max(e.row.peakValue, d.value), peakRate := Max(e.row.peakRate, d.rate),
        lastSnapshotAt := if due then Some(now) else e.row.lastSnapshotAt,
        lastSnapshotValue := if due then Some(d.value) else e.row.lastSnapshotValue),
      if due then e.snaps + [Sampled(d, now)] else e.snaps,
      e.seen + [Sampled(d, now)])
  }

  function Expired(r: Row, now: int): Row {
    if r.live == Live && r.expiry < now then
      r.(live := Gone, closedAt := Some(now), closeReason := Some(ByExpiry))
    else r
  }

  function Wilted(r: Row, now: int, closeAfter: int): Row {
    if r.live == Live && r.lastSeenAt < now - closeAfter then
      r.(live := Stale, closedAt := Some(now), closeReason := Some(ByStaleness))
    else r
  }

  // The two updates of _close_stale, expiry first.
  function Aged(r: Row, now: int, closeAfter: int): Row {
    Wilted(Expired(r, now), now, closeAfter)
  }

  function AgedEntry(e: Entry, now: int, closeAfter: int): Entry {
    e.(row := Aged(e.row, now, closeAfter))
  }

  function CloseStale(table: seq<Entry>, now: int, closeAfter: int): seq<Entry> {
    seq(|table|, i requires 0 <= i < |table| => AgedEntry(table[i], now, closeAfter))
  }

  // How a detection changes a table.
  type Absorber = (seq<Entry>, Detection) -> seq<Entry>

  function AbsorbAll(table: seq<Entry>, ds: seq<Detection>, absorb: Absorber): seq<Entry> {
    if ds == [] then table else absorb(AbsorbAll(table, Front(ds), absorb), Last(ds))
  }

  lemma AbsorbedNext(table: seq<Entry>, ds: seq<Detection>, i: nat, absorb: Absorber)
    requires i <= |ds|
    ensures AbsorbAll(table, [], absorb) == table
    ensures i < |ds| ==> AbsorbAll(table, ds[..i + 1], absorb) == absorb(AbsorbAll(table, ds[..i], absorb), ds[i])
  {
    assert i < |ds| ==> Front(ds[..i + 1]) == ds[..i];
  }

  // ---------------------------------------------------------------------------------------------
  // What every row satisfies
  // ---------------------------------------------------------------------------------------------

  predicate ClosedIffNotLive(r: Row) {
    && (r.closedAt.Some? <==> r.live != Live)
    && (r.closeReason == None <==> r.live == Live)
    && (r.closeReason == Some(ByStaleness) <==> r.live == Stale)
    && (r.closeReason == Some(ByExpiry) <==> r.live == Gone)
  }

  function Value(s: Sample): real {
    s.value
  }

  function Rate(s: Sample): real {
    s.rate
  }

  predicate IsMaxOf(peak: real, seen: seq<Sample>, f: Sample -> real) {
    && (forall k :: 0 <= k < |seen| ==> f(seen[k]) <= peak)
    && (exists k :: 0 <= k < |seen| && f(seen[k]) == peak)
  }

  // The row sums up what was detected: when first, how often, the latest figures, the best ever.
  predicate SumsUp(r: Row, seen: seq<Sample>) {
    && seen != [] && r.samplesCount == |seen|
    && seen[0].ts == r.detectedAt
    && Last(seen) == Sample(r.lastSeenAt, r.value, r.rate, r.figures, r.mix)
    && IsMaxOf(r.peakValue, seen, Value)
    && IsMaxOf(r.peakRate, seen, Rate)
  }

  // The stored snapshots represent everything detected, and the row remembers the latest one.
  predicate SnapshotsOk(e: Entry, c: Cadence) {
    && Kept(e.seen, e.snaps, c)
    && e.row.lastSnapshotAt == Some(Last(e.snaps).ts)
    && e.row.lastSnapshotValue == Some(Last(e.snaps).value)
  }

  predicate EntryOk(e: Entry, clock: int, c: Cadence) {
    && ClosedIffNotLive(e.row)
    && SumsUp(e.row, e.seen)
    && SnapshotsOk(e, c)
    && e.row.detectedAt <= e.row.lastSeenAt <= clock
  }

  predicate EntriesOk(table: seq<Entry>, clock: int, c: Cadence) {
    forall i :: 0 <= i < |table| ==> EntryOk(table[i], clock, c)
  }

  lemma SoundRow(table: seq<Entry>, clock: int, c: Cadence, i: nat)
    requires EntriesOk(table, clock, c) && i < |table|
    ensures ClosedIffNotLive(table[i].row) && table[i].row.detectedAt <= clock
  {
    assert EntryOk(table[i], clock, c);
    hide SumsUp, SnapshotsOk;
  }

  // Live rows are unexpired and recently seen.
  predicate Current(r: Row, now: int, closeAfter: int) {
    r.live == Live ==> now <= r.expiry && now - closeAfter <= r.lastSeenAt
  }

  predicate AllCurrent(table: seq<Entry>, now: int, closeAfter: int) {
    forall i :: 0 <= i < |table| ==> Current(table[i].row, now, closeAfter)
  }

  predicate OneLivePerKey(table: seq<Entry>) {
    forall i, j :: 0 <= i < j < |table| && table[i].row.key == table[j].row.key ==>
      table[i].row.live != Live || table[j].row.live != Live
  }

  // ---------------------------------------------------------------------------------------------
  // Every step keeps it
  // ---------------------------------------------------------------------------------------------

  lemma MaxExtends(peak: real, seen: seq<Sample>, s: Sample, f: Sample -> real)
    requires IsMaxOf(peak, seen, f)
    ensures IsMaxOf(Max(peak, f(s)), seen + [s], f)
  {
    var k :| 0 <= k < |seen| && f(seen[k]) == peak;
    assert (seen + [s])[k] == seen[k] && (seen + [s])[|seen|] == s;
  }

  lemma OnlySampleIsMax(s: Sample, f: Sample -> real)
    ensures IsMaxOf(f(s), [s], f)
  {
    assert [s][0] == s;
  }

  // A first detection gives a sound row.
  lemma NewEntryIsOk(d: Detection, now: int, c: Cadence)
    ensures EntryOk(NewEntry(d, now), now, c)
  {
    FirstSampleIsKept(Sampled(d, now), c);
    OnlySampleIsMax(Sampled(d, now), Value);
    OnlySampleIsMax(Sampled(d, now), Rate);
    hide Kept, IsMaxOf;
  }

  lemma RefreshedSumsUp(e: Entry, d: Detection, now: int, c: Cadence)
    requires SumsUp(e.row, e.seen)
    ensures SumsUp(Refreshed(e, d, now, c).row, Refreshed(e, d, now, c).seen)
  {
    MaxExtends(e.row.peakValue, e.seen, Sampled(d, now), Value);
    MaxExtends(e.row.peakRate, e.seen, Sampled(d, now), Rate);
    hide IsMaxOf, Due;
  }

  lemma RefreshedSnapshots(e: Entry, d: Detection, now: int, c: Cadence)
    requires SumsUp(e.row, e.seen) && SnapshotsOk(e, c) && e.row.lastSeenAt <= now
    ensures SnapshotsOk(Refreshed(e, d, now, c), c)
  {
    var s := Sampled(d, now);
    RecordingIsKept(e.seen, e.snaps, s, c);
    assert e.snaps != [] && Last(e.seen).mix == e.row.mix;
    assert Refreshed(e, d, now, c).snaps == Recorded(e.seen, e.snaps, s, c);
    hide Kept, IsMaxOf;
  }

  // A detection credited to a sound row leaves a sound row.
  lemma RefreshedIsOk(e: Entry, d: Detection, clock: int, now: int, c: Cadence)
    requires EntryOk(e, clock, c) && clock <= now
    ensures EntryOk(Refreshed(e, d, now, c), now, c)
  {
    RefreshedSumsUp(e, d, now, c);
    RefreshedSnapshots(e, d, now, c);
    hide SumsUp, SnapshotsOk, Due;
  }

  lemma AgedIsOk(e: Entry, now: int, closeAfter: int, c: Cadence)
    requires EntryOk(e, now, c)
    ensures EntryOk(AgedEntry(e, now, closeAfter), now, c)
    ensures Current(AgedEntry(e, now, closeAfter).row, now, closeAfter)
  {
    hide IsMaxOf, Kept;
  }

  // A live row is closed, at this instant, exactly when it has expired or was not seen for too long;
  // expiry is the reason that counts.  Nothing else about any row changes.
  lemma ClosingIsJustified(e: Entry, now: int, closeAfter: int)
    ensures var r, r' := e.row, AgedEntry(e, now, closeAfter).row;
      && (r.live == Live ==> (r'.live != Live <==> r.expiry < now || r.lastSeenAt < now - closeAfter))
      && (r.live == Live && r'.live != Live ==>
            r'.closedAt == Some(now) && (r'.closeReason == Some(ByExpiry) <==> r.expiry < now))
      && r' == r.(live := r'.live, closedAt := r'.closedAt, closeReason := r'.closeReason)
      && (r.live != Live ==> r' == r)
  {}

  // The sweep keeps every row sound and leaves only current rows live.
  lemma CloseStaleIsOk(table: seq<Entry>, now: int, closeAfter: int, c: Cadence)
    requires EntriesOk(table, now, c)
    ensures EntriesOk(CloseStale(table, now, closeAfter), now, c)
    ensures AllCurrent(CloseStale(table, now, closeAfter), now, closeAfter)
  {
    forall i | 0 <= i < |table|
      ensures EntryOk(CloseStale(table, now, closeAfter)[i], now, c)
      ensures Current(CloseStale(table, now, closeAfter)[i].row, now, closeAfter)
    {
      AgedIsOk(table[i], now, closeAfter, c);
    }
    hide EntryOk, Current, AgedEntry;
  }

  lemma LaterIsOk(table: seq<Entry>, clock: int, now: int, c: Cadence)
    requires EntriesOk(table, clock, c) && clock <= now
    ensures EntriesOk(table, now, c)
  {
    hide ClosedIffNotLive, SumsUp, SnapshotsOk;
  }

  lemma CreditingIsOk(table: seq<Entry>, i: nat, d: Detection, clock: int, now: int, c: Cadence)
    requires i < |table| && EntriesOk(table, clock, c) && clock <= now
    ensures EntriesOk(table[i := Refreshed(table[i], d, now, c)], now, c)
  {
    RefreshedIsOk(table[i], d, clock, now, c);
    LaterIsOk(table, clock, now, c);
    hide EntryOk, Refreshed;
  }

  lemma AppendingIsOk(table: seq<Entry>, e: Entry, clock: int, c: Cadence)
    requires EntriesOk(table, clock, c) && EntryOk(e, clock, c)
    ensures EntriesOk(table + [e], clock, c)
  {
    hide EntryOk;
  }

  lemma CreatingIsOk(table: seq<Entry>, d: Detection, clock: int, now: int, c: Cadence)
    requires EntriesOk(table, clock, c) && clock <= now
    ensures EntriesOk(table + [NewEntry(d, now)], now, c)
  {
    NewEntryIsOk(d, now, c);
    LaterIsOk(table, clock, now, c);
    hide EntryOk, NewEntry;
    var created := NewEntry(d, now);
    AppendingIsOk(table, created, now, c);
  }

  // ---------------------------------------------------------------------------------------------
  // Detections end up on rows
  // ---------------------------------------------------------------------------------------------

  // The row carries what was detected now.
  predicate Carries(r: Row, d: Detection, now: int) {
    && r.key == d.key && r.live == Live && r.lastSeenAt == now
    && r.value == d.value && r.rate == d.rate && r.figures == d.figures && r.mix == d.mix
  }

  // The same after ageing: it is live exactly when it has not expired.
  predicate Shows(r: Row, d: Detection, now: int) {
    && r.key == d.key && (r.live == Live <==> now <= r.expiry) && r.lastSeenAt == now
    && r.value == d.value && r.rate == d.rate && r.figures == d.figures && r.mix == d.mix
  }

  predicate IsShown(table: seq<Entry>, d: Detection, now: int) {
    exists i :: 0 <= i < |table| && Shows(table[i].row, d, now)
  }

  predicate OnRow(table: seq<Entry>, d: Detection, now: int) {
    exists i :: 0 <= i < |table| && Carries(table[i].row, d, now)
  }

  predicate AllOnRows(table: seq<Entry>, ds: seq<Detection>, now: int) {
    forall k :: 0 <= k < |ds| ==> OnRow(table, ds[k], now)
  }

  predicate DistinctKeys(ds: seq<Detection>) {
    forall j, k :: 0 <= j < k < |ds| ==> ds[j].key != ds[k].key
  }

  predicate OnlyKeyChanges(before: seq<Entry>, after: seq<Entry>, key: Key) {
    && |before| <= |after|
    && (forall i :: 0 <= i < |before| && before[i].row.key != key ==> after[i] == before[i])
  }

  lemma LastAbsorbed(table: seq<Entry>, ds: seq<Detection>, absorb: Absorber)
    requires ds != []
    ensures AbsorbAll(table, ds, absorb) == absorb(AbsorbAll(table, Front(ds), absorb), Last(ds))
  {}

  // Crediting one more detection leaves the others on their rows.
  lemma OthersStay(before: seq<Entry>, after: seq<Entry>, ds: seq<Detection>, now: int)
    requires ds != [] && DistinctKeys(ds) && AllOnRows(before, Front(ds), now)
    requires OnRow(after, Last(ds), now) && OnlyKeyChanges(before, after, Last(ds).key)
    ensures AllOnRows(after, ds, now)
  {
    forall k | 0 <= k < |ds|
      ensures OnRow(after, ds[k], now)
    {
      if k < |ds| - 1 {
        assert OnRow(before, Front(ds)[k], now);
        var i :| 0 <= i < |before| && Carries(before[i].row, ds[k], now);
        assert after[i] == before[i];
      }
    }
  }

  // Absorbing a detection puts it on a row and leaves the rows of other keys alone.
  predicate CarriedBy(table: seq<Entry>, d: Detection, absorb: Absorber, now: int) {
    OnRow(absorb(table, d), d, now) && OnlyKeyChanges(table, absorb(table, d), d.key)
  }

  lemma {:induction false} AllCarried(table: seq<Entry>, ds: seq<Detection>, absorb: Absorber, now: int)
    requires DistinctKeys(ds) && forall before: seq<Entry>, d :: CarriedBy(before, d, absorb, now)
    ensures AllOnRows(AbsorbAll(table, ds, absorb), ds, now)
  {
    if ds != [] {
      var before := AbsorbAll(table, Front(ds), absorb);
      AllCarried(table, Front(ds), absorb, now);
      LastAbsorbed(table, ds, absorb);
      assert CarriedBy(before, Last(ds), absorb, now);
      hide AbsorbAll;
      OthersStay(before, absorb(before, Last(ds)), ds, now);
    }
  }

  lemma ShownAfterAgeing(table: seq<Entry>, ds: seq<Detection>, now: int, closeAfter: int, d: Detection)
    requires AllOnRows(table, ds, now) && d in ds && 0 <= closeAfter
    ensures IsShown(CloseStale(table, now, closeAfter), d, now)
  {
    var k :| 0 <= k < |ds| && ds[k] == d;
    assert OnRow(table, ds[k], now);
    var i :| 0 <= i < |table| && Carries(table[i].row, d, now);
    assert Shows(CloseStale(table, now, closeAfter)[i].row, d, now);
  }

  // So after all are absorbed and aged each of them is shown.
  lemma AbsorbedAreShown(table: seq<Entry>, ds: seq<Detection>, absorb: Absorber, now: int, closeAfter: int, d: Detection)
    requires DistinctKeys(ds) && forall before: seq<Entry>, e :: CarriedBy(before, e, absorb, now)
    requires d in ds && 0 <= closeAfter
    ensures IsShown(CloseStale(AbsorbAll(table, ds, absorb), now, closeAfter), d, now)
  {
    AllCarried(table, ds, absorb, now);
    hide AbsorbAll, CloseStale, CarriedBy;
    ShownAfterAgeing(AbsorbAll(table, ds, absorb), ds, now, closeAfter, d);
  }

  // ---------------------------------------------------------------------------------------------
  // What no step changes
  // ---------------------------------------------------------------------------------------------

  // Identity is fixed, an expired row is final, history and peaks only grow.
  predicate Continues(e: Entry, e': Entry) {
    && e'.row.key == e.row.key && e'.row.detectedAt == e.row.detectedAt && e'.row.expiry == e.row.expiry
    && (e.row.live == Gone ==> e' == e)
    && e.snaps <= e'.snaps && e.seen <= e'.seen
    && e.row.peakValue <= e'.row.peakValue && e.row.peakRate <= e'.row.peakRate
  }

  predicate TableContinues(table: seq<Entry>, table': seq<Entry>) {
    && |table| <= |table'|
    && (forall i :: 0 <= i < |table| ==> Continues(table[i], table'[i]))
  }

  lemma CreditingContinues(table: seq<Entry>, i: nat, d: Detection, now: int, c: Cadence)
    requires i < |table| && table[i].row.live != Gone
    ensures TableContinues(table, table[i := Refreshed(table[i], d, now, c)])
  {
    hide Due;
  }

  lemma ClosingContinues(table: seq<Entry>, now: int, closeAfter: int)
    ensures TableContinues(table, CloseStale(table, now, closeAfter))
  {
    forall i | 0 <= i < |table|
      ensures Continues(table[i], CloseStale(table, now, closeAfter)[i])
    {
      assert CloseStale(table, now, closeAfter)[i] == AgedEntry(table[i], now, closeAfter);
    }
  }

  lemma ContinuingChains(a: seq<Entry>, b: seq<Entry>, c: seq<Entry>)
    requires TableContinues(a, b) && TableContinues(b, c)
    ensures TableContinues(a, c)
  {
    forall i | 0 <= i < |a|
      ensures Continues(a[i], c[i])
    {
      assert Continues(a[i], b[i]) && Continues(b[i], c[i]);
    }
  }

  // ---------------------------------------------------------------------------------------------
  // The same steps as the program takes them, one column at a time
  // ---------------------------------------------------------------------------------------------

  method Refresh(e: Entry, d: Detection, now: int, c: Cadence) returns (e': Entry)
    requires ClosedIffNotLive(e.row) && e.row.live != Gone
    ensures e' == Refreshed(e, d, now, c)
  {
    var r := e.row;
    if r.live == Stale {
      r := r.(live := Live);
      r := r.(closedAt := None);
      r := r.(closeReason := None);
    }
    var take := ShouldSnapshot(r.lastSnapshotAt, r.lastSnapshotValue, d.value, now, c, r.mix != d.mix);
    r := r.(value := d.value, rate := d.rate, figures := d.figures, mix := d.mix);
    r := r.(lastSeenAt := now);
    r := r.(samplesCount := r.samplesCount + 1);
    r := r.(peakValue := Max(r.peakValue, d.value));
    r := r.(peakRate := Max(r.peakRate, d.rate));
    e' := e.(seen := e.seen + [Sampled(d, now)]);
    if take {
      e' := e'.(snaps := e.snaps + [Sampled(d, now)]);
      r := r.(lastSnapshotAt := Some(now));
      r := r.(lastSnapshotValue := Some(d.value));
    }
    e' := e'.(row := r);
  }

  method AgeOut(table: seq<Entry>, now: int, closeAfter: int) returns (aged: seq<Entry>)
    ensures |aged| == |table| && aged == CloseStale(table, now, closeAfter)
  {
    aged := table;
    for i := 0 to |table|
      invariant |aged| == |table|
      invariant forall k :: 0 <= k < i ==> aged[k] == table[k].(row := Expired(table[k].row, now))
      invariant forall k :: i <= k < |table| ==> aged[k] == table[k]
    {
      aged := aged[i := aged[i].(row := Expired(aged[i].row, now))];
    }
    for i := 0 to |table|
      invariant |aged| == |table|
      invariant forall k :: 0 <= k < i ==> aged[k] == AgedEntry(table[k], now, closeAfter)
      invariant forall k :: i <= k < |table| ==> aged[k] == table[k].(row := Expired(table[k].row, now))
    {
      aged := aged[i := aged[i].(row := Wilted(aged[i].row, now, closeAfter))];
    }
  }
}
