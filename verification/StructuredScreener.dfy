// Lifecycle of structured opportunities (backend/src/option_arb/structured/screener.py).
//
// A detection is credited to the live row of its structure, and otherwise gets a row of its own; a
// row that went stale is never matched again.
module StructuredScreener {
  import opened BoxSpreads
  import opened Lifecycle
  import opened Snapshots
  import opened StableSorting
  import opened Wrappers
  import BookCache
  import BoxGroups

  datatype Config = Config(cadence: Cadence, closeAfterStale: int, thresholds: Thresholds)

  // The legs in the order they are stored.
  function Mix(b: Box): seq<LegId> {
    [LegId(b.longC1.exchange, b.longC1.name, "buy"), LegId(b.shortP1.exchange, b.shortP1.name, "sell"),
     LegId(b.shortC2.exchange, b.shortC2.name, "sell"), LegId(b.longP2.exchange, b.longP2.name, "buy")]
  }

  // The venue mix is not part of the identity.
  function Found(b: Box): Detection {
    Detection(Structure("box", b.underlying, b.expiry, [b.k1, b.k2]), b.expiry, b.maxTotalProfit, b.minProfitPerUnit,
              [b.entryCost, b.maxFees, b.maxSize, b.capitalRequired], Mix(b))
  }

  // A box is a structure of its underlying, expiry and both strikes, worth its total and, per unit, its
  // edge; its other columns are entry cost, fees, size and capital, and its venue mix the legs in order.
  lemma FoundShows(b: Box)
    ensures var d := Found(b);
      && d.key.Structure? && d.key.strategy == "box" && d.key.underlying == b.underlying
      && d.key.expires == b.expiry == d.expiry && d.key.strikes == [b.k1, b.k2]
      && d.value == b.maxTotalProfit && d.rate == b.minProfitPerUnit
      && |d.figures| == 4 && d.figures[0] == b.entryCost && d.figures[1] == b.maxFees
      && d.figures[2] == b.maxSize && d.figures[3] == b.capitalRequired
      && |d.mix| == 4
      && (d.mix[0].exchange, d.mix[0].instrument, d.mix[0].side) == (b.longC1.exchange, b.longC1.name, "buy")
      && (d.mix[1].exchange, d.mix[1].instrument, d.mix[1].side) == (b.shortP1.exchange, b.shortP1.name, "sell")
      && (d.mix[2].exchange, d.mix[2].instrument, d.mix[2].side) == (b.shortC2.exchange, b.shortC2.name, "sell")
      && (d.mix[3].exchange, d.mix[3].instrument, d.mix[3].side) == (b.longP2.exchange, b.longP2.name, "buy")
  {}

  function AllFound(boxes: seq<Box>): seq<Detection> {
    seq(|boxes|, i requires 0 <= i < |boxes| => Found(boxes[i]))
  }

  predicate Matches(r: Row, key: Key) {
    r.key == key && r.live == Live
  }

  // The first live row of the structure.
  function FindMatch(table: seq<Entry>, key: Key): (m: Option<nat>)
    ensures m.Some? ==> m.value < |table| && Matches(table[m.value].row, key)
    ensures m.None? ==> forall i :: 0 <= i < |table| ==> !Matches(table[i].row, key)
  {
    if table == [] then None
    else
      var rest := FindMatch(Front(table), key);
      assert forall i :: 0 <= i < |table| - 1 ==> table[i] == Front(table)[i];
      if rest.Some? then rest
      else if Matches(Last(table).row, key) then Some(|table| - 1)
      else None
  }

  function Absorb(table: seq<Entry>, d: Detection, now: int, c: Cadence): seq<Entry> {
    var m := FindMatch(table, d.key);
    if m.Some? then table[m.value := Refreshed(table[m.value], d, now, c)] else table + [NewEntry(d, now)]
  }

  function Absorbing(now: int, c: Cadence): Absorber {
    (table: seq<Entry>, d: Detection) => Absorb(table, d, now, c)
  }

  function Ticked(table: seq<Entry>, found: seq<Detection>, now: int, cfg: Config): seq<Entry> {
    CloseStale(AbsorbAll(table, found, Absorbing(now, cfg.cadence)), now, cfg.closeAfterStale)
  }

  // ---------------------------------------------------------------------------------------------
  // The lifecycle invariant
  // ---------------------------------------------------------------------------------------------

  predicate TableOk(table: seq<Entry>, clock: int, c: Cadence) {
    EntriesOk(table, clock, c) && OneLivePerKey(table)
  }

  // Closing is final here, whatever the reason.
  predicate ClosedStays(table: seq<Entry>, table': seq<Entry>) {
    && |table| <= |table'|
    && (forall i :: 0 <= i < |table| && table[i].row.live != Live ==> table'[i] == table[i])
  }

  // The live row of a structure is the one a detection is credited to.
  lemma LiveRowIsTheMatch(table: seq<Entry>, key: Key, i: nat)
    requires OneLivePerKey(table) && i < |table|
    ensures FindMatch(table, key) == Some(i) <==> Matches(table[i].row, key)
  {
    hide FindMatch;
  }

  lemma ContinuingStaysSingle(a: seq<Entry>, b: seq<Entry>)
    requires OneLivePerKey(a) && TableContinues(a, b) && ClosedStays(a, b) && |a| == |b|
    ensures OneLivePerKey(b)
  {
    forall i, j | 0 <= i < j < |b| && b[i].row.key == b[j].row.key
      ensures b[i].row.live != Live || b[j].row.live != Live
    {
      assert Continues(a[i], b[i]) && Continues(a[j], b[j]);
    }
  }

  lemma CreditedIsOk(table: seq<Entry>, i: nat, d: Detection, clock: int, now: int, c: Cadence)
    requires TableOk(table, clock, c) && clock <= now && i < |table| && table[i].row.live == Live
    ensures TableOk(table[i := Refreshed(table[i], d, now, c)], now, c)
    ensures TableContinues(table, table[i := Refreshed(table[i], d, now, c)])
    ensures ClosedStays(table, table[i := Refreshed(table[i], d, now, c)])
  {
    hide EntriesOk, OneLivePerKey, TableContinues, Refreshed;
    CreditingIsOk(table, i, d, clock, now, c);
    CreditingContinues(table, i, d, now, c);
    var after := table[i := Refreshed(table[i], d, now, c)];
    assert ClosedStays(table, after);
    hide ClosedStays;
    ContinuingStaysSingle(table, after);
  }

  lemma CreatedIsOk(table: seq<Entry>, d: Detection, clock: int, now: int, c: Cadence)
    requires TableOk(table, clock, c) && clock <= now
    requires forall i :: 0 <= i < |table| ==> !Matches(table[i].row, d.key)
    ensures TableOk(table + [NewEntry(d, now)], now, c)
    ensures TableContinues(table, table + [NewEntry(d, now)])
    ensures ClosedStays(table, table + [NewEntry(d, now)])
  {
    CreatingIsOk(table, d, clock, now, c);
    hide EntriesOk;
  }

  lemma AbsorbIsOk(table: seq<Entry>, d: Detection, clock: int, now: int, c: Cadence)
    requires TableOk(table, clock, c) && clock <= now
    ensures TableOk(Absorb(table, d, now, c), now, c)
    ensures TableContinues(table, Absorb(table, d, now, c)) && ClosedStays(table, Absorb(table, d, now, c))
  {
    hide TableOk, TableContinues, ClosedStays, Refreshed, NewEntry, FindMatch;
    var m := FindMatch(table, d.key);
    if m.Some? {
      CreditedIsOk(table, m.value, d, clock, now, c);
    } else {
      CreatedIsOk(table, d, clock, now, c);
    }
  }

  lemma {:induction false} AbsorbAllIsOk(table: seq<Entry>, found: seq<Detection>, clock: int, now: int, c: Cadence)
    requires TableOk(table, clock, c) && clock <= now
    ensures TableOk(AbsorbAll(table, found, Absorbing(now, c)), now, c)
    ensures TableContinues(table, AbsorbAll(table, found, Absorbing(now, c)))
    ensures ClosedStays(table, AbsorbAll(table, found, Absorbing(now, c)))
  {
    if found == [] {
      LaterIsOk(table, clock, now, c);
    } else {
      AbsorbAllIsOk(table, Front(found), clock, now, c);
      var before := AbsorbAll(table, Front(found), Absorbing(now, c));
      AbsorbIsOk(before, Last(found), now, now, c);
      ContinuingChains(table, before, Absorb(before, Last(found), now, c));
    }
    hide EntriesOk, OneLivePerKey, Continues, Absorb;
  }

  lemma CarryOne(table: seq<Entry>, d: Detection, now: int, c: Cadence)
    ensures CarriedBy(table, d, Absorbing(now, c), now)
  {
    var m := FindMatch(table, d.key);
    var at := if m.Some? then m.value else |table|;
    var after := Absorb(table, d, now, c);
    assert m.Some? ==> Matches(table[at].row, d.key);
    assert Carries(after[at].row, d, now);
    hide FindMatch, Due;
  }

  // Boxes of different structures are detections of different keys.
  lemma DetectedKeysDiffer(boxes: seq<Box>)
    requires forall x, y :: 0 <= x < y < |boxes| ==> !SameStructure(boxes[x], boxes[y])
    ensures DistinctKeys(AllFound(boxes))
  {
    var found := AllFound(boxes);
    forall x, y | 0 <= x < y < |found|
      ensures found[x].key != found[y].key
    {
      assert !SameStructure(boxes[x], boxes[y]);
      assert [boxes[x].k1, boxes[x].k2][0] == boxes[x].k1 && [boxes[x].k1, boxes[x].k2][1] == boxes[x].k2;
      assert [boxes[y].k1, boxes[y].k2][0] == boxes[y].k1 && [boxes[y].k1, boxes[y].k2][1] == boxes[y].k2;
    }
  }

  // After a tick every detected box is on a row of its structure, with its figures and venues; the row is
  // live unless it has expired.
  lemma TickShowsBoxes(table: seq<Entry>, boxes: seq<Box>, now: int, cfg: Config, b: Box)
    requires forall x, y :: 0 <= x < y < |boxes| ==> !SameStructure(boxes[x], boxes[y])
    requires b in boxes && 0 <= cfg.closeAfterStale
    ensures IsShown(Ticked(table, AllFound(boxes), now, cfg), Found(b), now)
  {
    var found := AllFound(boxes);
    DetectedKeysDiffer(boxes);
    var k :| 0 <= k < |boxes| && boxes[k] == b;
    assert found[k] == Found(b);
    forall before: seq<Entry>, d
      ensures CarriedBy(before, d, Absorbing(now, cfg.cadence), now)
    {
      CarryOne(before, d, now, cfg.cadence);
    }
    AbsorbedAreShown(table, found, Absorbing(now, cfg.cadence), now, cfg.closeAfterStale, Found(b));
    hide Absorbing, AllFound, CloseStale, AbsorbAll;
  }

  lemma ClosedRowsAgeNoMore(table: seq<Entry>, now: int, closeAfter: int)
    ensures |CloseStale(table, now, closeAfter)| == |table|
    ensures ClosedStays(table, CloseStale(table, now, closeAfter))
  {}

  // The lifecycle over every run: the empty table satisfies it, and every tick keeps it, leaves only
  // current rows live and never touches a closed row.
  lemma TickKeepsTable(table: seq<Entry>, found: seq<Detection>, clock: int, now: int, cfg: Config)
    requires TableOk(table, clock, cfg.cadence) && clock <= now
    ensures TableOk(Ticked(table, found, now, cfg), now, cfg.cadence)
    ensures AllCurrent(Ticked(table, found, now, cfg), now, cfg.closeAfterStale)
    ensures TableContinues(table, Ticked(table, found, now, cfg)) && ClosedStays(table, Ticked(table, found, now, cfg))
  {
    AbsorbAllIsOk(table, found, clock, now, cfg.cadence);
    var absorbed := AbsorbAll(table, found, Absorbing(now, cfg.cadence));
    CloseStaleIsOk(absorbed, now, cfg.closeAfterStale, cfg.cadence);
    ClosingContinues(absorbed, now, cfg.closeAfterStale);
    var aged := CloseStale(absorbed, now, cfg.closeAfterStale);
    ClosedRowsAgeNoMore(absorbed, now, cfg.closeAfterStale);
    ContinuingStaysSingle(absorbed, aged);
    ContinuingChains(table, absorbed, aged);
    hide EntriesOk, OneLivePerKey, TableContinues, AllCurrent, CloseStale, AbsorbAll;
  }

  lemma {:induction false} FirstStays(table: seq<Entry>, key: Key, n: nat)
    requires n <= |table| && FindMatch(table[..n], key).Some?
    ensures FindMatch(table, key) == FindMatch(table[..n], key)
    decreases |table| - n
  {
    if n < |table| {
      assert Front(table[..n + 1]) == table[..n];
      FirstStays(table, key, n + 1);
    } else {
      assert table[..n] == table;
    }
  }

  // ---------------------------------------------------------------------------------------------
  // The service
  // ---------------------------------------------------------------------------------------------

  class Screener {
    const cfg: Config
    var table: seq<Entry>
    ghost var clock: int

    ghost predicate Valid()
      reads this
    {
      TableOk(table, clock, cfg.cadence)
    }

    constructor (cfg: Config, ghost start: int)
      ensures Valid() && this.cfg == cfg && table == [] && clock == start
    {
      this.cfg := cfg;
      table := [];
      clock := start;
    }

    // The first live row with these strikes.
    method Query(key: Key) returns (m: Option<nat>)
      ensures m == FindMatch(table, key)
    {
      for i := 0 to |table|
        invariant FindMatch(table[..i], key).None?
      {
        assert Front(table[..i + 1]) == table[..i] && Last(table[..i + 1]) == table[i];
        if Matches(table[i].row, key) {
          FirstStays(table, key, i + 1);
          return Some(i);
        }
      }
      assert table[..|table|] == table;
      return None;
    }

    method Credit(d: Detection, now: int)
      requires Valid() && clock <= now
      modifies this
      ensures Valid() && clock == now
      ensures table == Absorb(old(table), d, now, cfg.cadence)
    {
      hide EntriesOk, OneLivePerKey, TableContinues, ClosedStays, Refreshed, NewEntry, FindMatch, ClosedIffNotLive;
      AbsorbIsOk(table, d, clock, now, cfg.cadence);
      var m := Query(d.key);
      if m.None? {
        table := table + [NewEntry(d, now)];
      } else {
        SoundRow(table, clock, cfg.cadence, m.value);
        var e := Refresh(table[m.value], d, now, cfg.cadence);
        table := table[m.value := e];
      }
      clock := now;
    }

    // Credits the boxes in order and ages the table.
    method Record(boxes: seq<Box>, now: int)
      requires Valid() && clock <= now
      modifies this
      ensures Valid() && clock == now
      ensures table == Ticked(old(table), AllFound(boxes), now, cfg)
      ensures AllCurrent(table, now, cfg.closeAfterStale)
      ensures TableContinues(old(table), table) && ClosedStays(old(table), table)
    {
      hide EntriesOk, OneLivePerKey, TableContinues, ClosedStays, Absorb, AbsorbAll, CloseStale, AllCurrent, Found;
      var found := AllFound(boxes);
      TickKeepsTable(table, found, clock, now, cfg);
      LaterIsOk(table, clock, now, cfg.cadence);
      AbsorbedNext(table, found, 0, Absorbing(now, cfg.cadence));
      clock := now;
      for i := 0 to |boxes|
        invariant Valid() && clock == now
        invariant table == AbsorbAll(old(table), found[..i], Absorbing(now, cfg.cadence))
      {
        AbsorbedNext(old(table), found, i, Absorbing(now, cfg.cadence));
        Credit(Found(boxes[i]), now);
      }
      assert found[..|found|] == found;
      table := AgeOut(table, now, cfg.closeAfterStale);
    }

    // One tick: the boxes on what the cache shows.
    method Tick(cache: BookCache.BookCache, now: int) returns (ghost boxes: seq<Box>, ghost groups: seq<Group>)
      requires Valid() && cache.Valid() && clock <= now
      modifies this
      ensures Valid() && clock == now
      ensures BoxGroups.ShowsMarkets(groups, cache.byKey, cache.heartbeats, now, cache.ttl)
      ensures Detected(groups, cfg.thresholds, now, boxes)
      ensures forall b :: b in boxes ==> BoxGroups.ShownBox(b, cache.byKey, cache.heartbeats, now, cache.ttl)
      ensures table == Ticked(old(table), AllFound(boxes), now, cfg)
      ensures AllCurrent(table, now, cfg.closeAfterStale)
      ensures TableContinues(old(table), table) && ClosedStays(old(table), table)
    {
      hide *;
      var found, markets := BoxGroups.ScreenBoxes(cache, cfg.thresholds, now);
      boxes, groups := found, markets;
      Record(found, now);
    }
  }
}
