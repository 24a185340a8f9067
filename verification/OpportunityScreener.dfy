// Lifecycle of one-to-one opportunities (backend/src/option_arb/services/screener.py).
//
// The table is the sequence of rows in creation order.  A detection is credited to the latest
// unexpired row of its key detected within the hour, and otherwise gets a row of its own.
module OpportunityScreener {
  import opened Lifecycle
  import opened Quotes
  import opened Snapshots
  import opened StableSorting
  import opened Wrappers
  import TradeLedger

  const HOUR := 3600000000 // microseconds

  datatype Thresholds = Thresholds(
    minAprPct: real, minBuyPremium: real, maxDaysToExpiry: real, minNetReturnPct: real, minNetProfit: real)

  datatype Config = Config(cadence: Cadence, closeAfterStale: int, thresholds: Thresholds)

  predicate MeetsThresholds(s: Spread, t: Thresholds) {
    && s.econ.aprPct >= t.minAprPct
    && s.econ.buyPremium >= t.minBuyPremium
    && s.daysToExpiry <= t.maxDaysToExpiry
    && s.econ.netReturnPct >= t.minNetReturnPct
    && s.econ.netProfit >= t.minNetProfit
  }

  // The venues are part of the key, so the venue mix of a row cannot change.
  function Found(s: Spread): Detection {
    var e := s.econ;
    Detection(Pair(s.instrument, s.buyFrom, s.sellTo), s.expiry, e.netProfit, e.aprPct,
              [s.buyAsk, s.sellBid, e.tradeableSize, e.buyPremium, e.sellPremium, e.shortMargin, e.capitalRequired,
               e.grossProfit, e.fees, e.priceSpreadPct, e.netReturnPct],
              [])
  }

  // Nothing is below its threshold, and days to expiry are the one figure that must not be above.
  lemma ThresholdsMean(s: Spread, t: Thresholds)
    ensures !MeetsThresholds(s, t) <==> (
      || s.econ.aprPct < t.minAprPct || s.econ.netReturnPct < t.minNetReturnPct || s.econ.netProfit < t.minNetProfit
      || s.econ.buyPremium < t.minBuyPremium || t.maxDaysToExpiry < s.daysToExpiry)
  {}

  // A detection is about the instrument bought on one venue and sold on the other; the columns of its row
  // are, in order, both prices, the size, both premiums, margin, capital, gross profit, fees and the two
  // percentages.
  lemma FoundShows(s: Spread)
    ensures var d, e := Found(s), s.econ;
      && d.key.Pair? && d.key.instrument == s.instrument && d.key.buyFrom == s.buyFrom && d.key.sellTo == s.sellTo
      && d.expiry == s.expiry && d.value == e.netProfit && d.rate == e.aprPct && |d.figures| == 11 && d.mix == []
      && d.figures[0] == s.buyAsk && d.figures[1] == s.sellBid && d.figures[2] == e.tradeableSize
      && d.figures[3] == e.buyPremium && d.figures[4] == e.sellPremium
      && d.figures[5] == e.shortMargin && d.figures[6] == e.capitalRequired
      && d.figures[7] == e.grossProfit && d.figures[8] == e.fees
      && d.figures[9] == e.priceSpreadPct && d.figures[10] == e.netReturnPct
  {}

  function Built(spreads: seq<Spread>, t: Thresholds): (built: seq<Detection>)
    ensures forall d :: d in built ==> exists s :: s in spreads && MeetsThresholds(s, t) && d == Found(s)
    ensures forall s :: s in spreads && MeetsThresholds(s, t) ==> Found(s) in built
    ensures |built| <= |spreads|
  {
    if spreads == [] then []
    else
      var rest := Built(Front(spreads), t);
      if MeetsThresholds(Last(spreads), t) then rest + [Found(Last(spreads))] else rest
  }

  lemma NoMixFound(spreads: seq<Spread>, t: Thresholds)
    ensures forall d :: d in Built(spreads, t) ==> d.mix == []
  {
    hide MeetsThresholds;
  }

  // ---------------------------------------------------------------------------------------------
  // One tick
  // ---------------------------------------------------------------------------------------------

  predicate Matches(r: Row, key: Key, now: int) {
    r.key == key && r.live != Gone && r.detectedAt >= now - HOUR
  }

  lemma MatchesWithinTheHour(r: Row, key: Key, now: int)
    ensures Matches(r, key, now) <==>
      r.key == key && r.live in {Live, Stale} && now - r.detectedAt <= 60 * 60 * 1000000
  {}

  // The matching row detected last.
  function FindMatch(table: seq<Entry>, key: Key, now: int): (m: Option<nat>)
    ensures m.Some? ==> m.value < |table| && Matches(table[m.value].row, key, now)
  {
    if table == [] then None
    else
      var rest := FindMatch(Front(table), key, now);
      var last := Last(table).row;
      if Matches(last, key, now) && (rest.None? || table[rest.value].row.detectedAt <= last.detectedAt)
      then Some(|table| - 1) else rest
  }

  function Absorb(table: seq<Entry>, d: Detection, now: int, c: Cadence): seq<Entry> {
    var m := FindMatch(table, d.key, now);
    if m.Some? then table[m.value := Refreshed(table[m.value], d, now, c)] else table + [NewEntry(d, now)]
  }

  function Absorbing(now: int, c: Cadence): Absorber {
    (table: seq<Entry>, d: Detection) => Absorb(table, d, now, c)
  }

  function Ticked(table: seq<Entry>, built: seq<Detection>, now: int, cfg: Config): seq<Entry> {
    CloseStale(AbsorbAll(table, built, Absorbing(now, cfg.cadence)), now, cfg.closeAfterStale)
  }

  // ---------------------------------------------------------------------------------------------
  // The lifecycle invariant
  // ---------------------------------------------------------------------------------------------

  // Two rows of one key that have not expired were detected more than an hour apart.
  predicate Apart(table: seq<Entry>) {
    forall i, j :: (
      && 0 <= i < j < |table| && table[i].row.key == table[j].row.key
      && table[i].row.live != Gone && table[j].row.live != Gone)
      ==> table[j].row.detectedAt - table[i].row.detectedAt > HOUR
  }

  predicate NoMixes(table: seq<Entry>) {
    forall i :: 0 <= i < |table| ==> table[i].row.mix == []
  }

  predicate TableOk(table: seq<Entry>, clock: int, c: Cadence) {
    EntriesOk(table, clock, c) && NoMixes(table) && Apart(table)
  }

  lemma {:induction false} FindMatchMisses(table: seq<Entry>, key: Key, now: int)
    requires FindMatch(table, key, now).None?
    ensures forall i :: 0 <= i < |table| ==> !Matches(table[i].row, key, now)
  {
    if table != [] {
      FindMatchMisses(Front(table), key, now);
      assert forall i :: 0 <= i < |table| - 1 ==> table[i] == Front(table)[i];
    }
  }

  lemma MatchesAreOne(table: seq<Entry>, key: Key, clock: int, now: int, c: Cadence, i: nat, j: nat)
    requires TableOk(table, clock, c) && clock <= now && i < |table| && j < |table|
    requires Matches(table[i].row, key, now) && Matches(table[j].row, key, now)
    ensures i == j
  {
    SoundRow(table, clock, c, i);
    SoundRow(table, clock, c, j);
    hide EntriesOk, NoMixes;
  }

  // At most one row can match, so asking for the latest settles nothing: any match is the match.
  lemma MatchIsTheOnlyOne(table: seq<Entry>, key: Key, clock: int, now: int, c: Cadence, i: nat)
    requires TableOk(table, clock, c) && clock <= now && i < |table|
    ensures FindMatch(table, key, now) == Some(i) <==> Matches(table[i].row, key, now)
  {
    if Matches(table[i].row, key, now) {
      var m := FindMatch(table, key, now);
      if m.None? {
        FindMatchMisses(table, key, now);
      } else {
        MatchesAreOne(table, key, clock, now, c, i, m.value);
      }
    }
  }

  lemma ContinuingStaysApart(a: seq<Entry>, b: seq<Entry>)
    requires Apart(a) && TableContinues(a, b) && |a| == |b|
    ensures Apart(b)
  {
    forall i, j | (
      && 0 <= i < j < |b| && b[i].row.key == b[j].row.key
      && b[i].row.live != Gone && b[j].row.live != Gone)
      ensures b[j].row.detectedAt - b[i].row.detectedAt > HOUR
    {
      assert Continues(a[i], b[i]) && Continues(a[j], b[j]);
    }
  }

  lemma CreditedIsOk(table: seq<Entry>, i: nat, d: Detection, clock: int, now: int, c: Cadence)
    requires TableOk(table, clock, c) && clock <= now && d.mix == [] && i < |table| && table[i].row.live != Gone
    ensures TableOk(table[i := Refreshed(table[i], d, now, c)], now, c)
    ensures TableContinues(table, table[i := Refreshed(table[i], d, now, c)])
  {
    CreditingIsOk(table, i, d, clock, now, c);
    CreditingContinues(table, i, d, now, c);
    var after := table[i := Refreshed(table[i], d, now, c)];
    ContinuingStaysApart(table, after);
    assert after[i].row.mix == [];
    hide EntriesOk, Apart, TableContinues, Refreshed;
  }

  lemma CreatedIsOk(table: seq<Entry>, d: Detection, clock: int, now: int, c: Cadence)
    requires TableOk(table, clock, c) && clock <= now && d.mix == []
    requires forall i :: 0 <= i < |table| ==> !Matches(table[i].row, d.key, now)
    ensures TableOk(table + [NewEntry(d, now)], now, c)
    ensures TableContinues(table, table + [NewEntry(d, now)])
  {
    CreatingIsOk(table, d, clock, now, c);
    hide EntriesOk;
  }

  lemma AbsorbIsOk(table: seq<Entry>, d: Detection, clock: int, now: int, c: Cadence)
    requires TableOk(table, clock, c) && clock <= now && d.mix == []
    ensures TableOk(Absorb(table, d, now, c), now, c)
    ensures TableContinues(table, Absorb(table, d, now, c))
  {
    hide TableOk, TableContinues, Refreshed, NewEntry, FindMatch;
    var m := FindMatch(table, d.key, now);
    if m.Some? {
      CreditedIsOk(table, m.value, d, clock, now, c);
    } else {
      FindMatchMisses(table, d.key, now);
      CreatedIsOk(table, d, clock, now, c);
    }
  }

  lemma {:induction false} AbsorbAllIsOk(table: seq<Entry>, built: seq<Detection>, clock: int, now: int, c: Cadence)
    requires TableOk(table, clock, c) && clock <= now
    requires forall d :: d in built ==> d.mix == []
    ensures TableOk(AbsorbAll(table, built, Absorbing(now, c)), now, c)
    ensures TableContinues(table, AbsorbAll(table, built, Absorbing(now, c)))
  {
    if built == [] {
      LaterIsOk(table, clock, now, c);
    } else {
      AbsorbAllIsOk(table, Front(built), clock, now, c);
      assert Last(built) in built;
      var before := AbsorbAll(table, Front(built), Absorbing(now, c));
      AbsorbIsOk(before, Last(built), now, now, c);
      ContinuingChains(table, before, Absorb(before, Last(built), now, c));
    }
    hide EntriesOk, NoMixes, Apart, Continues, Absorb;
  }

  // The lifecycle over every run: the empty table satisfies it, and every tick keeps it, leaves only
  // current rows live and changes nothing that must not change.
  lemma TickKeepsTable(table: seq<Entry>, built: seq<Detection>, clock: int, now: int, cfg: Config)
    requires TableOk(table, clock, cfg.cadence) && clock <= now
    requires forall d :: d in built ==> d.mix == []
    ensures TableOk(Ticked(table, built, now, cfg), now, cfg.cadence)
    ensures AllCurrent(Ticked(table, built, now, cfg), now, cfg.closeAfterStale)
    ensures TableContinues(table, Ticked(table, built, now, cfg))
  {
    AbsorbAllIsOk(table, built, clock, now, cfg.cadence);
    var absorbed := AbsorbAll(table, built, Absorbing(now, cfg.cadence));
    CloseStaleIsOk(absorbed, now, cfg.closeAfterStale, cfg.cadence);
    ClosingContinues(absorbed, now, cfg.closeAfterStale);
    var aged := CloseStale(absorbed, now, cfg.closeAfterStale);
    ContinuingStaysApart(absorbed, aged);
    ContinuingChains(table, absorbed, aged);
    assert NoMixes(aged);
    hide EntriesOk, Apart, TableContinues, AllCurrent;
  }

  // ---------------------------------------------------------------------------------------------
  // Two live rows of one key
  // ---------------------------------------------------------------------------------------------

  predicate LiveRowsAreRecent(table: seq<Entry>, key: Key, now: int) {
    forall i :: 0 <= i < |table| && table[i].row.key == key && table[i].row.live == Live ==>
      table[i].row.detectedAt >= now - HOUR
  }

  // Where a detection is credited, and what it leaves there.
  lemma LiveAfter(table: seq<Entry>, d: Detection, now: int, c: Cadence)
    ensures var after := Absorb(table, d, now, c);
      var m := FindMatch(table, d.key, now);
      var at := if m.Some? then m.value else |table|;
      && at < |after| && |table| <= |after| <= |table| + 1 && (|after| == |table| + 1 <==> at == |table|)
      && after[at].row.key == d.key && after[at].row.live == Live && after[at].row.lastSeenAt == now
      && after[at].row.expiry == (if m.Some? then table[at].row.expiry else d.expiry)
      && after[at].row.detectedAt >= now - HOUR
      && (forall i :: 0 <= i < |table| && i != at ==> after[i] == table[i])
  {
    hide FindMatch, Due;
  }

  // A detection leaves one live row per key exactly when the live row of its key, if there is one,
  // was first detected within the hour.
  lemma OneLiveIffRecent(table: seq<Entry>, d: Detection, clock: int, now: int, c: Cadence)
    requires TableOk(table, clock, c) && clock <= now && OneLivePerKey(table)
    ensures OneLivePerKey(Absorb(table, d, now, c)) <==> LiveRowsAreRecent(table, d.key, now)
  {
    hide Absorb, TableOk, FindMatch;
    var m := FindMatch(table, d.key, now);
    var at := if m.Some? then m.value else |table|;
    var after := Absorb(table, d, now, c);
    LiveAfter(table, d, now, c);
    if LiveRowsAreRecent(table, d.key, now) {
      forall i | 0 <= i < |table| && table[i].row.key == d.key && table[i].row.live == Live
        ensures i == at
      {
        MatchIsTheOnlyOne(table, d.key, clock, now, c, i);
      }
    } else {
      var i :| 0 <= i < |table| && table[i].row.key == d.key && table[i].row.live == Live
        && table[i].row.detectedAt < now - HOUR;
      assert i != at;
      assert after[i] == table[i];
    }
  }

  predicate HasKey(built: seq<Detection>, key: Key) {
    exists d :: d in built && d.key == key
  }

  predicate Young(r: Row, key: Key, now: int) {
    r.key == key && r.live == Live && r.lastSeenAt == now && r.detectedAt >= now - HOUR
  }

  predicate HasYoung(table: seq<Entry>, key: Key, now: int) {
    exists i :: 0 <= i < |table| && Young(table[i].row, key, now)
  }

  // The detections of a tick, over the hour: rows older than that are left alone, every detected key
  // has a younger live row seen now, and no other row has changed.
  predicate Credited(before: seq<Entry>, after: seq<Entry>, built: seq<Detection>, now: int) {
    && |before| <= |after|
    && (forall i :: 0 <= i < |before| && before[i].row.detectedAt < now - HOUR ==> after[i] == before[i])
    && (forall d :: d in built ==> HasYoung(after, d.key, now))
    && (forall i :: 0 <= i < |after| && !(i < |before| && after[i] == before[i]) ==>
          after[i].row.detectedAt >= now - HOUR && HasKey(built, after[i].row.key))
  }

  lemma MoreKeys(built: seq<Detection>, d: Detection)
    ensures HasKey(built + [d], d.key)
    ensures forall key :: HasKey(built, key) ==> HasKey(built + [d], key)
  {
    assert d in built + [d];
    forall key | HasKey(built, key)
      ensures HasKey(built + [d], key)
    {
      var e :| e in built && e.key == key;
      assert e in built + [d];
    }
  }

  lemma CreditOne(before: seq<Entry>, table: seq<Entry>, built: seq<Detection>, d: Detection, now: int, c: Cadence)
    requires Credited(before, table, built, now)
    requires TableOk(table, now, c)
    ensures Credited(before, Absorb(table, d, now, c), built + [d], now)
  {
    hide TableOk, Absorb, FindMatch, HasKey;
    var m := FindMatch(table, d.key, now);
    var at := if m.Some? then m.value else |table|;
    var after := Absorb(table, d, now, c);
    LiveAfter(table, d, now, c);
    assert m.Some? ==> Matches(table[at].row, d.key, now);
    hide Matches;
    MoreKeys(built, d);
    forall e | e in built + [d]
      ensures HasYoung(after, e.key, now)
    {
      if e.key == d.key {
        assert Young(after[at].row, e.key, now);
      } else {
        var i :| 0 <= i < |table| && Young(table[i].row, e.key, now);
        assert Young(after[i].row, e.key, now);
      }
    }
    hide HasYoung, Young;
  }

  lemma {:induction false} AllCredited(table: seq<Entry>, built: seq<Detection>, clock: int, now: int, c: Cadence)
    requires TableOk(table, clock, c) && clock <= now
    requires forall d :: d in built ==> d.mix == []
    ensures Credited(table, AbsorbAll(table, built, Absorbing(now, c)), built, now)
  {
    if built != [] {
      var front := Front(built);
      assert built == front + [Last(built)];
      AllCredited(table, front, clock, now, c);
      AbsorbAllIsOk(table, front, clock, now, c);
      hide Credited, TableOk, TableContinues, Absorb;
      CreditOne(table, AbsorbAll(table, front, Absorbing(now, c)), front, Last(built), now, c);
    } else {
      hide TableOk, HasYoung, HasKey;
    }
  }

  // An instrument has one expiry.
  predicate OneExpiry(table: seq<Entry>, built: seq<Detection>) {
    && (forall i, d :: 0 <= i < |table| && d in built && table[i].row.key == d.key ==> table[i].row.expiry == d.expiry)
    && (forall d, e :: d in built && e in built && d.key == e.key ==> d.expiry == e.expiry)
  }

  lemma ExpiriesMatch(table: seq<Entry>, built: seq<Detection>, d: Detection, now: int, c: Cadence)
    requires OneExpiry(table, built) && d in built
    ensures OneExpiry(Absorb(table, d, now, c), built)
  {
    LiveAfter(table, d, now, c);
    hide Absorb, FindMatch;
  }

  lemma {:induction false} AllExpiriesMatch(table: seq<Entry>, built: seq<Detection>, first: seq<Detection>, now: int,
                                            c: Cadence)
    requires OneExpiry(table, built) && (forall d :: d in first ==> d in built)
    ensures OneExpiry(AbsorbAll(table, first, Absorbing(now, c)), built)
  {
    if first != [] {
      AllExpiriesMatch(table, built, Front(first), now, c);
      assert Last(first) in first;
      hide OneExpiry, Absorb;
      ExpiriesMatch(AbsorbAll(table, Front(first), Absorbing(now, c)), built, Last(first), now, c);
    }
  }

  lemma CarryOne(table: seq<Entry>, d: Detection, now: int, c: Cadence)
    ensures CarriedBy(table, d, Absorbing(now, c), now)
  {
    var m := FindMatch(table, d.key, now);
    var at := if m.Some? then m.value else |table|;
    var after := Absorb(table, d, now, c);
    assert m.Some? ==> Matches(table[at].row, d.key, now);
    assert Carries(after[at].row, d, now);
    hide FindMatch, Due;
  }

  lemma {:induction false} KeysDiffer(spreads: seq<Spread>, t: Thresholds)
    requires forall i, j :: 0 <= i < j < |spreads| ==> spreads[i].instrument != spreads[j].instrument
    ensures DistinctKeys(Built(spreads, t))
  {
    hide MeetsThresholds;
    if spreads != [] {
      var front, last := Front(spreads), Last(spreads);
      KeysDiffer(front, t);
      forall d | d in Built(front, t)
        ensures d.key != Found(last).key
      {
        var s :| s in front && MeetsThresholds(s, t) && d == Found(s);
        var i :| 0 <= i < |front| && front[i] == s;
        assert spreads[i].instrument != spreads[|spreads| - 1].instrument;
      }
      var rest := Built(front, t);
      assert forall k :: 0 <= k < |rest| ==> rest[k] in rest;
      assert Built(spreads, t) == rest || Built(spreads, t) == rest + [Found(last)];
      hide Built, Found;
    }
  }

  // After a tick every spread that meets the thresholds is on a row of its key, with its figures; the row
  // is live unless it has expired.
  lemma TickShowsSpreads(table: seq<Entry>, spreads: seq<Spread>, now: int, cfg: Config, s: Spread)
    requires forall i, j :: 0 <= i < j < |spreads| ==> spreads[i].instrument != spreads[j].instrument
    requires s in spreads && MeetsThresholds(s, cfg.thresholds) && 0 <= cfg.closeAfterStale
    ensures IsShown(Ticked(table, Built(spreads, cfg.thresholds), now, cfg), Found(s), now)
  {
    var built := Built(spreads, cfg.thresholds);
    KeysDiffer(spreads, cfg.thresholds);
    forall before: seq<Entry>, d
      ensures CarriedBy(before, d, Absorbing(now, cfg.cadence), now)
    {
      CarryOne(before, d, now, cfg.cadence);
    }
    AbsorbedAreShown(table, built, Absorbing(now, cfg.cadence), now, cfg.closeAfterStale, Found(s));
    hide Absorbing, Built, CloseStale, AbsorbAll;
  }

  // A live row that the ageing of a tick leaves live.
  predicate Survives(r: Row, now: int, closeAfter: int) {
    r.live == Live && now <= r.expiry && now - closeAfter <= r.lastSeenAt
  }

  lemma AgedLives(table: seq<Entry>, now: int, closeAfter: int)
    ensures var aged := CloseStale(table, now, closeAfter);
      && |aged| == |table|
      && (forall i :: 0 <= i < |table| ==>
            aged[i].row.key == table[i].row.key
            && (aged[i].row.live == Live <==> Survives(table[i].row, now, closeAfter)))
  {}

  // A detected row that outlives the tick although it was first detected more than an hour ago.
  predicate Outlives(r: Row, built: seq<Detection>, now: int, closeAfter: int) {
    Survives(r, now, closeAfter) && HasKey(built, r.key) && r.detectedAt < now - HOUR
  }

  predicate NoneOutlives(table: seq<Entry>, built: seq<Detection>, now: int, closeAfter: int) {
    forall i :: 0 <= i < |table| ==> !Outlives(table[i].row, built, now, closeAfter)
  }

  lemma YoungSecond(table: seq<Entry>, built: seq<Detection>, absorbed: seq<Entry>, now: int, closeAfter: int, i: nat)
    requires Credited(table, absorbed, built, now) && OneExpiry(absorbed, built) && 0 <= closeAfter
    requires i < |table| && Outlives(table[i].row, built, now, closeAfter)
    ensures !OneLivePerKey(CloseStale(absorbed, now, closeAfter))
  {
    AgedLives(absorbed, now, closeAfter);
    hide CloseStale;
    var key := table[i].row.key;
    var d :| d in built && d.key == key;
    assert HasYoung(absorbed, d.key, now);
    var j :| 0 <= j < |absorbed| && Young(absorbed[j].row, key, now);
    assert absorbed[i] == table[i] && absorbed[i].row.expiry == d.expiry == absorbed[j].row.expiry;
    var aged := CloseStale(absorbed, now, closeAfter);
    var low, high := if i < j then i else j, if i < j then j else i;
    assert aged[low].row.live == Live && aged[high].row.live == Live && aged[low].row.key == aged[high].row.key;
  }

  lemma TwoOutlive(table: seq<Entry>, built: seq<Detection>, absorbed: seq<Entry>, now: int, c: Cadence,
                   closeAfter: int, i: nat, j: nat)
    requires Credited(table, absorbed, built, now) && TableOk(absorbed, now, c) && OneLivePerKey(table)
    requires i < j < |absorbed| && absorbed[i].row.key == absorbed[j].row.key
    requires Survives(absorbed[i].row, now, closeAfter) && Survives(absorbed[j].row, now, closeAfter)
    ensures !NoneOutlives(table, built, now, closeAfter)
  {
    SoundRow(absorbed, now, c, j);
    assert absorbed[i].row.detectedAt < now - HOUR;
    hide TableOk, HasYoung, HasKey;
    assert i < |table| && absorbed[i] == table[i];
    assert Outlives(table[i].row, built, now, closeAfter);
  }

  lemma OneLiveAgedIff(table: seq<Entry>, built: seq<Detection>, absorbed: seq<Entry>, now: int, c: Cadence,
                       closeAfter: int)
    requires Credited(table, absorbed, built, now) && OneExpiry(absorbed, built) && 0 <= closeAfter
    requires TableOk(absorbed, now, c) && OneLivePerKey(table)
    ensures OneLivePerKey(CloseStale(absorbed, now, closeAfter)) <==> NoneOutlives(table, built, now, closeAfter)
  {
    hide CloseStale, TableOk, Credited, OneExpiry, Outlives, Survives;
    AgedLives(absorbed, now, closeAfter);
    if !NoneOutlives(table, built, now, closeAfter) {
      var i :| 0 <= i < |table| && Outlives(table[i].row, built, now, closeAfter);
      YoungSecond(table, built, absorbed, now, closeAfter, i);
    }
    var aged := CloseStale(absorbed, now, closeAfter);
    if !OneLivePerKey(aged) {
      var i, j :| 0 <= i < j < |aged| && aged[i].row.key == aged[j].row.key
        && aged[i].row.live == Live && aged[j].row.live == Live;
      TwoOutlive(table, built, absorbed, now, c, closeAfter, i, j);
    }
  }

  // A tick ends with one live row per key exactly when no detected row that outlives it was first
  // detected more than an hour before.
  lemma OneLiveAfterTickIff(table: seq<Entry>, built: seq<Detection>, clock: int, now: int, cfg: Config)
    requires TableOk(table, clock, cfg.cadence) && clock <= now && OneLivePerKey(table)
    requires (forall d :: d in built ==> d.mix == []) && OneExpiry(table, built) && 0 <= cfg.closeAfterStale
    ensures OneLivePerKey(Ticked(table, built, now, cfg)) <==> NoneOutlives(table, built, now, cfg.closeAfterStale)
  {
    var absorbed := AbsorbAll(table, built, Absorbing(now, cfg.cadence));
    assert Ticked(table, built, now, cfg) == CloseStale(absorbed, now, cfg.closeAfterStale);
    hide *;
    AbsorbAllIsOk(table, built, clock, now, cfg.cadence);
    AllCredited(table, built, clock, now, cfg.cadence);
    AllExpiriesMatch(table, built, built, now, cfg.cadence);
    OneLiveAgedIff(table, built, absorbed, now, cfg.cadence, cfg.closeAfterStale);
  }

  lemma AbsorbOne(table: seq<Entry>, d: Detection, now: int, c: Cadence)
    ensures AbsorbAll(table, [d], Absorbing(now, c)) == Absorb(table, d, now, c)
  {
    assert Front([d]) == [];
  }

  lemma OnlyRowMatch(e: Entry, key: Key, now: int)
    ensures FindMatch([e], key, now) == if Matches(e.row, key, now) then Some(0) else None
  {
    assert Front([e]) == [];
  }

  // A pair detected now, an hour later and one microsecond after that: the first row is an hour and a
  // microsecond old, still live, and no longer matched.
  lemma TwoLiveRowsCoexist(s: Spread, cfg: Config)
    requires s.expiry > HOUR + 1 && cfg.closeAfterStale >= 1
    ensures var hour := Ticked(Ticked([], [Found(s)], 0, cfg), [Found(s)], HOUR, cfg);
      var table := Ticked(hour, [Found(s)], HOUR + 1, cfg);
      |table| == 2 && table[0].row.key == table[1].row.key
      && table[0].row.live == Live && table[1].row.live == Live
  {
    var d := Found(s);
    var c := cfg.cadence;
    AbsorbOne([], d, 0, c);
    var first := NewEntry(d, 0);
    assert Ticked([], [d], 0, cfg) == [first];
    AbsorbOne([first], d, HOUR, c);
    OnlyRowMatch(first, d.key, HOUR);
    var again := Refreshed(first, d, HOUR, c);
    hide Due;
    assert Ticked([first], [d], HOUR, cfg) == [again];
    AbsorbOne([again], d, HOUR + 1, c);
    OnlyRowMatch(again, d.key, HOUR + 1);
    hide FindMatch;
    assert Absorb([again], d, HOUR + 1, c) == [again, NewEntry(d, HOUR + 1)];
  }

  // ---------------------------------------------------------------------------------------------
  // The service
  // ---------------------------------------------------------------------------------------------

  class Screener {
    const cfg: Config
    var table: seq<Entry>
    var statuses: seq<TradeLedger.OppStatus> // the executor's column of the same rows
    ghost var clock: int

    ghost predicate Valid()
      reads this
    {
      TableOk(table, clock, cfg.cadence) && |statuses| == |table|
    }

    constructor (cfg: Config, ghost start: int)
      ensures Valid() && this.cfg == cfg && table == [] && clock == start
    {
      this.cfg := cfg;
      table := [];
      statuses := [];
      clock := start;
    }

    // The query of the tick: the latest detected match.
    method Query(key: Key, now: int) returns (m: Option<nat>)
      ensures m == FindMatch(table, key, now)
    {
      m := None;
      for i := 0 to |table|
        invariant m == FindMatch(table[..i], key, now)
      {
        assert Front(table[..i + 1]) == table[..i] && Last(table[..i + 1]) == table[i];
        if Matches(table[i].row, key, now) && (m.None? || table[m.value].row.detectedAt <= table[i].row.detectedAt) {
          m := Some(i);
        }
      }
      assert table[..|table|] == table;
    }

    method Credit(d: Detection, now: int)
      requires Valid() && clock <= now && d.mix == []
      modifies this
      ensures Valid() && clock == now
      ensures table == Absorb(old(table), d, now, cfg.cadence) && old(|table|) <= |table|
      ensures statuses[..old(|table|)] == old(statuses)
      ensures forall i :: old(|table|) <= i < |table| ==> statuses[i] == TradeLedger.OppStatus.Pending
    {
      hide EntriesOk, NoMixes, Apart, TableContinues, Refreshed, NewEntry, FindMatch, ClosedIffNotLive;
      AbsorbIsOk(table, d, clock, now, cfg.cadence);
      var m := Query(d.key, now);
      if m.Some? {
        SoundRow(table, clock, cfg.cadence, m.value);
        var e := Refresh(table[m.value], d, now, cfg.cadence);
        table := table[m.value := e];
      } else {
        table := table + [NewEntry(d, now)];
        statuses := statuses + [TradeLedger.OppStatus.Pending];
      }
      clock := now;
    }

    // One tick.  Spreads below the thresholds are ignored, and rows age out even when none is left.
    method Tick(spreads: seq<Spread>, now: int)
      requires Valid() && clock <= now
      modifies this
      ensures Valid() && clock == now
      ensures table == Ticked(old(table), Built(spreads, cfg.thresholds), now, cfg)
      ensures AllCurrent(table, now, cfg.closeAfterStale)
      ensures TableContinues(old(table), table)
      ensures statuses[..old(|table|)] == old(statuses)
      ensures forall i :: old(|table|) <= i < |table| ==> statuses[i] == TradeLedger.OppStatus.Pending
    {
      hide EntriesOk, NoMixes, Apart, TableContinues, Absorb, AbsorbAll, CloseStale, AllCurrent, MeetsThresholds;
      var built := Built(spreads, cfg.thresholds);
      NoMixFound(spreads, cfg.thresholds);
      hide Built;
      TickKeepsTable(table, built, clock, now, cfg);
      LaterIsOk(table, clock, now, cfg.cadence);
      AbsorbedNext(table, built, 0, Absorbing(now, cfg.cadence));
      clock := now;
      for i := 0 to |built|
        invariant Valid() && clock == now
        invariant table == AbsorbAll(old(table), built[..i], Absorbing(now, cfg.cadence))
        invariant old(|table|) <= |table|
        invariant statuses[..old(|table|)] == old(statuses)
        invariant forall k :: old(|table|) <= k < |table| ==> statuses[k] == TradeLedger.OppStatus.Pending
      {
        AbsorbedNext(old(table), built, i, Absorbing(now, cfg.cadence));
        Credit(built[i], now);
      }
      assert built[..|built|] == built;
      table := AgeOut(table, now, cfg.closeAfterStale);
    }
  }
}
