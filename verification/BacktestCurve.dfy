// Portfolio backtest, capital curve (backend/src/option_arb/services/opportunity_backtest.py).
//
// Entries and releases are swept in time order, accumulating the capital in use, the realised
// profit, the peak, the area under the curve and the series of points.  The theorems relate the
// sweep to the capital that is locked at each instant, for all instants.
module BacktestCurve {
  import opened BacktestAdmission
  import opened RealArithmetic
  import opened StableSorting
  import opened Wrappers

  const MICROSECONDS := 1000000.0

  datatype Event = Event(ts: int, dcap: real, dprofit: real)

  datatype Point = Point(ts: int, capital: real, profit: real)

  function TimeKey(e: Event): int {
    e.ts
  }

  function DCap(e: Event): real {
    e.dcap
  }

  function DProfit(e: Event): real {
    e.dprofit
  }

  function Seconds(a: int, b: int): real {
    (b - a) as real / MICROSECONDS
  }

  // ---------------------------------------------------------------------------------------------
  // Events
  // ---------------------------------------------------------------------------------------------

  // Releases after the horizon are left out; without a horizon none is.
  predicate Within(t: int, horizon: Option<int>) {
    horizon.Some? ==> t <= horizon.value
  }

  function EventsOf(p: Position, horizon: Option<int>): seq<Event> {
    [Event(p.entry, p.capital, 0.0)]
    + if Within(p.expiry, horizon) then [Event(p.expiry, -p.capital, p.profit)] else []
  }

  function Events(taken: seq<Position>, horizon: Option<int>): seq<Event> {
    if taken == [] then []
    else Events(Front(taken), horizon) + EventsOf(Last(taken), horizon)
  }

  function Timeline(taken: seq<Position>, horizon: Option<int>): seq<Event> {
    Sorted(Events(taken, horizon), TimeKey)
  }

  // ---------------------------------------------------------------------------------------------
  // What the sweep accumulates
  // ---------------------------------------------------------------------------------------------

  function Cap(events: seq<Event>): real {
    Sum(events, DCap)
  }

  function Realized(events: seq<Event>): real {
    Sum(events, DProfit)
  }

  function Peak(events: seq<Event>): real {
    if events == [] then 0.0
    else if Cap(events) > Peak(Front(events)) then Cap(events) else Peak(Front(events))
  }

  function LastTime(events: seq<Event>, start: int): int {
    if events == [] then start else Last(events).ts
  }

  function Area(events: seq<Event>, start: int): real {
    if events == [] then 0.0
    else
      Area(Front(events), start)
      + Times(Cap(Front(events)), Seconds(LastTime(Front(events), start), LastTime(events, start)))
  }

  // Events at one instant collapse into one point.
  function Record(series: seq<Point>, pt: Point): seq<Point> {
    if series != [] && Last(series).ts == pt.ts then Front(series) + [pt] else series + [pt]
  }

  function Series(events: seq<Event>): seq<Point> {
    if events == [] then []
    else Record(Series(Front(events)), Point(Last(events).ts, Cap(events), Realized(events)))
  }

  // The curve is closed at `now`.
  function Closed(series: seq<Point>, now: int, cap: real, realized: real): seq<Point> {
    if series == [] || Last(series).ts != now then series + [Point(now, cap, realized)] else series
  }

  function TotalArea(events: seq<Event>, start: int, now: int): real {
    Area(events, start) + Times(Cap(events), Max(Seconds(LastTime(events, start), now), 0.0))
  }

  datatype Curve = Curve(series: seq<Point>, peak: real, area: real, realized: real)

  function CurveOf(taken: seq<Position>, now: int): Curve
    requires taken != []
  {
    var events, start := Timeline(taken, Some(now)), taken[0].entry;
    Curve(Closed(Series(events), now, Cap(events), Realized(events)), Peak(events),
          TotalArea(events, start, now), Realized(events))
  }

  method CollectEvents(taken: seq<Position>, horizon: Option<int>) returns (events: seq<Event>)
    ensures events == Events(taken, horizon)
  {
    events := [];
    for i := 0 to |taken|
      invariant events == Events(taken[..i], horizon)
    {
      var p := taken[i];
      assert Front(taken[..i + 1]) == taken[..i] && Last(taken[..i + 1]) == p;
      events := events + [Event(p.entry, p.capital, 0.0)];
      if horizon.None? || p.expiry <= horizon.value {
        events := events + [Event(p.expiry, -p.capital, p.profit)];
      }
    }
    assert taken[..|taken|] == taken;
  }

  lemma SweepOneEvent(events: seq<Event>, i: nat, start: int)
    requires i < |events|
    ensures var done, e := events[..i + 1], events[i];
      && LastTime(done, start) == e.ts
      && Cap(done) == Cap(events[..i]) + e.dcap
      && Realized(done) == Realized(events[..i]) + e.dprofit
      && Peak(done) == (if Cap(done) > Peak(events[..i]) then Cap(done) else Peak(events[..i]))
      && Area(done, start)
         == Area(events[..i], start) + Times(Cap(events[..i]), Seconds(LastTime(events[..i], start), e.ts))
      && Series(done) == Record(Series(events[..i]), Point(e.ts, Cap(done), Realized(done)))
  {
    assert Front(events[..i + 1]) == events[..i] && Last(events[..i + 1]) == events[i];
  }

  method Sweep(taken: seq<Position>, now: int) returns (c: Curve)
    requires taken != []
    ensures c == CurveOf(taken, now)
  {
    var start := taken[0].entry;
    var events := CollectEvents(taken, Some(now));
    events := Sorted(events, TimeKey);

    var series: seq<Point> := [];
    var cap, realized, peak, area := 0.0, 0.0, 0.0, 0.0;
    var prevTs := start;
    assert events[..0] == [];
    assert Cap([]) == 0.0 && Realized([]) == 0.0;
    hide Times, Seconds, Sum, Cap, Realized, Sorted, Max;
    for i := 0 to |events|
      invariant cap == Cap(events[..i]) && realized == Realized(events[..i])
      invariant peak == Peak(events[..i])
      invariant prevTs == LastTime(events[..i], start)
      invariant area == Area(events[..i], start)
      invariant series == Series(events[..i])
    {
      var e := events[i];
      SweepOneEvent(events, i, start);
      hide Area, Peak, Series, LastTime;
      area := area + Times(cap, Seconds(prevTs, e.ts));
      prevTs := e.ts;
      cap := cap + e.dcap;
      realized := realized + e.dprofit;
      if cap > peak {
        peak := cap;
      }
      if series != [] && Last(series).ts == e.ts {
        series := Front(series) + [Point(e.ts, cap, realized)];
      } else {
        series := series + [Point(e.ts, cap, realized)];
      }
    }
    assert events[..|events|] == events;
    area := area + Times(cap, Max(Seconds(prevTs, now), 0.0));
    if series == [] || Last(series).ts != now {
      series := series + [Point(now, cap, realized)];
    }
    c := Curve(series, peak, area, realized);
  }

  // ---------------------------------------------------------------------------------------------
  // Capital in use at an instant
  // ---------------------------------------------------------------------------------------------

  function CapUpTo(t: int): Event -> real {
    (e: Event) => if e.ts <= t then e.dcap else 0.0
  }

  function ProfitUpTo(t: int): Event -> real {
    (e: Event) => if e.ts <= t then e.dprofit else 0.0
  }

  function ProfitWeight(t: int): Position -> real {
    (p: Position) => if p.expiry <= t then p.profit else 0.0
  }

  // Profit realised by instant t.
  function RealizedBy(taken: seq<Position>, t: int): real {
    Sum(taken, ProfitWeight(t))
  }

  lemma SumOfPair<T>(a: T, b: T, w: T -> real)
    ensures Sum([a], w) == w(a)
    ensures Sum([a, b], w) == w(a) + w(b)
  {
    assert Front([a, b]) == [a] && Front([a]) == [];
  }

  // Events up to t add up to what is active, and realised, at t.
  lemma {:induction false} EventsUpTo(taken: seq<Position>, horizon: Option<int>, t: int)
    requires AllWellFormed(taken) && Within(t, horizon)
    ensures Sum(Events(taken, horizon), CapUpTo(t)) == Active(taken, t)
    ensures Sum(Events(taken, horizon), ProfitUpTo(t)) == RealizedBy(taken, t)
  {
    if taken != [] {
      var p := Last(taken);
      var enter, release := Event(p.entry, p.capital, 0.0), Event(p.expiry, -p.capital, p.profit);
      EventsUpTo(Front(taken), horizon, t);
      SumOfPair(enter, release, CapUpTo(t));
      SumOfPair(enter, release, ProfitUpTo(t));
      assert EventsOf(p, horizon) == [enter, release] || EventsOf(p, horizon) == [enter];
      SumOfConcat(Events(Front(taken), horizon), EventsOf(p, horizon), CapUpTo(t));
      SumOfConcat(Events(Front(taken), horizon), EventsOf(p, horizon), ProfitUpTo(t));
    }
  }

  // A prefix of the timeline that holds every event up to t, and no other, accumulates exactly the
  // capital active and the profit realised at t.
  lemma PrefixIsActive(taken: seq<Position>, horizon: Option<int>, k: nat, t: int)
    requires AllWellFormed(taken) && Within(t, horizon)
    requires k <= |Timeline(taken, horizon)|
    requires forall i :: 0 <= i < k ==> Timeline(taken, horizon)[i].ts <= t
    requires forall i :: k <= i < |Timeline(taken, horizon)| ==> t < Timeline(taken, horizon)[i].ts
    ensures Cap(Timeline(taken, horizon)[..k]) == Active(taken, t)
    ensures Realized(Timeline(taken, horizon)[..k]) == RealizedBy(taken, t)
  {
    var events := Timeline(taken, horizon);
    EventsUpTo(taken, horizon, t);
    SumOfSorted(Events(taken, horizon), TimeKey, CapUpTo(t));
    SumOfSorted(Events(taken, horizon), TimeKey, ProfitUpTo(t));
    assert events == events[..k] + events[k..];
    SumOfConcat(events[..k], events[k..], CapUpTo(t));
    SumOfConcat(events[..k], events[k..], ProfitUpTo(t));
    SumsAgree(events[..k], DCap, CapUpTo(t));
    SumsAgree(events[..k], DProfit, ProfitUpTo(t));
    SumZero(events[k..], CapUpTo(t));
    SumZero(events[k..], ProfitUpTo(t));
  }

  // ---------------------------------------------------------------------------------------------
  // The peak
  // ---------------------------------------------------------------------------------------------

  // At one instant releases come before entries: an entry may follow a release, not precede it.
  predicate ReleaseFirst(a: Event, b: Event) {
    b.dcap < 0.0 ==> a.dcap < 0.0
  }

  predicate EntersAt(ts: int, taken: seq<Position>) {
    exists i :: 0 <= i < |taken| && taken[i].entry == ts
  }

  predicate ExpiresAt(ts: int, taken: seq<Position>) {
    exists i :: 0 <= i < |taken| && taken[i].expiry == ts
  }

  // Entries carry positive capital, releases negative capital up to the horizon.
  predicate IsEventOf(e: Event, taken: seq<Position>, horizon: Option<int>) {
    || (e.dcap > 0.0 && EntersAt(e.ts, taken))
    || (e.dcap < 0.0 && ExpiresAt(e.ts, taken) && Within(e.ts, horizon))
  }

  lemma {:induction false} EventTimes(taken: seq<Position>, horizon: Option<int>)
    requires AllWellFormed(taken)
    ensures forall e :: e in Events(taken, horizon) ==> IsEventOf(e, taken, horizon)
  {
    if taken != [] {
      EventTimes(Front(taken), horizon);
      forall e | e in Events(taken, horizon)
        ensures IsEventOf(e, taken, horizon)
      {
        if e in Events(Front(taken), horizon) {
          assert IsEventOf(e, Front(taken), horizon);
        } else {
          assert e in EventsOf(Last(taken), horizon);
          assert EntersAt(Last(taken).entry, taken) && ExpiresAt(Last(taken).expiry, taken);
        }
      }
    }
  }

  // The events are listed so that, at equal times, releases already precede entries: a position
  // entered when another expires was taken after it.
  lemma {:induction false} EventsReleaseFirst(taken: seq<Position>, horizon: Option<int>)
    requires Ordered(taken, EntryKey) && AllWellFormed(taken)
    ensures TiesRelated(Events(taken, horizon), TimeKey, ReleaseFirst)
  {
    if taken != [] {
      var front, p := Front(taken), Last(taken);
      var before := Events(front, horizon);
      EventsReleaseFirst(front, horizon);
      EventTimes(front, horizon);
      forall j | 0 <= j < |front|
        ensures front[j].entry < p.expiry
      {
        assert EntryKey(taken[j]) <= EntryKey(taken[|taken| - 1]);
      }
      assert !EntersAt(p.expiry, front);
      forall i | 0 <= i < |before| && before[i].ts == p.expiry
        ensures before[i].dcap < 0.0
      {
        assert before[i] in before;
      }
      assert Events(taken, horizon) == before + EventsOf(p, horizon);
    }
  }

  lemma TimelineFacts(taken: seq<Position>, horizon: Option<int>)
    requires AllWellFormed(taken)
    ensures Ordered(Timeline(taken, horizon), TimeKey)
    ensures |Timeline(taken, horizon)| == |Events(taken, horizon)|
    ensures forall i :: 0 <= i < |Timeline(taken, horizon)| ==> Timeline(taken, horizon)[i].dcap != 0.0
    ensures Ordered(taken, EntryKey) ==> TiesRelated(Timeline(taken, horizon), TimeKey, ReleaseFirst)
  {
    SortedIsOrderedPermutation(Events(taken, horizon), TimeKey);
    EventTimes(taken, horizon);
    forall i | 0 <= i < |Timeline(taken, horizon)|
      ensures Timeline(taken, horizon)[i].dcap != 0.0
    {
      var e := Timeline(taken, horizon)[i];
      assert e in multiset(Timeline(taken, horizon));
      assert e in Events(taken, horizon);
    }
    if Ordered(taken, EntryKey) {
      EventsReleaseFirst(taken, horizon);
      SortKeepsTies(Events(taken, horizon), TimeKey, ReleaseFirst);
    }
  }

  // Number of events up to t in a timeline.
  lemma {:induction false} Cut(events: seq<Event>, t: int) returns (k: nat)
    requires Ordered(events, TimeKey)
    ensures k <= |events|
    ensures forall i :: 0 <= i < k ==> events[i].ts <= t
    ensures forall i :: k <= i < |events| ==> t < events[i].ts
  {
    k := |events|;
    while 0 < k && t < events[k - 1].ts
      invariant 0 <= k <= |events|
      invariant forall i :: k <= i < |events| ==> t < events[i].ts
    {
      k := k - 1;
    }
    if 0 < k {
      forall i | 0 <= i < k
        ensures events[i].ts <= t
      {
        assert i < k - 1 ==> TimeKey(events[i]) <= TimeKey(events[k - 1]);
      }
    }
  }

  lemma {:induction false} PeakDominates(events: seq<Event>, k: nat)
    requires k <= |events|
    ensures Cap(events[..k]) <= Peak(events) && 0.0 <= Peak(events)
  {
    if events != [] {
      if k < |events| {
        PeakDominates(Front(events), k);
        assert Front(events)[..k] == events[..k];
      } else {
        PeakDominates(Front(events), 0);
        assert events[..k] == events;
      }
    }
  }

  // Stopping in the middle of one instant, after an entry, never shows more than that instant holds:
  // all its releases have already been applied and only entries remain.
  lemma MidInstantIsBelow(taken: seq<Position>, horizon: Option<int>, k: nat)
    requires Ordered(taken, EntryKey) && AllWellFormed(taken)
    requires 0 < k <= |Timeline(taken, horizon)|
    requires Timeline(taken, horizon)[k - 1].dcap > 0.0
    requires Within(Timeline(taken, horizon)[k - 1].ts, horizon)
    ensures Cap(Timeline(taken, horizon)[..k]) <= Active(taken, Timeline(taken, horizon)[k - 1].ts)
  {
    var events := Timeline(taken, horizon);
    var t := events[k - 1].ts;
    TimelineFacts(taken, horizon);
    var m := Cut(events, t);
    PrefixIsActive(taken, horizon, m, t);
    assert events[..m] == events[..k] + events[k..m];
    SumOfConcat(events[..k], events[k..m], DCap);
    forall i | k <= i < m
      ensures 0.0 <= events[i].dcap
    {
      assert TimeKey(events[k - 1]) <= TimeKey(events[i]);
      assert ReleaseFirst(events[k - 1], events[i]);
    }
    SumNonNegative(events[k..m], DCap);
  }

  // Every prefix of the timeline stays below some instant's active capital.
  lemma {:induction false} PrefixPeakIsAttained(taken: seq<Position>, horizon: Option<int>, k: nat) returns (t: int)
    requires Ordered(taken, EntryKey) && AllWellFormed(taken)
    requires k <= |Timeline(taken, horizon)|
    requires forall e :: e in Timeline(taken, horizon) ==> Within(e.ts, horizon)
    ensures Within(t, horizon)
    ensures Peak(Timeline(taken, horizon)[..k]) <= Active(taken, t)
  {
    var events := Timeline(taken, horizon);
    if k == 0 {
      t := if horizon.Some? then horizon.value else 0;
      SumNonNegative(taken, ActiveWeight(t));
    } else {
      t := PrefixPeakIsAttained(taken, horizon, k - 1);
      assert Front(events[..k]) == events[..k - 1] && Last(events[..k]) == events[k - 1];
      TimelineFacts(taken, horizon);
      if Cap(events[..k]) > Peak(events[..k - 1]) {
        PeakDominates(events[..k - 1], k - 1);
        assert events[..k - 1][..k - 1] == events[..k - 1];
        assert events[k - 1] in events;
        MidInstantIsBelow(taken, horizon, k);
        t := events[k - 1].ts;
      }
    }
  }

  lemma InstantIsBelowPeak(taken: seq<Position>, horizon: Option<int>, t: int)
    requires AllWellFormed(taken) && Within(t, horizon)
    ensures Active(taken, t) <= Peak(Timeline(taken, horizon))
  {
    TimelineFacts(taken, horizon);
    var k := Cut(Timeline(taken, horizon), t);
    PrefixIsActive(taken, horizon, k, t);
    PeakDominates(Timeline(taken, horizon), k);
  }

  // v is the maximum over all instants of the capital locked.
  ghost predicate IsPeakCapital(v: real, taken: seq<Position>) {
    && (forall t :: Active(taken, t) <= v)
    && (exists t :: Active(taken, t) == v)
  }

  predicate EnteredBy(taken: seq<Position>, horizon: Option<int>) {
    forall i :: 0 <= i < |taken| ==> Within(taken[i].entry, horizon)
  }

  lemma EventsAreWithin(taken: seq<Position>, horizon: Option<int>)
    requires AllWellFormed(taken) && EnteredBy(taken, horizon)
    ensures forall e :: e in Timeline(taken, horizon) ==> Within(e.ts, horizon)
  {
    SortedIsOrderedPermutation(Events(taken, horizon), TimeKey);
    EventTimes(taken, horizon);
    forall e | e in Timeline(taken, horizon)
      ensures Within(e.ts, horizon)
    {
      assert e in multiset(Timeline(taken, horizon));
      assert e in Events(taken, horizon);
    }
  }

  // The swept peak is exact.
  lemma PeakIsExact(taken: seq<Position>, horizon: Option<int>)
    requires Ordered(taken, EntryKey) && AllWellFormed(taken) && EnteredBy(taken, horizon)
    ensures IsPeakCapital(Peak(Timeline(taken, horizon)), taken)
  {
    var events := Timeline(taken, horizon);
    forall t
      ensures Active(taken, t) <= Peak(events)
    {
      // After the horizon nothing more is entered, so no more is locked than at the horizon.
      var u := if Within(t, horizon) then t else horizon.value;
      SumMonotone(taken, ActiveWeight(t), ActiveWeight(u));
      InstantIsBelowPeak(taken, horizon, u);
    }
    EventsAreWithin(taken, horizon);
    var t := PrefixPeakIsAttained(taken, horizon, |events|);
    assert events[..|events|] == events;
    assert Active(taken, t) == Peak(events);
  }

  // ---------------------------------------------------------------------------------------------
  // The series
  // ---------------------------------------------------------------------------------------------

  // The point tells the truth about its instant.
  predicate Exact(pt: Point, taken: seq<Position>) {
    pt.capital == Active(taken, pt.ts) && pt.profit == RealizedBy(taken, pt.ts)
  }

  predicate StrictlyLater(series: seq<Point>) {
    forall i, j :: 0 <= i < j < |series| ==> series[i].ts < series[j].ts
  }

  // The last event of the first k closes its instant.
  predicate Complete(events: seq<Event>, k: nat)
    requires 0 < k <= |events|
  {
    k < |events| ==> events[k - 1].ts < events[k].ts
  }

  function PointAt(events: seq<Event>, k: nat): Point
    requires 0 < k <= |events|
  {
    Point(events[k - 1].ts, Cap(events[..k]), Realized(events[..k]))
  }

  lemma CompletePrefixIsExact(taken: seq<Position>, horizon: Option<int>, k: nat)
    requires AllWellFormed(taken)
    requires 0 < k <= |Timeline(taken, horizon)|
    requires Within(Timeline(taken, horizon)[k - 1].ts, horizon)
    requires Complete(Timeline(taken, horizon), k)
    ensures Exact(PointAt(Timeline(taken, horizon), k), taken)
  {
    var events := Timeline(taken, horizon);
    TimelineFacts(taken, horizon);
    forall i | 0 <= i < k
      ensures events[i].ts <= events[k - 1].ts
    {
      assert i < k - 1 ==> TimeKey(events[i]) <= TimeKey(events[k - 1]);
    }
    forall i | k <= i < |events|
      ensures events[k - 1].ts < events[i].ts
    {
      assert k < i ==> TimeKey(events[k]) <= TimeKey(events[i]);
    }
    PrefixIsActive(taken, horizon, k, events[k - 1].ts);
  }

  // All points but the last are final; the last one is what has been accumulated so far.
  predicate SeriesSoFar(series: seq<Point>, last: Point, taken: seq<Position>) {
    && series != [] && StrictlyLater(series) && Last(series) == last
    && forall i :: 0 <= i < |series| - 1 ==> Exact(series[i], taken)
  }

  lemma RecordKeepsSeries(series: seq<Point>, last: Point, pt: Point, taken: seq<Position>)
    requires SeriesSoFar(series, last, taken)
    requires last.ts <= pt.ts
    requires last.ts < pt.ts ==> Exact(last, taken)
    ensures SeriesSoFar(Record(series, pt), pt, taken)
  {
    var r := Record(series, pt);
    assert last.ts < pt.ts ==> r == series + [pt];
    assert last.ts == pt.ts ==> r == Front(series) + [pt];
  }

  lemma SeriesOfPrefix(events: seq<Event>, k: nat)
    requires 0 < k <= |events|
    ensures Series(events[..k]) == Record(Series(events[..k - 1]), PointAt(events, k))
  {
    assert Front(events[..k]) == events[..k - 1] && Last(events[..k]) == events[k - 1];
  }

  lemma {:induction false} SeriesIsExactSoFar(taken: seq<Position>, horizon: Option<int>, k: nat)
    requires AllWellFormed(taken) && EnteredBy(taken, horizon)
    requires 0 < k <= |Timeline(taken, horizon)|
    ensures SeriesSoFar(Series(Timeline(taken, horizon)[..k]), PointAt(Timeline(taken, horizon), k), taken)
  {
    var events := Timeline(taken, horizon);
    SeriesOfPrefix(events, k);
    if k == 1 {
      assert events[..0] == [];
    } else {
      SeriesIsExactSoFar(taken, horizon, k - 1);
      assert events[k - 2].ts <= events[k - 1].ts by {
        TimelineFacts(taken, horizon);
        assert TimeKey(events[k - 2]) <= TimeKey(events[k - 1]);
      }
      if events[k - 2].ts < events[k - 1].ts {
        EventsAreWithin(taken, horizon);
        assert events[k - 2] in events;
        CompletePrefixIsExact(taken, horizon, k - 1);
      }
      RecordKeepsSeries(Series(events[..k - 1]), PointAt(events, k - 1), PointAt(events, k), taken);
    }
  }

  lemma EventsNonEmpty(taken: seq<Position>, horizon: Option<int>)
    requires taken != []
    ensures Timeline(taken, horizon) != []
  {
    SortedIsOrderedPermutation(Events(taken, horizon), TimeKey);
  }

  lemma ClosingKeepsSeries(series: seq<Point>, last: Point, now: int, taken: seq<Position>)
    requires SeriesSoFar(series, last, taken) && Exact(last, taken)
    requires last.ts <= now && Exact(Point(now, last.capital, last.profit), taken)
    ensures var closed := Closed(series, now, last.capital, last.profit);
      SeriesSoFar(closed, Point(now, last.capital, last.profit), taken)
  {}

  lemma WholeTimeline(taken: seq<Position>, now: int)
    requires taken != [] && AllWellFormed(taken) && EnteredBy(taken, Some(now))
    ensures var events := Timeline(taken, Some(now));
      && events != [] && Last(events).ts <= now
      && Cap(events) == Active(taken, now) && Realized(events) == RealizedBy(taken, now)
  {
    var events := Timeline(taken, Some(now));
    EventsNonEmpty(taken, Some(now));
    EventsAreWithin(taken, Some(now));
    forall i | 0 <= i < |events|
      ensures events[i].ts <= now
    {
      assert events[i] in events;
    }
    PrefixIsActive(taken, Some(now), |events|, now);
    assert events[..|events|] == events;
  }

  // The series is exact at each of its instants, strictly increasing in time, and ends at `now`.
  lemma SeriesIsExact(taken: seq<Position>, now: int)
    requires taken != [] && AllWellFormed(taken) && EnteredBy(taken, Some(now))
    ensures var series := CurveOf(taken, now).series;
      && StrictlyLater(series)
      && (forall i :: 0 <= i < |series| ==> Exact(series[i], taken))
      && series != [] && Last(series).ts == now
    ensures CurveOf(taken, now).realized == RealizedBy(taken, now)
  {
    var events := Timeline(taken, Some(now));
    var n := |events|;
    WholeTimeline(taken, now);
    SeriesIsExactSoFar(taken, Some(now), n);
    CompletePrefixIsExact(taken, Some(now), n);
    assert events[..n] == events;
    ClosingKeepsSeries(Series(events), PointAt(events, n), now, taken);
  }

  // The last point at or before an instant.
  function Latest(series: seq<Point>, t: int): (pt: Option<Point>)
    ensures pt.Some? ==> pt.value in series && pt.value.ts <= t
  {
    if series == [] then None
    else if Last(series).ts <= t then Some(Last(series))
    else Latest(Front(series), t)
  }

  lemma {:induction false} LatestIsLast(series: seq<Point>, t: int, i: nat)
    requires StrictlyLater(series) && i < |series| && series[i].ts <= t
    ensures Latest(series, t).Some? && series[i].ts <= Latest(series, t).value.ts
  {
    var n := |series| - 1;
    if t < series[n].ts {
      LatestIsLast(Front(series), t, i);
    }
  }

  predicate HasTime(series: seq<Point>, t: int) {
    exists j :: 0 <= j < |series| && series[j].ts == t
  }

  lemma RecordHasTimes(series: seq<Point>, pt: Point, t: int)
    requires HasTime(series, t) || pt.ts == t
    ensures HasTime(Record(series, pt), t)
  {
    var r := Record(series, pt);
    assert r[|r| - 1] == pt;
    if HasTime(series, t) {
      var j :| 0 <= j < |series| && series[j].ts == t;
      assert j < |r| - 1 ==> r[j] == series[j];
    }
  }

  // Every event leaves a point at its instant.
  lemma {:induction false} SeriesHasAllTimes(events: seq<Event>, i: nat)
    requires i < |events|
    ensures HasTime(Series(events), events[i].ts)
  {
    if i < |events| - 1 {
      SeriesHasAllTimes(Front(events), i);
    }
    RecordHasTimes(Series(Front(events)), Point(Last(events).ts, Cap(events), Realized(events)), events[i].ts);
  }

  lemma ClosedHasTimes(series: seq<Point>, now: int, cap: real, realized: real, t: int)
    requires HasTime(series, t)
    ensures HasTime(Closed(series, now, cap, realized), t)
  {
    var j :| 0 <= j < |series| && series[j].ts == t;
    assert Closed(series, now, cap, realized)[j] == series[j];
  }

  // With no event between two instants the same capital is active at both, and as much realised.
  lemma QuietBetween(taken: seq<Position>, horizon: Option<int>, s: int, t: int)
    requires AllWellFormed(taken) && Within(t, horizon) && s <= t
    requires forall i :: 0 <= i < |Timeline(taken, horizon)| && Timeline(taken, horizon)[i].ts <= t ==>
      Timeline(taken, horizon)[i].ts <= s
    ensures Active(taken, s) == Active(taken, t) && RealizedBy(taken, s) == RealizedBy(taken, t)
  {
    TimelineFacts(taken, horizon);
    var k := Cut(Timeline(taken, horizon), t);
    hide Active, RealizedBy, Timeline, Cap, Realized;
    PrefixIsActive(taken, horizon, k, t);
    PrefixIsActive(taken, horizon, k, s);
  }

  lemma NothingBefore(taken: seq<Position>, horizon: Option<int>, t: int)
    requires AllWellFormed(taken) && Within(t, horizon)
    requires forall i :: 0 <= i < |Timeline(taken, horizon)| ==> t < Timeline(taken, horizon)[i].ts
    ensures Active(taken, t) == 0.0 && RealizedBy(taken, t) == 0.0
  {
    PrefixIsActive(taken, horizon, 0, t);
    assert Timeline(taken, horizon)[..0] == [];
    hide Active, RealizedBy, Timeline;
  }

  lemma EventsHavePoints(taken: seq<Position>, now: int, i: nat)
    requires taken != [] && i < |Timeline(taken, Some(now))|
    ensures HasTime(CurveOf(taken, now).series, Timeline(taken, Some(now))[i].ts)
  {
    var events := Timeline(taken, Some(now));
    SeriesHasAllTimes(events, i);
    ClosedHasTimes(Series(events), now, Cap(events), Realized(events), events[i].ts);
    hide Timeline, Series, Closed;
  }

  // The series is the whole curve up to now: at every instant the last point so far tells the capital
  // active and the profit realised, and before the first point there is neither.
  lemma SeriesIsComplete(taken: seq<Position>, now: int, t: int)
    requires taken != [] && AllWellFormed(taken) && EnteredBy(taken, Some(now)) && t <= now
    ensures var pt := Latest(CurveOf(taken, now).series, t);
      && (pt.Some? ==> pt.value.capital == Active(taken, t) && pt.value.profit == RealizedBy(taken, t))
      && (pt.None? ==> Active(taken, t) == 0.0 && RealizedBy(taken, t) == 0.0)
  {
    SeriesIsExact(taken, now);
    var series, events := CurveOf(taken, now).series, Timeline(taken, Some(now));
    hide CurveOf, Timeline, Active, RealizedBy, Latest;
    var pt := Latest(series, t);
    forall i | 0 <= i < |events| && events[i].ts <= t
      ensures pt.Some? && events[i].ts <= pt.value.ts
    {
      EventsHavePoints(taken, now, i);
      var j :| 0 <= j < |series| && series[j].ts == events[i].ts;
      LatestIsLast(series, t, j);
    }
    if pt.Some? {
      QuietBetween(taken, Some(now), pt.value.ts, t);
      assert Exact(pt.value, taken);
    } else {
      NothingBefore(taken, Some(now), t);
    }
  }

  // ---------------------------------------------------------------------------------------------
  // The area
  // ---------------------------------------------------------------------------------------------

  function DelayWeight(t: int): Event -> real {
    (e: Event) => Times(e.dcap, Seconds(e.ts, t))
  }

  lemma SecondsAdd(a: int, b: int, c: int)
    ensures Seconds(a, b) + Seconds(b, c) == Seconds(a, c)
  {}

  // Extending the curve flat to t, the area is what every single event contributes up to t.
  lemma {:induction false} AreaOfEvents(events: seq<Event>, start: int, t: int)
    ensures Area(events, start) + Times(Cap(events), Seconds(LastTime(events, start), t)) == Sum(events, DelayWeight(t))
  {
    hide Times, Seconds;
    if events == [] {
      TimesZero(Seconds(start, t));
    } else {
      var front, e := Front(events), Last(events);
      var prev := LastTime(front, start);
      AreaOfEvents(front, start, t);
      SecondsAdd(prev, e.ts, t);
      TimesSplit(Seconds(prev, t), Seconds(prev, e.ts), Seconds(e.ts, t), Cap(front));
      TimesSplit(Cap(events), Cap(front), e.dcap, Seconds(e.ts, t));
    }
  }

  // Capital times the time it is locked up to t.
  function LockedWeight(t: int): Position -> real {
    (p: Position) => Times(p.capital, Seconds(p.entry, if p.expiry <= t then p.expiry else t))
  }

  lemma LockedStep(c: real, entry: int, expiry: int, t: int)
    ensures Times(c, Seconds(entry, t)) + Times(-c, Seconds(expiry, t)) == Times(c, Seconds(entry, expiry))
  {
    hide Times, Seconds;
    SecondsAdd(entry, expiry, t);
    TimesSplit(Seconds(entry, t), Seconds(entry, expiry), Seconds(expiry, t), c);
    TimesSplit(0.0, c, -c, Seconds(expiry, t));
    TimesZero(Seconds(expiry, t));
  }

  lemma {:induction false} EventsDelay(taken: seq<Position>, t: int)
    ensures Sum(Events(taken, Some(t)), DelayWeight(t)) == Sum(taken, LockedWeight(t))
  {
    hide Times, Seconds;
    if taken != [] {
      var p := Last(taken);
      var enter, release := Event(p.entry, p.capital, 0.0), Event(p.expiry, -p.capital, p.profit);
      EventsDelay(Front(taken), t);
      SumOfPair(enter, release, DelayWeight(t));
      assert EventsOf(p, Some(t)) == [enter, release] || EventsOf(p, Some(t)) == [enter];
      SumOfConcat(Events(Front(taken), Some(t)), EventsOf(p, Some(t)), DelayWeight(t));
      LockedStep(p.capital, p.entry, p.expiry, t);
    }
  }

  lemma SecondsNonNegative(a: int, b: int)
    requires a <= b
    ensures 0.0 <= Seconds(a, b)
  {}

  lemma TotalAreaOfEvents(events: seq<Event>, start: int, now: int)
    requires LastTime(events, start) <= now
    ensures TotalArea(events, start, now) == Sum(events, DelayWeight(now))
  {
    SecondsNonNegative(LastTime(events, start), now);
    hide Times, Seconds, Area, Sum, Cap;
    AreaOfEvents(events, start, now);
  }

  lemma LastTimeWithin(taken: seq<Position>, now: int)
    requires taken != [] && AllWellFormed(taken) && EnteredBy(taken, Some(now))
    ensures LastTime(Timeline(taken, Some(now)), taken[0].entry) <= now
  {
    EventsNonEmpty(taken, Some(now));
    EventsAreWithin(taken, Some(now));
    assert Last(Timeline(taken, Some(now))) in Timeline(taken, Some(now));
  }

  // The area identity.
  lemma AreaIdentity(taken: seq<Position>, now: int)
    requires taken != [] && AllWellFormed(taken) && EnteredBy(taken, Some(now))
    ensures CurveOf(taken, now).area == Sum(taken, LockedWeight(now))
  {
    LastTimeWithin(taken, now);
    TotalAreaOfEvents(Timeline(taken, Some(now)), taken[0].entry, now);
    SumOfSorted(Events(taken, Some(now)), TimeKey, DelayWeight(now));
    EventsDelay(taken, now);
  }

  lemma BoundStep(area: real, cap: real, bound: real, start: int, prev: int, ts: int)
    requires area <= Times(bound, Seconds(start, prev)) && cap <= bound && prev <= ts
    ensures area + Times(cap, Seconds(prev, ts)) <= Times(bound, Seconds(start, ts))
  {
    SecondsNonNegative(prev, ts);
    hide Times, Seconds;
    TimesMono(cap, bound, Seconds(prev, ts));
    SecondsAdd(start, prev, ts);
    TimesSplit(Seconds(start, ts), Seconds(start, prev), Seconds(prev, ts), bound);
  }

  lemma LastTimeAdvances(events: seq<Event>, start: int)
    requires Ordered(events, TimeKey)
    requires events != [] && start <= events[0].ts
    ensures LastTime(Front(events), start) <= Last(events).ts
  {
    assert |events| > 1 ==> TimeKey(events[|events| - 2]) <= TimeKey(events[|events| - 1]);
  }

  lemma PeakOfFront(events: seq<Event>)
    requires events != []
    ensures Cap(Front(events)) <= Peak(Front(events)) <= Peak(events)
  {
    PeakDominates(Front(events), |Front(events)|);
    assert Front(events)[..|Front(events)|] == Front(events);
  }

  lemma {:induction false} AreaBelowBound(events: seq<Event>, start: int, bound: real)
    requires Ordered(events, TimeKey)
    requires events != [] ==> start <= events[0].ts
    requires Peak(events) <= bound
    ensures Area(events, start) <= Times(bound, Seconds(start, LastTime(events, start)))
  {
    hide Times, Cap;
    if events == [] {
      TimesZero(bound);
      assert Seconds(start, start) == 0.0;
    } else {
      var front := Front(events);
      LastTimeAdvances(events, start);
      PeakOfFront(events);
      AreaBelowBound(front, start, bound);
      BoundStep(Area(front, start), Cap(front), bound, start, LastTime(front, start), LastTime(events, start));
    }
  }

  lemma TotalAreaBelowBound(events: seq<Event>, start: int, now: int)
    requires Ordered(events, TimeKey)
    requires events != [] && start <= events[0].ts
    requires LastTime(events, start) <= now
    ensures TotalArea(events, start, now) <= Times(Peak(events), Seconds(start, now))
  {
    SecondsNonNegative(LastTime(events, start), now);
    hide Times, Seconds, Area, Cap;
    AreaBelowBound(events, start, Peak(events));
    PeakDominates(events, |events|);
    assert events[..|events|] == events;
    BoundStep(Area(events, start), Cap(events), Peak(events), start, LastTime(events, start), now);
  }

  lemma FirstEventIsFirstEntry(taken: seq<Position>, now: int)
    requires taken != [] && Ordered(taken, EntryKey) && AllWellFormed(taken)
    ensures Timeline(taken, Some(now)) != []
    ensures taken[0].entry <= Timeline(taken, Some(now))[0].ts
  {
    EventsNonEmpty(taken, Some(now));
    SortedIsOrderedPermutation(Events(taken, Some(now)), TimeKey);
    EventTimes(taken, Some(now));
    var e := Timeline(taken, Some(now))[0];
    assert e in multiset(Timeline(taken, Some(now)));
    assert e in Events(taken, Some(now));
    var i :| 0 <= i < |taken| && (taken[i].entry == e.ts || taken[i].expiry == e.ts);
    assert i > 0 ==> EntryKey(taken[0]) <= EntryKey(taken[i]);
  }

  lemma LockedNonNegative(taken: seq<Position>, now: int)
    requires AllWellFormed(taken) && EnteredBy(taken, Some(now))
    ensures 0.0 <= Sum(taken, LockedWeight(now))
  {
    forall i | 0 <= i < |taken|
      ensures 0.0 <= LockedWeight(now)(taken[i])
    {
      var p := taken[i];
      assert Within(p.entry, Some(now));
      SecondsNonNegative(p.entry, if p.expiry <= now then p.expiry else now);
      hide Times, Seconds;
      TimesMono(0.0, p.capital, Seconds(p.entry, if p.expiry <= now then p.expiry else now));
      TimesZero(Seconds(p.entry, if p.expiry <= now then p.expiry else now));
    }
    SumNonNegative(taken, LockedWeight(now));
  }

  // The area fits under the peak over the whole period, and is never negative.
  lemma AreaWithinPeak(taken: seq<Position>, now: int)
    requires taken != [] && Ordered(taken, EntryKey) && AllWellFormed(taken) && EnteredBy(taken, Some(now))
    ensures 0.0 <= CurveOf(taken, now).area <= Times(CurveOf(taken, now).peak, Seconds(taken[0].entry, now))
  {
    hide Times, Seconds, TotalArea, Events, Sum;
    FirstEventIsFirstEntry(taken, now);
    LastTimeWithin(taken, now);
    SortedIsOrderedPermutation(Events(taken, Some(now)), TimeKey);
    TotalAreaBelowBound(Timeline(taken, Some(now)), taken[0].entry, now);
    AreaIdentity(taken, now);
    LockedNonNegative(taken, now);
  }
}
