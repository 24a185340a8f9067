// Decimation of an opportunity's time series (backend/src/option_arb/services/snapshots.py).
//
// A snapshot is stored only when something material changed.  The theorems say what survives:
// every detection ever made is represented by a stored snapshot that was recent and close at the
// time, and no two consecutive snapshots are redundant.
module Snapshots {
  import opened StableSorting
  import opened Wrappers

  datatype LegId = LegId(exchange: string, instrument: string, side: string)

  // What one detection saw: when, the headline value, the rate that goes with it, the other figures
  // stored with them, and the venue mix.
  datatype Sample = Sample(ts: int, value: real, rate: real, figures: seq<real>, mix: seq<LegId>)

  // Thresholds in force; the interval is in microseconds.
  datatype Cadence = Cadence(minInterval: int, delta: real)

  function Abs(x: real): real {
    if x < 0.0 then -x else x
  }

  function ShouldSnapshot(lastAt: Option<int>, lastValue: Option<real>, newValue: real, now: int, c: Cadence,
                          extraTrigger: bool): bool
  {
    if lastAt.None? then true
    else if now - lastAt.value >= c.minInterval then true
    else if lastValue.None? || Abs(newValue - lastValue.value) >= c.delta then true
    else extraTrigger
  }

  // None is skipped without one before it, and one is skipped exactly when it comes within the interval,
  // within delta and without a change of mix.
  lemma SkippedIff(lastAt: Option<int>, lastValue: Option<real>, newValue: real, now: int, c: Cadence, mixChanged: bool)
    ensures !ShouldSnapshot(lastAt, lastValue, newValue, now, c, mixChanged) <==>
      && lastAt.Some? && lastValue.Some? && now < lastAt.value + c.minInterval
      && newValue < lastValue.value + c.delta && lastValue.value < newValue + c.delta && !mixChanged
  {}

  // The stored snapshot stands for the sample: it is the sample, or it is younger than the interval,
  // within delta, and of the same venue mix.
  predicate Represents(snap: Sample, s: Sample, c: Cadence) {
    || snap == s
    || (0 <= s.ts - snap.ts < c.minInterval && Abs(s.value - snap.value) < c.delta && s.mix == snap.mix)
  }

  predicate Material(a: Sample, b: Sample, c: Cadence) {
    b.ts - a.ts >= c.minInterval || Abs(b.value - a.value) >= c.delta || b.mix != a.mix
  }

  predicate Spaced(snaps: seq<Sample>, c: Cadence) {
    forall i :: 0 <= i < |snaps| - 1 ==> snaps[i].ts <= snaps[i + 1].ts && Material(snaps[i], snaps[i + 1], c)
  }

  predicate Represented(s: Sample, snaps: seq<Sample>, c: Cadence) {
    exists j :: 0 <= j < |snaps| && Represents(snaps[j], s, c)
  }

  predicate AllRepresented(seen: seq<Sample>, snaps: seq<Sample>, c: Cadence) {
    forall k :: 0 <= k < |seen| ==> Represented(seen[k], snaps, c)
  }

  // A well-kept history: all detections so far and the snapshots stored for them.
  predicate Kept(seen: seq<Sample>, snaps: seq<Sample>, c: Cadence) {
    && seen != [] && snaps != []
    && Spaced(snaps, c)
    && AllRepresented(seen, snaps, c)
    && Last(snaps).ts <= Last(seen).ts
    && Last(snaps).mix == Last(seen).mix
    && Represents(Last(snaps), Last(seen), c)
  }

  // One more detection; the extra trigger is a change of mix since the previous detection.
  function Recorded(seen: seq<Sample>, snaps: seq<Sample>, s: Sample, c: Cadence): seq<Sample>
    requires seen != [] && snaps != []
  {
    var last := Last(snaps);
    if ShouldSnapshot(Some(last.ts), Some(last.value), s.value, s.ts, c, Last(seen).mix != s.mix) then snaps + [s]
    else snaps
  }

  lemma FirstSampleIsKept(s: Sample, c: Cadence)
    ensures Kept([s], [s], c)
  {
    assert Represents([s][0], s, c);
  }

  lemma MoreSnapshotsRepresent(seen: seq<Sample>, snaps: seq<Sample>, s: Sample, c: Cadence)
    requires AllRepresented(seen, snaps, c)
    ensures AllRepresented(seen, snaps + [s], c)
  {
    forall k | 0 <= k < |seen|
      ensures Represented(seen[k], snaps + [s], c)
    {
      assert Represented(seen[k], snaps, c);
      var j :| 0 <= j < |snaps| && Represents(snaps[j], seen[k], c);
      assert (snaps + [s])[j] == snaps[j];
    }
  }

  // Recording keeps the history well kept.
  lemma RecordingIsKept(seen: seq<Sample>, snaps: seq<Sample>, s: Sample, c: Cadence)
    requires Kept(seen, snaps, c) && Last(seen).ts <= s.ts
    ensures Kept(seen + [s], Recorded(seen, snaps, s, c), c)
  {
    var after := Recorded(seen, snaps, s, c);
    var last := Last(snaps);
    if after == snaps {
      assert Represents(snaps[|snaps| - 1], s, c);
    } else {
      MoreSnapshotsRepresent(seen, snaps, s, c);
      assert after[|snaps|] == s && Represents(after[|snaps|], s, c);
      assert Material(last, s, c);
    }
  }
}
