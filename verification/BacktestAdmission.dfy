// Portfolio backtest, admission (backend/src/option_arb/services/opportunity_backtest.py).
//
// Candidates are taken chronologically when their instrument is free and the budget allows.  The
// loop keeps a release heap, a running total and a per-instrument map; the reference definition
// `Admit` has none of them and looks at the whole list of taken positions instead.
module BacktestAdmission {
  import opened StableSorting
  import opened Wrappers

  // Times are integers counting microseconds.
  datatype Position = Position(
    instrument: string,
    buyFrom: string,
    sellTo: string,
    entry: int,
    expiry: int,
    capital: real,
    profit: real,
    fees: real)

  datatype Decision = Take | SkipDedup | SkipBudget

  function EntryKey(p: Position): int {
    p.entry
  }

  // ---------------------------------------------------------------------------------------------
  // Capital
  // ---------------------------------------------------------------------------------------------

  function ActiveWeight(t: int): Position -> real {
    (p: Position) => if p.entry <= t < p.expiry then p.capital else 0.0
  }

  // Capital locked at instant t.
  function Active(taken: seq<Position>, t: int): real {
    Sum(taken, ActiveWeight(t))
  }

  function HeldWeight(t: int): Position -> real {
    (p: Position) => if t < p.expiry then p.capital else 0.0
  }

  // Capital of positions that have not expired at t, entered or not.
  function Held(taken: seq<Position>, t: int): real {
    Sum(taken, HeldWeight(t))
  }

  // ---------------------------------------------------------------------------------------------
  // Reference definition
  // ---------------------------------------------------------------------------------------------

  predicate HoldsInstrument(taken: seq<Position>, instrument: string, t: int) {
    exists i :: 0 <= i < |taken| && taken[i].instrument == instrument && t < taken[i].expiry
  }

  function Decide(taken: seq<Position>, p: Position, budget: Option<real>, dedup: bool): Decision {
    if dedup && HoldsInstrument(taken, p.instrument, p.entry) then SkipDedup
    else if budget.Some? && Held(taken, p.entry) + p.capital > budget.value then SkipBudget
    else Take
  }

  function Admit(candidates: seq<Position>, budget: Option<real>, dedup: bool): seq<Position> {
    if candidates == [] then []
    else
      var taken, p := Admit(Front(candidates), budget, dedup), Last(candidates);
      if Decide(taken, p, budget, dedup) == Take then taken + [p] else taken
  }

  // How many candidates got decision d.
  function Count(candidates: seq<Position>, budget: Option<real>, dedup: bool, d: Decision): nat {
    if candidates == [] then 0
    else
      var taken := Admit(Front(candidates), budget, dedup);
      Count(Front(candidates), budget, dedup, d)
      + if Decide(taken, Last(candidates), budget, dedup) == d then 1 else 0
  }

  // ---------------------------------------------------------------------------------------------
  // The loop
  // ---------------------------------------------------------------------------------------------

  // Pending release of capital.  The heap is kept as its ascending contents.
  datatype Release = Release(expiry: int, capital: real)

  function ExpiryKey(r: Release): int {
    r.expiry
  }

  function Freed(r: Release): real {
    r.capital
  }

  function FreedAfter(t: int): Release -> real {
    (r: Release) => if t < r.expiry then r.capital else 0.0
  }

  lemma SumOfTail<T>(s: seq<T>, w: T -> real)
    requires s != []
    ensures Sum(s, w) == w(s[0]) + Sum(s[1..], w)
  {
    SumOfConcat([s[0]], s[1..], w);
    assert s == [s[0]] + s[1..];
    assert Front([s[0]]) == [];
  }

  // From instant `since` on, the heap accounts for exactly the capital that is still held.
  ghost predicate HeapTracks(heap: seq<Release>, taken: seq<Position>, since: int) {
    && Ordered(heap, ExpiryKey)
    && forall t :: since <= t ==> Sum(heap, FreedAfter(t)) == Held(taken, t)
  }

  lemma PoppedHeapTracks(heap: seq<Release>, taken: seq<Position>, now: int)
    requires HeapTracks(heap, taken, now)
    requires heap != [] && heap[0].expiry <= now
    ensures HeapTracks(heap[1..], taken, now)
    ensures Sum(heap, Freed) == heap[0].capital + Sum(heap[1..], Freed)
  {
    forall t | now <= t
      ensures Sum(heap[1..], FreedAfter(t)) == Held(taken, t)
    {
      SumOfTail(heap, FreedAfter(t));
    }
    SumOfTail(heap, Freed);
  }

  lemma NothingDue(heap: seq<Release>, taken: seq<Position>, now: int)
    requires HeapTracks(heap, taken, now)
    requires heap != [] ==> now < heap[0].expiry
    ensures Sum(heap, Freed) == Held(taken, now)
  {
    forall i | 0 <= i < |heap|
      ensures now < heap[i].expiry
    {
      assert 0 < i ==> ExpiryKey(heap[0]) <= ExpiryKey(heap[i]);
    }
    SumsAgree(heap, Freed, FreedAfter(now));
  }

  // The map's expiry for an instrument is the latest among the positions taken on it.
  ghost predicate MapTracks(openUntil: map<string, int>, taken: seq<Position>) {
    forall instrument, t ::
      (instrument in openUntil && t < openUntil[instrument]) <==> HoldsInstrument(taken, instrument, t)
  }

  // The loop's three accounts agree with the list of taken positions from `since` on.
  ghost predicate Accounts(heap: seq<Release>, deployed: real, openUntil: map<string, int>, taken: seq<Position>,
                           since: int, dedup: bool)
  {
    && HeapTracks(heap, taken, since)
    && deployed == Sum(heap, Freed)
    && (dedup ==> MapTracks(openUntil, taken))
  }

  // Pops everything due at `now`; what stays deployed is what the taken positions hold at `now`.
  method ReleaseDue(heap: seq<Release>, deployed: real, ghost openUntil: map<string, int>, ghost taken: seq<Position>,
                    ghost since: int, now: int, ghost dedup: bool)
    returns (heap': seq<Release>, deployed': real)
    requires Accounts(heap, deployed, openUntil, taken, since, dedup) && since <= now
    ensures Accounts(heap', deployed', openUntil, taken, now, dedup)
    ensures deployed' == Held(taken, now)
  {
    heap', deployed' := heap, deployed;
    assert HeapTracks(heap, taken, now);
    hide HeapTracks, MapTracks, Sum, Held;
    while heap' != [] && heap'[0].expiry <= now
      invariant HeapTracks(heap', taken, now)
      invariant deployed' == Sum(heap', Freed)
    {
      PoppedHeapTracks(heap', taken, now);
      deployed' := deployed' - heap'[0].capital;
      heap' := heap'[1..];
    }
    NothingDue(heap', taken, now);
  }

  lemma HoldsAfterTaking(taken: seq<Position>, p: Position, instrument: string, t: int)
    ensures HoldsInstrument(taken + [p], instrument, t) <==>
      HoldsInstrument(taken, instrument, t) || (p.instrument == instrument && t < p.expiry)
  {
    var after := taken + [p];
    if HoldsInstrument(taken, instrument, t) {
      var i :| 0 <= i < |taken| && taken[i].instrument == instrument && t < taken[i].expiry;
      assert after[i] == taken[i];
    }
    if p.instrument == instrument && t < p.expiry {
      assert after[|taken|] == p;
    }
  }

  function Later(openUntil: map<string, int>, p: Position): map<string, int> {
    openUntil[p.instrument :=
      if p.instrument in openUntil && p.expiry < openUntil[p.instrument] then openUntil[p.instrument] else p.expiry]
  }

  lemma MapTracksAfterTaking(openUntil: map<string, int>, taken: seq<Position>, p: Position)
    requires MapTracks(openUntil, taken)
    ensures MapTracks(Later(openUntil, p), taken + [p])
  {
    forall instrument, t
      ensures (instrument in Later(openUntil, p) && t < Later(openUntil, p)[instrument])
         <==> HoldsInstrument(taken + [p], instrument, t)
    {
      HoldsAfterTaking(taken, p, instrument, t);
      assert (instrument in openUntil && t < openUntil[instrument]) <==> HoldsInstrument(taken, instrument, t);
    }
  }

  function Pushed(heap: seq<Release>, p: Position): seq<Release> {
    InsertSorted(Release(p.expiry, p.capital), heap, ExpiryKey)
  }

  lemma HeapTracksAfterTaking(heap: seq<Release>, taken: seq<Position>, p: Position, since: int)
    requires HeapTracks(heap, taken, since)
    ensures HeapTracks(Pushed(heap, p), taken + [p], since)
    ensures Sum(Pushed(heap, p), Freed) == Sum(heap, Freed) + p.capital
  {
    var r := Release(p.expiry, p.capital);
    InsertKeepsOrder(r, heap, ExpiryKey);
    SumOfInsert(r, heap, ExpiryKey, Freed);
    forall t | since <= t
      ensures Sum(Pushed(heap, p), FreedAfter(t)) == Held(taken + [p], t)
    {
      SumOfInsert(r, heap, ExpiryKey, FreedAfter(t));
      SumOfExtension(taken, p, HeldWeight(t));
    }
  }

  // After the releases due at a candidate's entry, the accounts answer what Decide asks.
  lemma AccountsDecide(heap: seq<Release>, deployed: real, openUntil: map<string, int>, taken: seq<Position>,
                       p: Position, budget: Option<real>, dedup: bool)
    requires Accounts(heap, deployed, openUntil, taken, p.entry, dedup) && deployed == Held(taken, p.entry)
    ensures Decide(taken, p, budget, dedup) ==
      if dedup && p.instrument in openUntil && openUntil[p.instrument] > p.entry then SkipDedup
      else if budget.Some? && deployed + p.capital > budget.value then SkipBudget
      else Take
  {}

  lemma AccountsAfterTaking(heap: seq<Release>, deployed: real, openUntil: map<string, int>, taken: seq<Position>,
                            p: Position, since: int, dedup: bool)
    requires Accounts(heap, deployed, openUntil, taken, since, dedup)
    ensures Accounts(Pushed(heap, p), deployed + p.capital, if dedup then Later(openUntil, p) else openUntil,
                     taken + [p], since, dedup)
  {
    HeapTracksAfterTaking(heap, taken, p, since);
    if dedup {
      MapTracksAfterTaking(openUntil, taken, p);
    }
  }

  lemma EntriesAscend(ordered: seq<Position>, i: nat)
    requires Ordered(ordered, EntryKey) && i + 1 < |ordered|
    ensures ordered[i].entry <= ordered[i + 1].entry
  {
    assert EntryKey(ordered[i]) <= EntryKey(ordered[i + 1]);
  }

  // The first i candidates have been decided as the reference definition decides them.
  predicate Decided(candidates: seq<Position>, i: nat, budget: Option<real>, dedup: bool, taken: seq<Position>,
                    nDedup: nat, nBudget: nat)
    requires i <= |candidates|
  {
    && taken == Admit(candidates[..i], budget, dedup)
    && nDedup == Count(candidates[..i], budget, dedup, SkipDedup)
    && nBudget == Count(candidates[..i], budget, dedup, SkipBudget)
  }

  lemma DecidedStep(candidates: seq<Position>, i: nat, budget: Option<real>, dedup: bool, taken: seq<Position>,
                    nDedup: nat, nBudget: nat)
    requires i < |candidates| && Decided(candidates, i, budget, dedup, taken, nDedup, nBudget)
    ensures match Decide(taken, candidates[i], budget, dedup)
      case Take => Decided(candidates, i + 1, budget, dedup, taken + [candidates[i]], nDedup, nBudget)
      case SkipDedup => Decided(candidates, i + 1, budget, dedup, taken, nDedup + 1, nBudget)
      case SkipBudget => Decided(candidates, i + 1, budget, dedup, taken, nDedup, nBudget + 1)
  {
    assert Front(candidates[..i + 1]) == candidates[..i] && Last(candidates[..i + 1]) == candidates[i];
  }

  method AdmitAll(ordered: seq<Position>, budget: Option<real>, dedup: bool)
    returns (taken: seq<Position>, nDedup: nat, nBudget: nat)
    requires Ordered(ordered, EntryKey)
    ensures taken == Admit(ordered, budget, dedup)
    ensures nDedup == Count(ordered, budget, dedup, SkipDedup)
    ensures nBudget == Count(ordered, budget, dedup, SkipBudget)
  {
    taken, nDedup, nBudget := [], 0, 0;
    var deployed := 0.0;
    var heap: seq<Release> := [];
    var openUntil: map<string, int> := map[];
    ghost var since := if ordered == [] then 0 else ordered[0].entry;
    assert Accounts(heap, deployed, openUntil, taken, since, dedup);
    assert ordered[..0] == [] && ordered[..|ordered|] == ordered;
    for i := 0 to |ordered|
      invariant Decided(ordered, i, budget, dedup, taken, nDedup, nBudget)
      invariant i < |ordered| ==> since <= ordered[i].entry
      invariant Accounts(heap, deployed, openUntil, taken, since, dedup)
    {
      hide *;
      var p := ordered[i];
      if i + 1 < |ordered| {
        EntriesAscend(ordered, i);
      }
      heap, deployed := ReleaseDue(heap, deployed, openUntil, taken, since, p.entry, dedup);
      since := p.entry;
      AccountsDecide(heap, deployed, openUntil, taken, p, budget, dedup);
      DecidedStep(ordered, i, budget, dedup, taken, nDedup, nBudget);

      if dedup && p.instrument in openUntil && openUntil[p.instrument] > p.entry {
        nDedup := nDedup + 1;
        continue;
      }
      if budget.Some? && deployed + p.capital > budget.value {
        nBudget := nBudget + 1;
        continue;
      }
      AccountsAfterTaking(heap, deployed, openUntil, taken, p, since, dedup);
      deployed := deployed + p.capital;
      heap := Pushed(heap, p);
      if dedup {
        openUntil := Later(openUntil, p);
      }
      taken := taken + [p];
    }
  }

  // ---------------------------------------------------------------------------------------------
  // What admission guarantees
  // ---------------------------------------------------------------------------------------------

  // What the callers of the simulation establish about every candidate.
  predicate WellFormed(p: Position) {
    p.entry < p.expiry && p.capital > 0.0
  }

  predicate AllWellFormed(ps: seq<Position>) {
    forall i :: 0 <= i < |ps| ==> WellFormed(ps[i])
  }

  // Everything taken is a candidate, in candidate order.
  lemma {:induction false} TakenAreCandidates(candidates: seq<Position>, budget: Option<real>, dedup: bool)
    ensures forall p :: p in Admit(candidates, budget, dedup) ==> p in candidates
    ensures Ordered(candidates, EntryKey) ==> Ordered(Admit(candidates, budget, dedup), EntryKey)
    ensures AllWellFormed(candidates) ==> AllWellFormed(Admit(candidates, budget, dedup))
  {
    if candidates != [] {
      TakenAreCandidates(Front(candidates), budget, dedup);
      var before := Admit(Front(candidates), budget, dedup);
      if Ordered(candidates, EntryKey) {
        forall i | 0 <= i < |before|
          ensures before[i].entry <= Last(candidates).entry
        {
          assert before[i] in before;
          var j :| 0 <= j < |Front(candidates)| && Front(candidates)[j] == before[i];
          assert EntryKey(candidates[j]) <= EntryKey(candidates[|candidates| - 1]);
        }
      }
    }
  }

  lemma ActiveAtMostHeld(taken: seq<Position>, t: int, u: int)
    requires AllWellFormed(taken) && t <= u
    ensures Active(taken, u) <= Held(taken, t)
  {
    SumMonotone(taken, ActiveWeight(u), HeldWeight(t));
  }

  // Once everything taken has been entered, what is held is what is active.
  lemma HeldIsActive(taken: seq<Position>, t: int)
    requires forall i :: 0 <= i < |taken| ==> taken[i].entry <= t
    ensures Held(taken, t) == Active(taken, t)
  {
    SumsAgree(taken, HeldWeight(t), ActiveWeight(t));
  }

  // The budget holds at every instant.
  lemma {:induction false} BudgetHoldsAlways(candidates: seq<Position>, budget: real, dedup: bool, t: int)
    requires Ordered(candidates, EntryKey) && AllWellFormed(candidates)
    requires budget >= 0.0
    ensures Active(Admit(candidates, Some(budget), dedup), t) <= budget
  {
    if candidates != [] {
      var front, p := Front(candidates), Last(candidates);
      var before := Admit(front, Some(budget), dedup);
      BudgetHoldsAlways(front, budget, dedup, t);
      TakenAreCandidates(front, Some(budget), dedup);
      SumOfExtension(before, p, ActiveWeight(t));
      if p.entry <= t {
        ActiveAtMostHeld(before, p.entry, t);
      }
    }
  }

  lemma {:induction false} EveryCandidateIsCounted(candidates: seq<Position>, budget: Option<real>, dedup: bool)
    ensures |Admit(candidates, budget, dedup)| == Count(candidates, budget, dedup, Take)
    ensures |Admit(candidates, budget, dedup)| + Count(candidates, budget, dedup, SkipDedup)
          + Count(candidates, budget, dedup, SkipBudget) == |candidates|
  {
    if candidates != [] {
      EveryCandidateIsCounted(Front(candidates), budget, dedup);
    }
  }

  predicate Disjoint(p: Position, q: Position) {
    p.expiry <= q.entry || q.expiry <= p.entry
  }

  // Under dedup, positions on one instrument never overlap.
  lemma {:induction false} TakenAreDisjoint(candidates: seq<Position>, budget: Option<real>, i: int, j: int)
    requires Ordered(candidates, EntryKey) && AllWellFormed(candidates)
    requires 0 <= i < j < |Admit(candidates, budget, true)|
    requires Admit(candidates, budget, true)[i].instrument == Admit(candidates, budget, true)[j].instrument
    ensures Disjoint(Admit(candidates, budget, true)[i], Admit(candidates, budget, true)[j])
  {
    if candidates != [] {
      var before := Admit(Front(candidates), budget, true);
      if j < |before| {
        TakenAreDisjoint(Front(candidates), budget, i, j);
      }
    }
  }

  lemma {:induction false} AdmitExtends(candidates: seq<Position>, k: nat, budget: Option<real>, dedup: bool)
    requires k <= |candidates|
    ensures Admit(candidates[..k], budget, dedup) <= Admit(candidates, budget, dedup)
  {
    if k < |candidates| {
      AdmitExtends(Front(candidates), k, budget, dedup);
      assert Front(candidates)[..k] == candidates[..k];
    } else {
      assert candidates[..k] == candidates;
    }
  }

  lemma ActiveGrows(before: seq<Position>, taken: seq<Position>, t: int)
    requires before <= taken && AllWellFormed(taken)
    ensures Active(before, t) <= Active(taken, t)
  {
    var rest := taken[|before|..];
    assert taken == before + rest;
    SumOfConcat(before, rest, ActiveWeight(t));
    SumNonNegative(rest, ActiveWeight(t));
  }

  // Every skipped candidate overlaps a position on its instrument that is held when it appears, or
  // would have pushed the capital locked at its entry over the budget.
  lemma SkipsAreJustified(candidates: seq<Position>, k: nat, budget: Option<real>, dedup: bool)
    requires Ordered(candidates, EntryKey) && AllWellFormed(candidates)
    requires k < |candidates|
    requires Decide(Admit(candidates[..k], budget, dedup), candidates[k], budget, dedup) != Take
    ensures var taken, p := Admit(candidates, budget, dedup), candidates[k];
      || (dedup && exists q :: q in taken && q.instrument == p.instrument && q.entry <= p.entry < q.expiry)
      || (budget.Some? && Active(taken, p.entry) + p.capital > budget.value)
  {
    var taken, p, before := Admit(candidates, budget, dedup), candidates[k], Admit(candidates[..k], budget, dedup);
    AdmitExtends(candidates, k, budget, dedup);
    TakenAreCandidates(candidates[..k], budget, dedup);
    TakenAreCandidates(candidates, budget, dedup);
    forall i | 0 <= i < |before|
      ensures before[i].entry <= p.entry
    {
      assert before[i] in before;
      var j :| 0 <= j < k && candidates[j] == before[i];
      assert EntryKey(candidates[j]) <= EntryKey(candidates[k]);
    }
    if dedup && HoldsInstrument(before, p.instrument, p.entry) {
      var i :| 0 <= i < |before| && before[i].instrument == p.instrument && p.entry < before[i].expiry;
      assert before[i] == taken[i] && taken[i] in taken;
    } else {
      HeldIsActive(before, p.entry);
      ActiveGrows(before, taken, p.entry);
    }
  }
}
