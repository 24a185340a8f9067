// The circuit breaker and the retry loop around it (backend/src/option_arb/exchanges/http.py).
//
// The breaker keeps a pruned list of failure times.  A ghost history of every failure since the last
// reset says what the list stands for.  All requests of a venue share one breaker, so between the steps
// of a request anything may happen to it.
module CircuitBreaker {
  import opened StableSorting
  import opened Wrappers

  // The times less than a window old.
  function Recent(times: seq<int>, now: int, window: int): seq<int> {
    if times == [] then []
    else
      var rest := Recent(Front(times), now, window);
      if now - Last(times) < window then rest + [Last(times)] else rest
  }

  lemma RecentExtends(times: seq<int>, last: int, now: int, window: int)
    ensures Recent(times + [last], now, window) == Recent(times, now, window) + if now - last < window then [last] else []
  {
    assert Front(times + [last]) == times;
  }

  // Pruning what was pruned earlier is pruning the whole history.
  lemma {:induction false} PruningForgetsNothing(history: seq<int>, earlier: int, now: int, window: int)
    requires earlier <= now
    ensures Recent(Recent(history, earlier, window), now, window) == Recent(history, now, window)
  {
    if history != [] {
      var front := Recent(Front(history), earlier, window);
      PruningForgetsNothing(Front(history), earlier, now, window);
      RecentExtends(front, Last(history), now, window);
      assert history == Front(history) + [Last(history)];
      RecentExtends(Front(history), Last(history), earlier, window);
      RecentExtends(Front(history), Last(history), now, window);
      hide Recent;
    }
  }

  // ---------------------------------------------------------------------------------------------
  // What happens to a breaker
  // ---------------------------------------------------------------------------------------------

  datatype Policy = Policy(threshold: int, window: int, cooldown: int)

  // Someone records a failure or a success, or asks whether the breaker is open.
  datatype Signal = Failed(at: int) | Succeeded | Asked(at: int)

  // `history` holds every failure since the last reset.
  datatype State = State(history: seq<int>, openedAt: Option<int>)

  // Failure j was one too many within a window.
  predicate Trips(history: seq<int>, j: nat, p: Policy)
    requires j < |history|
  {
    |Recent(history[..j + 1], history[j], p.window)| >= p.threshold
  }

  predicate InOrderOfTime(times: seq<int>) {
    forall i, j :: 0 <= i < j < |times| ==> times[i] <= times[j]
  }

  lemma {:induction false} RecentWithin(times: seq<int>, now: int, window: int)
    ensures |Recent(times, now, window)| <= |times|
  {
    if times != [] {
      RecentWithin(Front(times), now, window);
    }
  }

  // Of times in order, the recent ones are those at the end.
  lemma {:induction false} RecentAreLast(times: seq<int>, now: int, window: int, k: nat)
    requires InOrderOfTime(times) && k <= |times|
    ensures |times| - k <= |Recent(times, now, window)| <==> k == |times| || now - times[k] < window
  {
    if times != [] {
      var front := Front(times);
      if k < |times| {
        RecentAreLast(front, now, window, k);
      }
      if front != [] {
        RecentAreLast(front, now, window, |front| - 1);
      }
      RecentWithin(front, now, window);
    }
  }

  // With a threshold of n, a failure is one too many exactly when the n-th last one up to it is less than a
  // window old.
  lemma TripsIff(history: seq<int>, j: nat, p: Policy)
    requires j < |history| && InOrderOfTime(history) && 1 <= p.threshold
    ensures Trips(history, j, p) <==>
      p.threshold <= j + 1 && history[j] - history[j + 1 - p.threshold] < p.window
  {
    var times := history[..j + 1];
    RecentWithin(times, history[j], p.window);
    if p.threshold <= j + 1 {
      RecentAreLast(times, history[j], p.window, j + 1 - p.threshold);
    }
  }

  predicate Tripped(history: seq<int>, p: Policy) {
    exists j: nat :: j < |history| && Trips(history, j, p)
  }

  function After(s: State, signal: Signal, p: Policy): State {
    match signal
    case Failed(at) =>
      var history := s.history + [at];
      State(history,
            if s.openedAt.None? && |Recent(history, at, p.window)| >= p.threshold then Some(at) else s.openedAt)
    case Succeeded => State([], None)
    case Asked(at) =>
      if s.openedAt.Some? && at - s.openedAt.value > p.cooldown then State([], None) else s
  }

  function Replay(s: State, signals: seq<Signal>, p: Policy): State {
    if signals == [] then s else After(Replay(s, Front(signals), p), Last(signals), p)
  }

  // Open exactly when, since the last reset, some failure was one too many, and then since the first.
  ghost predicate StateOk(s: State, p: Policy) {
    && (s.openedAt.Some? <==> Tripped(s.history, p))
    && (s.openedAt.Some? ==>
          exists j: nat :: j < |s.history| && Trips(s.history, j, p) && s.history[j] == s.openedAt.value
            && forall i: nat :: i < j ==> !Trips(s.history, i, p))
  }

  lemma TripsExtends(history: seq<int>, at: int, p: Policy)
    ensures forall j: nat :: j < |history| ==> Trips(history + [at], j, p) == Trips(history, j, p)
    ensures Trips(history + [at], |history|, p) <==> |Recent(history + [at], at, p.window)| >= p.threshold
  {
    forall j: nat | j < |history|
      ensures Trips(history + [at], j, p) == Trips(history, j, p)
    {
      assert (history + [at])[..j + 1] == history[..j + 1];
    }
    assert (history + [at])[..|history| + 1] == history + [at];
    hide Recent;
  }

  lemma AfterIsOk(s: State, signal: Signal, p: Policy)
    requires StateOk(s, p)
    ensures StateOk(After(s, signal, p), p)
  {
    if signal.Failed? {
      TripsExtends(s.history, signal.at, p);
      hide Trips, Recent;
      var s' := After(s, signal, p);
      if j: nat :| j < |s.history| && Trips(s.history, j, p) {
        assert Trips(s'.history, j, p);
      }
    }
  }

  // A question resets a breaker that has been open for longer than the cooldown, and nothing else.
  lemma AskedIff(s: State, at: int, p: Policy)
    ensures var s' := After(s, Asked(at), p);
      && (s'.openedAt.Some? <==> s.openedAt.Some? && at <= s.openedAt.value + p.cooldown)
      && (s'.openedAt.Some? || s.openedAt.None? ==> s' == s)
      && (s.openedAt.Some? && s'.openedAt.None? ==> s'.history == [])
  {}

  lemma SuccessResets(s: State, p: Policy)
    ensures After(s, Succeeded, p) == State([], None)
  {}

  // In every run of a fresh breaker.
  lemma {:induction false} RunIsOk(signals: seq<Signal>, p: Policy)
    ensures StateOk(Replay(State([], None), signals, p), p)
  {
    if signals != [] {
      RunIsOk(Front(signals), p);
      hide StateOk, After;
      AfterIsOk(Replay(State([], None), Front(signals), p), Last(signals), p);
    }
  }

  // In every run a breaker reopens: whoever asks more than the cooldown after the last failure finds it
  // closed.
  lemma ClosedAfterCooldown(signals: seq<Signal>, at: int, p: Policy)
    requires forall time :: time in Replay(State([], None), signals, p).history ==> time + p.cooldown < at
    ensures After(Replay(State([], None), signals, p), Asked(at), p).openedAt.None?
  {
    RunIsOk(signals, p);
    var s := Replay(State([], None), signals, p);
    hide Replay, Tripped, Trips;
    AskedIff(s, at, p);
    if s.openedAt.Some? {
      var j: nat :| j < |s.history| && s.history[j] == s.openedAt.value;
      assert s.history[j] in s.history;
    }
  }

  lemma {:induction false} ReplayAppends(s: State, first: seq<Signal>, second: seq<Signal>, p: Policy)
    ensures Replay(s, first + second, p) == Replay(Replay(s, first, p), second, p)
  {
    hide After;
    if second == [] {
      assert first + second == first;
    } else {
      ReplayAppends(s, first, Front(second), p);
      assert Front(first + second) == first + Front(second);
    }
  }

  // The clock after some signals.
  function ClockAfter(clock: int, signals: seq<Signal>): int {
    if signals == [] then clock
    else if Last(signals).Succeeded? then ClockAfter(clock, Front(signals))
    else Last(signals).at
  }

  // The signals come in order of time.
  predicate Timely(clock: int, signals: seq<Signal>) {
    signals == [] ||
    (Timely(clock, Front(signals)) && (Last(signals).Succeeded? || ClockAfter(clock, Front(signals)) <= Last(signals).at))
  }

  lemma {:induction false} TimelyAppends(clock: int, first: seq<Signal>, second: seq<Signal>)
    ensures Timely(clock, first + second) <==> Timely(clock, first) && Timely(ClockAfter(clock, first), second)
    ensures ClockAfter(clock, first + second) == ClockAfter(ClockAfter(clock, first), second)
  {
    if second == [] {
      assert first + second == first;
    } else {
      TimelyAppends(clock, first, Front(second));
      assert Front(first + second) == first + Front(second);
    }
  }

  class Breaker {
    const policy: Policy
    var failures: seq<int>
    var openedAt: Option<int>
    ghost var history: seq<int> // every failure since the last reset
    ghost var clock: int

    ghost predicate Valid()
      reads this
    {
      && (history == [] ==> failures == [])
      && (history != [] ==> Last(history) <= clock && failures == Recent(history, Last(history), policy.window))
      && StateOk(Now(), policy)
    }

    ghost function Now(): State
      reads this
    {
      State(history, openedAt)
    }

    constructor (policy: Policy, ghost start: int)
      ensures Valid() && Now() == State([], None) && clock == start && this.policy == policy
    {
      this.policy := policy;
      failures := [];
      openedAt := None;
      history := [];
      clock := start;
    }

    method RecordSuccess()
      requires Valid()
      modifies this
      ensures Valid() && Now() == After(old(Now()), Succeeded, policy) && clock == old(clock)
    {
      failures := [];
      openedAt := None;
      history := [];
    }

    // Trips exactly when it was not tripped and enough failures since the last reset are recent.
    method RecordFailure(now: int)
      requires Valid() && clock <= now
      modifies this
      ensures Valid() && Now() == After(old(Now()), Failed(now), policy) && clock == now
    {
      hide StateOk;
      AfterIsOk(Now(), Failed(now), policy);
      if history != [] {
        PruningForgetsNothing(history, Last(history), now, policy.window);
      }
      RecentExtends(failures, now, now, policy.window);
      RecentExtends(history, now, now, policy.window);
      failures := failures + [now];
      failures := Recent(failures, now, policy.window);
      if |failures| >= policy.threshold && openedAt.None? {
        openedAt := Some(now);
      }
      history := history + [now];
      clock := now;
    }

    // Open until the cooldown has passed; then reset.
    method IsOpen(now: int) returns (open: bool)
      requires Valid() && clock <= now
      modifies this
      ensures Valid() && Now() == After(old(Now()), Asked(now), policy) && clock == now
      ensures open <==> Now().openedAt.Some?
    {
      clock := now;
      if openedAt.None? {
        return false;
      }
      if now - openedAt.value > policy.cooldown {
        openedAt := None;
        failures := [];
        history := [];
        return false;
      }
      return true;
    }

    lemma OpenIffTripped()
      requires Valid()
      ensures openedAt.Some? <==> Tripped(Now().history, policy)
    {}

    // What other requests do meanwhile.
    method Interleave(signals: seq<Signal>)
      requires Valid() && Timely(clock, signals)
      modifies this
      ensures Valid() && Now() == Replay(old(Now()), signals, policy) && clock == ClockAfter(old(clock), signals)
    {
      hide Valid, After;
      for i := 0 to |signals|
        invariant Valid() && Now() == Replay(old(Now()), signals[..i], policy)
        invariant clock == ClockAfter(old(clock), signals[..i])
      {
        assert Front(signals[..i + 1]) == signals[..i] && signals == signals[..i + 1] + signals[i + 1..];
        TimelyAppends(old(clock), signals[..i + 1], signals[i + 1..]);
        match signals[i]
        case Failed(at) => RecordFailure(at);
        case Succeeded => RecordSuccess();
        case Asked(at) => var _ := IsOpen(at);
      }
      assert signals[..|signals|] == signals;
    }
  }

  // ---------------------------------------------------------------------------------------------
  // The retry loop
  // ---------------------------------------------------------------------------------------------

  datatype Reply = TransportError | Status(code: int)

  predicate Failing(r: Reply) {
    r.TransportError? || r.code == 429 || 500 <= r.code < 600
  }

  datatype Outcome = CircuitOpen | GaveUp(last: Reply) | Answered(reply: Reply)

  // One attempt: what the venue answers and when, and what other requests do to the breaker before it is
  // sent and while it is under way.
  datatype Try = Try(reply: Reply, at: int, before: seq<Signal>, during: seq<Signal>)

  predicate AllFailing(tries: seq<Try>) {
    forall i :: 0 <= i < |tries| ==> Failing(tries[i].reply)
  }

  // Everything that reaches the breaker from the question to the last failure of these attempts.
  function Script(now: int, tries: seq<Try>): seq<Signal> {
    if tries == [] then [Asked(now)]
    else
      var last := Last(tries);
      Script(now, Front(tries)) + last.before + last.during + [Failed(last.at)]
  }

  // Which attempts are sent while the breaker is open.
  ghost predicate SentOpen(tripped: seq<bool>, start: State, now: int, tries: seq<Try>, p: Policy) {
    && |tripped| == |tries|
    && (forall i :: 0 <= i < |tries| ==>
          (tripped[i] <==> Tripped(Replay(start, Script(now, tries[..i]) + tries[i].before, p).history, p)))
  }

  lemma OneMoreSent(tripped: seq<bool>, open: bool, start: State, now: int, tries: seq<Try>, next: Try, p: Policy)
    requires SentOpen(tripped, start, now, tries, p)
    requires open <==> Tripped(Replay(start, Script(now, tries) + next.before, p).history, p)
    ensures SentOpen(tripped + [open], start, now, tries + [next], p)
  {
    hide Tripped, Replay, Script;
    var more := tries + [next];
    assert more[..|tries|] == tries;
    assert forall i :: 0 <= i < |tries| ==> more[..i] == tries[..i];
  }

  function FailureTimes(tries: seq<Try>): seq<int> {
    seq(|tries|, i requires 0 <= i < |tries| => tries[i].at)
  }

  // A request that has the breaker to itself adds its failures to those before the call, so which of its
  // attempts are sent while the breaker is open is decided by these times alone.
  lemma {:induction false} AloneHistory(start: State, now: int, tries: seq<Try>, p: Policy)
    requires forall i :: 0 <= i < |tries| ==> tries[i].before == [] && tries[i].during == []
    ensures Replay(start, Script(now, tries), p).history == After(start, Asked(now), p).history + FailureTimes(tries)
  {
    if tries == [] {
      assert Script(now, tries) == [Asked(now)] && Front([Asked(now)]) == [];
    } else {
      var front, last := Front(tries), Last(tries);
      AloneHistory(start, now, front, p);
      assert last == tries[|tries| - 1] && last.before == [] && last.during == [];
      var failed := [Failed(last.at)];
      assert Script(now, tries) == Script(now, front) + failed;
      assert Front(Script(now, front) + failed) == Script(now, front);
      assert FailureTimes(tries) == FailureTimes(front) + [last.at];
    }
  }

  // What one more attempt does to the clock and to the breaker.
  lemma ScriptStep(began: int, s: State, now: int, tries: seq<Try>, next: Try, p: Policy)
    requires Timely(began, Script(now, tries + [next]))
    ensures Timely(began, Script(now, tries))
    ensures var clock := ClockAfter(began, Script(now, tries));
      && Timely(clock, next.before) && Timely(ClockAfter(clock, next.before), next.during)
      && ClockAfter(ClockAfter(clock, next.before), next.during) <= next.at
      && ClockAfter(began, Script(now, tries + [next])) == next.at
    ensures var sent := Replay(Replay(s, Script(now, tries), p), next.before, p);
      && Replay(s, Script(now, tries) + next.before, p) == sent
      && Replay(s, Script(now, tries + [next]), p) == After(Replay(sent, next.during, p), Failed(next.at), p)
  {
    var script, last := Script(now, tries), [Failed(next.at)];
    assert Front(last) == [] && Front(tries + [next]) == tries;
    TimelyAppends(began, script + next.before + next.during, last);
    TimelyAppends(began, script + next.before, next.during);
    TimelyAppends(began, script, next.before);
    ReplayAppends(s, script + next.before + next.during, last, p);
    ReplayAppends(s, script + next.before, next.during, p);
    ReplayAppends(s, script, next.before, p);
    hide After;
  }

  lemma {:induction false} EarlierIsTimely(began: int, now: int, tries: seq<Try>, n: nat)
    requires n <= |tries| && Timely(began, Script(now, tries))
    ensures Timely(began, Script(now, tries[..n]))
    decreases |tries| - n
  {
    hide Timely, Script, ClockAfter, Replay, After;
    if n < |tries| {
      EarlierIsTimely(began, now, tries, n + 1);
      assert tries[..n + 1] == tries[..n] + [tries[n]];
      ScriptStep(began, State([], None), now, tries[..n], tries[n], Policy(0, 0, 0));
    } else {
      assert tries[..n] == tries;
    }
  }

  // The first n attempts have failed, and this is what they and the other requests have made of the
  // breaker.
  ghost predicate Underway(s: State, clock: int, tripped: seq<bool>, start: State, began: int, now: int, tries: seq<Try>,
                           n: nat, p: Policy)
    requires n <= |tries|
  {
    var failed := tries[..n];
    && s == Replay(start, Script(now, failed), p) && clock == ClockAfter(began, Script(now, failed))
    && AllFailing(failed) && SentOpen(tripped, start, now, failed, p)
  }

  lemma NoneSent(start: State, began: int, now: int, tries: seq<Try>, p: Policy)
    requires Timely(began, Script(now, tries))
    ensures began <= now && Underway(After(start, Asked(now), p), now, [], start, began, now, tries, 0, p)
  {
    var asked := [Asked(now)];
    assert tries[..0] == [];
    EarlierIsTimely(began, now, tries, 0);
    assert Script(now, []) == asked && Front(asked) == [];
    assert Timely(began, asked) && ClockAfter(began, []) == began && Replay(start, [], p) == start;
    assert SentOpen([], start, now, [], p) && AllFailing([]);
    hide After, SentOpen, AllFailing, Script;
  }

  lemma NextAttempt(s: State, clock: int, tripped: seq<bool>, start: State, began: int, now: int, tries: seq<Try>,
                    n: nat, p: Policy)
    requires n < |tries| && Timely(began, Script(now, tries))
    requires Underway(s, clock, tripped, start, began, now, tries, n, p)
    ensures Timely(clock, tries[n].before) && Timely(ClockAfter(clock, tries[n].before), tries[n].during)
    ensures ClockAfter(ClockAfter(clock, tries[n].before), tries[n].during) <= tries[n].at
    ensures var next, sent := tries[n], Replay(s, tries[n].before, p);
      var open := Tripped(sent.history, p);
      && SentOpen(tripped + [open], start, now, tries[..n + 1], p)
      && (Failing(next.reply) ==>
            Underway(After(Replay(sent, next.during, p), Failed(next.at), p), next.at, tripped + [open], start, began,
                     now, tries, n + 1, p))
      && After(Replay(sent, next.during, p), Succeeded, p) == State([], None)
  {
    var next := tries[n];
    assert tries[..n + 1] == tries[..n] + [next];
    EarlierIsTimely(began, now, tries, n + 1);
    ScriptStep(began, start, now, tries[..n], next, p);
    var sent := Replay(s, next.before, p);
    SuccessResets(Replay(sent, next.during, p), p);
    hide Replay, After, Script, Timely, ClockAfter, SentOpen, Tripped, Failing;
    OneMoreSent(tripped, Tripped(sent.history, p), start, now, tries[..n], next, p);
  }

  // How a request ends.  The breaker is asked once; then one attempt follows the other until one succeeds
  // or none is left.  Each failure is recorded once and a success resets the breaker.
  ghost predicate Conducted(outcome: Outcome, attempts: nat, tripped: seq<bool>, start: State, end: State, now: int,
                            tries: seq<Try>, p: Policy)
  {
    && attempts <= |tries|
    && SentOpen(tripped, start, now, tries[..attempts], p)
    && (outcome.CircuitOpen? <==> After(start, Asked(now), p).openedAt.Some?)
    && match outcome
       case CircuitOpen => attempts == 0 && end == Replay(start, [Asked(now)], p)
       case GaveUp(last) =>
         && attempts == |tries| > 0 && AllFailing(tries) && last == Last(tries).reply
         && (last.Status? ==> last.code == 429 || last.code / 100 == 5)
         && end == Replay(start, Script(now, tries), p)
       case Answered(reply) =>
         && attempts > 0 && AllFailing(tries[..attempts - 1]) && reply == tries[attempts - 1].reply
         && reply.Status? && reply.code != 429 && reply.code / 100 != 5
         && end == State([], None)
  }

  lemma EndsOpen(s: State, start: State, began: int, now: int, tries: seq<Try>, p: Policy)
    requires s == After(start, Asked(now), p) && s.openedAt.Some?
    requires Underway(s, now, [], start, began, now, tries, 0, p)
    ensures Conducted(CircuitOpen, 0, [], start, s, now, tries, p)
  {
    assert tries[..0] == [];
    hide SentOpen, Replay;
  }

  lemma EndsGivenUp(s: State, clock: int, tripped: seq<bool>, start: State, began: int, now: int, tries: seq<Try>,
                    p: Policy)
    requires tries != [] && Underway(s, clock, tripped, start, began, now, tries, |tries|, p)
    requires After(start, Asked(now), p).openedAt.None?
    ensures Conducted(GaveUp(tries[|tries| - 1].reply), |tries|, tripped, start, s, now, tries, p)
  {
    assert tries[..|tries|] == tries;
    assert Failing(tries[|tries| - 1].reply);
    hide SentOpen, Replay, AllFailing;
  }

  lemma EndsAnswered(s: State, clock: int, tripped: seq<bool>, more: seq<bool>, n: nat, start: State, began: int, now: int,
                     tries: seq<Try>, p: Policy)
    requires n < |tries| && Underway(s, clock, tripped, start, began, now, tries, n, p)
    requires SentOpen(more, start, now, tries[..n + 1], p) && !Failing(tries[n].reply)
    requires After(start, Asked(now), p).openedAt.None?
    ensures Conducted(Answered(tries[n].reply), n + 1, more, start, State([], None), now, tries, p)
  {
    hide SentOpen, Replay, AllFailing;
  }

  // Sends one attempt and records how it went.
  method Attempt(breaker: Breaker, a: Try) returns (ghost open: bool)
    requires breaker.Valid() && Timely(breaker.clock, a.before)
    requires Timely(ClockAfter(breaker.clock, a.before), a.during)
    requires ClockAfter(ClockAfter(breaker.clock, a.before), a.during) <= a.at
    modifies breaker
    ensures breaker.Valid()
    ensures var sent := Replay(old(breaker.Now()), a.before, breaker.policy);
      && (open <==> Tripped(sent.history, breaker.policy))
      && breaker.Now() == After(Replay(sent, a.during, breaker.policy),
                                if Failing(a.reply) then Failed(a.at) else Succeeded, breaker.policy)
    ensures Failing(a.reply) ==> breaker.clock == a.at
  {
    hide *;
    breaker.Interleave(a.before);
    breaker.OpenIffTripped();
    open := breaker.openedAt.Some?;
    breaker.Interleave(a.during);
    if Failing(a.reply) {
      breaker.RecordFailure(a.at);
    } else {
      breaker.RecordSuccess();
    }
  }

  // `tries` holds one attempt more than the retries allowed.
  method Request(breaker: Breaker, tries: seq<Try>, now: int)
    returns (outcome: Outcome, attempts: nat, ghost tripped: seq<bool>)
    requires tries != [] && breaker.Valid() && Timely(breaker.clock, Script(now, tries))
    modifies breaker
    ensures breaker.Valid()
    ensures Conducted(outcome, attempts, tripped, old(breaker.Now()), breaker.Now(), now, tries, breaker.policy)
  {
    ghost var start, began, p := breaker.Now(), breaker.clock, breaker.policy;
    hide *;
    NoneSent(start, began, now, tries, p);
    tripped := [];
    attempts := 0;
    var open := breaker.IsOpen(now);
    if open {
      EndsOpen(breaker.Now(), start, began, now, tries, p);
      return CircuitOpen, 0, tripped;
    }
    while true
      invariant attempts < |tries| && breaker.Valid()
      invariant Underway(breaker.Now(), breaker.clock, tripped, start, began, now, tries, attempts, p)
      decreases |tries| - attempts
    {
      ghost var s, clock, before := breaker.Now(), breaker.clock, tripped;
      NextAttempt(s, clock, tripped, start, began, now, tries, attempts, p);
      ghost var isOpen := Attempt(breaker, tries[attempts]);
      tripped := tripped + [isOpen];
      var reply := tries[attempts].reply;
      if !Failing(reply) {
        EndsAnswered(s, clock, before, tripped, attempts, start, began, now, tries, p);
        return Answered(reply), attempts + 1, tripped;
      }
      attempts := attempts + 1;
      if attempts >= |tries| {
        EndsGivenUp(breaker.Now(), breaker.clock, tripped, start, began, now, tries, p);
        return GaveUp(reply), attempts, tripped;
      }
    }
  }
}
