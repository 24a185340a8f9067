// Events between processes (backend/src/option_arb/events.py, backend/src/option_arb/db/event_relay.py).
//
// Every process has a bus and a relay on one shared notification channel.  The protocol is a state
// machine whose steps are the moments the code can be interleaved at: a publish, which delivers locally
// and queues for the send lock, the send itself, a notification handled, and the changes of a
// connection.
module EventRelay {
  import opened StableSorting
  import opened Wrappers

  const EVENT_TYPES: set<string> := {
    "opportunity_detected", "trade_opened", "trade_filled", "trade_failed", "trade_stuck", "kill_switch_tripped",
    "position_expiring", "balance_low", "exchange_unhealthy", "perp_hedge_rebalanced",
    "structured_opportunity_detected"}

  const LEVELS: set<string> := {"info", "warn", "error"}

  const MAX_PAYLOAD_BYTES := 7000

  const NOTIFY_LIMIT_BYTES := 8000 // the database refuses a payload of this size or more

  const TRUNCATED := "{\"_truncated\": true}"

  // The payload is the text of its JSON object.
  datatype Event = Event(kind: string, level: string, message: string, ts: int, payload: string)

  // What travels: an absent time does not parse, an absent payload is not an object.
  datatype Body = Body(
    origin: nat, kind: string, level: string, message: string, ts: Option<int>, payload: Option<string>)

  // How many bytes a body takes as JSON text.
  type Measure = Body -> nat

  predicate WellTyped(e: Event) {
    e.kind in EVENT_TYPES && e.level in LEVELS
  }

  // The events the services publish, each kind at its levels, are well typed; there are no other kinds.
  lemma PublishedAreWellTyped(e: Event)
    requires (e.kind, e.level) in {
      ("opportunity_detected", "info"), ("trade_opened", "info"), ("trade_filled", "info"), ("trade_filled", "warn"),
      ("trade_failed", "info"), ("trade_stuck", "error"), ("kill_switch_tripped", "warn"),
      ("position_expiring", "warn"), ("balance_low", "warn"), ("exchange_unhealthy", "warn"),
      ("perp_hedge_rebalanced", "info"), ("structured_opportunity_detected", "info")}
    ensures WellTyped(e) && |EVENT_TYPES| == 11 && |LEVELS| == 3
  {}

  function BodyOf(e: Event, origin: nat): Body {
    Body(origin, e.kind, e.level, e.message, Some(e.ts), Some(e.payload))
  }

  function Encode(e: Event, origin: nat, bytes: Measure): Body {
    var body := BodyOf(e, origin);
    if bytes(body) <= MAX_PAYLOAD_BYTES then body else body.(payload := Some(TRUNCATED))
  }

  function FromDict(raw: Body, now: int): Option<Event> {
    if raw.kind !in EVENT_TYPES || raw.level !in LEVELS then None
    else
      Some(Event(raw.kind, raw.level, raw.message, if raw.ts.Some? then raw.ts.value else now,
                 if raw.payload.Some? then raw.payload.value else "{}"))
  }

  // Malformed is what has an unknown type or level; a missing time is now, a missing payload empty.
  lemma FromDictIff(raw: Body, now: int)
    ensures var e := FromDict(raw, now);
      && (e.Some? <==> raw.kind in EVENT_TYPES && raw.level in LEVELS)
      && (e.Some? ==>
            && e.value.kind == raw.kind && e.value.level == raw.level && e.value.message == raw.message
            && (raw.ts == Some(e.value.ts) || (raw.ts.None? && e.value.ts == now))
            && (raw.payload == Some(e.value.payload) || (raw.payload.None? && e.value.payload == "{}")))
  {}

  // The event as other processes see it.
  function Carried(e: Event, origin: nat, bytes: Measure): Event {
    if bytes(BodyOf(e, origin)) <= MAX_PAYLOAD_BYTES then e else e.(payload := TRUNCATED)
  }

  // Decoding what was encoded gives the event back, at most its payload truncated, and fails for
  // exactly the events of an unknown type or level.
  lemma DecodeEncode(e: Event, origin: nat, now: int, bytes: Measure)
    ensures FromDict(Encode(e, origin, bytes), now) ==
      if WellTyped(e) then Some(Carried(e, origin, bytes)) else None
  {}

  // ---------------------------------------------------------------------------------------------
  // The processes
  // ---------------------------------------------------------------------------------------------

  // The listener is added before the connection is used for sending and removed after it no longer is;
  // a broken connection is one the server dropped and the relay has not noticed.
  datatype Phase = Closed | Listening | Open | Closing | Broken

  // `number` counts the notifications sent before.
  datatype Notice = Garbage | Notice(body: Body, number: nat)

  // One call of deliver_local: what publish it stems from, and through which notification.
  datatype Delivery = Delivery(publish: nat, event: Event, via: Option<nat>)

  // A publish waiting for the send lock, on the connection it read before.
  datatype Pending = Pending(publish: nat, session: nat)

  // `session` counts the connections made, `since` the notifications sent before the latest began to
  // listen.
  datatype Process = Process(
    attached: bool,
    phase: Phase,
    session: nat,
    pending: seq<Pending>,
    inbox: seq<Notice>,
    delivered: seq<Delivery>,
    since: nat)

  datatype Published = Published(origin: nat, event: Event)

  // `log` holds all publishes, `channel` those that were notified, both in order.
  datatype System = System(procs: seq<Process>, log: seq<Published>, channel: seq<nat>)

  predicate Hears(q: Process) {
    q.phase == Listening || q.phase == Open || q.phase == Closing
  }

  predicate HasConnection(q: Process) {
    q.phase == Open || q.phase == Broken
  }

  // The connection of that session still reaches the server.
  predicate Alive(q: Process, session: nat) {
    q.session == session && (q.phase == Open || q.phase == Closing)
  }

  function Notify(q: Process, notice: Notice): Process {
    if Hears(q) then q.(inbox := q.inbox + [notice]) else q
  }

  function DeliverLocal(q: Process, d: Delivery): Process {
    q.(delivered := q.delivered + [d])
  }

  // The publisher delivers locally and, if it has a relay with a connection, queues to send.
  function PublishBy(q: Process, e: Event, publish: nat): Process {
    var q' := DeliverLocal(q, Delivery(publish, e, None));
    if q.attached && HasConnection(q) then q'.(pending := q.pending + [Pending(publish, q.session)]) else q'
  }

  // One of the waiting publishes leaves the queue.
  function Dropped(q: Process, at: nat): Process
    requires at < |q.pending|
  {
    q.(pending := q.pending[..at] + q.pending[at + 1..])
  }

  // The notification handler drops the process's own echo and whatever does not decode.
  function OnNotify(q: Process, me: nat, now: int, channel: seq<nat>): Process
    requires q.inbox != []
  {
    var rest := q.(inbox := q.inbox[1..]);
    match q.inbox[0]
    case Garbage => rest
    case Notice(body, number) =>
      var event := FromDict(body, now);
      if body.origin == me || event.None? || number >= |channel| then rest
      else DeliverLocal(rest, Delivery(channel[number], event.value, Some(number)))
  }

  datatype Step =
    | Publish(p: nat, event: Event)
    | Send(p: nat)
    | Abandon(p: nat, at: nat) // a send raises, or its task is cancelled in the queue
    | Noise // someone else writes to the channel
    | Handle(p: nat, now: int)
    | Attach(p: nat)
    | Detach(p: nat)
    | Listen(p: nat)
    | Ready(p: nat)
    | Release(p: nat)
    | Close(p: nat)
    | Lose(p: nat)

  function PublishStep(s: System, p: nat, e: Event): System
    requires p < |s.procs|
  {
    System(s.procs[p := PublishBy(s.procs[p], e, |s.log|)], s.log + [Published(p, e)], s.channel)
  }

  function NotifyAll(procs: seq<Process>, notice: Notice): seq<Process> {
    seq(|procs|, i requires 0 <= i < |procs| => Notify(procs[i], notice))
  }

  // Whether the first pending send of a process gets a notification out.
  predicate Sends(s: System, p: nat, bytes: Measure)
    requires p < |s.procs| && s.procs[p].pending != []
  {
    var first := s.procs[p].pending[0];
    && Alive(s.procs[p], first.session) && first.publish < |s.log|
    && bytes(Encode(s.log[first.publish].event, p, bytes)) < NOTIFY_LIMIT_BYTES
  }

  // Every listener, the sender included, is notified if the send gets through.
  function SendStep(s: System, p: nat, bytes: Measure): System
    requires p < |s.procs| && s.procs[p].pending != []
  {
    var procs := s.procs[p := Dropped(s.procs[p], 0)];
    if Sends(s, p, bytes) then
      var n := s.procs[p].pending[0].publish;
      System(NotifyAll(procs, Notice(Encode(s.log[n].event, p, bytes), |s.channel|)), s.log, s.channel + [n])
    else s.(procs := procs)
  }

  // What happens to the one process a step is about.
  function OneStep(q: Process, step: Step, channel: seq<nat>): Process {
    match step
    case Handle(p, now) => if Hears(q) && q.inbox != [] then OnNotify(q, p, now, channel) else q
    case Abandon(_, at) => if at < |q.pending| then Dropped(q, at) else q
    case Attach(_) => q.(attached := true)
    case Detach(_) => q.(attached := false)
    case Listen(_) =>
      if q.phase == Closed then q.(phase := Listening, session := q.session + 1, since := |channel|) else q
    case Ready(_) => if q.phase == Listening then q.(phase := Open) else q
    case Release(_) => if q.phase == Open then q.(phase := Closing) else q
    case Close(_) => q.(phase := Closed, inbox := [])
    case Lose(_) => if q.phase == Open then q.(phase := Broken, inbox := []) else q
    case _ => q
  }

  function Next(s: System, step: Step, bytes: Measure): System {
    if step.Noise? then s.(procs := NotifyAll(s.procs, Garbage))
    else if step.p >= |s.procs| then s
    else if step.Publish? then PublishStep(s, step.p, step.event)
    else if step.Send? then if s.procs[step.p].pending != [] then SendStep(s, step.p, bytes) else s
    else s.(procs := s.procs[step.p := OneStep(s.procs[step.p], step, s.channel)])
  }

  function Run(s: System, steps: seq<Step>, bytes: Measure): System {
    if steps == [] then s else Next(Run(s, Front(steps), bytes), Last(steps), bytes)
  }

  function Start(n: nat): System {
    System(seq(n, _ => Process(false, Closed, 0, [], [], [], 0)), [], [])
  }

  // ---------------------------------------------------------------------------------------------
  // The invariant of one process
  // ---------------------------------------------------------------------------------------------

  // Only publishes are notified, each at most once.
  predicate ChannelOk(log: seq<Published>, channel: seq<nat>) {
    && (forall k :: 0 <= k < |channel| ==> channel[k] < |log|)
    && (forall k, l :: 0 <= k < l < |channel| ==> channel[k] != channel[l])
  }

  predicate Stems(d: Delivery, me: nat, log: seq<Published>, channel: seq<nat>, bytes: Measure) {
    && d.publish < |log|
    && var pub := log[d.publish];
    if d.via.None? then pub.origin == me && d.event == pub.event
    else
      && d.via.value < |channel| && channel[d.via.value] == d.publish
      && pub.origin != me && WellTyped(pub.event) && d.event == Carried(pub.event, pub.origin, bytes)
  }

  // What it delivered: its own events as published, those of others as carried by a notification.
  predicate DeliveredOk(q: Process, me: nat, log: seq<Published>, channel: seq<nat>, bytes: Measure) {
    forall i :: 0 <= i < |q.delivered| ==> Stems(q.delivered[i], me, log, channel, bytes)
  }

  // Its own events in the order published, those of others in the order notified.
  predicate InOrder(q: Process) {
    && (forall i, j :: 0 <= i < j < |q.delivered| && q.delivered[i].via.None? && q.delivered[j].via.None? ==>
          q.delivered[i].publish < q.delivered[j].publish)
    && (forall i, j :: 0 <= i < j < |q.delivered| && q.delivered[i].via.Some? && q.delivered[j].via.Some? ==>
          q.delivered[i].via.value < q.delivered[j].via.value)
  }

  predicate IsNotice(notice: Notice, log: seq<Published>, channel: seq<nat>, bytes: Measure) {
    && notice.Notice? && notice.number < |channel| && channel[notice.number] < |log|
    && var pub := log[channel[notice.number]];
    notice.body == Encode(pub.event, pub.origin, bytes)
  }

  // Notices wait in the order sent.
  predicate InboxOk(q: Process, log: seq<Published>, channel: seq<nat>, bytes: Measure) {
    && (forall k :: 0 <= k < |q.inbox| && q.inbox[k].Notice? ==> IsNotice(q.inbox[k], log, channel, bytes))
    && (forall k, l :: 0 <= k < l < |q.inbox| && q.inbox[k].Notice? && q.inbox[l].Notice? ==>
          q.inbox[k].number < q.inbox[l].number)
    && (!Hears(q) ==> q.inbox == [])
  }

  // They come after everything already delivered from others.
  predicate Queued(q: Process, channel: seq<nat>) {
    && (forall i, k :: (
          && 0 <= i < |q.delivered| && q.delivered[i].via.Some?
          && 0 <= k < |q.inbox| && q.inbox[k].Notice?)
          ==> q.delivered[i].via.value < q.inbox[k].number)
    && (forall i :: 0 <= i < |q.delivered| && q.delivered[i].via.Some? ==> q.delivered[i].via.value < |channel|)
  }

  predicate GotLocally(q: Process, n: nat) {
    exists i :: 0 <= i < |q.delivered| && q.delivered[i].publish == n && q.delivered[i].via.None?
  }

  predicate GotVia(q: Process, k: nat) {
    exists i :: 0 <= i < |q.delivered| && q.delivered[i].via == Some(k)
  }

  predicate Waiting(q: Process, k: nat) {
    exists i :: 0 <= i < |q.inbox| && q.inbox[i].Notice? && q.inbox[i].number == k
  }

  // A notification that must reach the process.
  predicate Due(q: Process, me: nat, log: seq<Published>, channel: seq<nat>, k: nat) {
    && q.since <= k < |channel| && channel[k] < |log|
    && log[channel[k]].origin != me && WellTyped(log[channel[k]].event)
  }

  predicate OwnDelivered(q: Process, me: nat, log: seq<Published>) {
    forall n: nat :: n < |log| && log[n].origin == me ==> GotLocally(q, n)
  }

  predicate NothingLost(q: Process, me: nat, log: seq<Published>, channel: seq<nat>) {
    && q.since <= |channel|
    && (Hears(q) ==> forall k: nat :: k < |channel| && Due(q, me, log, channel, k) ==> Waiting(q, k) || GotVia(q, k))
  }

  // Sends wait in the order published, and none has been sent yet.
  predicate PendingOk(q: Process, me: nat, log: seq<Published>, channel: seq<nat>) {
    && (forall i :: 0 <= i < |q.pending| ==>
          && q.pending[i].publish < |log| && log[q.pending[i].publish].origin == me
          && q.pending[i].publish !in channel)
    && (forall i, j :: 0 <= i < j < |q.pending| ==> q.pending[i].publish < q.pending[j].publish)
  }

  predicate ProcessOk(q: Process, me: nat, log: seq<Published>, channel: seq<nat>, bytes: Measure) {
    && DeliveredOk(q, me, log, channel, bytes) && InOrder(q)
    && InboxOk(q, log, channel, bytes) && Queued(q, channel)
    && OwnDelivered(q, me, log) && NothingLost(q, me, log, channel)
    && PendingOk(q, me, log, channel)
  }

  // ---------------------------------------------------------------------------------------------
  // A publish
  // ---------------------------------------------------------------------------------------------

  lemma LogGrows(q: Process, me: nat, log: seq<Published>, channel: seq<nat>, bytes: Measure, pub: Published)
    requires DeliveredOk(q, me, log, channel, bytes) && InboxOk(q, log, channel, bytes)
    requires NothingLost(q, me, log, channel) && PendingOk(q, me, log, channel) && ChannelOk(log, channel)
    ensures var log' := log + [pub];
      && DeliveredOk(q, me, log', channel, bytes) && InboxOk(q, log', channel, bytes)
      && NothingLost(q, me, log', channel) && PendingOk(q, me, log', channel) && ChannelOk(log', channel)
  {
    hide Encode, Carried, WellTyped, Waiting, GotVia;
    var log' := log + [pub];
    forall k: nat | k < |channel|
      ensures Due(q, me, log', channel, k) <==> Due(q, me, log, channel, k)
    {}
    assert NothingLost(q, me, log', channel);
    hide Due, NothingLost;
  }

  lemma OthersPublishIsOk(q: Process, me: nat, log: seq<Published>, channel: seq<nat>, bytes: Measure, p: nat, e: Event)
    requires ProcessOk(q, me, log, channel, bytes) && ChannelOk(log, channel) && p != me
    ensures ProcessOk(q, me, log + [Published(p, e)], channel, bytes)
  {
    LogGrows(q, me, log, channel, bytes, Published(p, e));
    hide DeliveredOk, InOrder, InboxOk, Queued, NothingLost, PendingOk, ChannelOk, GotLocally;
  }

  lemma LocalInOrder(q: Process, me: nat, log: seq<Published>, channel: seq<nat>, bytes: Measure, e: Event)
    requires DeliveredOk(q, me, log, channel, bytes) && InOrder(q) && Queued(q, channel)
    ensures var q', log' := DeliverLocal(q, Delivery(|log|, e, None)), log + [Published(me, e)];
      DeliveredOk(q', me, log', channel, bytes) && InOrder(q') && Queued(q', channel)
  {
    hide Carried, WellTyped;
    forall i | 0 <= i < |q.delivered|
      ensures q.delivered[i].publish < |log| && Stems(q.delivered[i], me, log + [Published(me, e)], channel, bytes)
    {
      assert Stems(q.delivered[i], me, log, channel, bytes);
    }
    assert Stems(Delivery(|log|, e, None), me, log + [Published(me, e)], channel, bytes);
    hide Stems;
  }

  lemma LocalDelivery(q: Process, me: nat, log: seq<Published>, e: Event)
    requires OwnDelivered(q, me, log)
    ensures var q', log' := DeliverLocal(q, Delivery(|log|, e, None)), log + [Published(me, e)];
      && OwnDelivered(q', me, log')
      && (forall k: nat :: GotVia(q, k) ==> GotVia(q', k))
  {
    var d := Delivery(|log|, e, None);
    var q', log' := DeliverLocal(q, d), log + [Published(me, e)];
    assert q'.delivered[|q.delivered|] == d;
    forall n: nat | n < |log'| && log'[n].origin == me
      ensures GotLocally(q', n)
    {
      if n < |log| {
        var i :| 0 <= i < |q.delivered| && q.delivered[i].publish == n && q.delivered[i].via.None?;
        assert q'.delivered[i] == q.delivered[i];
      }
    }
    forall k: nat | GotVia(q, k)
      ensures GotVia(q', k)
    {
      var i :| 0 <= i < |q.delivered| && q.delivered[i].via == Some(k);
      assert q'.delivered[i] == q.delivered[i];
    }
    hide GotLocally, GotVia;
  }

  lemma OwnPublishIsOk(q: Process, me: nat, log: seq<Published>, channel: seq<nat>, bytes: Measure, e: Event)
    requires ProcessOk(q, me, log, channel, bytes) && ChannelOk(log, channel)
    ensures ProcessOk(PublishBy(q, e, |log|), me, log + [Published(me, e)], channel, bytes)
  {
    var log' := log + [Published(me, e)];
    LogGrows(q, me, log, channel, bytes, Published(me, e));
    LocalInOrder(q, me, log, channel, bytes, e);
    LocalDelivery(q, me, log, e);
    assert |log| !in channel;
    var q' := PublishBy(q, e, |log|);
    hide Stems, InOrder, IsNotice, WellTyped;
    assert PendingOk(q', me, log', channel);
    assert InboxOk(q', log', channel, bytes);
    hide PendingOk, InboxOk, Queued, OwnDelivered, ChannelOk;
    assert forall k: nat :: Waiting(q', k) == Waiting(q, k);
    assert forall k: nat :: Due(q', me, log', channel, k) == Due(q, me, log', channel, k);
    assert forall k: nat :: GotVia(q', k) == GotVia(DeliverLocal(q, Delivery(|log|, e, None)), k);
    hide GotVia, Waiting, Due;
  }

  // ---------------------------------------------------------------------------------------------
  // A send
  // ---------------------------------------------------------------------------------------------

  lemma DroppedPendingIsOk(q: Process, at: nat, me: nat, log: seq<Published>, channel: seq<nat>)
    requires PendingOk(q, me, log, channel) && at < |q.pending|
    ensures PendingOk(Dropped(q, at), me, log, channel)
    ensures forall i :: 0 <= i < |Dropped(q, at).pending| ==> Dropped(q, at).pending[i].publish != q.pending[at].publish
  {
    var q' := Dropped(q, at);
    assert forall i :: 0 <= i < |q'.pending| ==> q'.pending[i] == q.pending[if i < at then i else i + 1];
  }

  lemma DroppedIsOk(q: Process, at: nat, me: nat, log: seq<Published>, channel: seq<nat>, bytes: Measure)
    requires ProcessOk(q, me, log, channel, bytes) && at < |q.pending|
    ensures ProcessOk(Dropped(q, at), me, log, channel, bytes)
    ensures forall i :: 0 <= i < |Dropped(q, at).pending| ==> Dropped(q, at).pending[i].publish != q.pending[at].publish
  {
    hide Stems, IsNotice, WellTyped;
    var q' := Dropped(q, at);
    DroppedPendingIsOk(q, at, me, log, channel);
    hide PendingOk;
    assert DeliveredOk(q', me, log, channel, bytes) && InOrder(q') && InboxOk(q', log, channel, bytes)
      && Queued(q', channel);
    assert forall n: nat :: GotLocally(q', n) == GotLocally(q, n);
    assert forall k: nat :: Waiting(q', k) == Waiting(q, k);
    assert forall k: nat :: GotVia(q', k) == GotVia(q, k);
    assert forall k: nat :: Due(q', me, log, channel, k) == Due(q, me, log, channel, k);
    hide DeliveredOk, InOrder, InboxOk, Queued, GotLocally, GotVia, Waiting, Due;
  }

  lemma NotifiedDelivered(q: Process, me: nat, log: seq<Published>, channel: seq<nat>, bytes: Measure, n: nat, body: Body)
    requires ProcessOk(q, me, log, channel, bytes) && n < |log|
    requires forall i :: 0 <= i < |q.pending| ==> q.pending[i].publish != n
    ensures var q' := Notify(q, Notice(body, |channel|));
      && DeliveredOk(q', me, log, channel + [n], bytes) && InOrder(q') && OwnDelivered(q', me, log)
      && PendingOk(q', me, log, channel + [n])
  {
    hide Encode, Carried, WellTyped, InboxOk, Queued, NothingLost;
    var q' := Notify(q, Notice(body, |channel|));
    forall m: nat | GotLocally(q, m)
      ensures GotLocally(q', m)
    {}
    hide GotLocally;
  }

  lemma NotifiedInbox(q: Process, me: nat, log: seq<Published>, channel: seq<nat>, bytes: Measure, n: nat)
    requires ProcessOk(q, me, log, channel, bytes) && n < |log|
    ensures var q' := Notify(q, Notice(Encode(log[n].event, log[n].origin, bytes), |channel|));
      InboxOk(q', log, channel + [n], bytes) && Queued(q', channel + [n])
  {
    hide Encode, DeliveredOk, InOrder, OwnDelivered, NothingLost, PendingOk;
  }

  lemma NotifiedNotLost(q: Process, me: nat, log: seq<Published>, channel: seq<nat>, n: nat, body: Body)
    requires NothingLost(q, me, log, channel)
    ensures NothingLost(Notify(q, Notice(body, |channel|)), me, log, channel + [n])
  {
    hide WellTyped;
    var q', channel' := Notify(q, Notice(body, |channel|)), channel + [n];
    forall k: nat | Waiting(q, k)
      ensures Waiting(q', k)
    {
      var i :| 0 <= i < |q.inbox| && q.inbox[i].Notice? && q.inbox[i].number == k;
      assert q'.inbox[i] == q.inbox[i];
    }
    if Hears(q) {
      assert q'.inbox[|q.inbox|].number == |channel|;
      assert Waiting(q', |channel|);
    }
    forall k: nat | k < |channel|
      ensures Due(q', me, log, channel', k) <==> Due(q, me, log, channel, k)
    {}
    assert forall k: nat :: GotVia(q', k) == GotVia(q, k);
    hide Waiting, GotVia, Due;
  }

  lemma NotifiedIsOk(q: Process, me: nat, log: seq<Published>, channel: seq<nat>, bytes: Measure, n: nat)
    requires ProcessOk(q, me, log, channel, bytes) && n < |log|
    requires forall i :: 0 <= i < |q.pending| ==> q.pending[i].publish != n
    ensures ProcessOk(Notify(q, Notice(Encode(log[n].event, log[n].origin, bytes), |channel|)), me, log, channel + [n], bytes)
  {
    var body := Encode(log[n].event, log[n].origin, bytes);
    hide Encode, DeliveredOk, InOrder, InboxOk, Queued, OwnDelivered, NothingLost, PendingOk, Notify;
    NotifiedDelivered(q, me, log, channel, bytes, n, body);
    NotifiedInbox(q, me, log, channel, bytes, n);
    NotifiedNotLost(q, me, log, channel, n, body);
  }

  // ---------------------------------------------------------------------------------------------
  // A notification handled
  // ---------------------------------------------------------------------------------------------

  lemma HeadOrRest(q: Process, k: nat)
    requires q.inbox != [] && Waiting(q, k)
    ensures Waiting(q.(inbox := q.inbox[1..]), k) || (q.inbox[0].Notice? && q.inbox[0].number == k)
  {
    var i :| 0 <= i < |q.inbox| && q.inbox[i].Notice? && q.inbox[i].number == k;
    if i > 0 {
      assert q.inbox[1..][i - 1] == q.inbox[i];
    }
  }

  lemma DropKeepsQueue(q: Process, log: seq<Published>, channel: seq<nat>, bytes: Measure)
    requires InboxOk(q, log, channel, bytes) && Queued(q, channel) && q.inbox != []
    ensures var q' := q.(inbox := q.inbox[1..]);
      InboxOk(q', log, channel, bytes) && Queued(q', channel)
  {
    hide IsNotice;
  }

  lemma DropLosesNothing(q: Process, me: nat, log: seq<Published>, channel: seq<nat>)
    requires NothingLost(q, me, log, channel) && q.inbox != []
    requires q.inbox[0].Notice? ==> !Due(q, me, log, channel, q.inbox[0].number)
    ensures NothingLost(q.(inbox := q.inbox[1..]), me, log, channel)
  {
    hide WellTyped;
    var q' := q.(inbox := q.inbox[1..]);
    forall k: nat | Waiting(q, k)
      ensures Waiting(q', k) || (q.inbox[0].Notice? && q.inbox[0].number == k)
    {
      HeadOrRest(q, k);
    }
    assert forall k: nat :: GotVia(q', k) == GotVia(q, k);
    assert forall k: nat :: Due(q', me, log, channel, k) == Due(q, me, log, channel, k);
    hide Waiting, GotVia, Due;
  }

  // Dropping the head is right when it is garbage, the process's own or does not decode.
  lemma IgnoredIsOk(q: Process, me: nat, log: seq<Published>, channel: seq<nat>, bytes: Measure)
    requires ProcessOk(q, me, log, channel, bytes) && q.inbox != []
    requires q.inbox[0].Notice? ==> !Due(q, me, log, channel, q.inbox[0].number)
    ensures ProcessOk(q.(inbox := q.inbox[1..]), me, log, channel, bytes)
  {
    var q' := q.(inbox := q.inbox[1..]);
    DropKeepsQueue(q, log, channel, bytes);
    DropLosesNothing(q, me, log, channel);
    hide Stems, InboxOk, Queued, NothingLost, Due;
    assert DeliveredOk(q', me, log, channel, bytes) && InOrder(q') && PendingOk(q', me, log, channel);
    hide DeliveredOk, InOrder, PendingOk;
    assert forall n: nat :: GotLocally(q', n) == GotLocally(q, n);
    hide GotLocally;
  }

  lemma ReceivedNotLost(q: Process, me: nat, log: seq<Published>, channel: seq<nat>, d: Delivery)
    requires NothingLost(q, me, log, channel) && OwnDelivered(q, me, log)
    requires q.inbox != [] && q.inbox[0].Notice? && d.via == Some(q.inbox[0].number)
    ensures var q' := DeliverLocal(q.(inbox := q.inbox[1..]), d);
      NothingLost(q', me, log, channel) && OwnDelivered(q', me, log)
  {
    hide WellTyped;
    var rest := q.(inbox := q.inbox[1..]);
    var q' := DeliverLocal(rest, d);
    forall k: nat | GotVia(q, k)
      ensures GotVia(q', k)
    {
      var i :| 0 <= i < |q.delivered| && q.delivered[i].via == Some(k);
      assert q'.delivered[i] == q.delivered[i];
    }
    forall n: nat | GotLocally(q, n)
      ensures GotLocally(q', n)
    {
      var i :| 0 <= i < |q.delivered| && q.delivered[i].publish == n && q.delivered[i].via.None?;
      assert q'.delivered[i] == q.delivered[i];
    }
    assert q'.delivered[|q.delivered|] == d;
    forall k: nat | Waiting(q, k)
      ensures Waiting(q', k) || GotVia(q', k)
    {
      HeadOrRest(q, k);
      assert Waiting(rest, k) ==> Waiting(q', k);
    }
    assert forall k: nat :: Due(q', me, log, channel, k) == Due(q, me, log, channel, k);
    hide GotVia, GotLocally, Waiting, Due;
  }

  lemma ReceivedInOrder(q: Process, me: nat, log: seq<Published>, channel: seq<nat>, bytes: Measure, d: Delivery)
    requires DeliveredOk(q, me, log, channel, bytes) && InOrder(q) && Queued(q, channel)
    requires q.inbox != [] && q.inbox[0].Notice? && d.via == Some(q.inbox[0].number)
    requires Stems(d, me, log, channel, bytes)
    ensures var q' := DeliverLocal(q.(inbox := q.inbox[1..]), d);
      DeliveredOk(q', me, log, channel, bytes) && InOrder(q')
  {
    hide Stems;
  }

  lemma ReceivedQueue(q: Process, log: seq<Published>, channel: seq<nat>, bytes: Measure, d: Delivery)
    requires InboxOk(q, log, channel, bytes) && Queued(q, channel)
    requires q.inbox != [] && q.inbox[0].Notice? && d.via == Some(q.inbox[0].number)
    ensures var q' := DeliverLocal(q.(inbox := q.inbox[1..]), d);
      InboxOk(q', log, channel, bytes) && Queued(q', channel)
  {
    DropKeepsQueue(q, log, channel, bytes);
    assert IsNotice(q.inbox[0], log, channel, bytes) && d.via.value < |channel|;
    hide IsNotice;
  }

  // Delivering the head is right when it is another process's and decodes.
  lemma ReceivedIsOk(q: Process, me: nat, log: seq<Published>, channel: seq<nat>, bytes: Measure, d: Delivery)
    requires ProcessOk(q, me, log, channel, bytes)
    requires q.inbox != [] && q.inbox[0].Notice? && d.via == Some(q.inbox[0].number)
    requires Stems(d, me, log, channel, bytes)
    ensures ProcessOk(DeliverLocal(q.(inbox := q.inbox[1..]), d), me, log, channel, bytes)
  {
    ReceivedInOrder(q, me, log, channel, bytes, d);
    ReceivedQueue(q, log, channel, bytes, d);
    ReceivedNotLost(q, me, log, channel, d);
    hide Stems, DeliveredOk, InOrder, InboxOk, Queued, OwnDelivered, NothingLost;
  }

  lemma OriginTravels(e: Event, origin: nat, bytes: Measure)
    ensures Encode(e, origin, bytes).origin == origin
  {}

  lemma HandledIsOk(q: Process, me: nat, log: seq<Published>, channel: seq<nat>, bytes: Measure, now: int)
    requires ProcessOk(q, me, log, channel, bytes) && q.inbox != []
    ensures ProcessOk(OnNotify(q, me, now, channel), me, log, channel, bytes)
  {
    hide FromDict, Encode, Carried, DeliveredOk, InOrder, Queued, OwnDelivered, NothingLost, PendingOk, DeliverLocal,
      WellTyped;
    if q.inbox[0].Notice? {
      var k := q.inbox[0].number;
      assert IsNotice(q.inbox[0], log, channel, bytes);
      var pub := log[channel[k]];
      DecodeEncode(pub.event, pub.origin, now, bytes);
      OriginTravels(pub.event, pub.origin, bytes);
      if pub.origin == me || !WellTyped(pub.event) {
        IgnoredIsOk(q, me, log, channel, bytes);
      } else {
        ReceivedIsOk(q, me, log, channel, bytes,
          Delivery(channel[k], Carried(pub.event, pub.origin, bytes), Some(k)));
      }
    } else {
      IgnoredIsOk(q, me, log, channel, bytes);
    }
    hide ProcessOk;
  }

  // ---------------------------------------------------------------------------------------------
  // Connections and noise
  // ---------------------------------------------------------------------------------------------

  lemma GarbageIsOk(q: Process, me: nat, log: seq<Published>, channel: seq<nat>, bytes: Measure)
    requires ProcessOk(q, me, log, channel, bytes)
    ensures ProcessOk(Notify(q, Garbage), me, log, channel, bytes)
  {
    hide Stems, IsNotice, WellTyped;
    var q' := Notify(q, Garbage);
    assert DeliveredOk(q', me, log, channel, bytes) && InOrder(q') && PendingOk(q', me, log, channel);
    assert InboxOk(q', log, channel, bytes) && Queued(q', channel);
    hide DeliveredOk, InOrder, InboxOk, Queued, PendingOk;
    forall k: nat | Waiting(q, k)
      ensures Waiting(q', k)
    {
      var i :| 0 <= i < |q.inbox| && q.inbox[i].Notice? && q.inbox[i].number == k;
      assert q'.inbox[i] == q.inbox[i];
    }
    assert forall n: nat :: GotLocally(q', n) == GotLocally(q, n);
    assert forall k: nat :: GotVia(q', k) == GotVia(q, k);
    assert forall k: nat :: Due(q', me, log, channel, k) == Due(q, me, log, channel, k);
    hide GotLocally, GotVia, Waiting, Due;
  }

  // A connection changes nothing that was delivered or is pending, loses its inbox when it stops
  // hearing, and owes nothing from before it began to.
  lemma ConnectionIsOk(q: Process, q': Process, me: nat, log: seq<Published>, channel: seq<nat>, bytes: Measure)
    requires ProcessOk(q, me, log, channel, bytes) && q'.delivered == q.delivered && q'.pending == q.pending
    requires q'.inbox == if Hears(q') then q.inbox else []
    requires (q'.since == q.since && (Hears(q') ==> Hears(q))) || (q'.since == |channel| && !Hears(q))
    ensures ProcessOk(q', me, log, channel, bytes)
  {
    hide Stems, IsNotice, WellTyped;
    assert DeliveredOk(q', me, log, channel, bytes) && InOrder(q') && PendingOk(q', me, log, channel);
    assert InboxOk(q', log, channel, bytes) && Queued(q', channel);
    hide DeliveredOk, InOrder, InboxOk, Queued, PendingOk;
    assert forall n: nat :: GotLocally(q', n) == GotLocally(q, n);
    assert forall k: nat :: GotVia(q', k) == GotVia(q, k);
    assert q'.inbox == q.inbox ==> forall k: nat :: Waiting(q', k) == Waiting(q, k);
    hide GotLocally, GotVia, Waiting;
  }

  lemma OneStepIsOk(q: Process, step: Step, log: seq<Published>, channel: seq<nat>, bytes: Measure)
    requires !step.Noise? && !step.Publish? && !step.Send? && ProcessOk(q, step.p, log, channel, bytes)
    ensures ProcessOk(OneStep(q, step, channel), step.p, log, channel, bytes)
  {
    if step.Handle? {
      if Hears(q) && q.inbox != [] {
        HandledIsOk(q, step.p, log, channel, bytes, step.now);
      }
    } else if step.Abandon? {
      if step.at < |q.pending| {
        DroppedIsOk(q, step.at, step.p, log, channel, bytes);
      }
    } else {
      assert !Hears(q) ==> q.inbox == [];
      hide ProcessOk;
      ConnectionIsOk(q, OneStep(q, step, channel), step.p, log, channel, bytes);
    }
    hide ProcessOk, OnNotify, Dropped;
  }

  // ---------------------------------------------------------------------------------------------
  // The whole system
  // ---------------------------------------------------------------------------------------------

  predicate SystemOk(s: System, bytes: Measure) {
    && ChannelOk(s.log, s.channel)
    && (forall i :: 0 <= i < |s.procs| ==> ProcessOk(s.procs[i], i, s.log, s.channel, bytes))
  }

  lemma StartIsOk(n: nat, bytes: Measure)
    ensures SystemOk(Start(n), bytes)
  {
    var s := Start(n);
    forall i | 0 <= i < n
      ensures ProcessOk(s.procs[i], i, s.log, s.channel, bytes)
    {}
  }

  lemma PublishIsOk(s: System, p: nat, e: Event, bytes: Measure)
    requires SystemOk(s, bytes) && p < |s.procs|
    ensures SystemOk(PublishStep(s, p, e), bytes)
  {
    hide ProcessOk, PublishBy;
    var s' := PublishStep(s, p, e);
    forall i | 0 <= i < |s'.procs|
      ensures ProcessOk(s'.procs[i], i, s'.log, s'.channel, bytes)
    {
      if i == p {
        OwnPublishIsOk(s.procs[i], i, s.log, s.channel, bytes, e);
      } else {
        OthersPublishIsOk(s.procs[i], i, s.log, s.channel, bytes, p, e);
      }
    }
  }

  // What waits at one process is published by it and not yet notified.
  lemma PendingFacts(s: System, p: nat, bytes: Measure)
    requires SystemOk(s, bytes) && p < |s.procs|
    ensures forall i :: 0 <= i < |s.procs[p].pending| ==>
      var n := s.procs[p].pending[i].publish;
      n < |s.log| && s.log[n].origin == p && n !in s.channel
  {
    assert ProcessOk(s.procs[p], p, s.log, s.channel, bytes);
    hide DeliveredOk, InOrder, InboxOk, Queued, OwnDelivered, NothingLost, ChannelOk;
  }

  lemma SendIsOk(s: System, p: nat, bytes: Measure)
    requires SystemOk(s, bytes) && p < |s.procs| && s.procs[p].pending != []
    ensures SystemOk(SendStep(s, p, bytes), bytes)
  {
    PendingFacts(s, p, bytes);
    hide ProcessOk, Encode, Notify, Alive;
    DroppedIsOk(s.procs[p], 0, p, s.log, s.channel, bytes);
    var procs := s.procs[p := Dropped(s.procs[p], 0)];
    var n := s.procs[p].pending[0].publish;
    var s' := SendStep(s, p, bytes);
    hide Dropped;
    if Sends(s, p, bytes) {
      forall i | 0 <= i < |procs|
        ensures ProcessOk(s'.procs[i], i, s.log, s.channel + [n], bytes)
      {
        if i != p {
          PendingFacts(s, i, bytes);
        }
        NotifiedIsOk(procs[i], i, s.log, s.channel, bytes, n);
      }
    }
  }

  lemma NextIsOk(s: System, step: Step, bytes: Measure)
    requires SystemOk(s, bytes)
    ensures SystemOk(Next(s, step, bytes), bytes)
  {
    hide ProcessOk, OneStep, PublishStep, SendStep, Notify;
    if step.Noise? {
      forall i | 0 <= i < |s.procs|
        ensures ProcessOk(Notify(s.procs[i], Garbage), i, s.log, s.channel, bytes)
      {
        GarbageIsOk(s.procs[i], i, s.log, s.channel, bytes);
      }
    } else if step.p < |s.procs| {
      if step.Publish? {
        PublishIsOk(s, step.p, step.event, bytes);
      } else if step.Send? {
        if s.procs[step.p].pending != [] {
          SendIsOk(s, step.p, bytes);
        }
      } else {
        OneStepIsOk(s.procs[step.p], step, s.log, s.channel, bytes);
      }
    }
  }

  // Every interleaving of every number of processes.
  lemma {:induction false} RunIsOk(n: nat, steps: seq<Step>, bytes: Measure)
    ensures SystemOk(Run(Start(n), steps, bytes), bytes)
  {
    hide SystemOk, Next, Start;
    if steps == [] {
      StartIsOk(n, bytes);
    } else {
      RunIsOk(n, Front(steps), bytes);
      NextIsOk(Run(Start(n), Front(steps), bytes), Last(steps), bytes);
    }
  }

  // ---------------------------------------------------------------------------------------------
  // What it means
  // ---------------------------------------------------------------------------------------------

  predicate Got(q: Process, n: nat) {
    exists i :: 0 <= i < |q.delivered| && q.delivered[i].publish == n
  }

  predicate GotOnce(q: Process, n: nat) {
    exists i :: 0 <= i < |q.delivered| && q.delivered[i].publish == n
      && forall j :: 0 <= j < |q.delivered| && q.delivered[j].publish == n ==> j == i
  }

  lemma SamePublishSameDelivery(q: Process, me: nat, log: seq<Published>, channel: seq<nat>, bytes: Measure, i: nat, j: nat)
    requires ChannelOk(log, channel) && DeliveredOk(q, me, log, channel, bytes) && InOrder(q)
    requires i < |q.delivered| && j < |q.delivered| && q.delivered[i].publish == q.delivered[j].publish
    ensures i == j
  {
    hide WellTyped, Carried;
    assert Stems(q.delivered[i], me, log, channel, bytes) && Stems(q.delivered[j], me, log, channel, bytes);
  }

  lemma OrderFacts(s: System, bytes: Measure, p: nat)
    requires SystemOk(s, bytes) && p < |s.procs|
    ensures ChannelOk(s.log, s.channel) && InOrder(s.procs[p])
    ensures DeliveredOk(s.procs[p], p, s.log, s.channel, bytes)
  {
    assert ProcessOk(s.procs[p], p, s.log, s.channel, bytes);
    hide ChannelOk, DeliveredOk, InOrder, InboxOk, Queued, OwnDelivered, NothingLost, PendingOk;
  }

  lemma GotIsOnce(s: System, bytes: Measure, p: nat, n: nat)
    requires SystemOk(s, bytes) && p < |s.procs| && Got(s.procs[p], n)
    ensures GotOnce(s.procs[p], n)
  {
    hide SystemOk, ChannelOk, DeliveredOk, InOrder;
    var q := s.procs[p];
    OrderFacts(s, bytes, p);
    var i :| 0 <= i < |q.delivered| && q.delivered[i].publish == n;
    forall j | 0 <= j < |q.delivered| && q.delivered[j].publish == n
      ensures j == i
    {
      SamePublishSameDelivery(q, p, s.log, s.channel, bytes, i, j);
    }
  }

  lemma Channel(s: System, bytes: Measure)
    requires SystemOk(s, bytes)
    ensures ChannelOk(s.log, s.channel)
  {}

  // No process gets a publish twice.
  lemma AtMostOnce(n: nat, steps: seq<Step>, bytes: Measure, p: nat, i: nat, j: nat)
    requires p < |Run(Start(n), steps, bytes).procs|
    requires var d := Run(Start(n), steps, bytes).procs[p].delivered;
      i < |d| && j < |d| && d[i].publish == d[j].publish
    ensures i == j
  {
    RunIsOk(n, steps, bytes);
    var s := Run(Start(n), steps, bytes);
    hide Run, Start;
    hide SystemOk, ChannelOk, DeliveredOk, InOrder;
    OrderFacts(s, bytes, p);
    SamePublishSameDelivery(s.procs[p], p, s.log, s.channel, bytes, i, j);
  }

  // No publish is notified twice, and only what some process published ever is: nothing received is
  // sent on.
  lemma NotifiedAtMostOnce(n: nat, steps: seq<Step>, bytes: Measure, k: nat, l: nat)
    requires k < |Run(Start(n), steps, bytes).channel| && l < |Run(Start(n), steps, bytes).channel|
    ensures var s := Run(Start(n), steps, bytes);
      && s.channel[k] < |s.log|
      && (s.channel[k] == s.channel[l] ==> k == l)
  {
    RunIsOk(n, steps, bytes);
    hide Run, Start;
    Channel(Run(Start(n), steps, bytes), bytes);
  }

  // The publisher's own bus gets every event exactly once, connected or not.
  lemma PublisherGetsItsOwn(count: nat, steps: seq<Step>, bytes: Measure, n: nat)
    requires n < |Run(Start(count), steps, bytes).log|
    requires Run(Start(count), steps, bytes).log[n].origin < |Run(Start(count), steps, bytes).procs|
    ensures var s := Run(Start(count), steps, bytes);
      GotOnce(s.procs[s.log[n].origin], n)
  {
    RunIsOk(count, steps, bytes);
    var s := Run(Start(count), steps, bytes);
    hide Run, Start, GotOnce;
    var p := s.log[n].origin;
    assert ProcessOk(s.procs[p], p, s.log, s.channel, bytes);
    assert GotLocally(s.procs[p], n);
    hide ProcessOk;
    GotIsOnce(s, bytes, p, n);
  }

  lemma DueIsGot(s: System, bytes: Measure, p: nat, k: nat)
    requires SystemOk(s, bytes) && p < |s.procs|
    requires Hears(s.procs[p]) && s.procs[p].inbox == [] && Due(s.procs[p], p, s.log, s.channel, k)
    ensures Got(s.procs[p], s.channel[k])
  {
    var q := s.procs[p];
    assert ProcessOk(q, p, s.log, s.channel, bytes);
    assert !Waiting(q, k) && GotVia(q, k);
    var i :| 0 <= i < |q.delivered| && q.delivered[i].via == Some(k);
    assert Stems(q.delivered[i], p, s.log, s.channel, bytes);
    hide InOrder, InboxOk, Queued, OwnDelivered, NothingLost, PendingOk, ChannelOk, WellTyped;
  }

  // A process still listening, with nothing left to handle, has got every well-typed event of another
  // that was notified since it began to listen: exactly once.
  lemma ListenersGetAll(count: nat, steps: seq<Step>, bytes: Measure, p: nat, k: nat)
    requires p < |Run(Start(count), steps, bytes).procs|
    requires var s := Run(Start(count), steps, bytes);
      Hears(s.procs[p]) && s.procs[p].inbox == [] && Due(s.procs[p], p, s.log, s.channel, k)
    ensures var s := Run(Start(count), steps, bytes);
      GotOnce(s.procs[p], s.channel[k])
  {
    RunIsOk(count, steps, bytes);
    var s := Run(Start(count), steps, bytes);
    hide Run, Start, GotOnce;
    DueIsGot(s, bytes, p, k);
    GotIsOnce(s, bytes, p, s.channel[k]);
  }

  // ---------------------------------------------------------------------------------------------
  // On its way
  // ---------------------------------------------------------------------------------------------

  lemma {:induction false} RunAppends(s: System, first: seq<Step>, second: seq<Step>, bytes: Measure)
    ensures Run(s, first + second, bytes) == Run(Run(s, first, bytes), second, bytes)
  {
    hide Next;
    if second == [] {
      assert first + second == first;
    } else {
      RunAppends(s, first, Front(second), bytes);
      assert Front(first + second) == first + Front(second);
    }
  }

  // The step closes neither connection and gives up no send of the publisher.
  predicate Keeps(step: Step, p: nat, q: nat) {
    step != Close(p) && step != Lose(p) && !(step.Abandon? && step.p == p) && step != Close(q) && step != Lose(q)
  }

  // Publish n of process p waits to be sent on a connection still alive.
  predicate InLine(q: Process, n: nat) {
    exists i :: 0 <= i < |q.pending| && q.pending[i].publish == n && Alive(q, q.pending[i].session)
  }

  predicate SentSince(channel: seq<nat>, n: nat, since: nat) {
    exists k :: 0 <= since <= k < |channel| && channel[k] == n
  }

  // Publish n is on its way to process q: q has listened since before notification `since`, and n has
  // been notified after that or still waits to be.
  predicate OnItsWay(s: System, n: nat, p: nat, q: nat, since: nat, e: Event) {
    && p < |s.procs| && q < |s.procs|
    && n < |s.log| && s.log[n] == Published(p, e)
    && Hears(s.procs[q]) && s.procs[q].since <= since <= |s.channel|
    && (SentSince(s.channel, n, since) || InLine(s.procs[p], n))
  }

  lemma PublishIsOnItsWay(s: System, p: nat, e: Event, q: nat)
    requires p < |s.procs| && q < |s.procs| && p != q
    requires s.procs[p].attached && s.procs[p].phase == Open
    requires Hears(s.procs[q]) && s.procs[q].since <= |s.channel|
    ensures OnItsWay(PublishStep(s, p, e), |s.log|, p, q, |s.channel|, e)
  {
    var q' := PublishStep(s, p, e).procs[p];
    assert q'.pending[|s.procs[p].pending|].publish == |s.log|;
  }

  lemma SendKeepsItsWay(s: System, n: nat, p: nat, q: nat, since: nat, e: Event, bytes: Measure)
    requires OnItsWay(s, n, p, q, since, e) && s.procs[p].pending != []
    requires bytes(Encode(e, p, bytes)) < NOTIFY_LIMIT_BYTES
    ensures OnItsWay(SendStep(s, p, bytes), n, p, q, since, e)
  {
    hide Encode;
    var s' := SendStep(s, p, bytes);
    if SentSince(s.channel, n, since) {
      var k :| 0 <= since <= k < |s.channel| && s.channel[k] == n;
      assert s'.channel[k] == n;
    } else {
      var pr, pr' := s.procs[p], s'.procs[p];
      var i :| 0 <= i < |pr.pending| && pr.pending[i].publish == n && Alive(pr, pr.pending[i].session);
      if i == 0 {
        assert Sends(s, p, bytes);
        assert s'.channel[|s.channel|] == n;
      } else {
        assert pr'.pending[i - 1] == pr.pending[i];
      }
    }
  }

  lemma OthersSendKeepsItsWay(s: System, n: nat, p: nat, q: nat, since: nat, e: Event, bytes: Measure, r: nat)
    requires OnItsWay(s, n, p, q, since, e) && r < |s.procs| && r != p && s.procs[r].pending != []
    ensures OnItsWay(SendStep(s, r, bytes), n, p, q, since, e)
  {
    hide Encode, Sends;
    var s' := SendStep(s, r, bytes);
    if SentSince(s.channel, n, since) {
      var k :| 0 <= since <= k < |s.channel| && s.channel[k] == n;
      assert s'.channel[k] == n;
    } else {
      assert s'.procs[p].pending == s.procs[p].pending;
      var pr := s.procs[p];
      var i :| 0 <= i < |pr.pending| && pr.pending[i].publish == n && Alive(pr, pr.pending[i].session);
      assert s'.procs[p].pending[i] == pr.pending[i];
    }
  }

  lemma PublishKeepsItsWay(s: System, n: nat, p: nat, q: nat, since: nat, e: Event, r: nat, f: Event)
    requires OnItsWay(s, n, p, q, since, e) && r < |s.procs|
    ensures OnItsWay(PublishStep(s, r, f), n, p, q, since, e)
  {
    var pr, pr' := s.procs[p], PublishStep(s, r, f).procs[p];
    if InLine(pr, n) {
      var i :| 0 <= i < |pr.pending| && pr.pending[i].publish == n && Alive(pr, pr.pending[i].session);
      assert pr'.pending[i] == pr.pending[i];
    }
  }

  lemma NoiseKeepsItsWay(s: System, n: nat, p: nat, q: nat, since: nat, e: Event, bytes: Measure)
    requires OnItsWay(s, n, p, q, since, e)
    ensures OnItsWay(Next(s, Noise, bytes), n, p, q, since, e)
  {
    var pr, pr' := s.procs[p], Next(s, Noise, bytes).procs[p];
    assert pr'.pending == pr.pending;
    if InLine(pr, n) {
      var i :| 0 <= i < |pr.pending| && pr.pending[i].publish == n && Alive(pr, pr.pending[i].session);
      assert pr'.pending[i] == pr.pending[i];
    }
  }

  lemma OneStepKeepsItsWay(s: System, n: nat, p: nat, q: nat, since: nat, e: Event, step: Step, bytes: Measure)
    requires OnItsWay(s, n, p, q, since, e) && Keeps(step, p, q)
    requires !step.Noise? && !step.Publish? && !step.Send? && step.p < |s.procs|
    ensures OnItsWay(Next(s, step, bytes), n, p, q, since, e)
  {
    hide FromDict;
    var pr, pr' := s.procs[p], Next(s, step, bytes).procs[p];
    if InLine(pr, n) {
      var i :| 0 <= i < |pr.pending| && pr.pending[i].publish == n && Alive(pr, pr.pending[i].session);
      assert pr'.pending == pr.pending;
      assert Alive(pr', pr'.pending[i].session);
    }
    hide SentSince;
  }

  lemma {:induction false} StaysOnItsWay(s: System, n: nat, p: nat, q: nat, since: nat, e: Event, steps: seq<Step>,
                                         bytes: Measure)
    requires OnItsWay(s, n, p, q, since, e)
    requires bytes(Encode(e, p, bytes)) < NOTIFY_LIMIT_BYTES
    requires forall i :: 0 <= i < |steps| ==> Keeps(steps[i], p, q)
    ensures OnItsWay(Run(s, steps, bytes), n, p, q, since, e)
  {
    hide OnItsWay, Encode, SendStep, PublishStep, OneStep, NotifyAll;
    if steps != [] {
      var step := steps[|steps| - 1];
      StaysOnItsWay(s, n, p, q, since, e, Front(steps), bytes);
      var before := Run(s, Front(steps), bytes);
      if step.Noise? {
        NoiseKeepsItsWay(before, n, p, q, since, e, bytes);
      } else if step.p < |before.procs| {
        if step.Publish? {
          PublishKeepsItsWay(before, n, p, q, since, e, step.p, step.event);
        } else if step.Send? {
          if before.procs[step.p].pending != [] {
            if step.p == p {
              SendKeepsItsWay(before, n, p, q, since, e, bytes);
            } else {
              OthersSendKeepsItsWay(before, n, p, q, since, e, bytes, step.p);
            }
          }
        } else {
          OneStepKeepsItsWay(before, n, p, q, since, e, step, bytes);
        }
      }
    }
  }

  lemma SinceIsPast(s: System, bytes: Measure, q: nat)
    requires SystemOk(s, bytes) && q < |s.procs|
    ensures s.procs[q].since <= |s.channel|
  {
    assert ProcessOk(s.procs[q], q, s.log, s.channel, bytes);
    hide DeliveredOk, InOrder, InboxOk, Queued, OwnDelivered, PendingOk, ChannelOk;
  }

  lemma ArrivedIsDue(s: System, n: nat, p: nat, q: nat, since: nat, e: Event, bytes: Measure)
    requires SystemOk(s, bytes) && OnItsWay(s, n, p, q, since, e) && p != q && WellTyped(e)
    requires s.procs[p].pending == [] && s.procs[q].inbox == []
    ensures Got(s.procs[q], n)
  {
    hide WellTyped, SystemOk;
    assert !InLine(s.procs[p], n);
    var k :| 0 <= since <= k < |s.channel| && s.channel[k] == n;
    DueIsGot(s, bytes, q, k);
  }

  // Whatever a bus got from elsewhere was notified by another process, and is the original, with its
  // payload truncated exactly when the encoding is over 7000 bytes; its own events are whole.
  lemma RemoteEventsAreFaithful(count: nat, steps: seq<Step>, bytes: Measure, p: nat, i: nat)
    requires p < |Run(Start(count), steps, bytes).procs|
    requires i < |Run(Start(count), steps, bytes).procs[p].delivered|
    ensures var s := Run(Start(count), steps, bytes);
      var d := s.procs[p].delivered[i];
      && d.publish < |s.log|
      && var pub := s.log[d.publish];
      && (pub.origin != p ==> d.publish in s.channel)
      && d.event == if pub.origin == p || bytes(BodyOf(pub.event, pub.origin)) <= 7000 then pub.event
                    else pub.event.(payload := "{\"_truncated\": true}")
  {
    RunIsOk(count, steps, bytes);
    var s := Run(Start(count), steps, bytes);
    hide Run, Start;
    assert ProcessOk(s.procs[p], p, s.log, s.channel, bytes);
    assert Stems(s.procs[p].delivered[i], p, s.log, s.channel, bytes);
    hide InOrder, InboxOk, Queued, OwnDelivered, NothingLost, PendingOk, ChannelOk, WellTyped;
  }

  // ---------------------------------------------------------------------------------------------
  // What can travel
  // ---------------------------------------------------------------------------------------------

  // The database accepts the notification of the publish.
  predicate Fits(pub: Published, bytes: Measure) {
    bytes(Encode(pub.event, pub.origin, bytes)) < NOTIFY_LIMIT_BYTES
  }

  predicate NoticesFit(s: System, bytes: Measure) {
    forall k :: 0 <= k < |s.channel| ==> s.channel[k] < |s.log| && Fits(s.log[s.channel[k]], bytes)
  }

  lemma SendKeepsFit(s: System, p: nat, bytes: Measure)
    requires SystemOk(s, bytes) && NoticesFit(s, bytes) && p < |s.procs| && s.procs[p].pending != []
    ensures NoticesFit(SendStep(s, p, bytes), bytes)
  {
    PendingFacts(s, p, bytes);
    hide SystemOk, Encode, NotifyAll, Alive, Dropped;
  }

  // In every run, whatever was notified is small enough.
  lemma {:induction false} OnlyWhatFitsIsNotified(count: nat, steps: seq<Step>, bytes: Measure)
    ensures NoticesFit(Run(Start(count), steps, bytes), bytes)
  {
    hide SystemOk, Fits, SendStep, OneStep, NotifyAll;
    if steps != [] {
      var s := Run(Start(count), Front(steps), bytes);
      var step := Last(steps);
      OnlyWhatFitsIsNotified(count, Front(steps), bytes);
      RunIsOk(count, Front(steps), bytes);
      hide Run, Start;
      if step.Send? && step.p < |s.procs| && s.procs[step.p].pending != [] {
        SendKeepsFit(s, step.p, bytes);
      }
    }
  }

  lemma {:induction false} LogOnlyGrows(s: System, steps: seq<Step>, bytes: Measure)
    ensures s.log <= Run(s, steps, bytes).log
  {
    hide Sends, OneStep, NotifyAll, PublishBy;
    if steps != [] {
      LogOnlyGrows(s, Front(steps), bytes);
    }
  }

  lemma GotFromElsewhere(s: System, bytes: Measure, q: nat, n: nat)
    requires SystemOk(s, bytes) && NoticesFit(s, bytes) && q < |s.procs| && Got(s.procs[q], n)
    ensures n < |s.log| && (s.log[n].origin != q ==> WellTyped(s.log[n].event) && Fits(s.log[n], bytes))
  {
    var d := s.procs[q].delivered;
    var i :| 0 <= i < |d| && d[i].publish == n;
    OrderFacts(s, bytes, q);
    assert Stems(d[i], q, s.log, s.channel, bytes);
    hide SystemOk, ChannelOk, InOrder, DeliveredOk, WellTyped, Fits, Carried;
  }

  // In every run, a publish gets to a bus other than its publisher's only if the event is well typed
  // and the database accepts its encoding.
  lemma OnlyWhatFitsTravels(count: nat, steps: seq<Step>, bytes: Measure, q: nat, n: nat)
    requires q < |Run(Start(count), steps, bytes).procs| && Got(Run(Start(count), steps, bytes).procs[q], n)
    ensures var s := Run(Start(count), steps, bytes);
      n < |s.log| && (s.log[n].origin != q ==> WellTyped(s.log[n].event) && Fits(s.log[n], bytes))
  {
    RunIsOk(count, steps, bytes);
    OnlyWhatFitsIsNotified(count, steps, bytes);
    var s := Run(Start(count), steps, bytes);
    hide Run, Start, SystemOk, NoticesFit, Got, Fits, WellTyped;
    GotFromElsewhere(s, bytes, q, n);
  }

  // ---------------------------------------------------------------------------------------------
  // What stays local
  // ---------------------------------------------------------------------------------------------

  // The connection a publish waits for is gone for good.
  predicate Stranded(q: Process, x: Pending) {
    x.session < q.session || (x.session == q.session && (q.phase == Closed || q.phase == Broken))
  }

  // Publish n has not been notified, and waits for no connection that still is or will be.
  predicate StaysHome(s: System, n: nat) {
    && n < |s.log| && n !in s.channel
    && (forall p, x :: 0 <= p < |s.procs| && x in s.procs[p].pending && x.publish == n ==> Stranded(s.procs[p], x))
  }

  lemma OnePublishStaysHome(s: System, p: nat, e: Event, n: nat)
    requires StaysHome(s, n) && p < |s.procs|
    ensures StaysHome(PublishStep(s, p, e), n)
  {}

  lemma DroppedPending(q: Process, at: nat)
    requires at < |q.pending|
    ensures forall x :: x in Dropped(q, at).pending ==> x in q.pending
  {}

  lemma OneSendStaysHome(s: System, p: nat, bytes: Measure, n: nat)
    requires StaysHome(s, n) && p < |s.procs| && s.procs[p].pending != []
    ensures StaysHome(SendStep(s, p, bytes), n)
  {
    hide Encode;
    var s' := SendStep(s, p, bytes);
    DroppedPending(s.procs[p], 0);
    if Sends(s, p, bytes) {
      var first := s.procs[p].pending[0];
      assert first in s.procs[p].pending;
      assert first.publish != n;
    }
    forall q, x | 0 <= q < |s'.procs| && x in s'.procs[q].pending && x.publish == n
      ensures Stranded(s'.procs[q], x)
    {
      assert s'.procs[q].pending == if q == p then Dropped(s.procs[p], 0).pending else s.procs[q].pending;
      assert s'.procs[q].session == s.procs[q].session && s'.procs[q].phase == s.procs[q].phase;
    }
    hide Sends, Dropped;
  }

  lemma DroppedConnection(q: Process, at: nat)
    requires at < |q.pending|
    ensures Dropped(q, at).session == q.session && Dropped(q, at).phase == q.phase
  {}

  lemma OneStepStranded(q: Process, step: Step, channel: seq<nat>)
    ensures forall x :: x in OneStep(q, step, channel).pending ==>
      x in q.pending && (Stranded(q, x) ==> Stranded(OneStep(q, step, channel), x))
  {
    hide FromDict, Dropped;
    if step.Abandon? && step.at < |q.pending| {
      DroppedPending(q, step.at);
      assert Dropped(q, step.at).session == q.session && Dropped(q, step.at).phase == q.phase by {
        DroppedConnection(q, step.at);
      }
    }
  }

  lemma OneStepStaysHome(s: System, step: Step, bytes: Measure, n: nat)
    requires StaysHome(s, n)
    ensures StaysHome(Next(s, step, bytes), n)
  {
    hide FromDict, SendStep, PublishStep, OneStep;
    if step.Noise? {
      assert forall p :: 0 <= p < |s.procs| ==>
        var q, q' := s.procs[p], Notify(s.procs[p], Garbage);
        q'.pending == q.pending && q'.session == q.session && q'.phase == q.phase;
    } else if step.p < |s.procs| {
      if step.Publish? {
        OnePublishStaysHome(s, step.p, step.event, n);
      } else if step.Send? {
        if s.procs[step.p].pending != [] {
          OneSendStaysHome(s, step.p, bytes, n);
        }
      } else {
        OneStepStranded(s.procs[step.p], step, s.channel);
        hide Stranded;
      }
    }
  }

  lemma {:induction false} AllStaysHome(s: System, steps: seq<Step>, bytes: Measure, n: nat)
    requires StaysHome(s, n)
    ensures StaysHome(Run(s, steps, bytes), n)
  {
    hide StaysHome, Next;
    if steps != [] {
      AllStaysHome(s, Front(steps), bytes, n);
      OneStepStaysHome(Run(s, Front(steps), bytes), Last(steps), bytes, n);
    }
  }

  lemma RunThroughPublish(count: nat, before: seq<Step>, p: nat, e: Event, after: seq<Step>, bytes: Measure)
    requires p < |Run(Start(count), before, bytes).procs|
    ensures Run(Start(count), before + [Publish(p, e)] + after, bytes)
      == Run(PublishStep(Run(Start(count), before, bytes), p, e), after, bytes)
  {
    assert Front(before + [Publish(p, e)]) == before;
    RunAppends(Start(count), before + [Publish(p, e)], after, bytes);
    hide Start, PublishStep;
  }

  lemma PublishedAtHome(s: System, p: nat, e: Event, bytes: Measure)
    requires SystemOk(s, bytes) && p < |s.procs| && !(s.procs[p].attached && s.procs[p].phase == Open)
    ensures StaysHome(PublishStep(s, p, e), |s.log|)
  {
    forall r | 0 <= r < |s.procs|
      ensures forall x :: x in s.procs[r].pending ==> x.publish < |s.log|
    {
      PendingFacts(s, r, bytes);
    }
    Channel(s, bytes);
    hide SystemOk;
  }

  lemma GotAtHome(s: System, bytes: Measure, q: nat, n: nat)
    requires SystemOk(s, bytes) && q < |s.procs| && StaysHome(s, n) && Got(s.procs[q], n)
    ensures s.log[n].origin == q
  {
    var d := s.procs[q].delivered;
    var i :| 0 <= i < |d| && d[i].publish == n;
    OrderFacts(s, bytes, q);
    assert Stems(d[i], q, s.log, s.channel, bytes);
    hide SystemOk, ChannelOk, InOrder, DeliveredOk, WellTyped, Carried;
  }

  // A publish that has not been notified when the connection it waits for is closed, lost or replaced
  // never gets to another process, whatever happens later.
  lemma LostConnectionStaysLocal(count: nat, before: seq<Step>, after: seq<Step>, bytes: Measure, n: nat, q: nat)
    requires StaysHome(Run(Start(count), before, bytes), n)
    requires q < |Run(Start(count), before + after, bytes).procs|
    ensures var end := Run(Start(count), before + after, bytes);
      n < |end.log| && (Got(end.procs[q], n) ==> end.log[n].origin == q)
  {
    RunAppends(Start(count), before, after, bytes);
    AllStaysHome(Run(Start(count), before, bytes), after, bytes, n);
    RunIsOk(count, before + after, bytes);
    var end := Run(Start(count), before + after, bytes);
    hide Run, Start;
    assert n < |end.log|;
    hide StaysHome, SystemOk, Got;
    if Got(end.procs[q], n) {
      GotAtHome(end, bytes, q, n);
    }
  }

  // So does an event published without an attached relay or without an open connection.
  lemma UnconnectedStaysLocal(count: nat, before: seq<Step>, p: nat, e: Event, after: seq<Step>, bytes: Measure, q: nat)
    requires var s := Run(Start(count), before, bytes);
      p < |s.procs| && !(s.procs[p].attached && s.procs[p].phase == Open)
    requires q < |Run(Start(count), before + [Publish(p, e)] + after, bytes).procs|
    ensures var end, n := Run(Start(count), before + [Publish(p, e)] + after, bytes),
                          |Run(Start(count), before, bytes).log|;
      Got(end.procs[q], n) ==> q == p
  {
    var s := Run(Start(count), before, bytes);
    RunIsOk(count, before, bytes);
    PublishedAtHome(s, p, e, bytes);
    assert Front(before + [Publish(p, e)]) == before;
    assert Run(Start(count), before + [Publish(p, e)], bytes) == PublishStep(s, p, e);
    RunAppends(Start(count), before + [Publish(p, e)], after, bytes);
    LogOnlyGrows(PublishStep(s, p, e), after, bytes);
    LostConnectionStaysLocal(count, before + [Publish(p, e)], after, bytes, |s.log|, q);
    hide Run, Start, Got, StaysHome, SystemOk, PublishBy;
  }

  // ---------------------------------------------------------------------------------------------
  // A connection made, used and given up
  // ---------------------------------------------------------------------------------------------

  // At the start nobody is attached, connected or has anything.
  lemma StartIsIdle(n: nat, p: nat)
    requires p < n
    ensures var s := Start(n);
      && |s.procs| == n && s.log == [] && s.channel == []
      && var q := s.procs[p];
      !q.attached && q.phase == Closed && q.pending == [] && q.inbox == [] && q.delivered == []
  {}

  // The relay attaches, listens and is ready: from then on it sends and hears; released it still hears,
  // closed or lost it does not.
  lemma ConnectionLife(q: Process, p: nat, channel: seq<nat>)
    requires q.phase == Closed
    ensures var heard := OneStep(OneStep(q, Attach(p), channel), Listen(p), channel);
      var ready := OneStep(heard, Ready(p), channel);
      && heard.attached && Hears(heard) && !HasConnection(heard) && heard.since == |channel| && heard.session == q.session + 1
      && ready == heard.(phase := Open) && Hears(ready) && HasConnection(ready) && Alive(ready, ready.session)
      && var released := OneStep(ready, Release(p), channel);
         var lost := OneStep(ready, Lose(p), channel);
         && Hears(released) && !HasConnection(released) && Alive(released, ready.session)
         && !Hears(lost) && HasConnection(lost) && !Alive(lost, ready.session)
         && OneStep(released, Close(p), channel).phase == Closed && OneStep(lost, Close(p), channel).phase == Closed
         && !OneStep(ready, Detach(p), channel).attached
  {}

  // ---------------------------------------------------------------------------------------------
  // Exactly once while both stay connected
  // ---------------------------------------------------------------------------------------------

  // An attached process with an open connection publishes an event while another one listens, both
  // stay connected, and in the end the publisher has sent and the other has handled all there is.
  predicate Connected(count: nat, before: seq<Step>, p: nat, e: Event, after: seq<Step>, bytes: Measure, q: nat) {
    var s := Run(Start(count), before, bytes);
    var end := Run(Start(count), before + [Publish(p, e)] + after, bytes);
    && p < |s.procs| && q < |s.procs| && p != q
    && s.procs[p].attached && s.procs[p].phase == Open && Hears(s.procs[q])
    && (forall i :: 0 <= i < |after| ==> Keeps(after[i], p, q))
    && p < |end.procs| && q < |end.procs| && end.procs[p].pending == [] && end.procs[q].inbox == []
  }

  lemma ReachesIfItFits(count: nat, before: seq<Step>, p: nat, e: Event, after: seq<Step>, bytes: Measure, q: nat)
    requires Connected(count, before, p, e, after, bytes, q)
    requires WellTyped(e) && Fits(Published(p, e), bytes)
    ensures var end := Run(Start(count), before + [Publish(p, e)] + after, bytes);
      q < |end.procs| && GotOnce(end.procs[q], |Run(Start(count), before, bytes).log|)
  {
    var steps := before + [Publish(p, e)] + after;
    var s0 := Run(Start(count), before, bytes);
    var s1 := PublishStep(s0, p, e);
    RunThroughPublish(count, before, p, e, after, bytes);
    RunIsOk(count, before, bytes);
    RunIsOk(count, steps, bytes);
    var end := Run(Start(count), steps, bytes);
    hide Run, Start, WellTyped, Encode, PublishStep, SystemOk, GotOnce;
    SinceIsPast(s0, bytes, q);
    PublishIsOnItsWay(s0, p, e, q);
    StaysOnItsWay(s1, |s0.log|, p, q, |s0.channel|, e, after, bytes);
    ArrivedIsDue(end, |s0.log|, p, q, |s0.channel|, e, bytes);
    GotIsOnce(end, bytes, q, |s0.log|);
  }

  lemma FitsIfItReaches(count: nat, before: seq<Step>, p: nat, e: Event, after: seq<Step>, bytes: Measure, q: nat)
    requires Connected(count, before, p, e, after, bytes, q)
    requires var end := Run(Start(count), before + [Publish(p, e)] + after, bytes);
      q < |end.procs| && Got(end.procs[q], |Run(Start(count), before, bytes).log|)
    ensures WellTyped(e) && Fits(Published(p, e), bytes)
  {
    var s1 := PublishStep(Run(Start(count), before, bytes), p, e);
    RunThroughPublish(count, before, p, e, after, bytes);
    LogOnlyGrows(s1, after, bytes);
    OnlyWhatFitsTravels(count, before + [Publish(p, e)] + after, bytes, q, |s1.log| - 1);
    hide Run, Start, WellTyped, Fits, Got, PublishBy;
  }

  // Whole up to 7000 bytes, and otherwise with a marker for its payload in less than 8000.
  predicate CanTravel(e: Event, origin: nat, bytes: Measure) {
    || bytes(BodyOf(e, origin)) <= 7000
    || bytes(BodyOf(e.(payload := "{\"_truncated\": true}"), origin)) < 8000
  }

  lemma FitsIff(e: Event, origin: nat, bytes: Measure)
    ensures Fits(Published(origin, e), bytes) <==> CanTravel(e, origin, bytes)
  {}

  // Whatever else happens, such a publish reaches the other process if and only if the event is well
  // typed and, whole or without its payload, small enough, and then exactly once.
  lemma ExactlyOnceWhileConnected(count: nat, before: seq<Step>, p: nat, e: Event, after: seq<Step>, bytes: Measure,
                                  q: nat)
    requires Connected(count, before, p, e, after, bytes, q)
    ensures var end, n := Run(Start(count), before + [Publish(p, e)] + after, bytes),
                          |Run(Start(count), before, bytes).log|;
      && q < |end.procs|
      && (Got(end.procs[q], n) <==> WellTyped(e) && CanTravel(e, p, bytes))
      && (Got(end.procs[q], n) <==> GotOnce(end.procs[q], n))
  {
    var end, n := Run(Start(count), before + [Publish(p, e)] + after, bytes), |Run(Start(count), before, bytes).log|;
    assert q < |end.procs|;
    if WellTyped(e) && Fits(Published(p, e), bytes) {
      ReachesIfItFits(count, before, p, e, after, bytes, q);
    }
    if Got(end.procs[q], n) {
      FitsIfItReaches(count, before, p, e, after, bytes, q);
    }
    FitsIff(e, p, bytes);
    hide Run, Start, WellTyped, Fits, CanTravel, Connected;
  }

  // What is not whole was too large, and is small without its payload if that marker fits.
  lemma SmallIsWhole(e: Event, origin: nat, bytes: Measure)
    requires bytes(BodyOf(e.(payload := TRUNCATED), origin)) < NOTIFY_LIMIT_BYTES
    ensures CanTravel(e, origin, bytes)
  {}

  // Truncation makes payloads of every size travel: what arrives without its payload arrives with any.
  lemma ArrivesWithAnyPayload(count: nat, before: seq<Step>, p: nat, e: Event, payload: string, after: seq<Step>,
                              bytes: Measure, q: nat)
    requires Connected(count, before, p, e.(payload := payload), after, bytes, q)
    requires WellTyped(e) && bytes(BodyOf(e.(payload := TRUNCATED), p)) < NOTIFY_LIMIT_BYTES
    ensures var end := Run(Start(count), before + [Publish(p, e.(payload := payload))] + after, bytes);
      q < |end.procs| && GotOnce(end.procs[q], |Run(Start(count), before, bytes).log|)
  {
    var sent := e.(payload := payload);
    assert CanTravel(sent, p, bytes) by {
      SmallIsWhole(sent, p, bytes);
    }
    hide Run, Start, Connected, CanTravel, GotOnce, Got;
    ExactlyOnceWhileConnected(count, before, p, sent, after, bytes, q);
  }
}
