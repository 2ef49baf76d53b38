/**
 The in-memory event broker of events/broker.go: a fan-out to a set of subscriber
 channels with bounded buffers.

 Channels are numbered in the order they are made. A channel can be closed once and
 must not be sent to after it is closed; doing either panics.
 */
module Broker {

  datatype Event = Event(kind: string, listId: string)

  type Id = nat

  // subscriberBuffer
  const BUFFER := 16

  datatype Chan = Chan(buffer: seq<Event>, open: bool)

  /** `chans` holds every channel ever made; `subs` are the registered ones. */
  datatype Hub = Hub(subs: set<Id>, closed: bool, chans: map<Id, Chan>, made: nat)

  function Empty(): Hub {
    Hub({}, false, map[], 0)
  }

  /** A non-blocking send to an open channel. */
  function Offer(chan: Chan, e: Event): Chan {
    if |chan.buffer| < BUFFER then chan.(buffer := chan.buffer + [e]) else chan
  }

  // ---------------------------------------------------------------- the mutex-level steps

  function Subscribe(h: Hub): Hub {
    Hub(if h.closed then h.subs else h.subs + {h.made}, h.closed,
        h.chans[h.made := Chan([], !h.closed)], h.made + 1)
  }

  function Drop(h: Hub, id: Id): Hub
    requires id in h.chans
  {
    h.(subs := h.subs - {id}, chans := h.chans[id := h.chans[id].(open := false)])
  }

  ghost predicate Registered(h: Hub) {
    && (forall id :: id in h.subs ==> id in h.chans)
    && (forall id :: id in h.chans ==> (h.chans[id].open <==> id in h.subs) && |h.chans[id].buffer| <= BUFFER)
    && (forall id :: id in h.chans ==> id < h.made)
  }

  // ---------------------------------------------------------------- the fine-grained machine

  /**
   Publish and Close hold the mutex while they go through the subscribers in an
   unspecified order. Receives do not need the mutex, so they can happen anywhere in
   between.
   */
  datatype Busy = Idle | Publishing(e: Event, todo: set<Id>) | Closing(todo: set<Id>)

  /**
   What has been published to a channel since it was registered, what its consumer
   has received, and how many sends found its buffer full.
   */
  datatype Log = Log(published: seq<Event>, received: seq<Event>, dropped: nat)

  datatype Sys = Sys(hub: Hub, busy: Busy, logs: map<Id, Log>)

  datatype Step =
    | SubscribeStep
    | UnsubscribeStep(id: Id)
    | BeginPublish(e: Event)
    | SendOne(id: Id)
    | EndPublish
    | BeginClose
    | CloseOne(id: Id)
    | EndClose
    | Receive(id: Id)

  /** A step waits while the mutex is held by another call, or there is nothing to do. */
  predicate Enabled(s: Sys, step: Step) {
    match step
    case SubscribeStep => s.busy.Idle?
    case UnsubscribeStep(id) => s.busy.Idle? && id in s.hub.chans
    case BeginPublish(_) => s.busy.Idle?
    case SendOne(id) => s.busy.Publishing? && id in s.busy.todo
    case EndPublish => s.busy.Publishing? && s.busy.todo == {}
    case BeginClose => s.busy.Idle?
    case CloseOne(id) => s.busy.Closing? && id in s.busy.todo
    case EndClose => s.busy.Closing? && s.busy.todo == {}
    case Receive(id) => id in s.hub.chans && s.hub.chans[id].buffer != []
  }

  datatype Outcome = Running(sys: Sys) | Panicked

  ghost function LogFor(logs: map<Id, Log>, subs: set<Id>, e: Event): (r: map<Id, Log>)
    ensures r.Keys == logs.Keys
    ensures forall id :: id in logs ==>
      r[id] == if id in subs then logs[id].(published := logs[id].published + [e]) else logs[id]
    decreases |subs|
  {
    if subs == {} then logs
    else
      var id :| id in subs;
      var rest := LogFor(logs, subs - {id}, e);
      if id in logs then rest[id := logs[id].(published := logs[id].published + [e])] else rest
  }

  ghost function Next(s: Sys, step: Step): Outcome {
    if !Enabled(s, step) then Running(s)
    else
      match step
      case SubscribeStep =>
        Running(Sys(Subscribe(s.hub), s.busy, s.logs[s.hub.made := Log([], [], 0)]))
      case UnsubscribeStep(id) =>
        if id !in s.hub.subs then Running(s)
        else if !s.hub.chans[id].open then Panicked
        else Running(s.(hub := Drop(s.hub, id)))
      case BeginPublish(e) =>
        Running(Sys(s.hub, Publishing(e, s.hub.subs), LogFor(s.logs, s.hub.subs, e)))
      case SendOne(id) =>
        if id !in s.hub.chans || id !in s.logs || !s.hub.chans[id].open then Panicked
        else
          var chan := s.hub.chans[id];
          var log := s.logs[id];
          Running(Sys(s.hub.(chans := s.hub.chans[id := Offer(chan, s.busy.e)]),
                      s.busy.(todo := s.busy.todo - {id}),
                      if |chan.buffer| < BUFFER then s.logs
                      else s.logs[id := log.(dropped := log.dropped + 1)]))
      case EndPublish => Running(s.(busy := Idle))
      case BeginClose =>
        Running(s.(hub := s.hub.(closed := true), busy := Closing(s.hub.subs)))
      case CloseOne(id) =>
        if id !in s.hub.chans || !s.hub.chans[id].open then Panicked
        else Running(Sys(Drop(s.hub, id), Closing(s.busy.todo - {id}), s.logs))
      case EndClose => Running(s.(busy := Idle))
      case Receive(id) =>
        if id !in s.logs then Panicked
        else
          var chan := s.hub.chans[id];
          var log := s.logs[id];
          Running(Sys(s.hub.(chans := s.hub.chans[id := chan.(buffer := chan.buffer[1..])]), s.busy,
                      s.logs[id := log.(received := log.received + [chan.buffer[0]])]))
  }

  ghost function Run(s: Sys, steps: seq<Step>): Outcome
    decreases steps
  {
    if steps == [] then Running(s)
    else
      match Next(s, steps[0])
      case Running(s') => Run(s', steps[1..])
      case Panicked => Panicked
  }

  function Start(): Sys {
    Sys(Empty(), Idle, map[])
  }

  // ---------------------------------------------------------------- invariant

  /** a is what is left of b after taking some elements out. */
  predicate Subsequence<T(==)>(a: seq<T>, b: seq<T>)
    decreases b
  {
    if b == [] then a == []
    else
      || Subsequence(a, b[..|b| - 1])
      || (a != [] && a[|a| - 1] == b[|b| - 1] && Subsequence(a[..|a| - 1], b[..|b| - 1]))
  }

  /** A send to the channel is still to come in the Publish under way. */
  predicate Awaiting(s: Sys, id: Id) {
    s.busy.Publishing? && id in s.busy.todo
  }

  /** What has so far been offered to a channel: all published but a send still to come. */
  function Offered(log: Log, awaiting: bool): seq<Event> {
    if awaiting && log.published != [] then log.published[..|log.published| - 1] else log.published
  }

  function Seen(log: Log, chan: Chan): seq<Event> {
    log.received + chan.buffer
  }

  ghost predicate Delivered(log: Log, chan: Chan, awaiting: bool) {
    && Subsequence(Seen(log, chan), Offered(log, awaiting))
    && |Seen(log, chan)| + log.dropped == |Offered(log, awaiting)|
  }

  ghost predicate Announced(log: Log, e: Event) {
    log.published != [] && log.published[|log.published| - 1] == e
  }

  ghost predicate Structured(s: Sys) {
    && Registered(s.hub)
    && s.logs.Keys == s.hub.chans.Keys
    && (s.busy.Publishing? ==> s.busy.todo <= s.hub.subs && forall id :: id in s.busy.todo ==> Announced(s.logs[id], s.busy.e))
    && (s.busy.Closing? ==> s.busy.todo == s.hub.subs && s.hub.closed)
    && (s.hub.closed && !s.busy.Closing? ==> s.hub.subs == {})
  }

  ghost predicate AllDelivered(s: Sys)
    requires s.logs.Keys == s.hub.chans.Keys
  {
    forall id :: id in s.logs ==> Delivered(s.logs[id], s.hub.chans[id], Awaiting(s, id))
  }

  ghost predicate SysInv(s: Sys) {
    Structured(s) && AllDelivered(s)
  }

  lemma {:induction false} SubsequenceLength<T>(a: seq<T>, b: seq<T>)
    requires Subsequence(a, b)
    ensures |a| <= |b|
    ensures |a| == |b| ==> a == b
    decreases b
  {
    if b == [] {
    } else {
      var init := b[..|b| - 1];
      if Subsequence(a, init) {
        SubsequenceLength(a, init);
      } else {
        SubsequenceLength(a[..|a| - 1], init);
        assert |a| == |b| ==> a == a[..|a| - 1] + [a[|a| - 1]] && b == init + [b[|b| - 1]];
      }
    }
  }

  lemma SubsequenceBoth<T>(a: seq<T>, b: seq<T>, x: T)
    requires Subsequence(a, b)
    ensures Subsequence(a + [x], b + [x])
    ensures Subsequence(a, b + [x])
  {
    assert (a + [x])[..|a + [x]| - 1] == a;
    assert (b + [x])[..|b + [x]| - 1] == b;
  }

  lemma SendDelivers(log: Log, chan: Chan, e: Event)
    requires Delivered(log, chan, true) && Announced(log, e)
    ensures Delivered(if |chan.buffer| < BUFFER then log else log.(dropped := log.dropped + 1), Offer(chan, e), false)
  {
    var before := Offered(log, true);
    assert log.published == before + [e];
    SubsequenceBoth(Seen(log, chan), before, e);
    assert Seen(log, chan) + [e] == log.received + (chan.buffer + [e]);
  }

  lemma ReceiveDelivers(log: Log, chan: Chan, awaiting: bool)
    requires Delivered(log, chan, awaiting) && chan.buffer != []
    ensures Delivered(log.(received := log.received + [chan.buffer[0]]), chan.(buffer := chan.buffer[1..]), awaiting)
  {
    assert (log.received + [chan.buffer[0]]) + chan.buffer[1..] == Seen(log, chan);
  }

  lemma TrafficKeepsStructure(s: Sys, step: Step)
    requires Structured(s) && Enabled(s, step) && (step.SendOne? || step.Receive? || step.BeginPublish?)
    ensures Next(s, step).Running? && Structured(Next(s, step).sys)
  {
  }

  lemma NextKeepsStructure(s: Sys, step: Step)
    requires Structured(s)
    ensures Next(s, step).Running? && Structured(Next(s, step).sys)
  {
    if Enabled(s, step) && (step.SendOne? || step.Receive? || step.BeginPublish?) {
      TrafficKeepsStructure(s, step);
    }
  }

  lemma SendNextDelivers(s: Sys, sent: Id, id: Id)
    requires SysInv(s) && Enabled(s, SendOne(sent)) && Next(s, SendOne(sent)).Running? && id in s.logs
    ensures var s' := Next(s, SendOne(sent)).sys;
            id in s'.logs && id in s'.hub.chans && Delivered(s'.logs[id], s'.hub.chans[id], Awaiting(s', id))
  {
    assert Delivered(s.logs[id], s.hub.chans[id], Awaiting(s, id));
    if sent == id {
      SendDelivers(s.logs[id], s.hub.chans[id], s.busy.e);
    }
  }

  lemma ReceiveNextDelivers(s: Sys, from: Id, id: Id)
    requires SysInv(s) && Enabled(s, Receive(from)) && Next(s, Receive(from)).Running? && id in s.logs
    ensures var s' := Next(s, Receive(from)).sys;
            id in s'.logs && id in s'.hub.chans && Delivered(s'.logs[id], s'.hub.chans[id], Awaiting(s', id))
  {
    assert Delivered(s.logs[id], s.hub.chans[id], Awaiting(s, id));
    if from == id {
      ReceiveDelivers(s.logs[id], s.hub.chans[id], Awaiting(s, id));
    }
  }

  /** Steps that only open or close channels, or release the mutex. */
  predicate Silent(step: Step) {
    !step.SendOne? && !step.Receive? && !step.BeginPublish?
  }

  lemma SilentNextDelivers(s: Sys, step: Step, id: Id)
    requires SysInv(s) && Enabled(s, step) && Silent(step) && Next(s, step).Running?
    requires id in Next(s, step).sys.logs && id in Next(s, step).sys.hub.chans
    ensures var s' := Next(s, step).sys; Delivered(s'.logs[id], s'.hub.chans[id], Awaiting(s', id))
  {
    if id in s.logs {
      assert Delivered(s.logs[id], s.hub.chans[id], Awaiting(s, id));
    }
  }

  lemma NextDelivers(s: Sys, step: Step)
    requires SysInv(s) && Next(s, step).Running? && Structured(Next(s, step).sys)
    ensures AllDelivered(Next(s, step).sys)
  {
    if Enabled(s, step) {
      var s' := Next(s, step).sys;
      forall id | id in s'.logs ensures Delivered(s'.logs[id], s'.hub.chans[id], Awaiting(s', id)) {
        match step {
          case SendOne(sent) => SendNextDelivers(s, sent, id);
          case Receive(from) => ReceiveNextDelivers(s, from, id);
          case BeginPublish(_) =>
          case _ => SilentNextDelivers(s, step, id);
        }
      }
    }
  }

  /** Every step keeps the invariant. */
  lemma NextKeeps(s: Sys, step: Step)
    requires SysInv(s)
    ensures Next(s, step).Running? && SysInv(Next(s, step).sys)
  {
    NextKeepsStructure(s, step);
    NextDelivers(s, step);
  }

  lemma {:induction false} RunKeeps(s: Sys, steps: seq<Step>)
    requires SysInv(s)
    ensures Run(s, steps).Running? && SysInv(Run(s, steps).sys)
    decreases steps
  {
    if steps == [] {
    } else {
      NextKeeps(s, steps[0]);
      RunKeeps(Next(s, steps[0]).sys, steps[1..]);
    }
  }

  // ---------------------------------------------------------------- the promises

  /**
   Over every interleaving, nothing panics: no channel is closed twice or sent to
   after closing, and a channel is open exactly while it is registered.
   */
  lemma CloseSafety(steps: seq<Step>)
    ensures Run(Start(), steps).Running?
    ensures var hub := Run(Start(), steps).sys.hub;
            forall id :: id in hub.chans ==> (hub.chans[id].open <==> id in hub.subs)
  {
    RunKeeps(Start(), steps);
  }

  /**
   Over every interleaving, what a subscriber has received and what is buffered for
   it is an in-order subsequence of what was published while it was registered, and
   all of it exactly when no send found the buffer full.
   */
  lemma Delivery(steps: seq<Step>, id: Id)
    requires Run(Start(), steps).Running? && id in Run(Start(), steps).sys.hub.chans
    ensures var s := Run(Start(), steps).sys;
            && id in s.logs
            && var seen, offered := Seen(s.logs[id], s.hub.chans[id]), Offered(s.logs[id], Awaiting(s, id));
            && Subsequence(seen, offered)
            && (seen == offered <==> s.logs[id].dropped == 0)
            && |seen| + s.logs[id].dropped == |offered|
            && (s.busy.Idle? ==> offered == s.logs[id].published)
  {
    RunKeeps(Start(), steps);
    var s := Run(Start(), steps).sys;
    assert Delivered(s.logs[id], s.hub.chans[id], Awaiting(s, id));
    SubsequenceLength(Seen(s.logs[id], s.hub.chans[id]), Offered(s.logs[id], Awaiting(s, id)));
  }

  /** Once Close has begun, the broker stays closed and no new subscriber ever registers. */
  lemma {:induction false} ClosedForever(s: Sys, steps: seq<Step>)
    requires SysInv(s) && s.hub.closed
    ensures Run(s, steps).Running?
    ensures var s' := Run(s, steps).sys;
            s'.hub.closed && s'.hub.subs <= s.hub.subs && (!s'.busy.Closing? ==> s'.hub.subs == {})
    decreases steps
  {
    if steps == [] {
    } else {
      NextKeeps(s, steps[0]);
      ClosedForever(Next(s, steps[0]).sys, steps[1..]);
    }
  }

  // ---------------------------------------------------------------- the class

  /** All of Publish in one go. */
  ghost predicate PublishedTo(before: map<Id, Chan>, after: map<Id, Chan>, subs: set<Id>, e: Event) {
    && after.Keys == before.Keys
    && forall id :: id in before ==> after[id] == if id in subs then Offer(before[id], e) else before[id]
  }

  ghost predicate ClosedAll(before: map<Id, Chan>, after: map<Id, Chan>, subs: set<Id>) {
    && after.Keys == before.Keys
    && forall id :: id in before ==> after[id] == if id in subs then before[id].(open := false) else before[id]
  }

  class EventBroker {
    var subs: set<Id>
    var closed: bool
    var chans: map<Id, Chan>
    var made: nat

    function Snapshot(): Hub
      reads this
    {
      Hub(subs, closed, chans, made)
    }

    ghost predicate Valid()
      reads this
    {
      Registered(Snapshot()) && (closed ==> subs == {})
    }

    constructor ()
      ensures Valid() && Snapshot() == Empty()
    {
      subs, closed, chans, made := {}, false, map[], 0;
    }

    /** Closing a channel that is not open panics. */
    method CloseChan(id: Id)
      requires id in chans && chans[id].open
      modifies `chans
      ensures chans == old(chans)[id := old(chans)[id].(open := false)]
    {
      chans := chans[id := chans[id].(open := false)];
    }

    /** Sending to a closed channel panics; sending to a full one drops the event. */
    method TrySend(id: Id, e: Event)
      requires id in chans && chans[id].open
      modifies `chans
      ensures chans == old(chans)[id := Offer(old(chans)[id], e)]
    {
      if |chans[id].buffer| < BUFFER {
        chans := chans[id := Chan(chans[id].buffer + [e], true)];
      } else {
        assert chans[id := chans[id]] == chans;
      }
    }

    method SubscribeChan() returns (id: Id)
      requires Valid()
      modifies this
      ensures Valid() && Snapshot() == Subscribe(old(Snapshot())) && id == old(made)
      ensures id !in old(chans) && id in chans && chans[id] == Chan([], !closed) && closed == old(closed)
      ensures subs == if closed then old(subs) else old(subs) + {id}
      ensures forall other :: other in old(chans) ==> other in chans && chans[other] == old(chans)[other]
    {
      id := made;
      chans, made := chans[id := Chan([], true)], made + 1;
      if closed {
        CloseChan(id);
        return;
      }
      subs := subs + {id};
    }

    method Unsubscribe(id: Id)
      requires Valid()
      modifies this
      ensures Valid()
      ensures Snapshot() == if id in old(subs) then Drop(old(Snapshot()), id) else old(Snapshot())
      ensures subs == old(subs) - {id} && closed == old(closed)
      ensures chans == if id in old(subs) then old(chans)[id := Chan(old(chans)[id].buffer, false)] else old(chans)
    {
      if id in subs {
        subs := subs - {id};
        CloseChan(id);
      }
    }

    method Close()
      requires Valid()
      modifies this
      ensures Valid() && closed && subs == {} && made == old(made)
      ensures ClosedAll(old(chans), chans, old(subs))
      ensures chans.Keys == old(chans).Keys
      ensures forall id :: id in chans ==> chans[id] == Chan(old(chans)[id].buffer, false)
    {
      closed := true;
      var todo := subs;
      while todo != {}
        invariant todo == subs <= old(subs) && closed && made == old(made)
        invariant Registered(Snapshot())
        invariant ClosedAll(old(chans), chans, old(subs) - subs)
      {
        var id :| id in todo;
        todo := todo - {id};
        subs := subs - {id};
        CloseChan(id);
      }
    }

    method Publish(e: Event)
      requires Valid()
      modifies `chans
      ensures Valid() && PublishedTo(old(chans), chans, subs, e)
      ensures chans.Keys == old(chans).Keys
      ensures forall id :: id in subs ==>
                var was := old(chans)[id].buffer; chans[id] == Chan(if |was| < 16 then was + [e] else was, true)
      ensures forall id :: id in chans && id !in subs ==> chans[id] == old(chans)[id]
    {
      var todo := subs;
      while todo != {}
        invariant todo <= subs
        invariant Registered(Snapshot())
        invariant PublishedTo(old(chans), chans, subs - todo, e)
      {
        var id :| id in todo;
        todo := todo - {id};
        TrySend(id, e);
      }
    }

    method Count() returns (n: nat)
      ensures n == |subs|
    {
      n := |subs|;
    }
  }

  // ---------------------------------------------------------------- refinement

  function Sends(order: seq<Id>): seq<Step> {
    seq(|order|, i requires 0 <= i < |order| => SendOne(order[i]))
  }

  function Ids(order: seq<Id>): set<Id> {
    set id | id in order
  }

  predicate Distinct(order: seq<Id>) {
    forall i, j :: 0 <= i < j < |order| ==> order[i] != order[j]
  }

  /**
   Whatever order the map iteration takes, a Publish that is not interrupted by
   receives has the effect the class promises for it.
   */
  lemma {:induction false} SendsPublish(s: Sys, order: seq<Id>)
    requires Structured(s) && s.busy.Publishing?
    requires s.busy.todo == Ids(order) && Distinct(order)
    ensures var r := Run(s, Sends(order));
            && r.Running? && r.sys.busy == Publishing(s.busy.e, {})
            && PublishedTo(s.hub.chans, r.sys.hub.chans, s.busy.todo, s.busy.e)
            && r.sys.hub.subs == s.hub.subs && r.sys.hub.closed == s.hub.closed
    decreases order
  {
    if order == [] {
      assert s.busy.todo == {};
    } else {
      var s' := Next(s, SendOne(order[0])).sys;
      NextKeepsStructure(s, SendOne(order[0]));
      assert Sends(order)[0] == SendOne(order[0]) && Sends(order)[1..] == Sends(order[1..]);
      SendsPublish(s', order[1..]);
    }
  }

  /** The mutex-level steps of a run without the mutex held: the class's methods. */
  lemma SubscribeAndUnsubscribe(s: Sys, id: Id)
    requires Structured(s) && s.busy.Idle? && id in s.hub.chans
    ensures Next(s, SubscribeStep).Running? && Next(s, UnsubscribeStep(id)).Running?
    ensures Next(s, SubscribeStep).sys.hub == Subscribe(s.hub) && Next(s, SubscribeStep).sys.busy.Idle?
    ensures Next(s, UnsubscribeStep(id)).sys.hub == if id in s.hub.subs then Drop(s.hub, id) else s.hub
    ensures Next(s, UnsubscribeStep(id)).sys.busy.Idle?
  {
  }

  /**
   A subscriber gets a new, empty channel. It is open and registered exactly unless the
   broker is closed, and everybody else's subscription is as it was.
   */
  lemma SubscriberIsRegistered(s: Sys)
    requires SysInv(s) && s.busy.Idle?
    ensures Next(s, SubscribeStep).Running?
    ensures var s', id := Next(s, SubscribeStep).sys, s.hub.made;
            && id !in s.hub.chans && id in s'.hub.chans && s'.hub.chans[id] == Chan([], !s.hub.closed)
            && s'.hub.subs == (if s.hub.closed then s.hub.subs else s.hub.subs + {id})
            && s'.hub.closed == s.hub.closed && s'.busy.Idle? && s'.logs[id] == Log([], [], 0)
            && forall other :: other in s.hub.chans ==>
                 other in s'.hub.chans && s'.hub.chans[other] == s.hub.chans[other] && s'.logs[other] == s.logs[other]
  {
  }

  /** Unsubscribing closes the one channel, with what it still holds to be received, and leaves the others alone. */
  lemma UnsubscriberIsDropped(s: Sys, id: Id)
    requires SysInv(s) && s.busy.Idle? && id in s.hub.chans
    ensures Next(s, UnsubscribeStep(id)).Running?
    ensures var s' := Next(s, UnsubscribeStep(id)).sys;
            && s'.hub.subs == s.hub.subs - {id} && s'.hub.chans.Keys == s.hub.chans.Keys
            && s'.hub.chans[id] == Chan(s.hub.chans[id].buffer, false)
            && s'.hub.closed == s.hub.closed && s'.logs == s.logs && s'.busy.Idle?
            && forall other :: other in s.hub.chans && other != id ==> s'.hub.chans[other] == s.hub.chans[other]
  {
  }

  /** The steps of one Publish, with the mutex free before and after. */
  function PublishSteps(e: Event, order: seq<Id>): seq<Step> {
    [BeginPublish(e)] + (Sends(order) + [EndPublish])
  }

  lemma PublishRuns(s: Sys, e: Event, order: seq<Id>)
    requires Structured(s) && s.busy.Idle? && s.hub.subs == Ids(order) && Distinct(order)
    ensures var r := Run(s, PublishSteps(e, order));
            && r.Running? && r.sys.busy.Idle? && r.sys.hub.subs == s.hub.subs && r.sys.hub.closed == s.hub.closed
            && PublishedTo(s.hub.chans, r.sys.hub.chans, s.hub.subs, e)
  {
    var begun := Next(s, BeginPublish(e)).sys;
    NextKeepsStructure(s, BeginPublish(e));
    SendsPublish(begun, order);
    var sent := Run(begun, Sends(order)).sys;
    RunConcat(begun, Sends(order), [EndPublish]);
    var steps := PublishSteps(e, order);
    assert steps[0] == BeginPublish(e) && steps[1..] == Sends(order) + [EndPublish];
    assert [EndPublish][1..] == [];
    var ended := Next(sent, EndPublish).sys;
    assert Run(ended, []) == Running(ended);
    assert Run(sent, [EndPublish]) == Running(ended);
  }

  /**
   Whatever order the map iteration takes, a Publish reaches every subscriber: the event
   is the last in its channel if that had room for it, and is dropped if it was full.
   */
  lemma PublishReaches(s: Sys, e: Event, order: seq<Id>)
    requires SysInv(s) && s.busy.Idle? && s.hub.subs == Ids(order) && Distinct(order)
    ensures var r := Run(s, PublishSteps(e, order));
            && r.Running? && r.sys.busy.Idle? && r.sys.hub.subs == s.hub.subs && r.sys.hub.closed == s.hub.closed
            && r.sys.hub.chans.Keys == s.hub.chans.Keys
            && (forall id :: id in s.hub.subs ==>
                  var was := s.hub.chans[id].buffer;
                  r.sys.hub.chans[id] == Chan(if |was| < 16 then was + [e] else was, true))
            && (forall id :: id in s.hub.chans && id !in s.hub.subs ==> r.sys.hub.chans[id] == s.hub.chans[id])
  {
    PublishRuns(s, e, order);
  }

  /** So the first event published after somebody has subscribed is the one in the new channel. */
  lemma NewSubscriberIsReached(s: Sys, e: Event, order: seq<Id>)
    requires SysInv(s) && s.busy.Idle? && !s.hub.closed
    requires Next(s, SubscribeStep).Running? && Next(s, SubscribeStep).sys.hub.subs == Ids(order) && Distinct(order)
    ensures var r := Run(Next(s, SubscribeStep).sys, PublishSteps(e, order));
            r.Running? && s.hub.made in r.sys.hub.chans && r.sys.hub.chans[s.hub.made].buffer == [e]
  {
    SubscriberIsRegistered(s);
    NextKeeps(s, SubscribeStep);
    PublishReaches(Next(s, SubscribeStep).sys, e, order);
  }

  function Closes(order: seq<Id>): seq<Step> {
    seq(|order|, i requires 0 <= i < |order| => CloseOne(order[i]))
  }

  lemma {:induction false} ClosingAll(s: Sys, order: seq<Id>)
    requires Structured(s) && s.busy.Closing? && s.busy.todo == Ids(order) && Distinct(order)
    ensures var r := Run(s, Closes(order));
            && r.Running? && r.sys.busy == Closing({}) && Structured(r.sys)
            && ClosedAll(s.hub.chans, r.sys.hub.chans, s.hub.subs)
            && r.sys.hub.subs == {} && r.sys.hub.closed && r.sys.hub.made == s.hub.made
    decreases order
  {
    if order == [] {
      assert s.busy.todo == {};
    } else {
      var s' := Next(s, CloseOne(order[0])).sys;
      NextKeepsStructure(s, CloseOne(order[0]));
      assert Closes(order)[0] == CloseOne(order[0]) && Closes(order)[1..] == Closes(order[1..]);
      ClosingAll(s', order[1..]);
    }
  }

  lemma {:induction false} RunConcat(s: Sys, steps: seq<Step>, more: seq<Step>)
    requires Run(s, steps).Running?
    ensures Run(s, steps + more) == Run(Run(s, steps).sys, more)
    decreases steps
  {
    if steps == [] {
      assert [] + more == more;
    } else {
      assert (steps + more)[0] == steps[0] && (steps + more)[1..] == steps[1..] + more;
      RunConcat(Next(s, steps[0]).sys, steps[1..], more);
    }
  }

  /**
   Whatever order the map iteration takes, a Close that is not interrupted by receives
   has the effect the class promises for it, and releases the mutex.
   */
  lemma ClosesClose(s: Sys, order: seq<Id>)
    requires Structured(s) && s.busy.Idle? && s.hub.subs == Ids(order) && Distinct(order)
    ensures var r := Run(s, [BeginClose] + (Closes(order) + [EndClose]));
            && r.Running? && r.sys.busy.Idle?
            && ClosedAll(s.hub.chans, r.sys.hub.chans, s.hub.subs)
            && r.sys.hub.subs == {} && r.sys.hub.closed && r.sys.hub.made == s.hub.made
  {
    var begun := Next(s, BeginClose).sys;
    NextKeepsStructure(s, BeginClose);
    ClosingAll(begun, order);
    var swept := Run(begun, Closes(order)).sys;
    RunConcat(begun, Closes(order), [EndClose]);
    var steps := [BeginClose] + (Closes(order) + [EndClose]);
    assert steps[0] == BeginClose && steps[1..] == Closes(order) + [EndClose];
    assert [EndClose][1..] == [];
    var ended := Next(swept, EndClose).sys;
    assert Run(ended, []) == Running(ended);
    assert Run(swept, [EndClose]) == Running(ended);
  }
}
