/** The newer session registry (connectionmanager/connectionmanager.go).

    Its goroutine takes one `Message` at a time from its request channel and
    runs the handler for the message's type to completion. Here that loop is
    the pure function `Step`: it maps the registry state and one request to
    the new state, the reply sent on the request's reply channel, the sends
    and closes performed on poll channels (`Event`s, see Mailbox) and whether
    the loop goes on. `Run` folds `Step` over a sequence of requests. */
module ConnectionManager {
  import opened Base
  import opened Mailbox

  // Message type identifiers (the source's `MessageType` values).
  const StopRequest: int := 0
  const StopResponse: int := 1
  const ConnectRequest: int := 2
  const ConnectResponse: int := 3
  const BroadcastRequest: int := 4
  const BroadcastResponse: int := 5
  const PollRequest: int := 6
  const PollResponse: int := 7
  const Broadcast: int := 8

  /** `MessagePayload`: string-keyed data the registry passes on untouched. */
  type Payload = map<string, string>

  /** A request to the registry, and (re-typed as `Broadcast`) the message a
      broadcast queues for every connection. */
  datatype Message = Message(kind: int, id: string, destId: string, payload: Payload)

  /** The reply sent back on a request's reply channel. */
  datatype Reply = Reply(kind: int, id: string, pollChan: Option<Chan>, err: Option<string>)

  /** `Connection`: a connection id and its long-poll state. */
  datatype Connection = Connection(id: string, inbox: Inbox<Message>)

  /** The registry state: the connection table, and the number the next
      `make(chan ...)` will be given. */
  datatype Manager = Manager(connection: map<string, Connection>, nextChan: Chan)

  /** Whether the registry loop goes on after a request. `Panicked` is the
      `panic` on an unrecognised message type. */
  datatype Status = Running | Stopped | Panicked(kind: int)

  datatype Outcome = Outcome(manager: Manager, reply: Option<Reply>, events: seq<Event<Message>>, status: Status)

  /** `New`: an empty connection table. */
  function New(): (cm: Manager)
    ensures cm.connection == map[]
    ensures Inv(cm)
  {
    Manager(map[], 0)
  }

  /** `newConnection`: not polling, no channel, nothing queued. */
  function NewConnection(id: string): (c: Connection)
    ensures c.id == id && c.inbox.messages == [] && !c.inbox.polling && c.inbox.pollChannel == None
  {
    Connection(id, Fresh())
  }

  /** Session `k` of `cm` is stored under its own id, is well formed and
      quiescent, and its channel (if any) was made before `cm.nextChan`. */
  predicate SessionOk(cm: Manager, k: string)
    requires k in cm.connection
  {
    var c := cm.connection[k];
    && c.id == k
    && WellFormed(c.inbox)
    && Quiescent(c.inbox)
    && (c.inbox.pollChannel.Some? ==> c.inbox.pollChannel.value < cm.nextChan)
  }

  /** The invariant every handler re-establishes. */
  predicate Inv(cm: Manager) {
    forall k :: k in cm.connection ==> SessionOk(cm, k)
  }

  /** The queue of session `k`, empty for an unknown one. */
  function QueueOf(cm: Manager, k: string): seq<Message> {
    if k in cm.connection then cm.connection[k].inbox.messages else []
  }

  /** `handleConnectRequest`: create the connection unless it already exists;
      the reply never carries an error. */
  function HandleConnect(cm: Manager, id: string): (o: Outcome)
    requires Inv(cm)
    ensures Inv(o.manager)
    ensures o.manager.connection.Keys == cm.connection.Keys + {id}
    // an existing connection keeps its queue and polling state: nothing changes
    ensures id in cm.connection ==> o.manager == cm
    // a new one starts with an empty queue, not polling
    ensures id !in cm.connection ==> o.manager.connection[id] == NewConnection(id)
    ensures forall k :: k in cm.connection ==> o.manager.connection[k] == cm.connection[k]
    ensures o.reply == Some(Reply(ConnectResponse, id, None, None))
    ensures o.events == [] && o.status == Running
  {
    var c := if id in cm.connection then cm.connection[id] else NewConnection(id);
    var cm' := cm.(connection := cm.connection[id := c]);
    assert cm'.connection == cm.connection ==> cm' == cm;
    Outcome(cm', Some(Reply(ConnectResponse, id, None, None)), [], Running)
  }

  /** `handlePollRequest`: reject an unknown id; otherwise pre-empt an
      outstanding poll, hand out a new channel and flush what is queued. */
  function HandlePoll(cm: Manager, id: string): (o: Outcome)
    requires Inv(cm)
    ensures Inv(o.manager)
    ensures o.status == Running && o.reply.Some? && o.reply.value.kind == PollResponse
    ensures o.manager.connection.Keys == cm.connection.Keys
    ensures forall k :: k in cm.connection && k != id ==> o.manager.connection[k] == cm.connection[k]
    // an unknown id is answered with an error and changes nothing
    ensures id !in cm.connection <==> o.reply.value.err.Some?
    ensures id !in cm.connection ==> o.manager == cm && o.events == [] && o.reply.value.pollChan == None
    // a known one is handed a channel never handed out before
    ensures id in cm.connection ==>
      && o.reply.value.pollChan == Some(cm.nextChan)
      && o.manager.connection[id].inbox.pollChannel == Some(cm.nextChan)
      && o.manager.connection[id].id == id
    // an outstanding poll is closed first
    ensures id in cm.connection && cm.connection[id].inbox.polling ==>
      |o.events| >= 1 && o.events[0] == Preempt(id, cm.connection[id].inbox.pollChannel.value)
    ensures id in cm.connection && !cm.connection[id].inbox.polling ==> NoPreempt(o.events)
    // queued messages are flushed at once on the new channel
    ensures id in cm.connection && |cm.connection[id].inbox.messages| > 0 ==>
      && Deliver(id, cm.nextChan, cm.connection[id].inbox.messages) in o.events
      && !o.manager.connection[id].inbox.polling
      && o.manager.connection[id].inbox.messages == []
    // otherwise the connection is left waiting
    ensures id in cm.connection && |cm.connection[id].inbox.messages| == 0 ==>
      o.manager.connection[id].inbox.polling && o.manager.connection[id].inbox.messages == []
    ensures id in cm.connection ==> QueueOf(cm, id) == Delivered(o.events, id) + QueueOf(o.manager, id)
    ensures forall i :: 0 <= i < |o.events| ==> o.events[i].to == id
  {
    if id !in cm.connection then
      Outcome(cm, Some(Reply(PollResponse, "", None, Some("PollRequest: unknown user id: " + id))), [], Running)
    else
      var c := cm.connection[id];
      var ch := cm.nextChan;
      var (b, evs) := HandOff(id, c.inbox, ch);
      var cm' := Manager(cm.connection[id := c.(inbox := b)], ch + 1);
      assert forall k :: k in cm'.connection ==> SessionOk(cm', k) by {
        forall k | k in cm'.connection ensures SessionOk(cm', k) {
          if k != id {
            assert SessionOk(cm, k);
          }
        }
      }
      Outcome(cm', Some(Reply(PollResponse, "", Some(ch), None)), evs, Running)
  }

  /** `broadcast`: in the visiting order `order`, append `m` to the queue of
      each connection and run `pollCheck` on it. `FanoutAt` states what
      this does to each connection. */
  function Fanout(conns: map<string, Connection>, order: seq<string>, m: Message): (r: (map<string, Connection>, seq<Event<Message>>))
    requires Distinct(order)
    requires forall k :: k in order ==> k in conns && WellFormed(conns[k].inbox)
    ensures r.0.Keys == conns.Keys
    ensures NoPreempt(r.1)
    ensures forall i :: 0 <= i < |r.1| ==> r.1[i].to in order
    decreases |order|
  {
    if order == [] then (conns, [])
    else
      var k := order[0];
      assert k in order;
      DistinctTail(order);
      assert WellFormed(conns[k].inbox);
      var pushed := Push(conns[k].inbox, m);
      assert pushed.polling == conns[k].inbox.polling;
      var (b, evs) := PollCheck(k, pushed);
      var rest := Fanout(conns[k := conns[k].(inbox := b)], order[1..], m);
      assert forall j :: 0 <= j < |order[1..]| ==> order[1..][j] == order[j + 1];
      (rest.0, evs + rest.1)
  }

  /** What a broadcast does to one connection `k`. If the broadcast does
      not visit it, nothing. Otherwise `k` gets exactly one copy of `m`
      behind its queue: a poller is sent its whole queue and `m` at once and
      stops polling, any other connection keeps `m` queued. */
  lemma {:induction false} FanoutAt(conns: map<string, Connection>, order: seq<string>, m: Message, k: string)
    requires Distinct(order)
    requires forall k :: k in order ==> k in conns && WellFormed(conns[k].inbox)
    requires k in conns
    ensures var r := Fanout(conns, order, m);
      && (k !in order ==> r.0[k] == conns[k] && Delivered(r.1, k) == [])
      && (k in order ==>
            && r.0[k].id == conns[k].id
            && r.0[k].inbox.pollChannel == conns[k].inbox.pollChannel
            && !r.0[k].inbox.polling
            && conns[k].inbox.messages + [m] == Delivered(r.1, k) + r.0[k].inbox.messages
            && (conns[k].inbox.polling ==> r.0[k].inbox.messages == [])
            && (!conns[k].inbox.polling ==> Delivered(r.1, k) == []))
    decreases |order|
  {
    if order != [] {
      FanoutHead(conns, order, m);
      var h := order[0];
      var p := PollCheck(h, Push(conns[h].inbox, m));
      var conns' := conns[h := conns[h].(inbox := p.0)];
      var rest := Fanout(conns', order[1..], m);
      DeliveredAppend(p.1, rest.1, k);
      FanoutAt(conns', order[1..], m, k);
      if k != h {
        UntouchedDeliversNothing(p.1, k);
        assert k in order <==> k in order[1..];
      }
    }
  }

  /** The first step of `Fanout`: visit the head of the order, then the rest. */
  lemma FanoutHead(conns: map<string, Connection>, order: seq<string>, m: Message)
    requires Distinct(order)
    requires forall k :: k in order ==> k in conns && WellFormed(conns[k].inbox)
    requires order != []
    ensures order[0] in conns && WellFormed(Push(conns[order[0]].inbox, m))
    ensures var h := order[0];
      var p := PollCheck(h, Push(conns[h].inbox, m));
      var conns' := conns[h := conns[h].(inbox := p.0)];
      && Distinct(order[1..]) && h !in order[1..]
      && (forall k :: k in order[1..] ==> k in conns' && WellFormed(conns'[k].inbox))
      && Fanout(conns, order, m) == (Fanout(conns', order[1..], m).0, p.1 + Fanout(conns', order[1..], m).1)
  {
    assert order[0] in order;
    DistinctTail(order);
    assert forall j :: 0 <= j < |order[1..]| ==> order[1..][j] == order[j + 1];
  }

  /** The message a broadcast request queues: the request re-typed as `Broadcast`. */
  function AsBroadcast(m: Message): (b: Message)
    ensures b.kind == Broadcast && b.id == m.id && b.destId == m.destId && b.payload == m.payload
  {
    m.(kind := Broadcast)
  }

  /** `handleBroadcastRequest`: fan the message out to every connection, the
      sender's included, then reply. */
  function HandleBroadcast(cm: Manager, m: Message, order: seq<string>): (o: Outcome)
    requires Inv(cm)
    requires Enumerates(order, cm.connection.Keys)
    ensures Inv(o.manager)
    ensures o.manager.connection.Keys == cm.connection.Keys
    ensures o.manager.nextChan == cm.nextChan
    ensures forall k :: k in cm.connection ==>
      QueueOf(cm, k) + [AsBroadcast(m)] == Delivered(o.events, k) + QueueOf(o.manager, k)
    ensures NoPreempt(o.events)
    ensures o.reply == Some(Reply(BroadcastResponse, "", None, None)) && o.status == Running
  {
    var (conns, evs) := Fanout(cm.connection, order, AsBroadcast(m));
    var cm' := cm.(connection := conns);
    assert forall k :: k in conns ==>
        (SessionOk(cm', k) && QueueOf(cm, k) + [AsBroadcast(m)] == Delivered(evs, k) + QueueOf(cm', k)) by {
      forall k | k in conns
        ensures SessionOk(cm', k) && QueueOf(cm, k) + [AsBroadcast(m)] == Delivered(evs, k) + QueueOf(cm', k)
      {
        assert SessionOk(cm, k);
        FanoutAt(cm.connection, order, AsBroadcast(m), k);
      }
    }
    Outcome(cm', Some(Reply(BroadcastResponse, "", None, None)), evs, Running)
  }

  /** The broadcast order must be supplied exactly when a broadcast needs it. */
  predicate Admissible(cm: Manager, m: Message, order: seq<string>) {
    m.kind == BroadcastRequest ==> Enumerates(order, cm.connection.Keys)
  }

  /** The messages request `m` queues for session `k`. */
  function Enqueued(cm: Manager, m: Message, k: string): seq<Message> {
    if m.kind == BroadcastRequest && k in cm.connection then [AsBroadcast(m)] else []
  }

  /** One turn of `runConnectionManager`: dispatch on the message type. */
  function Step(cm: Manager, m: Message, order: seq<string>): (o: Outcome)
    requires Inv(cm)
    requires Admissible(cm, m, order)
    ensures Inv(o.manager)
    // sessions are never removed
    ensures cm.connection.Keys <= o.manager.connection.Keys
    // stop replies and ends the loop; an unknown type panics without a reply
    ensures o.status == Stopped <==> m.kind == StopRequest
    ensures o.status == Panicked(m.kind) <==>
      m.kind !in {StopRequest, ConnectRequest, PollRequest, BroadcastRequest}
    ensures o.reply.None? <==> o.status.Panicked?
    ensures o.status != Running ==> o.manager == cm && o.events == []
  {
    if m.kind == ConnectRequest then HandleConnect(cm, m.id)
    else if m.kind == StopRequest then Outcome(cm, Some(Reply(StopResponse, "", None, None)), [], Stopped)
    else if m.kind == PollRequest then HandlePoll(cm, m.id)
    else if m.kind == BroadcastRequest then HandleBroadcast(cm, m, order)
    else Outcome(cm, None, [], Panicked(m.kind))
  }

  /** Per session, one step loses and reorders nothing: what was queued, then
      what the step queued, is what it delivered, then what stays queued. */
  lemma StepConserves(cm: Manager, m: Message, order: seq<string>, k: string)
    requires Inv(cm)
    requires Admissible(cm, m, order)
    ensures var o := Step(cm, m, order);
      QueueOf(cm, k) + Enqueued(cm, m, k) == Delivered(o.events, k) + QueueOf(o.manager, k)
  {
    if m.kind == PollRequest {
      PollStepConserves(cm, m, order, k);
    } else if m.kind == BroadcastRequest {
      BroadcastStepConserves(cm, m, order, k);
    } else {
      QuietStepConserves(cm, m, order, k);
    }
  }

  /** A poll flushes only the poller's queue. */
  lemma PollStepConserves(cm: Manager, m: Message, order: seq<string>, k: string)
    requires Inv(cm) && Admissible(cm, m, order) && m.kind == PollRequest
    ensures var o := Step(cm, m, order);
      QueueOf(cm, k) + Enqueued(cm, m, k) == Delivered(o.events, k) + QueueOf(o.manager, k)
  {
    var o := HandlePoll(cm, m.id);
    assert Step(cm, m, order) == o;
    assert Enqueued(cm, m, k) == [];
    if m.id != k {
      UntouchedDeliversNothing(o.events, k);
    }
  }

  /** A broadcast queues one copy for every session and none elsewhere. */
  lemma BroadcastStepConserves(cm: Manager, m: Message, order: seq<string>, k: string)
    requires Inv(cm) && Admissible(cm, m, order) && m.kind == BroadcastRequest
    ensures var o := Step(cm, m, order);
      QueueOf(cm, k) + Enqueued(cm, m, k) == Delivered(o.events, k) + QueueOf(o.manager, k)
  {
    var o := HandleBroadcast(cm, m, order);
    assert Step(cm, m, order) == o;
    if k !in cm.connection {
      assert forall i :: 0 <= i < |o.events| ==> o.events[i].to in order;
      UntouchedDeliversNothing(o.events, k);
    }
  }

  /** Connect, stop and unknown requests queue and deliver nothing. */
  lemma QuietStepConserves(cm: Manager, m: Message, order: seq<string>, k: string)
    requires Inv(cm) && Admissible(cm, m, order)
    requires m.kind != PollRequest && m.kind != BroadcastRequest
    ensures var o := Step(cm, m, order);
      QueueOf(cm, k) + Enqueued(cm, m, k) == Delivered(o.events, k) + QueueOf(o.manager, k)
  {
    assert Enqueued(cm, m, k) == [];
    if m.kind == ConnectRequest {
      assert Step(cm, m, order) == HandleConnect(cm, m.id);
    }
  }

  /** Polling twice without a flush in between: the second poll closes the
      channel the first one handed out, and hands out a different one. */
  lemma SecondPollPreemptsFirst(cm: Manager, id: string)
    requires Inv(cm)
    requires id in cm.connection && cm.connection[id].inbox.messages == []
    ensures var first := Step(cm, Message(PollRequest, id, "", map[]), []);
      var second := Step(first.manager, Message(PollRequest, id, "", map[]), []);
      && first.reply.value.pollChan.Some?
      && second.reply.value.pollChan.Some?
      && second.reply.value.pollChan != first.reply.value.pollChan
      && second.events[0] == Preempt(id, first.reply.value.pollChan.value)
  {
  }

  /** A second connect with the same id changes nothing. */
  lemma ConnectIdempotent(cm: Manager, id: string)
    requires Inv(cm)
    ensures var once := Step(cm, Message(ConnectRequest, id, "", map[]), []);
      Step(once.manager, Message(ConnectRequest, id, "", map[]), []).manager == once.manager
  {
  }

  /** One request of a run, with the order its broadcast (if any) visits the
      connection table in. */
  datatype Turn = Turn(request: Message, order: seq<string>)

  /** Every turn of `turns`, run from `cm`, is admissible where it is taken. */
  predicate Schedulable(cm: Manager, turns: seq<Turn>)
    decreases |turns|
  {
    && Inv(cm)
    && (turns != [] ==>
          && Admissible(cm, turns[0].request, turns[0].order)
          && var o := Step(cm, turns[0].request, turns[0].order);
             o.status == Running ==> Schedulable(o.manager, turns[1..]))
  }

  datatype Trace = Trace(final: Manager, events: seq<Event<Message>>)

  /** The registry loop over `turns`, up to a stop or a panic. */
  function Run(cm: Manager, turns: seq<Turn>): (t: Trace)
    requires Schedulable(cm, turns)
    ensures Inv(t.final)
    ensures cm.connection.Keys <= t.final.connection.Keys
    decreases |turns|
  {
    if turns == [] then Trace(cm, [])
    else
      var o := Step(cm, turns[0].request, turns[0].order);
      if o.status == Running then
        var rest := Run(o.manager, turns[1..]);
        Trace(rest.final, o.events + rest.events)
      else
        Trace(o.manager, o.events)
  }

  /** The broadcast messages a run queues for session `k`. */
  function ReceivedBy(cm: Manager, turns: seq<Turn>, k: string): seq<Message>
    requires Schedulable(cm, turns)
    decreases |turns|
  {
    if turns == [] then []
    else
      var o := Step(cm, turns[0].request, turns[0].order);
      Enqueued(cm, turns[0].request, k) + (if o.status == Running then ReceivedBy(o.manager, turns[1..], k) else [])
  }

  /** The broadcast messages a run processes, in processing order. */
  function Broadcasts(cm: Manager, turns: seq<Turn>): seq<Message>
    requires Schedulable(cm, turns)
    decreases |turns|
  {
    if turns == [] then []
    else
      var o := Step(cm, turns[0].request, turns[0].order);
      (if turns[0].request.kind == BroadcastRequest then [AsBroadcast(turns[0].request)] else [])
        + (if o.status == Running then Broadcasts(o.manager, turns[1..]) else [])
  }

  /** Over a whole run, per session, nothing is lost, duplicated or
      reordered: the initial queue followed by every broadcast queued for
      the session equals everything delivered to it followed by its final
      queue. */
  lemma {:induction false} RunConserves(cm: Manager, turns: seq<Turn>, k: string)
    requires Schedulable(cm, turns)
    ensures QueueOf(cm, k) + ReceivedBy(cm, turns, k) == Delivered(Run(cm, turns).events, k) + QueueOf(Run(cm, turns).final, k)
    decreases |turns|
  {
    if turns != [] {
      var m, order := turns[0].request, turns[0].order;
      var o := Step(cm, m, order);
      StepConserves(cm, m, order, k);
      if o.status == Running {
        var rest := Run(o.manager, turns[1..]);
        assert Run(cm, turns).events == o.events + rest.events;
        assert Run(cm, turns).final == rest.final;
        var r := ReceivedBy(o.manager, turns[1..], k);
        assert ReceivedBy(cm, turns, k) == Enqueued(cm, m, k) + r;
        RunConserves(o.manager, turns[1..], k);
        DeliveredAppend(o.events, rest.events, k);
        var a, e, d1, q1 := QueueOf(cm, k), Enqueued(cm, m, k), Delivered(o.events, k), QueueOf(o.manager, k);
        var d2, q2 := Delivered(rest.events, k), QueueOf(rest.final, k);
        assert a + e == d1 + q1;
        assert q1 + r == d2 + q2;
        SplicePreserved(a, e, d1, q1, r, d2, q2);
      } else {
        assert Run(cm, turns) == Trace(o.manager, o.events);
        assert ReceivedBy(cm, turns, k) == Enqueued(cm, m, k) + [];
      }
    }
  }

  /** A session registered when a run starts has every broadcast of the run
      queued for it, in order. */
  lemma {:induction false} BroadcastReachesEverySession(cm: Manager, turns: seq<Turn>, k: string)
    requires Schedulable(cm, turns)
    requires k in cm.connection
    ensures ReceivedBy(cm, turns, k) == Broadcasts(cm, turns)
    decreases |turns|
  {
    if turns != [] {
      var o := Step(cm, turns[0].request, turns[0].order);
      if o.status == Running {
        BroadcastReachesEverySession(o.manager, turns[1..], k);
      }
    }
  }
}
