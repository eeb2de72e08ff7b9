/** The per-session long-poll state both registries keep for every session
    (a `Connection` in connectionmanager.go, a `User` in usermanager.go): the
    FIFO queue of undelivered messages, the `polling` flag and the channel the
    current poller waits on, together with `pollCheck` and the hand-off a
    poll request performs.

    Channels are not modelled as Go values: a channel is named by the number
    its `make` call was given, sending a batch on it is a `Deliver` event and
    closing it is a `Preempt` event. */
module Mailbox {
  import opened Base

  /** Identity of a channel created by `make(chan ...)`. */
  type Chan = nat

  /** `pollChannel`, `polling` and `messages` of one session. */
  datatype Inbox<M> = Inbox(pollChannel: Option<Chan>, polling: bool, messages: seq<M>)

  /** What the registry does to channels it has handed out: send one batch on
      the channel `chan` of session `to`, or close it. */
  datatype Event<M> =
    | Deliver(to: string, chan: Chan, batch: seq<M>)
    | Preempt(to: string, chan: Chan)

  /** The inbox of a newly created session: no channel, not polling, nothing queued. */
  function Fresh<M>(): (b: Inbox<M>)
    ensures b.pollChannel == None && !b.polling && b.messages == []
  {
    Inbox(None, false, [])
  }

  /** A polling session has a channel to be delivered on. */
  predicate WellFormed<M>(b: Inbox<M>) {
    b.polling ==> b.pollChannel.Some?
  }

  /** The state every handler leaves a session in: it is not waiting on a
      poll while messages for it sit undelivered. */
  predicate Quiescent<M>(b: Inbox<M>) {
    !(b.polling && |b.messages| > 0)
  }

  /** The messages `evs` delivers to session `to`, batch after batch. */
  function Delivered<M>(evs: seq<Event<M>>, to: string): seq<M>
  {
    if evs == [] then []
    else (if evs[0].Deliver? && evs[0].to == to then evs[0].batch else []) + Delivered(evs[1..], to)
  }

  /** No event of `evs` closes a channel. */
  predicate NoPreempt<M>(evs: seq<Event<M>>) {
    forall i :: 0 <= i < |evs| ==> !evs[i].Preempt?
  }

  /** No event of `evs` is addressed to session `to`. */
  predicate Untouched<M>(evs: seq<Event<M>>, to: string) {
    forall i :: 0 <= i < |evs| ==> evs[i].to != to
  }

  lemma {:induction false} DeliveredAppend<M>(a: seq<Event<M>>, b: seq<Event<M>>, to: string)
    ensures Delivered(a + b, to) == Delivered(a, to) + Delivered(b, to)
    decreases |a|
  {
    if a == [] {
      assert a + b == b;
    } else {
      var head := if a[0].Deliver? && a[0].to == to then a[0].batch else [];
      var da, db := Delivered(a[1..], to), Delivered(b, to);
      calc {
        Delivered(a + b, to);
        { assert (a + b)[0] == a[0] && (a + b)[1..] == a[1..] + b; }
        head + Delivered(a[1..] + b, to);
        { DeliveredAppend(a[1..], b, to); }
        head + (da + db);
        (head + da) + db;
        Delivered(a, to) + db;
      }
    }
  }

  /** Events addressed elsewhere deliver nothing to `to`. */
  lemma {:induction false} UntouchedDeliversNothing<M>(evs: seq<Event<M>>, to: string)
    requires Untouched(evs, to)
    ensures Delivered(evs, to) == []
    decreases |evs|
  {
    if evs != [] {
      assert evs[0].to != to;
      UntouchedDeliversNothing(evs[1..], to);
    }
  }

  /** Two conservation equations chained: what went in across both is what
      came out across both. */
  lemma SplicePreserved<M>(a: seq<M>, e: seq<M>, d1: seq<M>, q1: seq<M>, r: seq<M>, d2: seq<M>, q2: seq<M>)
    requires a + e == d1 + q1
    requires q1 + r == d2 + q2
    ensures a + (e + r) == (d1 + d2) + q2
  {
    calc {
      a + (e + r);
      (a + e) + r;
      (d1 + q1) + r;
      d1 + (q1 + r);
      d1 + (d2 + q2);
      (d1 + d2) + q2;
    }
  }

  /** `messages.PushBack(m)`: queue `m` behind everything already queued. */
  function Push<M>(b: Inbox<M>, m: M): (r: Inbox<M>)
    ensures r.messages == b.messages + [m]
    ensures r.polling == b.polling && r.pollChannel == b.pollChannel
  {
    b.(messages := b.messages + [m])
  }

  /** `pollCheck`: if the session is polling and has queued messages, send
      the whole queue as one batch on its channel, empty the queue and stop
      polling; otherwise change nothing. */
  function PollCheck<M>(to: string, b: Inbox<M>): (r: (Inbox<M>, seq<Event<M>>))
    requires WellFormed(b)
    ensures WellFormed(r.0) && Quiescent(r.0)
    // nothing is lost or reordered: delivered-then-remaining is the old queue
    ensures b.messages == Delivered(r.1, to) + r.0.messages
    ensures r.0.pollChannel == b.pollChannel
    // it fires exactly when the session polls with a non-empty queue
    ensures r.1 != [] <==> b.polling && |b.messages| > 0
    ensures r.1 == [] ==> r.0 == b
    ensures r.1 != [] ==> r.1 == [Deliver(to, b.pollChannel.value, b.messages)] && !r.0.polling
    ensures NoPreempt(r.1)
  {
    if b.polling && |b.messages| > 0 then
      (b.(messages := [], polling := false), [Deliver(to, b.pollChannel.value, b.messages)])
    else
      (b, [])
  }

  /** The hand-off of a poll request for a known session, given the fresh
      channel `ch` made for it: close the channel of a poll still
      outstanding, install `ch` and mark the session polling, then run
      `pollCheck` so that queued messages go out on `ch` at once. (The reply
      carrying `ch` is sent between the close and the `pollCheck`.) */
  function HandOff<M>(to: string, b: Inbox<M>, ch: Chan): (r: (Inbox<M>, seq<Event<M>>))
    requires WellFormed(b)
    ensures WellFormed(r.0) && Quiescent(r.0)
    ensures r.0.pollChannel == Some(ch)
    // an outstanding poll is pre-empted first, and only then
    ensures b.polling ==> |r.1| >= 1 && r.1[0] == Preempt(to, b.pollChannel.value)
    ensures !b.polling ==> NoPreempt(r.1)
    ensures forall i :: 1 <= i < |r.1| ==> !r.1[i].Preempt?
    // queued messages are kept and go out on the new channel
    ensures b.messages == Delivered(r.1, to) + r.0.messages
    ensures |b.messages| > 0 ==> Deliver(to, ch, b.messages) in r.1 && !r.0.polling && r.0.messages == []
    ensures |b.messages| == 0 ==> r.0.polling && r.0.messages == [] && Delivered(r.1, to) == []
    ensures forall i :: 0 <= i < |r.1| ==> r.1[i].to == to
  {
    var pre := if b.polling then [Preempt(to, b.pollChannel.value)] else [];
    var (c, evs) := PollCheck(to, b.(polling := true, pollChannel := Some(ch)));
    DeliveredAppend(pre, evs, to);
    (c, pre + evs)
  }
}
