/** The event broker (`httpapi/events.go`): channels of capacity 16, one per subscriber. */
module Broker {
  import opened Payloads

  class Channel {
    var queue: seq<Event>
    var closed: bool

    constructor ()
      ensures queue == [] && !closed
    {
      queue, closed := [], false;
    }
  }

  /** A send that never blocks. */
  function Offer(queue: seq<Event>, e: Event): seq<Event> {
    if |queue| < QUEUE_CAPACITY then queue + [e] else queue
  }

  class EventBroker {
    var subscribers: set<Channel>

    /** Channels in the table are open and within capacity. */
    ghost predicate Valid()
      reads this, subscribers
    {
      forall ch :: ch in subscribers ==> !ch.closed && |ch.queue| <= QUEUE_CAPACITY
    }

    constructor ()
      ensures Valid() && subscribers == {}
    {
      subscribers := {};
    }

    method Subscribe() returns (ch: Channel)
      requires Valid()
      modifies this
      ensures Valid() && fresh(ch) && ch.queue == [] && subscribers == old(subscribers) + {ch}
    {
      ch := new Channel();
      subscribers := subscribers + {ch};
    }

    /** The function Subscribe hands back: it may be called more than once, and closes the channel once. */
    method Unsubscribe(ch: Channel)
      requires Valid() && (ch !in subscribers ==> ch.closed)
      modifies this, ch
      ensures Valid() && subscribers == old(subscribers) - {ch}
      ensures ch.closed && ch.queue == old(ch.queue)
    {
      if ch in subscribers {
        subscribers := subscribers - {ch};
        assert !ch.closed;
        ch.closed := true;
      }
    }

    /** Every subscriber is offered the event once, and nothing else changes. */
    method Publish(e: Event)
      requires Valid()
      modifies subscribers
      ensures Valid() && subscribers == old(subscribers)
      ensures forall ch :: ch in subscribers ==> ch.queue == Offer(old(ch.queue), e)
    {
      var todo := subscribers;
      while todo != {}
        invariant todo <= subscribers && Valid()
        invariant forall ch :: ch in todo ==> ch.queue == old(ch.queue)
        invariant forall ch :: ch in subscribers - todo ==> ch.queue == Offer(old(ch.queue), e)
        decreases todo
      {
        var ch :| ch in todo;
        if |ch.queue| < QUEUE_CAPACITY {
          ch.queue := ch.queue + [e];
        }
        todo := todo - {ch};
      }
    }
  }
}

/** The broker under concurrency. Publishers hold the read lock from their first send to their last, so they
    interleave with each other, channel by channel; subscribing and unsubscribing take the write lock. A
    publication is named by its position in the order publications began. */
module BrokerInterleaving {
  import opened Payloads
  import opened Broker

  /** `since` is the number of publications begun before the channel was subscribed; `offered` lists the
      publications that have reached it, `received` what its reader has taken out; `dropped` tells whether an
      offer ever met a full queue. */
  datatype Chan = Chan(since: nat, queue: seq<nat>, received: seq<nat>, offered: seq<nat>, dropped: bool, closed: bool)

  /** `begun` publications so far; `todo` has the channels each unfinished one still has to visit; `overlaps[b]`
      holds the publications unfinished when `b` began. `crashed` is a send on, or close of, a closed channel. */
  datatype State = State(chans: seq<Chan>, subscribers: set<nat>, begun: nat, todo: map<nat, set<nat>>,
                         overlaps: seq<set<nat>>, crashed: bool)

  const START := State([], {}, 0, map[], [], false)

  datatype Step = Subscribe | Unsubscribe(c: nat) | Begin | Send(b: nat, c: nat) | End(b: nat) | Receive(c: nat)

  function Offered(ch: Chan, b: nat): Chan {
    if |ch.queue| < QUEUE_CAPACITY then ch.(queue := ch.queue + [b], offered := ch.offered + [b])
    else ch.(offered := ch.offered + [b], dropped := true)
  }

  /** A step that cannot be taken now (a lock is held, a queue is empty) leaves the state as it is. */
  function Next(s: State, step: Step): State {
    match step
    case Subscribe =>
      if s.todo != map[] then s
      else s.(chans := s.chans + [Chan(s.begun, [], [], [], false, false)], subscribers := s.subscribers + {|s.chans|})
    case Unsubscribe(c) =>
      if s.todo != map[] || c !in s.subscribers || c >= |s.chans| then s
      else s.(subscribers := s.subscribers - {c}, chans := s.chans[c := s.chans[c].(closed := true)],
              crashed := s.crashed || s.chans[c].closed)
    case Begin =>
      s.(begun := s.begun + 1, todo := s.todo[s.begun := s.subscribers], overlaps := s.overlaps + [s.todo.Keys])
    case Send(b, c) =>
      if b !in s.todo || c !in s.todo[b] || c >= |s.chans| then s
      else s.(todo := s.todo[b := s.todo[b] - {c}], chans := s.chans[c := Offered(s.chans[c], b)],
              crashed := s.crashed || s.chans[c].closed)
    case End(b) =>
      if b !in s.todo || s.todo[b] != {} then s else s.(todo := s.todo - {b})
    case Receive(c) =>
      if c >= |s.chans| || s.chans[c].queue == [] then s
      else
        var ch := s.chans[c];
        s.(chans := s.chans[c := ch.(queue := ch.queue[1..], received := ch.received + [ch.queue[0]])])
  }

  function Run(steps: seq<Step>): State {
    if steps == [] then START else Next(Run(steps[..|steps| - 1]), steps[|steps| - 1])
  }

  /** `xs` comes from `ys` by leaving elements out. */
  predicate Subsequence(xs: seq<nat>, ys: seq<nat>) {
    if ys == [] then xs == []
    else
      Subsequence(xs, ys[..|ys| - 1]) ||
      (xs != [] && xs[|xs| - 1] == ys[|ys| - 1] && Subsequence(xs[..|xs| - 1], ys[..|ys| - 1]))
  }

  predicate ChanOk(ch: Chan) {
    && |ch.queue| <= QUEUE_CAPACITY
    && Subsequence(ch.received + ch.queue, ch.offered)
    && (!ch.dropped ==> ch.received + ch.queue == ch.offered)
  }

  /** Publication `a` was unfinished when `b` began. */
  predicate Overlaps(overlaps: seq<set<nat>>, a: nat, b: nat) {
    b < |overlaps| && a in overlaps[b]
  }

  predicate Pending(todo: map<nat, set<nat>>, b: nat, c: nat) {
    b in todo && c in todo[b]
  }

  /** What has reached channel `c` so far: publications begun since it was subscribed that need not visit it any
      more. */
  ghost predicate ReachedOk(s: State, c: nat, ch: Chan) {
    && (forall b :: b in ch.offered ==> ch.since <= b < s.begun && !Pending(s.todo, b, c))
    && ch.since <= s.begun
    && (forall b :: Pending(s.todo, b, c) ==> ch.since <= b)
    && (c in s.subscribers ==> forall b :: ch.since <= b < s.begun ==> b in ch.offered || Pending(s.todo, b, c))
  }

  /** Each once, and none that had ended before another began comes after that other. */
  ghost predicate InOrder(offered: seq<nat>, overlaps: seq<set<nat>>) {
    forall i, j :: 0 <= i < j < |offered| ==>
      offered[i] != offered[j] && (offered[j] < offered[i] ==> Overlaps(overlaps, offered[j], offered[i]))
  }

  ghost predicate OrderOk(s: State, c: nat)
    requires c < |s.chans|
  {
    ReachedOk(s, c, s.chans[c]) && InOrder(s.chans[c].offered, s.overlaps)
  }

  /** An unfinished publication overlaps every later one. */
  ghost predicate UnfinishedOverlap(s: State) {
    forall a, b :: a in s.todo && a < b < s.begun ==> Overlaps(s.overlaps, a, b)
  }

  ghost predicate Table(s: State) {
    && !s.crashed
    && (forall c :: c in s.subscribers ==> c < |s.chans|)
    && (forall c :: 0 <= c < |s.chans| ==> (s.chans[c].closed <==> c !in s.subscribers))
    && (forall b :: b in s.todo ==> b < s.begun && s.todo[b] <= s.subscribers)
    && |s.overlaps| == s.begun
  }

  ghost predicate Inv(s: State) {
    && Table(s)
    && UnfinishedOverlap(s)
    && (forall c :: 0 <= c < |s.chans| ==> ChanOk(s.chans[c]) && OrderOk(s, c))
  }

  /** What one send does to a queue is what the broker's publication does to it; a queue of sixteen is full. */
  lemma OfferedIsOffer(ch: Chan, b: nat, queue: seq<Event>, e: Event)
    requires |queue| == |ch.queue|
    ensures var after := Offer(queue, e);
      && |after| == (if |queue| < 16 then |queue| + 1 else |queue|)
      && |after| == |Offered(ch, b).queue| && (Offered(ch, b).queue == ch.queue + [b] <==> after == queue + [e])
      && (Offered(ch, b).queue == ch.queue <==> after == queue) && Offered(ch, b).offered == ch.offered + [b]
  {
  }

  lemma SubsequenceAppend(xs: seq<nat>, ys: seq<nat>, b: nat)
    requires Subsequence(xs, ys)
    ensures Subsequence(xs, ys + [b]) && Subsequence(xs + [b], ys + [b])
  {
    assert (ys + [b])[..|ys|] == ys && (xs + [b])[..|xs|] == xs;
  }

  lemma OfferOk(ch: Chan, b: nat)
    requires ChanOk(ch)
    ensures ChanOk(Offered(ch, b))
  {
    SubsequenceAppend(ch.received + ch.queue, ch.offered, b);
    assert ch.received + (ch.queue + [b]) == ch.received + ch.queue + [b];
  }

  lemma ReceiveOk(ch: Chan)
    requires ChanOk(ch) && ch.queue != []
    ensures ChanOk(ch.(queue := ch.queue[1..], received := ch.received + [ch.queue[0]]))
  {
    assert (ch.received + [ch.queue[0]]) + ch.queue[1..] == ch.received + ch.queue;
  }

  lemma SentPending(s: State, b: nat, c: nat, d: nat)
    requires Pending(s.todo, b, c) && c < |s.chans|
    ensures forall x :: Pending(Next(s, Send(b, c)).todo, x, d) <==> Pending(s.todo, x, d) && !(x == b && d == c)
  {
  }

  lemma SentChan(s: State, b: nat, c: nat, d: nat)
    requires Inv(s) && Pending(s.todo, b, c) && d < |s.chans|
    ensures var t := Next(s, Send(b, c)); |t.chans| == |s.chans| && ChanOk(t.chans[d]) && OrderOk(t, d)
  {
    assert OrderOk(s, d) && ChanOk(s.chans[d]);
    SentPending(s, b, c, d);
    if d == c {
      OfferOk(s.chans[c], b);
      SentInOrder(s, b, s.chans[c].offered);
      SentReached(s, b, c);
    }
  }

  lemma SentTable(s: State, b: nat, c: nat)
    requires Table(s) && UnfinishedOverlap(s) && Pending(s.todo, b, c)
    ensures var t := Next(s, Send(b, c)); Table(t) && UnfinishedOverlap(t) && |t.chans| == |s.chans|
  {
  }

  lemma SendOk(s: State, b: nat, c: nat)
    requires Inv(s) && Pending(s.todo, b, c)
    ensures Inv(Next(s, Send(b, c)))
  {
    SentTable(s, b, c);
    forall d: nat | d < |s.chans|
      ensures ChanOk(Next(s, Send(b, c)).chans[d]) && OrderOk(Next(s, Send(b, c)), d)
    {
      SentChan(s, b, c, d);
    }
  }

  lemma SentReached(s: State, b: nat, c: nat)
    requires Table(s) && Pending(s.todo, b, c) && c < |s.chans| && ReachedOk(s, c, s.chans[c])
    ensures ReachedOk(Next(s, Send(b, c)), c, Offered(s.chans[c], b))
  {
    SentPending(s, b, c, c);
    var before := s.chans[c].offered;
    assert forall x :: x in before + [b] <==> x in before || x == b;
  }

  lemma SentInOrder(s: State, b: nat, offered: seq<nat>)
    requires UnfinishedOverlap(s) && InOrder(offered, s.overlaps) && b in s.todo && b !in offered
    requires forall x :: x in offered ==> x < s.begun
    ensures InOrder(offered + [b], s.overlaps)
  {
    forall i | 0 <= i < |offered| ensures offered[i] != b && (b < offered[i] ==> Overlaps(s.overlaps, b, offered[i])) {
      assert offered[i] in offered;
    }
  }

  lemma LongerOverlaps(offered: seq<nat>, overlaps: seq<set<nat>>, more: set<nat>)
    requires InOrder(offered, overlaps)
    ensures InOrder(offered, overlaps + [more])
  {
    forall i, j | 0 <= i < j < |offered| && offered[j] < offered[i]
      ensures Overlaps(overlaps + [more], offered[j], offered[i])
    {
      assert Overlaps(overlaps, offered[j], offered[i]);
    }
  }

  lemma BeginOk(s: State)
    requires Inv(s)
    ensures Inv(Next(s, Begin))
  {
    var t := Next(s, Begin);
    forall a, b | a in t.todo && a < b < t.begun ensures Overlaps(t.overlaps, a, b) {
      if b < s.begun {
        assert Overlaps(s.overlaps, a, b);
      }
    }
    forall d | 0 <= d < |t.chans| ensures ChanOk(t.chans[d]) && OrderOk(t, d) {
      assert OrderOk(s, d) && ChanOk(s.chans[d]);
      LongerOverlaps(s.chans[d].offered, s.overlaps, s.todo.Keys);
      assert forall b: nat :: b < s.begun ==> (Pending(t.todo, b, d) <==> Pending(s.todo, b, d));
    }
  }

  lemma EndOk(s: State, b: nat)
    requires Inv(s) && b in s.todo && s.todo[b] == {}
    ensures Inv(Next(s, End(b)))
  {
    var t := Next(s, End(b));
    forall d | 0 <= d < |t.chans| ensures ChanOk(t.chans[d]) && OrderOk(t, d) {
      assert OrderOk(s, d) && ChanOk(s.chans[d]);
      assert forall x :: Pending(t.todo, x, d) <==> Pending(s.todo, x, d);
    }
  }

  lemma SubscribeOk(s: State)
    requires Inv(s)
    ensures Inv(Next(s, Subscribe))
  {
    var t := Next(s, Subscribe);
    forall d | 0 <= d < |t.chans| ensures ChanOk(t.chans[d]) && OrderOk(t, d) {
      if d < |s.chans| {
        assert OrderOk(s, d) && ChanOk(s.chans[d]);
      }
    }
  }

  lemma UnsubscribedTable(s: State, c: nat)
    requires Table(s) && UnfinishedOverlap(s)
    ensures var t := Next(s, Unsubscribe(c)); Table(t) && UnfinishedOverlap(t) && |t.chans| == |s.chans|
  {
  }

  lemma UnsubscribeOk(s: State, c: nat)
    requires Inv(s)
    ensures Inv(Next(s, Unsubscribe(c)))
  {
    var t := Next(s, Unsubscribe(c));
    UnsubscribedTable(s, c);
    forall d: nat | d < |s.chans| ensures ChanOk(t.chans[d]) && OrderOk(t, d) {
      assert OrderOk(s, d) && ChanOk(s.chans[d]);
    }
  }

  lemma TakeOk(s: State, c: nat)
    requires Inv(s) && c < |s.chans| && s.chans[c].queue != []
    ensures Inv(Next(s, Receive(c)))
  {
    var t := Next(s, Receive(c));
    ReceiveOk(s.chans[c]);
    forall d | 0 <= d < |t.chans| ensures ChanOk(t.chans[d]) && OrderOk(t, d) {
      assert OrderOk(s, d) && ChanOk(s.chans[d]);
    }
  }

  lemma NextOk(s: State, step: Step)
    requires Inv(s)
    ensures Inv(Next(s, step))
  {
    match step
    case Subscribe => SubscribeOk(s);
    case Unsubscribe(c) => UnsubscribeOk(s, c);
    case Begin => BeginOk(s);
    case Send(b, c) => if b in s.todo && c in s.todo[b] { SendOk(s, b, c); }
    case End(b) => if b in s.todo && s.todo[b] == {} { EndOk(s, b); }
    case Receive(c) => if c < |s.chans| && s.chans[c].queue != [] { TakeOk(s, c); }
  }

  lemma {:induction false} RunOk(steps: seq<Step>)
    ensures Inv(Run(steps))
  {
    if steps != [] {
      RunOk(steps[..|steps| - 1]);
      NextOk(Run(steps[..|steps| - 1]), steps[|steps| - 1]);
    }
  }

  // ----- main results -----

  /** In no interleaving is a closed channel sent to or closed again, or a queue over its capacity. */
  lemma NeverCrashes(steps: seq<Step>, c: nat)
    ensures var s := Run(steps); !s.crashed && (c < |s.chans| ==> |s.chans[c].queue| <= 16)
  {
    RunOk(steps);
    var s := Run(steps);
    if c < |s.chans| {
      assert ChanOk(s.chans[c]);
    }
  }

  /** What a subscriber gets is the offers in order with some left out, and all of them if its queue was never full. */
  lemma ReadsInOrder(steps: seq<Step>, c: nat)
    requires c < |Run(steps).chans|
    ensures var ch := Run(steps).chans[c];
      Subsequence(ch.received + ch.queue, ch.offered) && (!ch.dropped ==> ch.received + ch.queue == ch.offered)
  {
    RunOk(steps);
    assert ChanOk(Run(steps).chans[c]);
  }

  /** When no publication is under way, a subscriber has been offered each publication begun since it subscribed
      exactly once, and of two of them the one that ended before the other began first. */
  lemma OfferedAllInOrder(steps: seq<Step>, c: nat)
    requires var s := Run(steps); s.todo == map[] && c in s.subscribers
    ensures var s := Run(steps);
      && c < |s.chans|
      && var ch := s.chans[c];
      && (forall b :: b in ch.offered <==> ch.since <= b < s.begun)
      && (forall i, j :: 0 <= i < j < |ch.offered| ==> ch.offered[i] != ch.offered[j])
      && (forall i, j | 0 <= i < |ch.offered| && 0 <= j < |ch.offered| && ch.offered[i] < ch.offered[j] ::
            !Overlaps(s.overlaps, ch.offered[i], ch.offered[j]) ==> i < j)
  {
    RunOk(steps);
    var s := Run(steps);
    assert OrderOk(s, c);
    var offered := s.chans[c].offered;
    assert forall i :: 0 <= i < |offered| ==> offered[i] in offered;
  }
}
