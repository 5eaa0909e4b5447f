/** Pushing events to subscribers over bounded channels that drop what does not fit. */
module EventFanout {
  import opened Sequences

  const CHANNEL_CAPACITY: nat := 64

  /**
   * One subscription. offered and received are its history: what was published while it was subscribed, and
   * what its reader took out; dropped counts the events that did not fit.
   */
  datatype Sub<E> = Sub(buffer: seq<E>, open: bool, offered: seq<E>, received: seq<E>, dropped: nat)

  datatype FanoutState<E> = FanoutState(subs: set<nat>, channels: map<nat, Sub<E>>, made: nat, broken: bool)

  datatype FanoutOp<E> =
    | Subscribe
    | Unsubscribe(id: nat)
    | Publish(event: E)
    | Receive(id: nat)

  function NewSub<E>(): Sub<E> {
    Sub([], true, [], [], 0)
  }

  /** A send that never blocks: the event is dropped when the buffer is full. */
  function Offer<E>(c: Sub<E>, event: E): Sub<E> {
    if |c.buffer| < CHANNEL_CAPACITY then c.(buffer := c.buffer + [event], offered := c.offered + [event])
    else c.(offered := c.offered + [event], dropped := c.dropped + 1)
  }

  function Take<E>(c: Sub<E>): Sub<E> {
    if c.buffer == [] then c else c.(buffer := c.buffer[1..], received := c.received + [c.buffer[0]])
  }

  /** broken records a send on a closed channel or a second close. */
  function Step<E>(s: FanoutState<E>, op: FanoutOp<E>): FanoutState<E> {
    match op
    case Subscribe =>
      s.(subs := s.subs + {s.made}, channels := s.channels[s.made := NewSub()], made := s.made + 1)
    case Unsubscribe(id) =>
      if id in s.subs && id in s.channels then
        s.(subs := s.subs - {id},
           channels := s.channels[id := s.channels[id].(open := false)],
           broken := s.broken || !s.channels[id].open)
      else s
    case Publish(event) =>
      s.(channels := map id | id in s.channels :: if id in s.subs then Offer(s.channels[id], event) else s.channels[id],
         broken := s.broken || exists id :: id in s.subs && (id !in s.channels || !s.channels[id].open))
    case Receive(id) =>
      if id in s.channels then s.(channels := s.channels[id := Take(s.channels[id])]) else s
  }

  function Run<E>(s: FanoutState<E>, ops: seq<FanoutOp<E>>): FanoutState<E>
    decreases |ops|
  {
    if ops == [] then s else Run(Step(s, ops[0]), ops[1..])
  }

  /** Nothing is reordered or invented, everything published is accounted for, and the buffer stays bounded. */
  ghost predicate Faithful<E>(c: Sub<E>) {
    && Subsequence(c.received + c.buffer, c.offered)
    && |c.offered| == |c.received| + |c.buffer| + c.dropped
    && |c.buffer| <= CHANNEL_CAPACITY
    && (c.dropped == 0 ==> c.received + c.buffer == c.offered)
  }

  ghost predicate Inv<E>(s: FanoutState<E>) {
    && !s.broken
    && s.subs <= s.channels.Keys
    && (forall id :: id in s.channels ==> id < s.made && Faithful(s.channels[id]))
    && (forall id :: id in s.channels ==> (s.channels[id].open <==> id in s.subs))
  }

  lemma OfferIsFaithful<E>(c: Sub<E>, event: E)
    requires Faithful(c)
    ensures Faithful(Offer(c, event))
  {
    if |c.buffer| < CHANNEL_CAPACITY {
      SubsequenceGrowsBehind(c.received, c.buffer, c.offered, event);
      ConcatAssociates(c.received, c.buffer, [event]);
    } else {
      SubsequenceGrows(c.received + c.buffer, c.offered, event);
    }
  }

  lemma TakeIsFaithful<E>(c: Sub<E>)
    requires Faithful(c)
    ensures Faithful(Take(c))
  {
    if c.buffer != [] {
      assert c.received + [c.buffer[0]] + c.buffer[1..] == c.received + c.buffer;
    }
  }

  lemma PublishKeepsInv<E>(s: FanoutState<E>, event: E)
    requires Inv(s)
    ensures Inv(Step(s, Publish(event)))
  {
    forall id | id in s.channels ensures Faithful(Step(s, Publish(event)).channels[id]) {
      OfferIsFaithful(s.channels[id], event);
    }
  }

  lemma StepKeepsInv<E>(s: FanoutState<E>, op: FanoutOp<E>)
    requires Inv(s)
    ensures Inv(Step(s, op))
  {
    match op
    case Subscribe =>
    case Unsubscribe(id) =>
    case Publish(event) => PublishKeepsInv(s, event);
    case Receive(id) =>
      if id in s.channels {
        TakeIsFaithful(s.channels[id]);
      }
  }

  lemma {:induction false} RunKeepsInv<E>(s: FanoutState<E>, ops: seq<FanoutOp<E>>)
    requires Inv(s)
    ensures Inv(Run(s, ops))
    decreases |ops|
  {
    if ops != [] {
      StepKeepsInv(s, ops[0]);
      RunKeepsInv(Step(s, ops[0]), ops[1..]);
    }
  }

  function NoSubscribers<E>(): FanoutState<E> {
    FanoutState({}, map[], 0, false)
  }

  /**
   * For every subscriber and every run: what it received, then what is buffered, is an in-order part of what was
   * published since it subscribed; published, received, buffered and dropped add up; the buffer stays within 64;
   * no event is sent on a closed channel and no channel is closed twice.
   */
  lemma FanoutIsFaithful<E>(ops: seq<FanoutOp<E>>, id: nat)
    requires id in Run(NoSubscribers(), ops).channels
    ensures !Run(NoSubscribers(), ops).broken
    ensures var c := Run(NoSubscribers(), ops).channels[id];
      && Subsequence(c.received + c.buffer, c.offered)
      && |c.offered| == |c.received| + |c.buffer| + c.dropped
      && |c.buffer| <= CHANNEL_CAPACITY
      && (c.open <==> id in Run(NoSubscribers(), ops).subs)
    // so whatever is published, and whatever is closed by a cancel, meets open channels only
    ensures var s := Run(NoSubscribers<E>(), ops); forall i :: i in s.subs ==> i in s.channels && s.channels[i].open
  {
    RunKeepsInv(NoSubscribers<E>(), ops);
  }

  function Events<E>(op: FanoutOp<E>): seq<E> {
    if op.Publish? then [op.event] else []
  }

  /** What a run publishes, in order. */
  function Published<E>(ops: seq<FanoutOp<E>>): seq<E> {
    if ops == [] then [] else Events(ops[0]) + Published(ops[1..])
  }

  predicate Cancels<E>(op: FanoutOp<E>, id: nat) {
    op.Unsubscribe? && op.id == id
  }

  lemma OfferedByStep<E>(s: FanoutState<E>, op: FanoutOp<E>, id: nat)
    requires Inv(s) && id in s.subs && !Cancels(op, id)
    ensures id in Step(s, op).subs && id in Step(s, op).channels
    ensures Step(s, op).channels[id].offered == s.channels[id].offered + Events(op)
  {
    assert s.channels[id].offered + [] == s.channels[id].offered;
    assert id < s.made;
  }

  /** A subscriber that stays subscribed throughout a run is offered exactly what the run publishes, in order. */
  lemma {:induction false} OfferedIsPublished<E>(s: FanoutState<E>, ops: seq<FanoutOp<E>>, id: nat)
    requires Inv(s) && id in s.subs && forall i :: 0 <= i < |ops| ==> !Cancels(ops[i], id)
    ensures id in Run(s, ops).subs && id in Run(s, ops).channels
    ensures Run(s, ops).channels[id].offered == s.channels[id].offered + Published(ops)
    decreases |ops|
  {
    if ops == [] {
      assert s.channels[id].offered + [] == s.channels[id].offered;
    } else {
      var next, rest := Step(s, ops[0]), ops[1..];
      StepKeepsInv(s, ops[0]);
      OfferedByStep(s, ops[0], id);
      assert forall i :: 0 <= i < |rest| ==> rest[i] == ops[i + 1];
      OfferedIsPublished(next, rest, id);
      ConcatAssociates(s.channels[id].offered, Events(ops[0]), Published(rest));
    }
  }

  /** What a subscriber has been or will be handed, in order. */
  function Stream<E>(c: Sub<E>): seq<E> {
    c.received + c.buffer
  }

  lemma StreamByStep<E>(s: FanoutState<E>, op: FanoutOp<E>, id: nat)
    requires Inv(s) && id in s.channels
    ensures id in Step(s, op).channels && Stream(s.channels[id]) <= Stream(Step(s, op).channels[id])
  {
    var c := s.channels[id];
    assert id < s.made;
    match op
    case Publish(event) => ConcatAssociates(c.received, c.buffer, [event]);
    case Receive(_) =>
      if c.buffer != [] {
        assert c.received + [c.buffer[0]] + c.buffer[1..] == c.received + c.buffer;
      }
    case _ =>
  }

  /** Once queued, an event is never lost, moved or overtaken, even by cancelling: streams only grow at the end. */
  lemma {:induction false} QueuedIsNeverLost<E>(s: FanoutState<E>, ops: seq<FanoutOp<E>>, id: nat)
    requires Inv(s) && id in s.channels
    ensures id in Run(s, ops).channels && Stream(s.channels[id]) <= Stream(Run(s, ops).channels[id])
    decreases |ops|
  {
    if ops != [] {
      StepKeepsInv(s, ops[0]);
      StreamByStep(s, ops[0], id);
      QueuedIsNeverLost(Step(s, ops[0]), ops[1..], id);
    }
  }

  /** Cancelling twice, in whatever run lies between, is the same as cancelling once. */
  lemma {:induction false} CancelIsFinal<E>(s: FanoutState<E>, ops: seq<FanoutOp<E>>, id: nat)
    requires Inv(s) && id in s.channels && id !in s.subs
    ensures id !in Run(s, ops).subs && Step(Run(s, ops), Unsubscribe(id)) == Run(s, ops)
    ensures id in Run(s, ops).channels && Run(s, ops).channels[id].offered == s.channels[id].offered
    decreases |ops|
  {
    if ops != [] {
      StepKeepsInv(s, ops[0]);
      CancelIsFinal(Step(s, ops[0]), ops[1..], id);
    }
  }

  /** A subscriber with room gets the event, behind everything it was handed before. */
  lemma RoomMeansDelivered<E>(s: FanoutState<E>, event: E, id: nat)
    requires Inv(s) && id in s.subs && |s.channels[id].buffer| < CHANNEL_CAPACITY
    ensures var c := Step(s, Publish(event)).channels[id];
      Stream(c) == Stream(s.channels[id]) + [event] && c.dropped == s.channels[id].dropped
  {
    ConcatAssociates(s.channels[id].received, s.channels[id].buffer, [event]);
  }

  /** An event is dropped exactly when a subscriber still has a full channel of earlier ones. */
  lemma DroppedIff<E>(s: FanoutState<E>, op: FanoutOp<E>, id: nat)
    requires Inv(s) && id in s.channels
    ensures id in Step(s, op).channels
    ensures Step(s, op).channels[id].dropped == s.channels[id].dropped +
      if op.Publish? && id in s.subs && |s.channels[id].buffer| >= CHANNEL_CAPACITY then 1 else 0
  {
    assert id < s.made;
  }

  /** While what is waiting and what is published fit the channel, a subscriber misses nothing of a run. */
  lemma {:induction false} NothingMissedWhileRoom<E>(s: FanoutState<E>, ops: seq<FanoutOp<E>>, id: nat)
    requires Inv(s) && id in s.subs && forall i :: 0 <= i < |ops| ==> !Cancels(ops[i], id)
    requires |s.channels[id].buffer| + |Published(ops)| <= CHANNEL_CAPACITY
    ensures id in Run(s, ops).subs && id in Run(s, ops).channels
    ensures Stream(Run(s, ops).channels[id]) == Stream(s.channels[id]) + Published(ops)
    ensures Run(s, ops).channels[id].dropped == s.channels[id].dropped
    decreases |ops|
  {
    if ops != [] {
      var op, rest := ops[0], ops[1..];
      StepKeepsInv(s, op);
      OfferedByStep(s, op, id);
      DroppedIff(s, op, id);
      StreamGrows(s, op, id);
      assert forall i :: 0 <= i < |rest| ==> rest[i] == ops[i + 1];
      NothingMissedWhileRoom(Step(s, op), rest, id);
      ConcatAssociates(Stream(s.channels[id]), Events(op), Published(rest));
    }
  }

  lemma StreamGrows<E>(s: FanoutState<E>, op: FanoutOp<E>, id: nat)
    requires Inv(s) && id in s.subs && !Cancels(op, id)
    requires |s.channels[id].buffer| + |Events(op)| <= CHANNEL_CAPACITY
    ensures var c := Step(s, op).channels[id];
      Stream(c) == Stream(s.channels[id]) + Events(op) && |c.buffer| <= |s.channels[id].buffer| + |Events(op)|
  {
    assert id < s.made;
    match op
    case Publish(event) => RoomMeansDelivered(s, event, id);
    case Receive(_) => TakingKeepsStream(s.channels[id]);
    case _ =>
  }

  lemma TakingKeepsStream<E>(c: Sub<E>)
    ensures Stream(Take(c)) == Stream(c)
  {
    if c.buffer != [] {
      assert c.received + [c.buffer[0]] + c.buffer[1..] == c.received + c.buffer;
    }
  }

  /** Taking hands over the event that waited longest, once; a new subscriber starts empty and a cancel closes. */
  lemma SubscriptionSteps<E>(s: FanoutState<E>, id: nat)
    requires Inv(s)
    ensures id in s.channels && s.channels[id].buffer != [] ==>
      var c, d := s.channels[id], Step(s, Receive(id)).channels[id];
      && d.received == c.received + [c.buffer[0]]
      && |d.buffer| == |c.buffer| - 1
      && Stream(d) == Stream(c)
    ensures s.made in Step(s, Subscribe).subs && Stream(Step(s, Subscribe).channels[s.made]) == []
    ensures id in s.subs ==> id !in Step(s, Unsubscribe(id)).subs && !Step(s, Unsubscribe(id)).channels[id].open
  {
    if id in s.channels && s.channels[id].buffer != [] {
      var c := s.channels[id];
      assert c.received + [c.buffer[0]] + c.buffer[1..] == c.received + c.buffer;
    }
  }

  // --- the objects ---

  class Channel<E> {
    var buffer: seq<E>
    var closed: bool
    ghost var offered: seq<E>
    ghost var received: seq<E>
    ghost var dropped: nat

    ghost function State(): Sub<E>
      reads this
    {
      Sub(buffer, !closed, offered, received, dropped)
    }

    constructor ()
      ensures State() == NewSub()
    {
      buffer, closed, offered, received, dropped := [], false, [], [], 0;
    }

    /** Sending on a closed channel would panic, so callers must rule it out. */
    method TrySend(event: E)
      requires !closed
      modifies this
      ensures State() == Offer(old(State()), event)
    {
      offered := offered + [event];
      if |buffer| < CHANNEL_CAPACITY {
        buffer := buffer + [event];
      } else {
        dropped := dropped + 1;
      }
    }

    method Receive() returns (event: Option<E>)
      modifies this
      ensures State() == Take(old(State()))
      ensures event == if old(buffer) == [] then None else Some(old(buffer)[0])
    {
      if buffer == [] {
        return None;
      }
      event := Some(buffer[0]);
      received := received + [buffer[0]];
      buffer := buffer[1..];
    }

    method Close()
      requires !closed
      modifies this
      ensures State() == old(State()).(open := false)
    {
      closed := true;
    }
  }

  class Fanout<E(!new)> {
    var subs: set<Channel<E>>
    ghost var made: seq<Channel<E>>

    ghost function Subscribed(): set<nat>
      reads this
    {
      set i: nat | i < |made| && made[i] in subs
    }

    ghost function Channels(): map<nat, Sub<E>>
      reads this, made
    {
      map i: nat | i < |made| :: made[i].State()
    }

    /** Channels are numbered as they were made. */
    ghost function State(): FanoutState<E>
      reads this, made
    {
      FanoutState(Subscribed(), Channels(), |made|, false)
    }

    ghost predicate Numbered()
      reads this
    {
      (forall ch :: ch in subs ==> ch in made) && (forall i, j :: 0 <= i < j < |made| ==> made[i] != made[j])
    }

    ghost predicate Valid()
      reads this, made
    {
      Numbered() && Inv(State())
    }

    lemma OpenWhileSubscribed(i: nat)
      requires Valid() && i < |made|
      ensures made[i].closed <==> made[i] !in subs
    {
      assert i in Channels() && (Channels()[i].open <==> i in Subscribed());
    }

    constructor ()
      ensures Valid() && State() == NoSubscribers() && made == []
    {
      subs, made := {}, [];
    }

    method Subscribe() returns (ch: Channel<E>)
      requires Valid()
      modifies this
      ensures Valid() && fresh(ch) && made == old(made) + [ch] && subs == old(subs) + {ch}
      ensures State() == Step(old(State()), FanoutOp.Subscribe)
    {
      StepKeepsInv(State(), FanoutOp.Subscribe);
      ch := new Channel<E>();
      subs, made := subs + {ch}, made + [ch];
      assert Subscribed() == old(Subscribed()) + {old(|made|)};
      assert Channels() == old(Channels())[old(|made|) := ch.State()];
    }

    method Drop(ch: Channel<E>, ghost id: nat)
      requires Numbered() && id < |made| && made[id] == ch && !ch.closed
      modifies this`subs, ch
      ensures subs == old(subs) - {ch} && Numbered() && Subscribed() == old(Subscribed()) - {id}
      ensures Channels() == old(Channels())[id := old(ch.State()).(open := false)]
    {
      subs := subs - {ch};
      ch.Close();
    }

    /** Harmless when repeated: only a channel still subscribed is closed. */
    method Unsubscribe(ch: Channel<E>, ghost id: nat)
      requires Valid() && id < |made| && made[id] == ch
      modifies this`subs, ch
      ensures Valid() && made == old(made) && subs == old(subs) - {ch}
      ensures State() == Step(old(State()), FanoutOp.Unsubscribe(id))
    {
      StepKeepsInv(State(), FanoutOp.Unsubscribe(id));
      OpenWhileSubscribed(id);
      if ch in subs {
        Drop(ch, id);
      }
    }

    /** A subscriber takes the next event, if there is one. */
    method Receive(ch: Channel<E>, ghost id: nat) returns (event: Option<E>)
      requires Valid() && id < |made| && made[id] == ch
      modifies ch
      ensures Valid() && made == old(made) && subs == old(subs)
      ensures State() == Step(old(State()), FanoutOp.Receive(id))
      ensures event == if old(ch.buffer) == [] then None else Some(old(ch.buffer)[0])
    {
      StepKeepsInv(State(), FanoutOp.Receive(id));
      event := TakeFrom(ch, id);
    }

    method TakeFrom(ch: Channel<E>, ghost id: nat) returns (event: Option<E>)
      requires Numbered() && id < |made| && made[id] == ch
      modifies ch
      ensures Channels() == old(Channels())[id := Take(old(ch.State()))]
      ensures event == if old(ch.buffer) == [] then None else Some(old(ch.buffer)[0])
    {
      event := ch.Receive();
    }

    /** What a pass over some of the subscribers has done to channel i. */
    ghost predicate Offered(i: nat, rest: set<Channel<E>>, event: E, before: Sub<E>)
      requires i < |made|
      reads this, made
    {
      made[i].State() == if made[i] in subs && made[i] !in rest then Offer(before, event) else before
    }

    /** The pass over the subscribers. */
    method OfferAll(event: E)
      requires forall ch :: ch in subs ==> !ch.closed
      modifies subs
      ensures forall i :: 0 <= i < |made| ==> Offered(i, {}, event, old(made[i].State()))
    {
      var rest := subs;
      while rest != {}
        invariant rest <= subs
        invariant forall ch :: ch in rest ==> !ch.closed
        invariant forall i :: 0 <= i < |made| ==> Offered(i, rest, event, old(made[i].State()))
        decreases rest
      {
        var ch :| ch in rest;
        ch.TrySend(event);
        rest := rest - {ch};
      }
    }

    /** Offers the event to every subscriber, in whatever order they come. */
    method Publish(event: E)
      requires Valid()
      modifies subs
      ensures Valid() && made == old(made) && subs == old(subs)
      ensures State() == Step(old(State()), FanoutOp.Publish(event))
    {
      StepKeepsInv(State(), FanoutOp.Publish(event));
      forall i | 0 <= i < |made| ensures made[i].closed <==> made[i] !in subs {
        OpenWhileSubscribed(i);
      }
      OfferAll(event);
      assert forall i :: 0 <= i < |made| ==> Offered(i, {}, event, old(made[i].State()));
      assert Channels() == Step(old(State()), FanoutOp.Publish(event)).channels;
    }
  }
}
