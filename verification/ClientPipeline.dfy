/**
 * The client's way from the channels to the actor: channel tasks, bridge loop, connector and runtime,
 * joined by unbounded queues and interleaved in any way.
 */
module ClientPipeline {
  import opened Wrappers

  datatype BridgeEvent<M> = Connected | Message(message: M) | Disconnected

  // A decoded message and the channel it was decoded on.
  datatype Tagged<M> = Tagged(channel: nat, message: M)

  datatype ChannelEvent<M> = Decoded(message: Tagged<M>) | ChannelLost

  datatype Stage = Starting | Forwarding | Done

  datatype Pipeline<M> = Pipeline(
    openCount: nat,                               // channels opened so far
    running: set<nat>,                         // channel tasks still running
    decoded: seq<Tagged<M>>,                   // everything the channel tasks have decoded
    channelQueue: seq<ChannelEvent<M>>,        // channel tasks -> bridge loop
    bridge: Stage,
    bridgeQueue: seq<BridgeEvent<Tagged<M>>>,  // bridge loop -> connector
    connector: Stage,
    runtimeQueue: seq<BridgeEvent<Tagged<M>>>, // connector -> runtime
    handled: seq<BridgeEvent<Tagged<M>>>)      // server events the actor has handled

  datatype Step<M> =
    | OpenChannel
    | OpenFails
    | BridgeConnects
    | Decode(message: Tagged<M>)
    | LoseChannel(channel: nat)   // read error, end of stream, failed write or bad frame
    | QuitChannel(channel: nat)   // every sender for the channel is gone
    | BridgeForwards
    | ConnectorStarts
    | ConnectorForwards
    | ConnectorSeesEnd            // the bridge loop has ended and its queue is drained
    | ConnectorQuits              // the runtime or every server sender is gone
    | Handle

  function Start<M>(): Pipeline<M> {
    Pipeline(0, {}, [], [], Starting, [], Starting, [], [])
  }

  predicate Enabled<M>(channels: nat, p: Pipeline<M>, step: Step<M>) {
    match step
    case OpenChannel => p.bridge.Starting? && p.openCount < channels
    case OpenFails => p.bridge.Starting? && p.openCount < channels
    case BridgeConnects => p.bridge.Starting? && p.openCount == channels
    case Decode(message) => message.channel in p.running
    case LoseChannel(channel) => channel in p.running
    case QuitChannel(channel) => channel in p.running
    case BridgeForwards => p.bridge.Forwarding? && p.channelQueue != []
    case ConnectorStarts => p.connector.Starting?
    case ConnectorForwards => p.connector.Forwarding? && p.bridgeQueue != []
    case ConnectorSeesEnd => p.connector.Forwarding? && p.bridgeQueue == [] && p.bridge.Done?
    case ConnectorQuits => !p.connector.Done?
    case Handle => p.runtimeQueue != []
  }

  // The bridge loop ends: its receiver for channel events is dropped.
  function BridgeEnds<M>(p: Pipeline<M>): Pipeline<M> {
    p.(bridge := Done, channelQueue := [])
  }

  // The connector ends: its receiver for bridge events is dropped.
  function ConnectorEnds<M>(p: Pipeline<M>): Pipeline<M> {
    p.(connector := Done, bridgeQueue := [])
  }

  // Sends to a dropped receiver go nowhere.
  function ToBridge<M>(p: Pipeline<M>, e: ChannelEvent<M>): Pipeline<M> {
    if p.bridge.Done? then p else p.(channelQueue := p.channelQueue + [e])
  }

  function ToConnector<M>(p: Pipeline<M>, e: BridgeEvent<Tagged<M>>): Pipeline<M> {
    if p.connector.Done? then p else p.(bridgeQueue := p.bridgeQueue + [e])
  }

  function ToRuntime<M>(p: Pipeline<M>, e: BridgeEvent<Tagged<M>>): Pipeline<M> {
    p.(runtimeQueue := p.runtimeQueue + [e])
  }

  function After<M>(channels: nat, p: Pipeline<M>, step: Step<M>): Pipeline<M>
    requires Enabled(channels, p, step)
  {
    match step
    case OpenChannel => p.(running := p.running + {p.openCount}, openCount := p.openCount + 1)
    case OpenFails => BridgeEnds(ToConnector(p, Disconnected))
    case BridgeConnects =>
      if p.connector.Done? then BridgeEnds(p) else ToConnector(p, Connected).(bridge := Forwarding)
    case Decode(message) => ToBridge(p.(decoded := p.decoded + [message]), Decoded(message))
    case LoseChannel(channel) => ToBridge(p.(running := p.running - {channel}), ChannelLost)
    case QuitChannel(channel) => p.(running := p.running - {channel})
    case BridgeForwards =>
      var rest := p.(channelQueue := p.channelQueue[1..]);
      (match p.channelQueue[0]
       case ChannelLost => BridgeEnds(ToConnector(rest, Disconnected))
       case Decoded(message) => if p.connector.Done? then BridgeEnds(rest) else ToConnector(rest, Message(message)))
    case ConnectorStarts => ToRuntime(p, Connected).(connector := Forwarding)
    case ConnectorForwards =>
      var rest := p.(bridgeQueue := p.bridgeQueue[1..]);
      (match p.bridgeQueue[0]
       case Connected => rest
       case Message(message) => ToRuntime(rest, Message(message))
       case Disconnected => ConnectorEnds(ToRuntime(rest, Disconnected)))
    case ConnectorSeesEnd => ConnectorEnds(ToRuntime(p, Disconnected))
    case ConnectorQuits => ConnectorEnds(p)
    case Handle => p.(runtimeQueue := p.runtimeQueue[1..], handled := p.handled + [p.runtimeQueue[0]])
  }

  predicate Possible<M>(channels: nat, steps: seq<Step<M>>)
    decreases |steps|, 0
  {
    steps != [] ==>
      var n := |steps| - 1;
      Possible(channels, steps[..n]) && Enabled(channels, Reached(channels, steps[..n]), steps[n])
  }

  function Reached<M>(channels: nat, steps: seq<Step<M>>): Pipeline<M>
    requires Possible(channels, steps)
    decreases |steps|, 1
  {
    if steps == [] then Start() else After(channels, Reached(channels, steps[..|steps| - 1]), steps[|steps| - 1])
  }

  // ---------- the event grammar ----------

  // What has been given to the runtime, handled or not.
  function Delivered<M>(p: Pipeline<M>): seq<BridgeEvent<Tagged<M>>> {
    p.handled + p.runtimeQueue
  }

  // `Connected`, then messages.
  predicate Session<M>(events: seq<BridgeEvent<M>>) {
    && events != [] && events[0].Connected?
    && forall i | 1 <= i < |events| :: events[i].Message?
  }

  // A beginning of `Connected Message* Disconnected`.
  predicate Grammatical<M>(events: seq<BridgeEvent<M>>) {
    events != [] ==>
      Session(events) || (events[|events| - 1].Disconnected? && Session(events[..|events| - 1]))
  }

  ghost predicate Speaks<M>(p: Pipeline<M>) {
    match p.connector
    case Starting => Delivered(p) == []
    case Forwarding => Session(Delivered(p))
    case Done => Grammatical(Delivered(p))
  }

  lemma HandlingKeepsDelivered<M>(p: Pipeline<M>)
    requires p.runtimeQueue != []
    ensures p.handled + [p.runtimeQueue[0]] + p.runtimeQueue[1..] == Delivered(p)
  {
  }

  lemma SendingExtendsDelivered<M>(p: Pipeline<M>, e: BridgeEvent<Tagged<M>>)
    ensures Delivered(ToRuntime(p, e)) == Delivered(p) + [e]
  {
  }

  lemma StepKeepsSpeaking<M>(channels: nat, p: Pipeline<M>, step: Step<M>)
    requires Enabled(channels, p, step) && Speaks(p)
    ensures Speaks(After(channels, p, step))
  {
    var d := Delivered(p);
    match step {
      case Handle => HandlingKeepsDelivered(p);
      case ConnectorStarts =>
        assert Delivered(After(channels, p, step)) == [Connected] by { SendingExtendsDelivered(p, Connected); }
      case ConnectorForwards =>
        match p.bridgeQueue[0] {
          case Connected =>
          case Message(message) =>
            assert Delivered(After(channels, p, step)) == d + [Message(message)];
          case Disconnected =>
            assert Delivered(After(channels, p, step)) == d + [Disconnected];
            assert (d + [Disconnected])[..|d|] == d;
        }
      case ConnectorSeesEnd =>
        assert Delivered(After(channels, p, step)) == d + [Disconnected];
        assert (d + [Disconnected])[..|d|] == d;
      case _ => assert Delivered(After(channels, p, step)) == d;
    }
  }

  // ---------- the loss is told ----------

  predicate EndsInDisconnected<M>(events: seq<BridgeEvent<M>>) {
    events != [] && events[|events| - 1].Disconnected?
  }

  predicate NoDisconnected<M>(events: seq<BridgeEvent<M>>) {
    forall i | 0 <= i < |events| :: !events[i].Disconnected?
  }

  predicate LossQueued<M>(events: seq<ChannelEvent<M>>) {
    exists i | 0 <= i < |events| :: events[i].ChannelLost?
  }

  // A connector that ends of itself gives the runtime a last `Disconnected`.
  lemma EndIsTold<M>(channels: nat, p: Pipeline<M>, step: Step<M>)
    requires Enabled(channels, p, step)
    requires step.ConnectorSeesEnd? || (step.ConnectorForwards? && p.bridgeQueue[0].Disconnected?)
    ensures After(channels, p, step).connector.Done? && After(channels, p, step).handled == p.handled
    ensures After(channels, p, step).runtimeQueue == p.runtimeQueue + [Disconnected]
  {
  }

  // A bridge loop that has ended has said so last; so has a connector, unless it quit.
  ghost predicate SaysGoodbye<M>(p: Pipeline<M>, quit: bool) {
    && (p.bridge.Done? && !p.connector.Done? ==> EndsInDisconnected(p.bridgeQueue))
    && (p.connector.Done? && !quit ==> EndsInDisconnected(Delivered(p)))
  }

  // A loss is queued until it ends the bridge loop.
  ghost predicate LossCounts<M>(p: Pipeline<M>, lost: bool) {
    lost ==> p.bridge.Done? || LossQueued(p.channelQueue)
  }

  // Without a loss nobody speaks of one.
  ghost predicate NoFalseAlarm<M>(p: Pipeline<M>, lost: bool) {
    !lost ==> NoDisconnected(p.bridgeQueue) && NoDisconnected(Delivered(p)) && !LossQueued(p.channelQueue)
  }

  predicate Loses<M>(step: Step<M>) {
    step.LoseChannel? || step.OpenFails?
  }

  lemma LossStaysQueued<M>(q: seq<ChannelEvent<M>>, e: ChannelEvent<M>)
    ensures LossQueued(q + [e]) <==> LossQueued(q) || e.ChannelLost?
    ensures q != [] ==> (LossQueued(q) <==> q[0].ChannelLost? || LossQueued(q[1..]))
  {
    if LossQueued(q) {
      var i :| 0 <= i < |q| && q[i].ChannelLost?;
      assert (q + [e])[i].ChannelLost?;
      assert i > 0 ==> q[1..][i - 1].ChannelLost?;
    }
    if e.ChannelLost? {
      assert (q + [e])[|q|].ChannelLost?;
    }
  }

  lemma WhatIsDelivered<M>(channels: nat, p: Pipeline<M>, step: Step<M>)
    requires Enabled(channels, p, step)
    ensures Delivered(After(channels, p, step)) == Delivered(p) +
              match step
              case ConnectorStarts => [Connected]
              case ConnectorForwards => if p.bridgeQueue[0].Connected? then [] else [p.bridgeQueue[0]]
              case ConnectorSeesEnd => [Disconnected]
              case _ => []
  {
    match step {
      case Handle => HandlingKeepsDelivered(p);
      case ConnectorStarts => SendingExtendsDelivered(p, Connected);
      case ConnectorForwards =>
        if !p.bridgeQueue[0].Connected? { SendingExtendsDelivered(p, p.bridgeQueue[0]); }
      case ConnectorSeesEnd => SendingExtendsDelivered(p, Disconnected);
      case _ =>
    }
  }

  lemma StepKeepsGoodbye<M>(channels: nat, p: Pipeline<M>, step: Step<M>, quit: bool)
    requires Enabled(channels, p, step) && SaysGoodbye(p, quit)
    ensures SaysGoodbye(After(channels, p, step), quit || step.ConnectorQuits?)
  {
    WhatIsDelivered(channels, p, step);
  }

  lemma StepKeepsCounting<M>(channels: nat, p: Pipeline<M>, step: Step<M>, lost: bool)
    requires Enabled(channels, p, step) && LossCounts(p, lost)
    ensures LossCounts(After(channels, p, step), lost || Loses(step))
  {
    match step {
      case Decode(m) => LossStaysQueued(p.channelQueue, Decoded(m));
      case LoseChannel(_) => LossStaysQueued(p.channelQueue, ChannelLost);
      case BridgeForwards => LossStaysQueued(p.channelQueue, ChannelLost);
      case _ =>
    }
  }

  lemma StepKeepsNoAlarm<M>(channels: nat, p: Pipeline<M>, step: Step<M>, lost: bool)
    requires Enabled(channels, p, step) && SaysGoodbye(p, true) && NoFalseAlarm(p, lost)
    ensures NoFalseAlarm(After(channels, p, step), lost || Loses(step))
  {
    WhatIsDelivered(channels, p, step);
    match step {
      case Decode(m) => LossStaysQueued(p.channelQueue, Decoded(m));
      case BridgeForwards => LossStaysQueued(p.channelQueue, ChannelLost);
      case _ =>
    }
  }

  predicate Lossy<M>(steps: seq<Step<M>>) {
    exists i | 0 <= i < |steps| :: Loses(steps[i])
  }

  predicate Quits<M>(steps: seq<Step<M>>) {
    exists i | 0 <= i < |steps| :: steps[i].ConnectorQuits?
  }

  lemma OneMoreStep<M>(steps: seq<Step<M>>)
    requires steps != []
    ensures var n := |steps| - 1;
            && (Lossy(steps) <==> Lossy(steps[..n]) || Loses(steps[n]))
            && (Quits(steps) <==> Quits(steps[..n]) || steps[n].ConnectorQuits?)
  {
    var n := |steps| - 1;
    if Lossy(steps[..n]) {
      var i :| 0 <= i < n && Loses(steps[..n][i]);
      assert Loses(steps[i]);
    }
    if Quits(steps[..n]) {
      var i :| 0 <= i < n && steps[..n][i].ConnectorQuits?;
      assert steps[i].ConnectorQuits?;
    }
    assert forall i | 0 <= i < n :: steps[i] == steps[..n][i];
  }

  lemma {:induction false} EveryRunTells<M>(channels: nat, steps: seq<Step<M>>)
    requires Possible(channels, steps)
    ensures SaysGoodbye(Reached(channels, steps), Quits(steps))
    ensures LossCounts(Reached(channels, steps), Lossy(steps)) && NoFalseAlarm(Reached(channels, steps), Lossy(steps))
    decreases |steps|
  {
    if steps == [] {
    } else {
      var n := |steps| - 1;
      var p := Reached(channels, steps[..n]);
      EveryRunTells(channels, steps[..n]);
      StepKeepsGoodbye(channels, p, steps[n], Quits(steps[..n]));
      StepKeepsCounting(channels, p, steps[n], Lossy(steps[..n]));
      StepKeepsNoAlarm(channels, p, steps[n], Lossy(steps[..n]));
      OneMoreStep(steps);
    }
  }

  // Bridge and connector have started and forwarded all they have, and the runtime has handled it.
  predicate Settled<M>(p: Pipeline<M>) {
    && !p.bridge.Starting? && (p.bridge.Forwarding? ==> p.channelQueue == [])
    && !p.connector.Starting? && (p.connector.Forwarding? ==> p.bridgeQueue == [])
    && p.runtimeQueue == []
  }

  // Whatever the interleaving, a loss is told, and told last: once all is forwarded, and unless somebody
  // quit, the actor has handled a `Disconnected` exactly if a channel was lost or failed to open; if none
  // was, it has handled every message decoded.
  lemma LossIsToldInTheEnd<M>(channels: nat, steps: seq<Step<M>>)
    requires Possible(channels, steps) && !Quits(steps) && Settled(Reached(channels, steps))
    ensures var handled := Reached(channels, steps).handled;
            && (Lossy(steps) ==> EndsInDisconnected(handled))
            && (!Lossy(steps) ==> NoDisconnected(handled))
            && (!Lossy(steps) ==> MessagesIn(handled) == Reached(channels, steps).decoded)
  {
    var p := Reached(channels, steps);
    EveryRunTells(channels, steps);
    EveryRunSpeaksInOrder(channels, steps);
    assert Delivered(p) == p.handled;
  }

  // The connector never has to notice for itself that the bridge loop has ended: it is told before.
  lemma BridgeSaysGoodbye<M>(channels: nat, steps: seq<Step<M>>)
    requires Possible(channels, steps)
    ensures !Enabled(channels, Reached(channels, steps), ConnectorSeesEnd)
  {
    EveryRunTells(channels, steps);
  }

  // ---------- order and loss ----------

  function MessagesIn<M>(events: seq<BridgeEvent<Tagged<M>>>): seq<Tagged<M>> {
    if events == [] then []
    else MessagesIn(events[..|events| - 1]) + if events[|events| - 1].Message? then [events[|events| - 1].message]
        else []
  }

  function DecodedIn<M>(events: seq<ChannelEvent<M>>): seq<Tagged<M>> {
    if events == [] then []
    else DecodedIn(events[..|events| - 1]) + if events[|events| - 1].Decoded? then [events[|events| - 1].message]
        else []
  }

  lemma {:induction false} MessagesConcat<M>(a: seq<BridgeEvent<Tagged<M>>>, b: seq<BridgeEvent<Tagged<M>>>)
    ensures MessagesIn(a + b) == MessagesIn(a) + MessagesIn(b)
    decreases |b|
  {
    if b == [] {
      assert a + b == a;
    } else {
      var n := |b| - 1;
      assert (a + b)[..|a + b| - 1] == a + b[..n];
      MessagesConcat(a, b[..n]);
    }
  }

  lemma {:induction false} DecodedConcat<M>(a: seq<ChannelEvent<M>>, b: seq<ChannelEvent<M>>)
    ensures DecodedIn(a + b) == DecodedIn(a) + DecodedIn(b)
    decreases |b|
  {
    if b == [] {
      assert a + b == a;
    } else {
      var n := |b| - 1;
      assert (a + b)[..|a + b| - 1] == a + b[..n];
      DecodedConcat(a, b[..n]);
    }
  }

  // Messages on their way to the actor, oldest first.
  function OnTheWay<M>(p: Pipeline<M>): seq<Tagged<M>> {
    MessagesIn(Delivered(p)) + MessagesIn(p.bridgeQueue) + if p.connector.Done? then [] else DecodedIn(p.channelQueue)
  }

  // Nothing overtakes and nothing is lost in between: what has been handled and what is on its way is
  // a beginning of what was decoded, and all of it while bridge and connector are both there.
  ghost predicate InOrder<M>(p: Pipeline<M>) {
    && OnTheWay(p) <= p.decoded
    && (!p.bridge.Done? && !p.connector.Done? ==> OnTheWay(p) == p.decoded)
  }

  // Queues without a receiver are empty.
  ghost predicate ClosedQueuesAreEmpty<M>(p: Pipeline<M>) {
    (p.bridge.Done? ==> p.channelQueue == []) && (p.connector.Done? ==> p.bridgeQueue == [])
  }

  lemma MessagesSnoc<M>(a: seq<BridgeEvent<Tagged<M>>>, e: BridgeEvent<Tagged<M>>)
    ensures MessagesIn(a + [e]) == MessagesIn(a) + if e.Message? then [e.message] else []
  {
    assert (a + [e])[..|a|] == a;
  }

  lemma MessagesHead<M>(q: seq<BridgeEvent<Tagged<M>>>)
    requires q != []
    ensures MessagesIn(q) == (if q[0].Message? then [q[0].message] else []) + MessagesIn(q[1..])
  {
    assert q == [q[0]] + q[1..];
    MessagesConcat([q[0]], q[1..]);
    MessagesSnoc([], q[0]);
    assert [] + [q[0]] == [q[0]];
  }

  lemma DecodedSnoc<M>(a: seq<ChannelEvent<M>>, e: ChannelEvent<M>)
    ensures DecodedIn(a + [e]) == DecodedIn(a) + if e.Decoded? then [e.message] else []
  {
    assert (a + [e])[..|a|] == a;
  }

  lemma DecodedHead<M>(q: seq<ChannelEvent<M>>)
    requires q != []
    ensures DecodedIn(q) == (if q[0].Decoded? then [q[0].message] else []) + DecodedIn(q[1..])
  {
    assert q == [q[0]] + q[1..];
    DecodedConcat([q[0]], q[1..]);
    DecodedSnoc([], q[0]);
    assert [] + [q[0]] == [q[0]];
  }

  lemma DecodeKeepsOrder<M>(channels: nat, p: Pipeline<M>, m: Tagged<M>)
    requires Enabled(channels, p, Decode(m)) && InOrder(p) && ClosedQueuesAreEmpty(p)
    ensures InOrder(After(channels, p, Decode(m)))
  {
    DecodedSnoc(p.channelQueue, Decoded(m));
    if !p.bridge.Done? && !p.connector.Done? {
      ConcatAssociative(MessagesIn(Delivered(p)) + MessagesIn(p.bridgeQueue), DecodedIn(p.channelQueue), [m]);
    }
  }

  lemma BridgeKeepsOrder<M>(channels: nat, p: Pipeline<M>)
    requires Enabled(channels, p, BridgeForwards) && InOrder(p) && ClosedQueuesAreEmpty(p)
    ensures InOrder(After(channels, p, BridgeForwards))
  {
    var d, b, c := MessagesIn(Delivered(p)), MessagesIn(p.bridgeQueue), DecodedIn(p.channelQueue[1..]);
    DecodedHead(p.channelQueue);
    match p.channelQueue[0] {
      case ChannelLost => MessagesSnoc(p.bridgeQueue, Disconnected);
      case Decoded(m) =>
        MessagesSnoc(p.bridgeQueue, Message(m));
        ConcatAssociative(d + b, [m], c);
        ConcatAssociative(d, b, [m]);
    }
  }

  lemma ConnectorPassesMessage<M>(channels: nat, p: Pipeline<M>)
    requires Enabled(channels, p, ConnectorForwards) && p.bridgeQueue[0].Message?
    ensures OnTheWay(After(channels, p, ConnectorForwards)) == OnTheWay(p)
  {
    var e := p.bridgeQueue[0];
    MessagesHead(p.bridgeQueue);
    assert Delivered(After(channels, p, ConnectorForwards)) == Delivered(p) + [e];
    MessagesSnoc(Delivered(p), e);
    ConcatAssociative(MessagesIn(Delivered(p)), [e.message], MessagesIn(p.bridgeQueue[1..]));
  }

  lemma ConnectorSkipsConnected<M>(channels: nat, p: Pipeline<M>)
    requires Enabled(channels, p, ConnectorForwards) && p.bridgeQueue[0].Connected?
    ensures OnTheWay(After(channels, p, ConnectorForwards)) == OnTheWay(p)
  {
    MessagesHead(p.bridgeQueue);
    assert [] + MessagesIn(p.bridgeQueue[1..]) == MessagesIn(p.bridgeQueue[1..]);
  }

  // Only what had already been given to the runtime is left.
  lemma ConnectorEndsOrderly<M>(p: Pipeline<M>)
    ensures OnTheWay(ConnectorEnds(p)) == MessagesIn(Delivered(p)) <= OnTheWay(p)
  {
    assert MessagesIn<M>([]) == [];
  }

  lemma OneMoreDelivered<M>(p: Pipeline<M>, e: BridgeEvent<Tagged<M>>)
    requires !e.Message?
    ensures OnTheWay(ToRuntime(p, e)) == OnTheWay(p)
  {
    SendingExtendsDelivered(p, e);
    MessagesSnoc(Delivered(p), e);
    assert MessagesIn(Delivered(p)) + [] == MessagesIn(Delivered(p));
  }

  lemma ConnectorKeepsOrder<M>(channels: nat, p: Pipeline<M>)
    requires Enabled(channels, p, ConnectorForwards) && InOrder(p)
    ensures InOrder(After(channels, p, ConnectorForwards))
  {
    match p.bridgeQueue[0] {
      case Connected => ConnectorSkipsConnected(channels, p);
      case Message(m) => ConnectorPassesMessage(channels, p);
      case Disconnected =>
        ConnectorEndsOrderly(ToRuntime(p, Disconnected));
        OneMoreDelivered(p, Disconnected);
        var rest := ToRuntime(p.(bridgeQueue := p.bridgeQueue[1..]), Disconnected);
        ConnectorEndsOrderly(rest);
        assert Delivered(rest) == Delivered(ToRuntime(p, Disconnected));
    }
  }

  lemma OneMoreQueued<M>(p: Pipeline<M>, e: BridgeEvent<Tagged<M>>)
    requires !e.Message?
    ensures OnTheWay(ToConnector(p, e)) == OnTheWay(p)
  {
    MessagesSnoc(p.bridgeQueue, e);
    assert MessagesIn(p.bridgeQueue) + [] == MessagesIn(p.bridgeQueue);
  }

  lemma BridgeEndsOrderly<M>(p: Pipeline<M>)
    ensures OnTheWay(BridgeEnds(p)) <= OnTheWay(p)
  {
    assert DecodedIn<M>([]) == [];
  }

  lemma LostIsNoMessage<M>(p: Pipeline<M>)
    ensures OnTheWay(ToBridge(p, ChannelLost)) == OnTheWay(p)
  {
    DecodedSnoc(p.channelQueue, ChannelLost);
    assert DecodedIn(p.channelQueue) + [] == DecodedIn(p.channelQueue);
  }

  lemma StepKeepsOrder<M>(channels: nat, p: Pipeline<M>, step: Step<M>)
    requires Enabled(channels, p, step) && InOrder(p) && ClosedQueuesAreEmpty(p)
    ensures InOrder(After(channels, p, step))
  {
    match step {
      case Decode(m) => DecodeKeepsOrder(channels, p, m);
      case BridgeForwards => BridgeKeepsOrder(channels, p);
      case ConnectorForwards => ConnectorKeepsOrder(channels, p);
      case LoseChannel(channel) => LostIsNoMessage(p.(running := p.running - {channel}));
      case OpenFails =>
        OneMoreQueued(p, Disconnected);
        BridgeEndsOrderly(ToConnector(p, Disconnected));
      case BridgeConnects =>
        if p.connector.Done? { BridgeEndsOrderly(p); } else { OneMoreQueued(p, Connected); }
      case Handle => HandlingKeepsDelivered(p);
      case ConnectorStarts => OneMoreDelivered(p, Connected);
      case ConnectorSeesEnd =>
        OneMoreDelivered(p, Disconnected);
        ConnectorEndsOrderly(ToRuntime(p, Disconnected));
      case ConnectorQuits => ConnectorEndsOrderly(p);
      case _ =>
    }
  }

  lemma StepKeepsClosedQueues<M>(channels: nat, p: Pipeline<M>, step: Step<M>)
    requires Enabled(channels, p, step) && ClosedQueuesAreEmpty(p)
    ensures ClosedQueuesAreEmpty(After(channels, p, step))
  {
  }

  lemma {:induction false} EveryRunSpeaksInOrder<M>(channels: nat, steps: seq<Step<M>>)
    requires Possible(channels, steps)
    ensures Speaks(Reached(channels, steps)) && InOrder(Reached(channels, steps))
            && ClosedQueuesAreEmpty(Reached(channels, steps))
    decreases |steps|
  {
    if steps == [] {
    } else {
      var n := |steps| - 1;
      var p := Reached(channels, steps[..n]);
      EveryRunSpeaksInOrder(channels, steps[..n]);
      StepKeepsSpeaking(channels, p, steps[n]);
      StepKeepsOrder(channels, p, steps[n]);
      StepKeepsClosedQueues(channels, p, steps[n]);
    }
  }

  lemma SessionIsGrammatical<M>(p: Pipeline<M>)
    requires Speaks(p)
    ensures Grammatical(Delivered(p))
  {
  }

  // The server events the actor has handled are a beginning of `Connected Message* Disconnected`.
  lemma HandledIsGrammatical<M>(channels: nat, steps: seq<Step<M>>)
    requires Possible(channels, steps)
    ensures Grammatical(Reached(channels, steps).handled)
  {
    var p := Reached(channels, steps);
    EveryRunSpeaksInOrder(channels, steps);
    assert p.handled == Delivered(p)[..|p.handled|];
    BeginningIsGrammatical(Delivered(p), |p.handled|);
  }

  lemma SessionBeginning<M>(events: seq<BridgeEvent<M>>, k: nat)
    requires Session(events) && 0 < k <= |events|
    ensures Session(events[..k])
  {
    assert forall i | 0 <= i < k :: events[..k][i] == events[i];
  }

  lemma BeginningIsGrammatical<M>(events: seq<BridgeEvent<M>>, k: nat)
    requires Grammatical(events) && k <= |events|
    ensures Grammatical(events[..k])
  {
    if k == |events| {
      assert events[..k] == events;
    } else if k > 0 {
      var n := |events| - 1;
      var session := if Session(events) then events else events[..n];
      assert events[..k] == session[..k];
      SessionBeginning(session, k);
    }
  }

  function OnChannel<M>(messages: seq<Tagged<M>>, channel: nat): seq<M> {
    if messages == [] then []
    else
      OnChannel(messages[..|messages| - 1], channel)
      + if messages[|messages| - 1].channel == channel then [messages[|messages| - 1].message] else []
  }

  lemma {:induction false} OnChannelPrefix<M>(a: seq<Tagged<M>>, b: seq<Tagged<M>>, channel: nat)
    requires a <= b
    ensures OnChannel(a, channel) <= OnChannel(b, channel)
    decreases |b|
  {
    if |a| == |b| {
      assert a == b;
    } else {
      OnChannelPrefix(a, b[..|b| - 1], channel);
    }
  }

  // Each channel's messages are handled in the order they were decoded, without gaps.
  lemma HandledInDecodeOrder<M>(channels: nat, steps: seq<Step<M>>, channel: nat)
    requires Possible(channels, steps)
    ensures var p := Reached(channels, steps);
            OnChannel(MessagesIn(p.handled), channel) <= OnChannel(p.decoded, channel)
  {
    var p := Reached(channels, steps);
    EveryRunSpeaksInOrder(channels, steps);
    MessagesConcat(p.handled, p.runtimeQueue);
    OnChannelPrefix(MessagesIn(p.handled), p.decoded, channel);
  }
}
