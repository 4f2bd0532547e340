/**
 * The client actor runtime: three inbound queues, one actor, polled or run.
 *
 * The actor is any pure function of its state; `log` records what was handled, in order.  Handling a
 * self-sent message may send another, so draining the self queue need not end: `fuel` bounds how many
 * are handled per poll.
 */
module Runtime {
  import opened Wrappers
  import opened ClientPipeline

  datatype Source = Server | Internal | Local

  datatype Content<M> = Connection | Loss | Payload(message: M)

  datatype Output<M> = ToServer(message: M) | ToSelf(message: M)

  datatype Actor<!S, !M> = Actor(
    startup: S,
    handle: (S, Source, Content<M>) -> (S, seq<Output<M>>),
    shutdown: S -> S)

  datatype LogEntry<M> = Handled(source: Source, content: Content<M>) | ShutDown

  datatype Status = IsConnected | IsDisconnected

  // ---------- what a log means ----------

  function StateAfter<S, M>(actor: Actor<S, M>, log: seq<LogEntry<M>>): S {
    if log == [] then actor.startup
    else
      var s := StateAfter(actor, log[..|log| - 1]);
      match log[|log| - 1]
      case Handled(source, content) => actor.handle(s, source, content).0
      case ShutDown => actor.shutdown(s)
  }

  function Servers<M>(outputs: seq<Output<M>>): seq<M> {
    if outputs == [] then []
    else Servers(outputs[..|outputs| - 1]) + if outputs[|outputs| - 1].ToServer? then [outputs[|outputs| - 1].message]
        else []
  }

  function Selves<M>(outputs: seq<Output<M>>): seq<M> {
    if outputs == [] then []
    else Selves(outputs[..|outputs| - 1]) + if outputs[|outputs| - 1].ToSelf? then [outputs[|outputs| - 1].message]
        else []
  }

  // Everything the actor has put out.
  function OutputsOf<S, M>(actor: Actor<S, M>, log: seq<LogEntry<M>>): seq<Output<M>> {
    if log == [] then []
    else
      var before := log[..|log| - 1];
      OutputsOf(actor, before) +
        match log[|log| - 1]
        case Handled(source, content) => actor.handle(StateAfter(actor, before), source, content).1
        case ShutDown => []
  }

  function EventOf<M>(content: Content<M>): BridgeEvent<M> {
    match content
    case Connection => Connected
    case Loss => Disconnected
    case Payload(m) => Message(m)
  }

  function ContentOf<M>(event: BridgeEvent<M>): Content<M> {
    match event
    case Connected => Connection
    case Disconnected => Loss
    case Message(m) => Payload(m)
  }

  // The server events in a log.
  function ServerEvents<M>(log: seq<LogEntry<M>>): seq<BridgeEvent<M>> {
    if log == [] then []
    else
      var last := log[|log| - 1];
      ServerEvents(log[..|log| - 1]) + if last.Handled? && last.source.Server? then [EventOf(last.content)] else []
  }

  // The messages of another source in a log.
  function MessagesFrom<M>(log: seq<LogEntry<M>>, source: Source): seq<M> {
    if log == [] then []
    else
      var last := log[|log| - 1];
      MessagesFrom(log[..|log| - 1], source) + if last.Handled? && last.source == source
          && last.content.Payload? then [last.content.message] else []
  }

  predicate Quiet<M>(log: seq<LogEntry<M>>) {
    forall i | 0 <= i < |log| :: !log[i].ShutDown?
  }

  // Shut down once, at the very end.
  predicate Ended<M>(log: seq<LogEntry<M>>) {
    log != [] && log[|log| - 1].ShutDown? && Quiet(log[..|log| - 1])
  }

  lemma {:induction false} ServerEventsConcat<M>(a: seq<LogEntry<M>>, b: seq<LogEntry<M>>)
    ensures ServerEvents(a + b) == ServerEvents(a) + ServerEvents(b)
    decreases |b|
  {
    if b == [] {
      assert a + b == a;
    } else {
      assert (a + b)[..|a + b| - 1] == a + b[..|b| - 1];
      ServerEventsConcat(a, b[..|b| - 1]);
    }
  }

  lemma {:induction false} MessagesFromConcat<M>(a: seq<LogEntry<M>>, b: seq<LogEntry<M>>, source: Source)
    ensures MessagesFrom(a + b, source) == MessagesFrom(a, source) + MessagesFrom(b, source)
    decreases |b|
  {
    if b == [] {
      assert a + b == a;
    } else {
      assert (a + b)[..|a + b| - 1] == a + b[..|b| - 1];
      MessagesFromConcat(a, b[..|b| - 1], source);
    }
  }

  lemma {:induction false} OutputsConcat<M>(a: seq<Output<M>>, b: seq<Output<M>>)
    ensures Servers(a + b) == Servers(a) + Servers(b)
    ensures Selves(a + b) == Selves(a) + Selves(b)
    decreases |b|
  {
    if b == [] {
      assert a + b == a;
    } else {
      assert (a + b)[..|a + b| - 1] == a + b[..|b| - 1];
      OutputsConcat(a, b[..|b| - 1]);
    }
  }

  lemma OutputsOfOne<M>(m: M)
    ensures Servers([ToServer(m)]) == [m] && Selves([ToServer(m)]) == []
    ensures Selves([ToSelf(m)]) == [m] && Servers([ToSelf(m)]) == []
  {
    assert Servers<M>([]) == [] && Selves<M>([]) == [];
  }

  lemma OutputsSnoc<M>(outputs: seq<Output<M>>, i: nat)
    requires i < |outputs|
    ensures Servers(outputs[..i + 1]) == Servers(outputs[..i]) + if outputs[i].ToServer? then [outputs[i].message]
            else []
    ensures Selves(outputs[..i + 1]) == Selves(outputs[..i]) + if outputs[i].ToSelf? then [outputs[i].message] else []
  {
    assert outputs[..i + 1][..i] == outputs[..i];
  }

  // One more entry at the end of a log.
  lemma LogSnoc<S, M>(actor: Actor<S, M>, log: seq<LogEntry<M>>, source: Source, content: Content<M>)
    ensures var next := log + [Handled(source, content)];
            var (s, outputs) := actor.handle(StateAfter(actor, log), source, content);
            var messages := if content.Payload? then [content.message] else [];
            && StateAfter(actor, next) == s
            && OutputsOf(actor, next) == OutputsOf(actor, log) + outputs
            && ServerEvents(next) == ServerEvents(log) + (if source.Server? then [EventOf(content)] else [])
            && MessagesFrom(next, Internal) == MessagesFrom(log, Internal) + (if source.Internal? then messages else [])
            && MessagesFrom(next, Local) == MessagesFrom(log, Local) + (if source.Local? then messages else [])
  {
    assert (log + [Handled(source, content)])[..|log|] == log;
  }

  lemma ShutDownSnoc<S, M>(actor: Actor<S, M>, log: seq<LogEntry<M>>)
    ensures var next := log + [ShutDown];
            && StateAfter(actor, next) == actor.shutdown(StateAfter(actor, log))
            && OutputsOf(actor, next) == OutputsOf(actor, log)
            && ServerEvents(next) == ServerEvents(log)
            && MessagesFrom(next, Internal) == MessagesFrom(log, Internal)
            && MessagesFrom(next, Local) == MessagesFrom(log, Local)
  {
    assert (log + [ShutDown])[..|log|] == log;
    assert OutputsOf(actor, log) + [] == OutputsOf(actor, log);
  }

  // The two queues after the first `i` of some outputs have been sent.
  ghost predicate SentSoFar<M>(serverTx: seq<M>, selfRx: seq<M>, serverTx0: seq<M>, selfRx0: seq<M>,
      outputs: seq<Output<M>>)
  {
    serverTx == serverTx0 + Servers(outputs) && selfRx == selfRx0 + Selves(outputs)
  }

  // ---------- what a poll handles ----------

  // What handling events and local messages changes, besides the actor's own state.
  datatype View<M> = View(log: seq<LogEntry<M>>, bridgeRx: seq<BridgeEvent<M>>, localRx: seq<M>, connected: bool)

  // What the actor has sent itself and not handled yet.
  function Pending<S, M>(actor: Actor<S, M>, log: seq<LogEntry<M>>): seq<M> {
    var sent, handled := Selves(OutputsOf(actor, log)), MessagesFrom(log, Internal);
    if |handled| <= |sent| then sent[|handled|..] else []
  }

  // What handling one bridge event adds to the log.
  function EntriesFor<M>(event: BridgeEvent<M>): seq<LogEntry<M>> {
    [Handled(Server, ContentOf(event))] + if event.Disconnected? then [ShutDown] else []
  }

  lemma EventsAreToldAsTheyAre<M>(m: M)
    ensures EntriesFor(BridgeEvent<M>.Connected) == [Handled(Server, Connection)]
    ensures EntriesFor(Message(m)) == [Handled(Server, Payload(m))]
    ensures EntriesFor(BridgeEvent<M>.Disconnected) == [Handled(Server, Loss), ShutDown]
  {
  }

  // `while let Ok(event) = bridge_rx.try_recv()`, left at a disconnect
  function BridgeEntries<M>(bridgeRx: seq<BridgeEvent<M>>): seq<LogEntry<M>> {
    if bridgeRx == [] then []
    else EntriesFor(bridgeRx[0]) + if bridgeRx[0].Disconnected? then [] else BridgeEntries(bridgeRx[1..])
  }

  // The oldest self-sent message, as an entry.
  function NextOwn<S, M>(actor: Actor<S, M>): seq<LogEntry<M>> -> Option<LogEntry<M>> {
    log => if Pending(actor, log) == [] then None else Some(Handled(Internal, Payload(Pending(actor, log)[0])))
  }

  // What comes next, and so on, for at most `fuel` entries.
  function Drive<E>(next: seq<E> -> Option<E>, log: seq<E>, fuel: nat): (added: seq<E>)
    ensures |added| <= fuel
    decreases fuel
  {
    if fuel == 0 || next(log).None? then []
    else [next(log).value] + Drive(next, log + [next(log).value], fuel - 1)
  }

  // `while let Ok(msg) = self_rx.try_recv()`, for at most `fuel` messages
  function SelfEntries<S, M>(actor: Actor<S, M>, log: seq<LogEntry<M>>, fuel: nat): seq<LogEntry<M>> {
    Drive(NextOwn(actor), log, fuel)
  }

  // `while let Ok(msg) = local_rx.try_recv()`
  function LocalEntries<M>(localRx: seq<M>): seq<LogEntry<M>> {
    if localRx == [] then [] else [Handled(Local, Payload(localRx[0]))] + LocalEntries(localRx[1..])
  }

  // Bridge events; after a disconnect nothing else; then self-sent messages; and local ones once there
  // are no more of those.
  ghost function PollEntries<S, M>(actor: Actor<S, M>, log: seq<LogEntry<M>>, bridgeRx: seq<BridgeEvent<M>>,
      localRx: seq<M>, fuel: nat): seq<LogEntry<M>>
  {
    var bridge := BridgeEntries(bridgeRx);
    if Disconnected in bridgeRx then bridge
    else
      var self := SelfEntries(actor, log + bridge, fuel);
      bridge + (self + if Pending(actor, (log + bridge) + self) == [] then LocalEntries(localRx) else [])
  }

  // What `tokio::select!` picked: one of the three queues, or the bridge's end.
  datatype Wake = FromBridge | FromSelf | FromLocal | BridgeClosed

  predicate Wakes<M>(wake: Wake, bridgeRx: seq<BridgeEvent<M>>, selfRx: seq<M>, localRx: seq<M>) {
    match wake
    case FromBridge => bridgeRx != []
    case FromSelf => selfRx != []
    case FromLocal => localRx != []
    case BridgeClosed => bridgeRx == []
  }

  lemma PollWithLoss<S, M>(actor: Actor<S, M>, log: seq<LogEntry<M>>, bridgeRx: seq<BridgeEvent<M>>, localRx: seq<M>,
      fuel: nat, bridge: seq<LogEntry<M>>)
    requires Disconnected in bridgeRx && bridge == BridgeEntries(bridgeRx)
    ensures bridge + ([] + []) == bridge == PollEntries(actor, log, bridgeRx, localRx, fuel)
  {
  }

  lemma PollWithoutLoss<S, M>(actor: Actor<S, M>, log: seq<LogEntry<M>>, bridgeRx: seq<BridgeEvent<M>>, localRx: seq<M>,
      fuel: nat, bridge: seq<LogEntry<M>>, self: seq<LogEntry<M>>, local: seq<LogEntry<M>>)
    requires Disconnected !in bridgeRx && bridge == BridgeEntries(bridgeRx)
             && self == SelfEntries(actor, log + bridge, fuel)
    requires local == if Pending(actor, (log + bridge) + self) == [] then LocalEntries(localRx) else []
    ensures bridge + (self + local) == PollEntries(actor, log, bridgeRx, localRx, fuel)
  {
  }

  function Rest<T>(s: seq<T>): seq<T> {
    if s == [] then [] else s[1..]
  }

  // What handling the message that wakes the runtime adds to the log.
  function FirstEntries<S, M>(actor: Actor<S, M>, v: View<M>, wake: Wake): seq<LogEntry<M>> {
    match wake
    case FromBridge => if v.bridgeRx == [] then [] else EntriesFor(v.bridgeRx[0])
    case FromSelf => if Pending(actor, v.log) == [] then [] else [Handled(Internal, Payload(Pending(actor, v.log)[0]))]
    case FromLocal => if v.localRx == [] then [] else [Handled(Local, Payload(v.localRx[0]))]
    case BridgeClosed => []
  }

  // There is no poll to follow.
  predicate EndsAtOnce<M>(v: View<M>, wake: Wake) {
    wake.BridgeClosed? || (wake.FromBridge? && v.bridgeRx != [] && v.bridgeRx[0].Disconnected?)
  }

  // What a step adds: that message, and then what a poll handles of the rest.
  ghost function StepEntries<S, M>(actor: Actor<S, M>, v: View<M>, wake: Wake, fuel: nat): seq<LogEntry<M>> {
    var first := FirstEntries(actor, v, wake);
    if EndsAtOnce(v, wake) then first
    else
      var bridgeRx := if wake.FromBridge? then Rest(v.bridgeRx) else v.bridgeRx;
      var localRx := if wake.FromLocal? then Rest(v.localRx) else v.localRx;
      first + PollEntries(actor, v.log + first, bridgeRx, localRx, fuel)
  }

  lemma FirstThenPoll<S, M>(actor: Actor<S, M>, v: View<M>, wake: Wake, fuel: nat, first: seq<LogEntry<M>>,
      polled: seq<LogEntry<M>>)
    requires !EndsAtOnce(v, wake) && first == FirstEntries(actor, v, wake)
    requires polled == PollEntries(actor, v.log + first, if wake.FromBridge? then Rest(v.bridgeRx) else v.bridgeRx,
                                   if wake.FromLocal? then Rest(v.localRx) else v.localRx, fuel)
    ensures first + polled == StepEntries(actor, v, wake, fuel)
  {
  }

  // What a turn adds: nothing, if the queue that is to wake the runtime is empty.
  ghost function TurnEntries<S, M>(actor: Actor<S, M>, v: View<M>, wake: Wake, fuel: nat): seq<LogEntry<M>> {
    if Wakes(wake, v.bridgeRx, Pending(actor, v.log), v.localRx) then StepEntries(actor, v, wake, fuel) else []
  }

  // The fuel only says how long to go on: what is driven to its end with some is driven there the same
  // way with more.
  lemma {:induction false} MoreFuelIsTheSame<E>(next: seq<E> -> Option<E>, log: seq<E>, fuel: nat, more: nat)
    requires fuel <= more && next(log + Drive(next, log, fuel)).None?
    ensures Drive(next, log, more) == Drive(next, log, fuel)
    decreases fuel
  {
    if fuel == 0 || next(log).None? {
      assert log + [] == log;
    } else {
      var entry := next(log).value;
      ConcatAssociative(log, [entry], Drive(next, log + [entry], fuel - 1));
      MoreFuelIsTheSame(next, log + [entry], fuel - 1, more - 1);
    }
  }

  // Each entry is what came next.
  ghost predicate Driven<E>(next: seq<E> -> Option<E>, log: seq<E>, added: seq<E>) {
    forall i | 0 <= i < |added| :: next(log + added[..i]) == Some(added[i])
  }

  lemma DrivenOn<E>(next: seq<E> -> Option<E>, log: seq<E>, added: seq<E>, entry: E)
    requires Driven(next, log, added) && next(log + added) == Some(entry)
    ensures Driven(next, log, added + [entry])
  {
    forall i | 0 <= i < |added| + 1
      ensures next(log + (added + [entry])[..i]) == Some((added + [entry])[i])
    {
      assert (added + [entry])[..i] == added[..i];
      assert added[..|added|] == added;
    }
  }

  lemma {:induction false} DrivenToTheEnd<E>(next: seq<E> -> Option<E>, log: seq<E>, added: seq<E>, fuel: nat)
    requires Driven(next, log, added) && |added| <= fuel && (|added| == fuel || next(log + added).None?)
    ensures added == Drive(next, log, fuel)
    decreases fuel
  {
    if added == [] {
      assert log + added == log;
    } else {
      assert log + added[..0] == log;
      DrivenBehindFirst(next, log, added);
      HeadAndTail(added);
      DrivenToTheEnd(next, log + [added[0]], added[1..], fuel - 1);
    }
  }

  lemma DrivenBehindFirst<E>(next: seq<E> -> Option<E>, log: seq<E>, added: seq<E>)
    requires Driven(next, log, added) && added != []
    ensures Driven(next, log + [added[0]], added[1..]) && (log + [added[0]]) + added[1..] == log + added
  {
    forall i | 0 <= i < |added| - 1
      ensures next((log + [added[0]]) + added[1..][..i]) == Some(added[1..][i])
    {
      assert (log + [added[0]]) + added[1..][..i] == log + added[..i + 1];
    }
  }

  lemma PendingIsTheRest<T>(handled: seq<T>, queue: seq<T>)
    ensures (handled + ([] + queue))[|handled|..] == queue
  {
  }

  // ---------- the runtime ----------

  class ActorRuntime<S, M> {
    const actor: Actor<S, M>
    var state: S
    var connected: bool
    var bridgeRx: seq<BridgeEvent<M>>
    var selfRx: seq<M>
    var localRx: seq<M>
    var serverTx: seq<M>
    ghost var log: seq<LogEntry<M>>

    constructor (actor: Actor<S, M>)
      ensures this.actor == actor && Valid() && log == [] && bridgeRx == [] && selfRx == [] && localRx == []
              && !connected
    {
      this.actor := actor;
      state, connected := actor.startup, false;
      bridgeRx, selfRx, localRx, serverTx := [], [], [], [];
      log := [];
    }

    // The state is that of handling the log; what the actor sent to the server is on its way there;
    // what it sent to itself has been handled, in order, up to what is still queued.
    ghost predicate Valid()
      reads this
    {
      ValidExcept([])
    }

    // `taken` has left the self queue and is about to be handled.
    ghost predicate ValidExcept(taken: seq<M>)
      reads this
    {
      && state == StateAfter(actor, log)
      && serverTx == Servers(OutputsOf(actor, log))
      && MessagesFrom(log, Internal) + (taken + selfRx) == Selves(OutputsOf(actor, log))
    }

    method Dispatch(from: Source, content: Content<M>)
      requires from.Internal? ==> content.Payload?
      requires ValidExcept(if from.Internal? then [content.message] else [])
      modifies this`state, this`serverTx, this`selfRx, this`log
      ensures Valid() && log == old(log) + [Handled(from, content)]
    {
      var (next, outputs) := actor.handle(state, from, content);
      LogSnoc(actor, log, from, content);
      ghost var server0, self0 := serverTx, selfRx;
      state := next;
      Send(outputs);
      ghost var before := OutputsOf(actor, log);
      OutputsConcat(before, outputs);
      log := log + [Handled(from, content)];
      ghost var taken := if from.Internal? then [content.message] else [];
      Regroup(MessagesFrom(old(log), Internal), taken, self0, Selves(outputs));
    }

    method Send(outputs: seq<Output<M>>)
      modifies this`serverTx, this`selfRx
      ensures SentSoFar(serverTx, selfRx, old(serverTx), old(selfRx), outputs)
    {
      var i := 0;
      assert outputs[..0] == [];
      assert serverTx + [] == serverTx && selfRx + [] == selfRx;
      while i < |outputs|
        invariant 0 <= i <= |outputs|
        invariant SentSoFar(serverTx, selfRx, old(serverTx), old(selfRx), outputs[..i])
      {
        OutputsSnoc(outputs, i);
        match outputs[i] {
          case ToServer(m) =>
            ConcatAssociative(old(serverTx), Servers(outputs[..i]), [m]);
            assert Selves(outputs[..i]) + [] == Selves(outputs[..i]);
            serverTx := serverTx + [m];
          case ToSelf(m) =>
            ConcatAssociative(old(selfRx), Selves(outputs[..i]), [m]);
            assert Servers(outputs[..i]) + [] == Servers(outputs[..i]);
            selfRx := selfRx + [m];
        }
        i := i + 1;
      }
      assert outputs[..i] == outputs;
    }

    lemma SelfQueueIsPending()
      requires Valid()
      ensures selfRx == Pending(actor, log)
    {
      PendingIsTheRest(MessagesFrom(log, Internal), selfRx);
    }

    ghost function Now(): View<M>
      reads this
    {
      View(log, bridgeRx, localRx, connected)
    }

    method HandleBridgeEvent(event: BridgeEvent<M>) returns (status: Status)
      requires Valid()
      modifies this`state, this`connected, this`serverTx, this`selfRx, this`log
      ensures Valid() && log == old(log) + EntriesFor(event)
      ensures status.IsDisconnected? <==> event.Disconnected?
      ensures connected == if event.Message? then old(connected) else event.Connected?
    {
      match event {
        case Connected =>
          connected := true;
          Dispatch(Server, Connection);
          return IsConnected;
        case Message(m) =>
          Dispatch(Server, Payload(m));
          return IsConnected;
        case Disconnected =>
          connected := false;
          Dispatch(Server, Loss);
          Shut();
          ConcatAssociative(old(log), [Handled(Server, Loss)], [ShutDown]);
          return IsDisconnected;
      }
    }

    method Shut()
      requires Valid()
      modifies this`state, this`log
      ensures Valid() && log == old(log) + [ShutDown]
    {
      ShutDownSnoc(actor, log);
      state := actor.shutdown(state);
      log := log + [ShutDown];
    }

    // The next bridge event, taken off its queue and handled.
    method NextBridgeEvent() returns (status: Status, ghost added: seq<LogEntry<M>>)
      requires Valid() && bridgeRx != []
      modifies this`state, this`connected, this`bridgeRx, this`serverTx, this`selfRx, this`log
      ensures Valid() && Drained(old(Now()), added, Now(), Server)
      ensures bridgeRx == old(bridgeRx)[1..] && added == EntriesFor(old(bridgeRx)[0])
      ensures status.IsDisconnected? <==> Disconnected in ServerEvents(added)
    {
      var event := bridgeRx[0];
      bridgeRx := bridgeRx[1..];
      status := HandleBridgeEvent(event);
      added := EntriesFor(event);
      ServerEventsFor(event);
      BridgeProgress(old(Now()), event, connected);
    }

    // The next self-sent message, likewise.
    method NextSelfMessage() returns (ghost added: seq<LogEntry<M>>)
      requires Valid() && selfRx != []
      modifies this`state, this`serverTx, this`selfRx, this`log
      ensures Valid() && Drained(old(Now()), added, Now(), Internal)
      ensures added == [Handled(Internal, Payload(old(selfRx)[0]))]
    {
      var m := selfRx[0];
      HeadAndTail(selfRx);
      selfRx := selfRx[1..];
      TakenFromQueue(MessagesFrom(log, Internal), m, selfRx);
      Dispatch(Internal, Payload(m));
      added := [Handled(Internal, Payload(m))];
      SelfProgress(old(Now()), m);
    }

    // The next local message, likewise.
    method NextLocalMessage() returns (ghost added: seq<LogEntry<M>>)
      requires Valid() && localRx != []
      modifies this`state, this`serverTx, this`selfRx, this`localRx, this`log
      ensures Valid() && Drained(old(Now()), added, Now(), Local)
      ensures localRx == old(localRx)[1..] && added == [Handled(Local, Payload(old(localRx)[0]))]
    {
      var m := localRx[0];
      localRx := localRx[1..];
      Dispatch(Local, Payload(m));
      added := [Handled(Local, Payload(m))];
      LocalProgress(old(Now()));
    }

    // Handle bridge events until there are none or one is a disconnect.
    method DrainBridge() returns (status: Status, ghost added: seq<LogEntry<M>>)
      requires Valid()
      modifies this`state, this`connected, this`bridgeRx, this`serverTx, this`selfRx, this`log
      ensures Valid() && Drained(old(Now()), added, Now(), Server)
      ensures added == BridgeEntries(old(bridgeRx))
      ensures status.IsDisconnected? <==> Disconnected in ServerEvents(added)
      ensures status.IsConnected? ==> bridgeRx == []
    {
      added := [];
      status := IsConnected;
      NoProgress(Now());
      while bridgeRx != []
        invariant Valid() && Drained(old(Now()), added, Now(), Server)
        invariant added + BridgeEntries(bridgeRx) == BridgeEntries(old(bridgeRx))
        invariant Disconnected !in ServerEvents(added) && status.IsConnected?
        decreases |bridgeRx|
      {
        ghost var now, more := Now(), [];
        status, more := NextBridgeEvent();
        BridgeEntriesGoOn(added, now.bridgeRx);
        DrainedAgain(old(Now()), added, now, more, Now(), Server);
        added := added + more;
        if status.IsDisconnected? {
          return;
        }
      }
    }

    // Handle self-sent messages until there are none, or `fuel` have been handled.
    method DrainSelf(fuel: nat) returns (ghost added: seq<LogEntry<M>>)
      requires Valid()
      modifies this`state, this`serverTx, this`selfRx, this`log
      ensures Valid() && Drained(old(Now()), added, Now(), Internal)
      ensures added == SelfEntries(actor, old(log), fuel)
      ensures selfRx == [] || |added| == fuel
    {
      added := [];
      NoProgress(Now());
      var left := fuel;
      while selfRx != [] && left > 0
        invariant Valid() && Drained(old(Now()), added, Now(), Internal)
        invariant Driven(NextOwn(actor), old(log), added)
        invariant |added| + left == fuel
        decreases left
      {
        NothingFromServer(added, Internal);
        SelfQueueIsPending();
        DrivenOn(NextOwn(actor), old(log), added, Handled(Internal, Payload(selfRx[0])));
        ghost var now, more := Now(), [];
        more := NextSelfMessage();
        DrainedAgain(old(Now()), added, now, more, Now(), Internal);
        added := added + more;
        left := left - 1;
      }
      SelfQueueIsPending();
      DrivenToTheEnd(NextOwn(actor), old(log), added, fuel);
    }

    // Handle local messages until there are none.
    method DrainLocal() returns (ghost added: seq<LogEntry<M>>)
      requires Valid()
      modifies this`state, this`serverTx, this`selfRx, this`localRx, this`log
      ensures Valid() && Drained(old(Now()), added, Now(), Local)
      ensures added == LocalEntries(old(localRx)) && localRx == []
    {
      added := [];
      NoProgress(Now());
      while localRx != []
        invariant Valid() && Drained(old(Now()), added, Now(), Local)
        invariant added + LocalEntries(localRx) == LocalEntries(old(localRx))
        decreases |localRx|
      {
        NothingFromServer(added, Local);
        ghost var now, more := Now(), [];
        more := NextLocalMessage();
        ConcatAssociative(added, more, LocalEntries(localRx));
        DrainedAgain(old(Now()), added, now, more, Now(), Local);
        added := added + more;
      }
    }

    // The second half of a poll: self-sent messages, then local ones.
    method DrainMessages(fuel: nat)
        returns (done: bool, ghost fromSelf: seq<LogEntry<M>>, ghost fromLocal: seq<LogEntry<M>>)
      requires Valid()
      modifies this`state, this`serverTx, this`selfRx, this`localRx, this`log
      ensures Valid() && Progress(old(Now()), fromSelf + fromLocal, Now())
      ensures OnlyFrom(fromSelf, Internal) && OnlyFrom(fromLocal, Local) && ServerEvents(fromSelf + fromLocal) == []
      ensures fromSelf == SelfEntries(actor, old(log), fuel)
      ensures fromLocal == if Pending(actor, old(log) + fromSelf) == [] then LocalEntries(old(localRx)) else []
      ensures if done then localRx == [] && SelfExhausted(actor, old(log) + fromSelf)
              else selfRx != [] && fromLocal == [] && |fromSelf| == fuel
    {
      fromSelf := DrainSelf(fuel);
      fromLocal := [];
      NothingFromServer(fromSelf, Internal);
      SelfQueueIsPending();
      if selfRx != [] {
        assert fromSelf + [] == fromSelf;
        return false, fromSelf, [];
      }
      assert SelfExhausted(actor, log) by { NothingQueued(MessagesFrom(log, Internal)); }
      ghost var now := Now();
      fromLocal := DrainLocal();
      NothingFromServer(fromLocal, Local);
      ProgressAgain(old(Now()), fromSelf, now, fromLocal, Now());
      done := true;
    }

    // The rest of a poll that began in `start` and has handled all bridge events.
    method FinishPoll(ghost start: View<M>, ghost fromBridge: seq<LogEntry<M>>, fuel: nat)
        returns (status: Option<Status>, ghost fromSelf: seq<LogEntry<M>>, ghost fromLocal: seq<LogEntry<M>>)
      requires Valid() && Progress(start, fromBridge, Now()) && bridgeRx == [] && localRx == start.localRx
      requires Disconnected !in start.bridgeRx && fromBridge == BridgeEntries(start.bridgeRx)
      modifies this`state, this`serverTx, this`selfRx, this`localRx, this`log
      ensures Valid() && Progress(start, fromBridge + (fromSelf + fromLocal), Now())
      ensures OnlyFrom(fromSelf, Internal) && OnlyFrom(fromLocal, Local)
      ensures fromBridge + (fromSelf + fromLocal) == PollEntries(actor, start.log, start.bridgeRx, start.localRx, fuel)
      ensures status.Some? ==> localRx == [] && SelfExhausted(actor, (start.log + fromBridge) + fromSelf)
      ensures status.Some? ==> (status.value.IsConnected? <==> connected)
      ensures status.None? ==> selfRx != []
    {
      var done;
      LossIsInTheQueue(start.bridgeRx);
      done, fromSelf, fromLocal := DrainMessages(fuel);
      ProgressAgain(start, fromBridge, old(Now()), fromSelf + fromLocal, Now());
      PollWithoutLoss(actor, start.log, start.bridgeRx, start.localRx, fuel, fromBridge, fromSelf, fromLocal);
      status := if !done then None else if connected then Some(IsConnected) else Some(IsDisconnected);
    }

    // Bridge events first, up to a disconnect; then self-sent messages, until none is left; then local
    // ones.  `None` when the fuel ran out before the self queue did.
    method Poll(fuel: nat)
        returns (status: Option<Status>, ghost fromBridge: seq<LogEntry<M>>, ghost fromSelf: seq<LogEntry<M>>,
                 ghost fromLocal: seq<LogEntry<M>>)
      requires Valid()
      modifies this`state, this`connected, this`bridgeRx, this`serverTx, this`selfRx, this`localRx, this`log
      ensures Valid() && Progress(old(Now()), fromBridge + (fromSelf + fromLocal), Now())
      ensures OnlyFrom(fromBridge, Server) && OnlyFrom(fromSelf, Internal) && OnlyFrom(fromLocal, Local)
      ensures Disconnected in ServerEvents(fromBridge) ==> fromSelf + fromLocal == [] && status == Some(IsDisconnected)
      ensures Disconnected !in ServerEvents(fromBridge) ==>
                bridgeRx == []
                    && (status.Some? ==> localRx == [] && SelfExhausted(actor, (old(log) + fromBridge) + fromSelf))
      ensures fromBridge + (fromSelf + fromLocal) == PollEntries(actor, old(log), old(bridgeRx), old(localRx), fuel)
      ensures status.Some? ==> (status.value.IsConnected? <==> connected)
      ensures status.None? ==> selfRx != []
    {
      var bridged;
      bridged, fromBridge := DrainBridge();
      fromSelf, fromLocal := [], [];
      LossIsInTheQueue(old(bridgeRx));
      if bridged.IsDisconnected? {
        DisconnectClears(old(connected), fromBridge);
        PollWithLoss(actor, old(log), old(bridgeRx), old(localRx), fuel, fromBridge);
        return Some(IsDisconnected), fromBridge, [], [];
      }
      status, fromSelf, fromLocal := FinishPoll(old(Now()), fromBridge, fuel);
    }

    predicate Ready(wake: Wake)
      reads this
    {
      Wakes(wake, bridgeRx, selfRx, localRx)
    }

    // Handle what woke the runtime.  `None` when the rest of the poll is to follow.
    method Wakened(wake: Wake) returns (status: Option<Status>, ghost added: seq<LogEntry<M>>)
      requires Valid() && Ready(wake)
      modifies this`state, this`connected, this`bridgeRx, this`serverTx, this`selfRx, this`localRx, this`log
      ensures Valid() && Progress(old(Now()), added, Now())
      ensures status in {None, Some(IsDisconnected)}
      ensures status.Some? <==> wake.BridgeClosed? || Disconnected in ServerEvents(added)
      ensures status.Some? <==> EndsAtOnce(old(Now()), wake)
      ensures StartsWith(added, First(wake, old(bridgeRx), old(selfRx), old(localRx)))
      ensures !wake.BridgeClosed? && !wake.FromBridge? ==> ServerEvents(added) == []
      ensures log == old(log) + added && added == FirstEntries(actor, old(Now()), wake)
      ensures bridgeRx == if wake.FromBridge? then Rest(old(bridgeRx)) else old(bridgeRx)
      ensures localRx == if wake.FromLocal? then Rest(old(localRx)) else old(localRx)
    {
      added := [];
      SelfQueueIsPending();
      match wake {
        case FromBridge =>
          var handled;
          handled, added := NextBridgeEvent();
          ServerEventsFor(old(bridgeRx)[0]);
          return if handled.IsDisconnected? then Some(IsDisconnected) else None, added;
        case FromSelf =>
          added := NextSelfMessage();
          NothingFromServer(added, Internal);
          return None, added;
        case FromLocal =>
          added := NextLocalMessage();
          NothingFromServer(added, Local);
          return None, added;
        case BridgeClosed =>
          NoProgress(Now());
          return Some(IsDisconnected), [];
      }
    }

    ghost predicate At(m: Moment<M>)
      reads this
    {
      m.view == Now() && m.selfRx == selfRx
    }

    // One message, then a poll.  The answer depends on the bridge alone: it is `Disconnected` exactly
    // if the bridge is closed, a disconnect is queued, or the runtime is not connected and no `Connected`
    // is queued, whatever else may have woken it.
    method Step(wake: Wake, fuel: nat) returns (status: Option<Status>, ghost added: seq<LogEntry<M>>)
      requires Valid() && Ready(wake)
      modifies this`state, this`connected, this`bridgeRx, this`serverTx, this`selfRx, this`localRx, this`log
      ensures Valid() && Progress(old(Now()), added, Now())
      ensures added == StepEntries(actor, old(Now()), wake, fuel)
      ensures status.Some? ==> (status.value.IsDisconnected? <==> Ends(wake, old(connected), old(bridgeRx)))
      ensures status.Some? ==> (status.value.IsDisconnected? <==> wake.BridgeClosed? || !connected)
      ensures status.None? ==> selfRx != [] && !wake.BridgeClosed?
      ensures StartsWith(added, First(wake, old(bridgeRx), old(selfRx), old(localRx)))
      ensures Disconnected in ServerEvents(added) ==> status == Some(IsDisconnected)
      ensures !wake.BridgeClosed? && Disconnected !in ServerEvents(added) ==>
              bridgeRx == [] && (status.Some? ==> localRx == [])
    {
      status, added := Wakened(wake);
      if status.Some? {
        if !wake.BridgeClosed? {
          DisconnectClears(old(connected), added);
        }
        return;
      }
      status, added := PollOn(old(Now()), added, wake, fuel);
    }

    // The poll behind the message that woke the runtime in `start`.
    method PollOn(ghost start: View<M>, ghost first: seq<LogEntry<M>>, wake: Wake, fuel: nat)
        returns (status: Option<Status>, ghost added: seq<LogEntry<M>>)
      requires Valid() && Progress(start, first, Now()) && Disconnected !in ServerEvents(first)
      requires !EndsAtOnce(start, wake) && first == FirstEntries(actor, start, wake) && log == start.log + first
      requires bridgeRx == if wake.FromBridge? then Rest(start.bridgeRx) else start.bridgeRx
      requires localRx == if wake.FromLocal? then Rest(start.localRx) else start.localRx
      modifies this`state, this`connected, this`bridgeRx, this`serverTx, this`selfRx, this`localRx, this`log
      ensures Valid() && Progress(start, added, Now())
      ensures added == StepEntries(actor, start, wake, fuel) && first <= added
      ensures status.Some? ==> (status.value.IsConnected? <==> connected)
      ensures connected <==> !Ends(wake, start.connected, start.bridgeRx)
      ensures status.None? ==> selfRx != []
      ensures Disconnected in ServerEvents(added) ==> status == Some(IsDisconnected)
      ensures Disconnected !in ServerEvents(added) ==> bridgeRx == [] && (status.Some? ==> localRx == [])
    {
      ghost var fromBridge, fromSelf, fromLocal;
      status, fromBridge, fromSelf, fromLocal := Poll(fuel);
      ghost var polled := fromBridge + (fromSelf + fromLocal);
      PolledEvents(fromBridge, fromSelf, fromLocal);
      ProgressAgain(start, first, old(Now()), polled, Now());
      FirstThenPoll(actor, start, wake, fuel, first, polled);
      added := first + polled;
      AnswerIsInTheQueue(start, added, Now(), wake);
    }

    // What arrives, and the step it leads to, if it wakes the runtime at all.
    method TakeTurn(turn: Turn<M>, fuel: nat) returns (ending: Ending, ghost added: seq<LogEntry<M>>)
      requires Valid()
      modifies this`state, this`connected, this`bridgeRx, this`serverTx, this`selfRx, this`localRx, this`log
      ensures Valid() && Progress(Extended(old(Now()), turn.events, turn.locals), added, Now())
      ensures TurnTaken(old(Now()), old(selfRx), turn, added, Now(), selfRx, ending)
      ensures TurnHandles(actor, fuel, old(Now()), turn, added, Now(), selfRx)
    {
      SelfQueueIsPending();
      bridgeRx, localRx := bridgeRx + turn.events, localRx + turn.locals;
      if !Ready(turn.wake) {
        NoProgress(Now());
        return Waiting, [];
      }
      var status;
      status, added := Step(turn.wake, fuel);
      SelfQueueIsPending();
      return if status.None? then OutOfFuel else if status.value.IsDisconnected? then Stopped else Waiting, added;
    }

    // One more turn of a run that began in `start`.
    method GoOn(ghost start: View<M>, turns: seq<Turn<M>>, used: nat, fuel: nat, ghost before: seq<LogEntry<M>>)
        returns (ending: Ending, ghost added: seq<LogEntry<M>>)
      requires Valid() && used < |turns| && Ongoing(start, turns, used, before, Now())
      modifies this`state, this`connected, this`bridgeRx, this`serverTx, this`selfRx, this`localRx, this`log
      ensures Valid()
      ensures if ending.Waiting? then Ongoing(start, turns, used + 1, added, Now())
              else Finished(start, turns, used + 1, added, Now(), ending)
      ensures before <= added
              && TurnTaken(old(Now()), old(selfRx), turns[used], added[|before|..], Now(), selfRx, ending)
      ensures TurnHandles(actor, fuel, old(Now()), turns[used], added[|before|..], Now(), selfRx)
      ensures ending.OutOfFuel? ==> selfRx != []
    {
      ghost var now, more := Now(), [];
      ending, more := TakeTurn(turns[used], fuel);
      TurnAgain(start, turns, used, before, now, old(selfRx), more, Now(), selfRx, ending);
      added := before + more;
    }

    // Steps until one answers `Disconnected`, with events and local messages arriving in between.
    // `moments` are what the turns began and ended with: a turn is the last if and only if it wakes the
    // runtime and its step is answered so.
    method Run(turns: seq<Turn<M>>, fuel: nat)
        returns (ending: Ending, used: nat, ghost added: seq<LogEntry<M>>, ghost moments: seq<Moment<M>>)
      requires Valid()
      modifies this`state, this`connected, this`bridgeRx, this`serverTx, this`selfRx, this`localRx, this`log
      ensures Valid() && used <= |turns|
      ensures if ending.Waiting? then used == |turns| && Ongoing(old(Now()), turns, used, added, Now())
              else Finished(old(Now()), turns, used, added, Now(), ending)
      ensures ending.OutOfFuel? ==> selfRx != []
      ensures |moments| == used + 1 && moments[0] == Moment(old(Now()), old(selfRx), []) && At(moments[used])
      ensures EachTurnTaken(actor, fuel, turns[..used], moments, ending)
    {
      added, used, ending := [], 0, Waiting;
      RunStarts(Now(), turns);
      moments := [Moment(Now(), selfRx, [])];
      while used < |turns|
        invariant used <= |turns| && ending.Waiting?
        invariant Valid() && Ongoing(old(Now()), turns, used, added, Now())
        invariant |moments| == used + 1 && moments[0] == Moment(old(Now()), old(selfRx), []) && At(moments[used])
        invariant EachTurnTaken(actor, fuel, turns[..used], moments, Waiting)
      {
        ghost var handled, before := added, moments;
        ending, added := GoOn(old(Now()), turns, used, fuel, added);
        ghost var now := Moment(Now(), selfRx, added[|handled|..]);
        OneMoreTurn(actor, fuel, turns, used, before, now, ending);
        moments := before + [now];
        used := used + 1;
        if !ending.Waiting? {
          return;
        }
      }
    }
  }

  // A step that begins like this ends the run.
  ghost predicate Ends<M>(wake: Wake, connected: bool, bridgeRx: seq<BridgeEvent<M>>) {
    wake.BridgeClosed? || Disconnected in bridgeRx || (!connected && Connected !in bridgeRx)
  }

  // Without a disconnect the flag says whether there ever was a `Connected`.
  lemma {:induction false} FlagWithoutLoss<M>(connected: bool, events: seq<BridgeEvent<M>>)
    requires Disconnected !in events
    ensures ConnectedAfter(connected, events) <==> connected || Connected in events
    decreases |events|
  {
    if events == [] {
    } else {
      var n := |events| - 1;
      FlagWithoutLoss(connected, events[..n]);
      assert events == events[..n] + [events[n]];
    }
  }

  // The flag a step leaves, said of the queue it began with.
  lemma AnswerIsInTheQueue<M>(v0: View<M>, added: seq<LogEntry<M>>, v1: View<M>, wake: Wake)
    requires Progress(v0, added, v1) && !wake.BridgeClosed?
    requires Disconnected !in ServerEvents(added) ==> v1.bridgeRx == []
    ensures Ends(wake, v0.connected, v0.bridgeRx) <==> !v1.connected
  {
    var events := ServerEvents(added);
    if Disconnected in events {
      DisconnectClears(v0.connected, added);
      assert Disconnected in v0.bridgeRx;
    } else {
      assert v0.bridgeRx == events + [] == events;
      FlagWithoutLoss(v0.connected, events);
    }
  }

  // The message that wakes the runtime, as the actor gets it.
  function First<M>(wake: Wake, bridgeRx: seq<BridgeEvent<M>>, selfRx: seq<M>, localRx: seq<M>): Option<LogEntry<M>> {
    match wake
    case FromBridge => if bridgeRx != [] then Some(Handled(Server, ContentOf(bridgeRx[0]))) else None
    case FromSelf => if selfRx != [] then Some(Handled(Internal, Payload(selfRx[0]))) else None
    case FromLocal => if localRx != [] then Some(Handled(Local, Payload(localRx[0]))) else None
    case BridgeClosed => None
  }

  ghost predicate StartsWith<M>(added: seq<LogEntry<M>>, first: Option<LogEntry<M>>) {
    if first.None? then added == [] else added != [] && added[0] == first.value
  }

  // What arrives while the runtime waits, and what then wakes it.
  datatype Turn<M> = Turn(events: seq<BridgeEvent<M>>, locals: seq<M>, wake: Wake)

  datatype Ending = Stopped | Waiting | OutOfFuel

  function EventsIn<M>(turns: seq<Turn<M>>): seq<BridgeEvent<M>> {
    if turns == [] then [] else EventsIn(turns[..|turns| - 1]) + turns[|turns| - 1].events
  }

  function LocalsIn<M>(turns: seq<Turn<M>>): seq<M> {
    if turns == [] then [] else LocalsIn(turns[..|turns| - 1]) + turns[|turns| - 1].locals
  }

  function Arrived<M>(v: View<M>, turns: seq<Turn<M>>): View<M> {
    Extended(v, EventsIn(turns), LocalsIn(turns))
  }

  // What the queues, the flag and the log are between two turns, and what the last one handled.
  datatype Moment<M> = Moment(view: View<M>, selfRx: seq<M>, added: seq<LogEntry<M>>)

  // One turn: it wakes nobody and only adds what arrives, or it takes a step that begins with what woke
  // the runtime and ends the run exactly in the cases of `Ends`.
  ghost predicate TurnTaken<M>(v0: View<M>, self0: seq<M>, turn: Turn<M>, added: seq<LogEntry<M>>, v1: View<M>,
      self1: seq<M>, ending: Ending)
  {
    var v := Extended(v0, turn.events, turn.locals);
    if !Wakes(turn.wake, v.bridgeRx, self0, v.localRx) then added == [] && ending.Waiting? && v1 == v && self1 == self0
    else
      && StartsWith(added, First(turn.wake, v.bridgeRx, self0, v.localRx))
      && (ending.OutOfFuel? ==> self1 != [] && !turn.wake.BridgeClosed?)
      && (!ending.OutOfFuel? ==> (ending.Stopped? <==> Ends(turn.wake, v0.connected, v.bridgeRx)))
      && (!ending.OutOfFuel? ==> (ending.Stopped? <==> turn.wake.BridgeClosed? || !v1.connected))
      && (Disconnected in ServerEvents(added) ==> ending.Stopped?)
      && (!turn.wake.BridgeClosed? && Disconnected !in ServerEvents(added) ==> v1.bridgeRx == [])
  }

  // A turn that a queued event wakes handles that event first; a disconnect is all it handles, and it
  // ends the run with the shutdown.
  lemma EventThatWakesIsFirst<S, M>(actor: Actor<S, M>, fuel: nat, v0: View<M>, self0: seq<M>, turn: Turn<M>,
      added: seq<LogEntry<M>>, v1: View<M>, self1: seq<M>, ending: Ending)
    requires TurnTaken(v0, self0, turn, added, v1, self1, ending)
    requires TurnHandles(actor, fuel, v0, turn, added, v1, self1)
    requires turn.wake.FromBridge? && v0.bridgeRx + turn.events != []
    ensures added != [] &&
            match (v0.bridgeRx + turn.events)[0]
            case Connected => added[0] == Handled(Server, Connection)
            case Message(m) => added[0] == Handled(Server, Payload(m))
            case Disconnected => added == [Handled(Server, Loss), ShutDown] && ending.Stopped?
  {
    var event := (v0.bridgeRx + turn.events)[0];
    if event.Disconnected? {
      assert added == EntriesFor(event);
      ServerEventsFor(event);
      assert event in ServerEvents(added);
    }
  }

  // So is a message of either kind; a closed bridge ends the run with nothing handled.
  lemma MessageThatWakesIsFirst<M>(v0: View<M>, self0: seq<M>, turn: Turn<M>, added: seq<LogEntry<M>>, v1: View<M>,
      self1: seq<M>, ending: Ending)
    requires TurnTaken(v0, self0, turn, added, v1, self1, ending)
    ensures turn.wake.FromSelf? && self0 != [] ==> added != [] && added[0] == Handled(Internal, Payload(self0[0]))
    ensures turn.wake.FromLocal? && v0.localRx + turn.locals != [] ==>
              added != [] && added[0] == Handled(Local, Payload((v0.localRx + turn.locals)[0]))
    ensures turn.wake.BridgeClosed? && v0.bridgeRx + turn.events == [] ==> ending.Stopped? && added == []
  {
  }

  // What a turn handled, in order, and what it took off the queues for it.
  ghost predicate TurnHandles<S, M>(actor: Actor<S, M>, fuel: nat, v0: View<M>, turn: Turn<M>,
      added: seq<LogEntry<M>>, v1: View<M>, self1: seq<M>)
  {
    var v := Extended(v0, turn.events, turn.locals);
    && added == TurnEntries(actor, v, turn.wake, fuel)
    && Progress(v, added, v1)
    && self1 == Pending(actor, v1.log)
  }

  ghost predicate TookTurn<S, M>(actor: Actor<S, M>, fuel: nat, m0: Moment<M>, turn: Turn<M>, m1: Moment<M>,
      ending: Ending)
  {
    && TurnTaken(m0.view, m0.selfRx, turn, m1.added, m1.view, m1.selfRx, ending)
    && TurnHandles(actor, fuel, m0.view, turn, m1.added, m1.view, m1.selfRx)
  }

  ghost predicate EachTurnTaken<S, M>(actor: Actor<S, M>, fuel: nat, turns: seq<Turn<M>>, moments: seq<Moment<M>>,
      ending: Ending)
  {
    && |moments| == |turns| + 1
    && forall i | 0 <= i < |turns| ::
         TookTurn(actor, fuel, moments[i], turns[i], moments[i + 1], if i == |turns| - 1 then ending else Waiting)
  }

  lemma OneMoreTurn<S, M>(actor: Actor<S, M>, fuel: nat, turns: seq<Turn<M>>, i: nat, moments: seq<Moment<M>>,
      next: Moment<M>, ending: Ending)
    requires i < |turns| && |moments| == i + 1 && EachTurnTaken(actor, fuel, turns[..i], moments, Waiting)
    requires TookTurn(actor, fuel, moments[i], turns[i], next, ending)
    ensures EachTurnTaken(actor, fuel, turns[..i + 1], moments + [next], ending)
  {
    var later := moments + [next];
    forall k | 0 <= k < i + 1
      ensures TookTurn(actor, fuel, later[k], turns[..i + 1][k], later[k + 1], if k == i then ending else Waiting)
    {
      if k == i {
        assert later[k] == moments[i] && later[k + 1] == next;
      } else {
        assert later[k] == moments[k] && later[k + 1] == moments[k + 1];
        assert TookTurn(actor, fuel, moments[k], turns[..i][k], moments[k + 1], Waiting);
      }
    }
  }

  // A run that has not stopped: it is connected, unless it has not handled anything yet.
  ghost predicate Ongoing<M>(v0: View<M>, turns: seq<Turn<M>>, used: nat, added: seq<LogEntry<M>>, v1: View<M>)
    requires used <= |turns|
  {
    && Progress(Arrived(v0, turns[..used]), added, v1) && Disconnected !in ServerEvents(added)
    && (v1.connected || |added| == 0)
  }

  // A run that has stopped, or is stuck in a poll: the last turn it took closed the bridge, or left it
  // not connected with no event unhandled up to a disconnect.
  ghost predicate Finished<M>(v0: View<M>, turns: seq<Turn<M>>, used: nat, added: seq<LogEntry<M>>, v1: View<M>,
      ending: Ending)
    requires used <= |turns|
  {
    && Progress(Arrived(v0, turns[..used]), added, v1)
    && (Disconnected in ServerEvents(added) ==> ending.Stopped?)
    && (ending.Stopped? ==>
          && used > 0
          && (turns[used - 1].wake.BridgeClosed?
              || (!v1.connected && (Disconnected in ServerEvents(added) || v1.bridgeRx == []))))
  }

  // `run()` is to run until disconnected.  Of a run that has handled something, and to which neither a
  // disconnect nor the bridge's end has come: it has stopped if and only if it was not connected and no
  // `Connected` has come either.
  lemma RunStopsUnconnected<M>(v0: View<M>, turns: seq<Turn<M>>, used: nat, added: seq<LogEntry<M>>, v1: View<M>,
      ending: Ending)
    requires used <= |turns| && |added| > 0 && !ending.OutOfFuel?
    requires if ending.Waiting? then Ongoing(v0, turns, used, added, v1)
             else Finished(v0, turns, used, added, v1, ending)
    requires Disconnected !in Arrived(v0, turns[..used]).bridgeRx
    requires used > 0 ==> !turns[used - 1].wake.BridgeClosed?
    ensures ending.Stopped? <==> !v0.connected && Connected !in Arrived(v0, turns[..used]).bridgeRx
  {
    var events, arrived := ServerEvents(added), Arrived(v0, turns[..used]).bridgeRx;
    assert Disconnected !in events;
    FlagWithoutLoss(v0.connected, events);
    if ending.Stopped? {
      assert arrived == events + [] == events;
    } else {
      assert Connected in events ==> Connected in arrived;
    }
  }

  lemma RunStarts<M>(v: View<M>, turns: seq<Turn<M>>)
    ensures Ongoing(v, turns, 0, [], v)
  {
    NoProgress(v);
    assert v.bridgeRx + [] == v.bridgeRx && v.localRx + [] == v.localRx;
  }

  lemma ArrivedSnoc<M>(v: View<M>, turns: seq<Turn<M>>, i: nat)
    requires i < |turns|
    ensures Arrived(v, turns[..i + 1]) == Extended(Arrived(v, turns[..i]), turns[i].events, turns[i].locals)
  {
    assert turns[..i + 1][..i] == turns[..i];
    ConcatAssociative(v.bridgeRx, EventsIn(turns[..i]), turns[i].events);
    ConcatAssociative(v.localRx, LocalsIn(turns[..i]), turns[i].locals);
  }

  // One more turn.
  lemma TurnAgain<M>(v0: View<M>, turns: seq<Turn<M>>, i: nat, a: seq<LogEntry<M>>, v1: View<M>, self1: seq<M>,
      b: seq<LogEntry<M>>, v2: View<M>, self2: seq<M>, ending: Ending)
    requires i < |turns| && Ongoing(v0, turns, i, a, v1)
    requires Progress(Extended(v1, turns[i].events, turns[i].locals), b, v2)
             && TurnTaken(v1, self1, turns[i], b, v2, self2, ending)
    ensures if ending.Waiting? then Ongoing(v0, turns, i + 1, a + b, v2)
            else Finished(v0, turns, i + 1, a + b, v2, ending)
    ensures (a + b)[|a|..] == b
  {
    ArrivedSnoc(v0, turns, i);
    ProgressUnderArrivals(Arrived(v0, turns[..i]), a, v1, turns[i].events, turns[i].locals);
    ProgressAgain(Arrived(v0, turns[..i + 1]), a, Extended(v1, turns[i].events, turns[i].locals), b, v2);
  }

  // A disconnect is the last event of its stretch, so it leaves the flag down.
  lemma DisconnectClears<M>(connected: bool, added: seq<LogEntry<M>>)
    requires ShutDownInTime(added) && Disconnected in ServerEvents(added)
    ensures !ConnectedAfter(connected, ServerEvents(added))
  {
    var events := ServerEvents(added);
    assert events == events[..|events| - 1] + [events[|events| - 1]];
  }

  // The server events of a poll are those of its first part.
  lemma PolledEvents<M>(fromBridge: seq<LogEntry<M>>, fromSelf: seq<LogEntry<M>>, fromLocal: seq<LogEntry<M>>)
    requires OnlyFrom(fromSelf, Internal) && OnlyFrom(fromLocal, Local)
    ensures ServerEvents(fromBridge + (fromSelf + fromLocal)) == ServerEvents(fromBridge)
  {
    ServerEventsConcat(fromBridge, fromSelf + fromLocal);
    ServerEventsConcat(fromSelf, fromLocal);
    NothingFromServer(fromSelf, Internal);
    NothingFromServer(fromLocal, Local);
  }

  // ---------- what a stretch of handling does ----------

  // The flag after some server events: messages do not change it.
  function ConnectedAfter<M>(connected: bool, events: seq<BridgeEvent<M>>): bool {
    if events == [] then connected
    else match events[|events| - 1]
      case Connected => true
      case Disconnected => false
      case Message(_) => ConnectedAfter(connected, events[..|events| - 1])
  }

  // No shutdown without a disconnect, and with one exactly one shutdown, at the very end.
  ghost predicate ShutDownInTime<M>(added: seq<LogEntry<M>>) {
    var events := ServerEvents(added);
    if Disconnected in events then Ended(added) && Disconnected !in events[..|events| - 1] else Quiet(added)
  }

  // From `before` to `after`, exactly `added` was handled: each queue lost from its front what was
  // handled of it, and nothing else.
  ghost predicate Progress<M>(before: View<M>, added: seq<LogEntry<M>>, after: View<M>) {
    && after.log == before.log + added
    && ServerEvents(added) + after.bridgeRx == before.bridgeRx
    && MessagesFrom(added, Local) + after.localRx == before.localRx
    && after.connected == ConnectedAfter(before.connected, ServerEvents(added))
    && ShutDownInTime(added)
  }

  // Entries of one source only, besides a shutdown.
  predicate OnlyFrom<M>(log: seq<LogEntry<M>>, source: Source) {
    forall i | 0 <= i < |log| :: log[i].Handled? ==> log[i].source == source
  }

  // Everything the actor has sent itself has been handled.
  ghost predicate SelfExhausted<S, M>(actor: Actor<S, M>, log: seq<LogEntry<M>>) {
    MessagesFrom(log, Internal) == Selves(OutputsOf(actor, log))
  }

  lemma NothingQueued<M>(done: seq<M>)
    ensures done + ([] + []) == done
  {
  }

  lemma NoProgress<M>(v: View<M>)
    ensures Progress(v, [], v)
  {
    assert v.log + [] == v.log && [] + v.bridgeRx == v.bridgeRx && [] + v.localRx == v.localRx;
  }

  lemma OneServerEntry<M>(content: Content<M>)
    ensures var one: seq<LogEntry<M>> := [Handled(Server, content)];
            ServerEvents(one) == [EventOf(content)] && MessagesFrom(one, Local) == []
  {
    var one: seq<LogEntry<M>> := [Handled(Server, content)];
    assert one[..0] == [];
    assert ServerEvents<M>([]) == [] && MessagesFrom<M>([], Local) == [];
  }

  lemma ThenShutDown<M>(log: seq<LogEntry<M>>)
    ensures ServerEvents(log + [ShutDown]) == ServerEvents(log)
            && MessagesFrom(log + [ShutDown], Local) == MessagesFrom(log, Local)
    ensures Quiet(log) ==> Ended(log + [ShutDown])
  {
    assert (log + [ShutDown])[..|log|] == log;
  }

  lemma ServerEventsFor<M>(event: BridgeEvent<M>)
    ensures ServerEvents(EntriesFor(event)) == [event] && MessagesFrom(EntriesFor(event), Local) == []
    ensures ShutDownInTime(EntriesFor(event)) && OnlyFrom(EntriesFor(event), Server)
  {
    OneServerEntry(ContentOf(event));
    if event.Disconnected? {
      ThenShutDown([Handled(Server, ContentOf(event))]);
    }
  }

  lemma BridgeProgress<M>(v: View<M>, event: BridgeEvent<M>, connected: bool)
    requires v.bridgeRx != [] && event == v.bridgeRx[0]
    requires connected == if event.Message? then v.connected else event.Connected?
    ensures Progress(v, EntriesFor(event),
            v.(log := v.log + EntriesFor(event), bridgeRx := v.bridgeRx[1..], connected := connected))
  {
    ServerEventsFor(event);
    assert [] + v.localRx == v.localRx;
    assert [event][..0] == [];
  }

  lemma SelfProgress<M>(v: View<M>, m: M)
    ensures Progress(v, [Handled(Internal, Payload(m))], v.(log := v.log + [Handled(Internal, Payload(m))]))
  {
    assert [] + v.bridgeRx == v.bridgeRx && [] + v.localRx == v.localRx;
  }

  lemma LocalProgress<M>(v: View<M>)
    requires v.localRx != []
    ensures var entry := Handled(Local, Payload(v.localRx[0]));
            Progress(v, [entry], v.(log := v.log + [entry], localRx := v.localRx[1..]))
  {
    assert [] + v.bridgeRx == v.bridgeRx;
  }

  lemma {:induction false} ConnectedAfterBoth<M>(connected: bool, a: seq<BridgeEvent<M>>, b: seq<BridgeEvent<M>>)
    ensures ConnectedAfter(connected, a + b) == ConnectedAfter(ConnectedAfter(connected, a), b)
    decreases |b|
  {
    if b == [] {
      assert a + b == a;
    } else {
      assert (a + b)[..|a + b| - 1] == a + b[..|b| - 1];
      ConnectedAfterBoth(connected, a, b[..|b| - 1]);
    }
  }

  lemma QuietThenEnded<M>(a: seq<LogEntry<M>>, b: seq<LogEntry<M>>)
    requires Quiet(a) && Ended(b)
    ensures Ended(a + b)
  {
    assert (a + b)[..|a + b| - 1] == a + b[..|b| - 1];
  }

  lemma ShutDownStaysInTime<M>(a: seq<LogEntry<M>>, b: seq<LogEntry<M>>)
    requires ShutDownInTime(a) && ShutDownInTime(b) && Disconnected !in ServerEvents(a)
    ensures ShutDownInTime(a + b)
  {
    var x, y := ServerEvents(a), ServerEvents(b);
    ServerEventsConcat(a, b);
    if Disconnected in y {
      QuietThenEnded(a, b);
      assert (x + y)[..|x + y| - 1] == x + y[..|y| - 1];
    }
  }

  // Two stretches make one, if the first did not end with a disconnect.
  lemma ProgressAgain<M>(v0: View<M>, a: seq<LogEntry<M>>, v1: View<M>, b: seq<LogEntry<M>>, v2: View<M>)
    requires Progress(v0, a, v1) && Progress(v1, b, v2) && Disconnected !in ServerEvents(a)
    ensures Progress(v0, a + b, v2) && ServerEvents(a + b) == ServerEvents(a) + ServerEvents(b)
  {
    ServerEventsConcat(a, b);
    MessagesFromConcat(a, b, Local);
    ConcatAssociative(v0.log, a, b);
    ConcatAssociative(ServerEvents(a), ServerEvents(b), v2.bridgeRx);
    ConcatAssociative(MessagesFrom(a, Local), MessagesFrom(b, Local), v2.localRx);
    ConnectedAfterBoth(v0.connected, ServerEvents(a), ServerEvents(b));
    ShutDownStaysInTime(a, b);
  }

  lemma {:induction false} LossIsInTheQueue<M>(bridgeRx: seq<BridgeEvent<M>>)
    ensures Disconnected in ServerEvents(BridgeEntries(bridgeRx)) <==> Disconnected in bridgeRx
    decreases |bridgeRx|
  {
    if bridgeRx == [] {
    } else {
      var rest := if bridgeRx[0].Disconnected? then [] else BridgeEntries(bridgeRx[1..]);
      ServerEventsFor(bridgeRx[0]);
      ServerEventsConcat(EntriesFor(bridgeRx[0]), rest);
      HeadAndTail(bridgeRx);
      if !bridgeRx[0].Disconnected? {
        LossIsInTheQueue(bridgeRx[1..]);
      }
    }
  }

  lemma BridgeEntriesGoOn<M>(added: seq<LogEntry<M>>, bridgeRx: seq<BridgeEvent<M>>)
    requires bridgeRx != []
    ensures added + BridgeEntries(bridgeRx)
         == (added + EntriesFor(bridgeRx[0])) + if bridgeRx[0].Disconnected? then [] else BridgeEntries(bridgeRx[1..])
    ensures bridgeRx[0].Disconnected? ==> added + BridgeEntries(bridgeRx) == added + EntriesFor(bridgeRx[0])
  {
    var rest := if bridgeRx[0].Disconnected? then [] else BridgeEntries(bridgeRx[1..]);
    ConcatAssociative(added, EntriesFor(bridgeRx[0]), rest);
    assert EntriesFor(bridgeRx[0]) + [] == EntriesFor(bridgeRx[0]);
  }

  // A stretch with entries of one source only.
  ghost predicate Drained<M>(before: View<M>, added: seq<LogEntry<M>>, after: View<M>, source: Source) {
    Progress(before, added, after) && OnlyFrom(added, source)
  }

  lemma DrainedAgain<M>(v0: View<M>, a: seq<LogEntry<M>>, v1: View<M>, b: seq<LogEntry<M>>, v2: View<M>, source: Source)
    requires Drained(v0, a, v1, source) && Drained(v1, b, v2, source) && Disconnected !in ServerEvents(a)
    ensures Drained(v0, a + b, v2, source) && (Disconnected in ServerEvents(a + b) <==> Disconnected in ServerEvents(b))
  {
    ProgressAgain(v0, a, v1, b, v2);
  }

  // More arriving at the back of the queues.
  function Extended<M>(v: View<M>, events: seq<BridgeEvent<M>>, locals: seq<M>): View<M> {
    v.(bridgeRx := v.bridgeRx + events, localRx := v.localRx + locals)
  }

  lemma ProgressUnderArrivals<M>(v0: View<M>, a: seq<LogEntry<M>>, v1: View<M>, events: seq<BridgeEvent<M>>,
      locals: seq<M>)
    requires Progress(v0, a, v1)
    ensures Progress(Extended(v0, events, locals), a, Extended(v1, events, locals))
  {
    ConcatAssociative(ServerEvents(a), v1.bridgeRx, events);
    ConcatAssociative(MessagesFrom(a, Local), v1.localRx, locals);
  }

  lemma {:induction false} NothingFromServer<M>(log: seq<LogEntry<M>>, source: Source)
    requires OnlyFrom(log, source) && !source.Server?
    ensures ServerEvents(log) == []
    decreases |log|
  {
    if log == [] {
    } else {
      NothingFromServer(log[..|log| - 1], source);
    }
  }

  lemma TakenFromQueue<M>(done: seq<M>, m: M, rest: seq<M>)
    ensures done + ([] + ([m] + rest)) == done + ([m] + rest)
  {
  }

  lemma Regroup<M>(done: seq<M>, taken: seq<M>, queued: seq<M>, sent: seq<M>)
    ensures (done + taken) + ([] + (queued + sent)) == (done + (taken + queued)) + sent
  {
  }

  // ---------- an early end ----------

  ghost predicate PutsOutNothing<S(!new), M(!new)>(actor: Actor<S, M>) {
    forall s, source, content :: actor.handle(s, source, content).1 == []
  }

  lemma {:induction false} MuteSendsNothing<S(!new), M(!new)>(actor: Actor<S, M>, log: seq<LogEntry<M>>)
    ensures PutsOutNothing(actor) ==> Pending(actor, log) == [] && OutputsOf(actor, log) == []
    decreases |log|
  {
    if log == [] {
    } else {
      MuteSendsNothing(actor, log[..|log| - 1]);
    }
  }

  // A run that ends without any server event: a runtime that has handled nothing is woken by a local
  // message.  It handles the message and stops, unless the actor keeps its self queue busy beyond the
  // fuel; one that puts out nothing certainly stops.
  method LocalMessageEndsRun<S(!new), M(!new)>(runtime: ActorRuntime<S, M>, message: M, fuel: nat)
      returns (ending: Ending, ghost added: seq<LogEntry<M>>)
    requires runtime.Valid() && runtime.log == [] && !runtime.connected && runtime.bridgeRx == []
             && runtime.localRx == []
    modifies runtime
    ensures runtime.Valid() && runtime.log == added && StartsWith(added, Some(Handled(Local, Payload(message))))
    ensures ServerEvents(added) == [] && Quiet(added)
    ensures ending.Stopped? || (ending.OutOfFuel? && runtime.selfRx != [])
    ensures PutsOutNothing(runtime.actor) ==> ending.Stopped?
  {
    var turns: seq<Turn<M>> := [Turn([], [message], FromLocal)];
    var used;
    ghost var moments;
    ending, used, added, moments := runtime.Run(turns, fuel);
    NoEventsComeIn(turns, used);
    assert [] + added == added;
    if used == 1 {
      LastTurn(runtime.actor, fuel, turns, used, moments, ending);
    }
    runtime.SelfQueueIsPending();
    MuteSendsNothing(runtime.actor, runtime.log);
  }

  lemma LastTurn<S, M>(actor: Actor<S, M>, fuel: nat, turns: seq<Turn<M>>, used: nat, moments: seq<Moment<M>>,
      ending: Ending)
    requires 0 < used <= |turns| && EachTurnTaken(actor, fuel, turns[..used], moments, ending)
    ensures TookTurn(actor, fuel, moments[used - 1], turns[used - 1], moments[used], ending)
  {
    assert turns[..used][used - 1] == turns[used - 1];
  }

  lemma NoEventsComeIn<M>(turns: seq<Turn<M>>, used: nat)
    requires used <= |turns| == 1 && turns[0].events == []
    ensures EventsIn(turns[..used]) == []
  {
    if used == 1 {
      assert turns[..1][..0] == [];
    }
  }

  // ---------- the grammar, at the actor ----------

  // Of a well-formed stream of bridge events, what a fresh runtime has handled is well formed too, the
  // flag is up exactly in the middle of a session, and the actor was shut down exactly if it has ended.
  lemma HandlingSpeaks<M>(arrived: seq<BridgeEvent<M>>, locals: seq<M>, added: seq<LogEntry<M>>, after: View<M>)
    requires Progress(View([], arrived, locals, false), added, after) && Grammatical(arrived)
    ensures Grammatical(ServerEvents(added))
    ensures after.connected <==> Session(ServerEvents(added))
    ensures Ended(added) <==> ServerEvents(added) != [] && !Session(ServerEvents(added))
  {
    var events := ServerEvents(added);
    assert events == arrived[..|events|];
    BeginningIsGrammatical(arrived, |events|);
    ConnectedInSession(events);
    if events != [] && !Session(events) {
      assert events[|events| - 1] == Disconnected;
    }
  }

  lemma {:induction false} ConnectedInSession<M>(events: seq<BridgeEvent<M>>)
    requires Grammatical(events)
    ensures ConnectedAfter(false, events) <==> Session(events)
    decreases |events|
  {
    if |events| > 1 && Session(events) {
      ConnectedInSession(events[..|events| - 1]);
    }
  }

  lemma PrefixIsGrammatical<M>(given: seq<BridgeEvent<M>>, arrived: seq<BridgeEvent<M>>)
    requires Grammatical(given) && arrived <= given
    ensures Grammatical(arrived)
  {
    assert arrived == given[..|arrived|];
    BeginningIsGrammatical(given, |arrived|);
  }

  lemma PrefixOfPrefix<T>(a: seq<T>, rest: seq<T>, b: seq<T>, c: seq<T>)
    requires a + rest == b && b <= c
    ensures a <= c
  {
  }

  lemma BeginningInOrder<M>(p: Pipeline<M>, events: seq<BridgeEvent<Tagged<M>>>, channel: nat)
    requires InOrder(p) && events <= Delivered(p)
    ensures OnChannel(MessagesIn(events), channel) <= OnChannel(p.decoded, channel)
  {
    var rest := Delivered(p)[|events|..];
    assert Delivered(p) == events + rest;
    MessagesConcat(events, rest);
    OnChannelPrefix(MessagesIn(events), p.decoded, channel);
  }

  // The whole client: whatever the channel tasks, bridge and connector did, a runtime fed with what
  // they delivered has handled a beginning of `Connected Message* Disconnected`, and on each channel a
  // beginning of what was decoded there.
  lemma WholeClientSpeaksInOrder<M>(channels: nat, steps: seq<ClientPipeline.Step<M>>,
      arrived: seq<BridgeEvent<Tagged<M>>>, locals: seq<Tagged<M>>, added: seq<LogEntry<Tagged<M>>>,
      after: View<Tagged<M>>, channel: nat)
    requires Possible(channels, steps) && arrived <= Delivered(Reached(channels, steps))
    requires Progress(View([], arrived, locals, false), added, after)
    ensures Grammatical(ServerEvents(added))
    ensures Ended(added) <==> ServerEvents(added) != [] && !Session(ServerEvents(added))
    ensures OnChannel(MessagesIn(ServerEvents(added)), channel) <= OnChannel(Reached(channels, steps).decoded, channel)
  {
    var p := Reached(channels, steps);
    var events, given := ServerEvents(added), Delivered(p);
    EveryRunSpeaksInOrder(channels, steps);
    SessionIsGrammatical(p);
    PrefixIsGrammatical(given, arrived);
    HandlingSpeaks(arrived, locals, added, after);
    PrefixOfPrefix(events, after.bridgeRx, arrived, given);
    BeginningInOrder(p, events, channel);
  }
}
