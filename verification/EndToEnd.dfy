/**
 * One channel from the server actor's turns to the client's decoder: the actor loop, the transport's
 * writes and the client's reads, in any order.
 */
module EndToEnd {
  import opened Wrappers
  import opened Ids
  import opened Framing
  import opened Codecs
  import opened ActorTables
  import opened Routing
  import Actors = ServerActors
  import Links = Delivery

  datatype System<S, M> = System(world: Actors.World<S, M>, link: Links.Link<M>)

  datatype Event<M> = Loop(turn: Actors.Turn<M>) | Write | Read(n: nat)

  // The game, and the channel that is watched.
  datatype Setup<!S, !M(!new)> = Setup(
    actor: Actors.Actor<S, M>,
    codec: Codec<ChannelType, M>,
    id: ChannelId,
    channel: ChannelType)

  // What the actor puts out in a turn.
  function Outputs<S, M>(actor: Actors.Actor<S, M>, w: Actors.World<S, M>, turn: Actors.Turn<M>): seq<Output<M>> {
    var events := w.eventRx + turn.arriving;
    if turn.pick.TakeEvent? && events != [] then actor.handle(w.state, Actors.Address(events[0])).1
    else if turn.pick.TakeSelf? && w.selfRx != [] then
      actor.handle(w.state, Actors.Letter(Actors.Itself, Actors.Message(w.selfRx[0]))).1
    else []
  }

  // The messages of a turn that are addressed to the watched channel.
  function Addressed<S, M(!new)>(g: Setup<S, M>, w: Actors.World<S, M>, turn: Actors.Turn<M>): (ms: seq<M>)
    ensures Encodable(g.codec, ms)
  {
    MessagesFor(g.codec, turn.entries, Outputs(g.actor, w, turn), g.id)
  }

  // The channel keeps the type it was identified with, and no payload is larger than a frame may be.
  predicate Enabled<S, M(!new)>(g: Setup<S, M>, s: System<S, M>, e: Event<M>) {
    match e
    case Loop(turn) =>
      && (g.id in turn.entries ==> turn.entries[g.id].1 == g.channel)
      && Sized(Payloads(g.codec, Addressed(g, s.world, turn)))
    case Write => Links.Enabled(g.codec, g.channel, s.link, Links.Write)
    case Read(n) => Links.Enabled(g.codec, g.channel, s.link, Links.Read(n))
  }

  lemma AddressedFit<S, M(!new)>(g: Setup<S, M>, s: System<S, M>, turn: Actors.Turn<M>)
    requires Enabled(g, s, Loop(turn))
    ensures Links.Sendable(g.codec, g.channel, Addressed(g, s.world, turn))
  {
    var ms := Addressed(g, s.world, turn);
    forall i | 0 <= i < |ms|
      ensures Links.Fits(g.codec, g.channel, ms[i])
    {
      assert ms[i] in ms;
      assert Payloads(g.codec, ms)[i] == g.codec.encode(ms[i]).value;
    }
  }

  function After<S, M(!new)>(g: Setup<S, M>, s: System<S, M>, e: Event<M>): System<S, M>
    requires Enabled(g, s, e)
  {
    match e
    case Loop(turn) =>
      AddressedFit(g, s, turn);
      System(Actors.AfterTurn(g.actor, g.codec, s.world, turn),
             Links.After(g.codec, g.channel, s.link, Links.Route(Addressed(g, s.world, turn))))
    case Write =>
      System(s.world.(queues := s.world.queues[g.id := s.link.queue[1..]]),
          Links.After(g.codec, g.channel, s.link, Links.Write))
    case Read(n) => System(s.world, Links.After(g.codec, g.channel, s.link, Links.Read(n)))
  }

  // The link's queue is the channel's queue in the room.
  ghost predicate Coupled<S, M(!new)>(g: Setup<S, M>, s: System<S, M>) {
    g.id in s.world.queues && s.world.queues[g.id] == s.link.queue
  }

  lemma NothingOffered<T>(queue: seq<T>, capacity: nat)
    ensures OfferAll(queue, [], capacity) == queue
  {
  }

  // A turn offers the channel's queue the frames of the messages addressed to it.
  lemma QueueAfterTurn<S, M(!new)>(g: Setup<S, M>, w: Actors.World<S, M>, turn: Actors.Turn<M>)
    requires g.id in w.queues
    ensures var w' := Actors.AfterTurn(g.actor, g.codec, w, turn);
            && g.id in w'.queues
            && w'.queues[g.id]
                == OfferAll(w.queues[g.id], Framed(Payloads(g.codec, Addressed(g, w, turn))), QUEUE_CAPACITY)
  {
    if Outputs(g.actor, w, turn) == [] {
      NothingOffered(w.queues[g.id], QUEUE_CAPACITY);
    }
  }

  lemma StepKeepsCoupled<S, M(!new)>(g: Setup<S, M>, s: System<S, M>, e: Event<M>)
    requires Enabled(g, s, e) && Coupled(g, s)
    ensures Coupled(g, After(g, s, e))
  {
    match e {
      case Loop(turn) => QueueAfterTurn(g, s.world, turn);
      case _ =>
    }
  }

  lemma StepConserves<S, M(!new)>(g: Setup<S, M>, s: System<S, M>, e: Event<M>)
    requires g.codec.Lawful() && Enabled(g, s, e) && Links.Conserved(g.codec, g.channel, s.link)
    ensures Links.Conserved(g.codec, g.channel, After(g, s, e).link)
  {
    match e {
      case Loop(turn) =>
        AddressedFit(g, s, turn);
        Links.StepConserves(g.codec, g.channel, s.link, Links.Route(Addressed(g, s.world, turn)));
      case Write => Links.StepConserves(g.codec, g.channel, s.link, Links.Write);
      case Read(n) => Links.StepConserves(g.codec, g.channel, s.link, Links.Read(n));
    }
  }

  // ---------- whole runs ----------

  predicate Possible<S, M(!new)>(g: Setup<S, M>, w: Actors.World<S, M>, run: seq<Event<M>>)
    decreases |run|, 0
  {
    run != [] ==>
      var n := |run| - 1;
      Possible(g, w, run[..n]) && Enabled(g, Reached(g, w, run[..n]), run[n])
  }

  // From the moment the channel is opened.
  function Reached<S, M(!new)>(g: Setup<S, M>, w: Actors.World<S, M>, run: seq<Event<M>>): System<S, M>
    requires Possible(g, w, run)
    decreases |run|, 1
  {
    if run == [] then System(w, Links.Link([], [], [], false, [], []))
    else After(g, Reached(g, w, run[..|run| - 1]), run[|run| - 1])
  }

  // All messages the actor has addressed to the channel, in output order.
  function AllAddressed<S, M(!new)>(g: Setup<S, M>, w: Actors.World<S, M>, run: seq<Event<M>>): seq<M>
    requires Possible(g, w, run)
    decreases |run|
  {
    if run == [] then []
    else
      var n := |run| - 1;
      AllAddressed(g, w, run[..n]) + if run[n].Loop? then Addressed(g, Reached(g, w, run[..n]).world, run[n].turn)
          else []
  }

  ghost predicate Subsequence<T(!new)>(a: seq<T>, b: seq<T>)
    decreases |b|
  {
    || a == []
    || (b != [] && Subsequence(a, b[..|b| - 1]))
    || (b != [] && a[|a| - 1] == b[|b| - 1] && Subsequence(a[..|a| - 1], b[..|b| - 1]))
  }

  lemma SubsequenceSkips<T(!new)>(a: seq<T>, b: seq<T>, x: T)
    requires Subsequence(a, b)
    ensures Subsequence(a, b + [x])
  {
    assert (b + [x])[..|b|] == b;
  }

  lemma SubsequenceTakes<T(!new)>(a: seq<T>, b: seq<T>, x: T)
    requires Subsequence(a, b)
    ensures Subsequence(a + [x], b + [x])
  {
    assert (b + [x])[..|b|] == b && (a + [x])[..|a|] == a;
  }

  lemma LastApart<T>(b: seq<T>, more: seq<T>)
    requires more != []
    ensures b + more == (b + more[..|more| - 1]) + [more[|more| - 1]]
  {
  }

  // A queue takes a beginning of what it is offered.
  lemma {:induction false} SubsequenceGrows<T(!new)>(a: seq<T>, b: seq<T>, more: seq<T>, k: nat)
    requires Subsequence(a, b) && k <= |more|
    ensures Subsequence(a + more[..k], b + more)
    decreases |more|
  {
    if more == [] {
      assert a + more[..k] == a && b + more == b;
    } else {
      var n := |more| - 1;
      LastApart(b, more);
      if k <= n {
        SubsequenceGrows(a, b, more[..n], k);
        assert more[..n][..k] == more[..k];
        SubsequenceSkips(a + more[..k], b + more[..n], more[n]);
      } else {
        SubsequenceGrows(a, b, more[..n], n);
        assert more[..k] == more && more[..n][..n] == more[..n];
        LastApart(a, more);
        SubsequenceTakes(a + more[..n], b + more[..n], more[n]);
      }
    }
  }

  lemma {:induction false} EveryRunDelivers<S, M(!new)>(g: Setup<S, M>, w: Actors.World<S, M>, run: seq<Event<M>>)
    requires g.codec.Lawful() && Possible(g, w, run) && g.id in w.queues && w.queues[g.id] == []
    ensures var s := Reached(g, w, run);
            Coupled(g, s) && Links.Conserved(g.codec, g.channel, s.link)
                && Subsequence(s.link.accepted, AllAddressed(g, w, run))
    decreases |run|
  {
    if run == [] {
      var none: seq<Links.Event<M>> := [];
      Links.SurvivorsArriveInOrder(g.codec, g.channel, none);
    } else {
      var n := |run| - 1;
      var s := Reached(g, w, run[..n]);
      EveryRunDelivers(g, w, run[..n]);
      StepKeepsCoupled(g, s, run[n]);
      StepConserves(g, s, run[n]);
      AcceptedGrows(g, s, run[n], AllAddressed(g, w, run[..n]));
    }
  }

  lemma AcceptedGrows<S, M(!new)>(g: Setup<S, M>, s: System<S, M>, e: Event<M>, all: seq<M>)
    requires Enabled(g, s, e) && Subsequence(s.link.accepted, all)
    ensures Subsequence(After(g, s, e).link.accepted, all + if e.Loop? then Addressed(g, s.world, e.turn) else [])
  {
    match e {
      case Loop(turn) =>
        var ms := Addressed(g, s.world, turn);
        SubsequenceGrows(s.link.accepted, all, ms, Room(|s.link.queue|, |ms|, QUEUE_CAPACITY));
      case _ => assert all + [] == all;
    }
  }

  // Whatever the actor does, whatever the bounded queue drops and however the bytes are cut: the client
  // has decoded a beginning of the messages that survived, and these are some of those the actor
  // addressed to the channel, in output order; with the room's queue and the wire empty, it has decoded
  // all that survived.
  lemma ClientDecodesSurvivorsInOrder<S, M(!new)>(g: Setup<S, M>, w: Actors.World<S, M>, run: seq<Event<M>>)
    requires g.codec.Lawful() && Possible(g, w, run) && g.id in w.queues && w.queues[g.id] == []
    ensures var s := Reached(g, w, run);
            && s.link.decoded <= s.link.accepted && Subsequence(s.link.accepted, AllAddressed(g, w, run))
                && !s.link.failed
            && g.id in s.world.queues
            && (s.world.queues[g.id] == [] && s.link.wire == [] ==> s.link.decoded == s.link.accepted)
  {
    var s := Reached(g, w, run);
    EveryRunDelivers(g, w, run);
    if s.link.queue == [] && s.link.wire == [] {
      Links.DrainedLinkIsComplete(g.codec, g.channel, s.link);
    }
  }
}
