/**
 * The server actor's event loop: channel tasks report to one queue, the actor writes to itself through
 * another, and every letter it handles is followed by routing what it put out.
 *
 * The actor is any pure function of its state.  Which of the ready branches a turn takes is up to the
 * script, as it is up to `tokio::select!`.
 */
module ServerActors {
  import opened Wrappers
  import opened Ids
  import opened Framing
  import opened Codecs
  import opened ActorTables
  import opened Connections
  import opened Discipline
  import opened Announcements
  import opened Routing

  // What channel tasks report.
  datatype Event<M> = Lifecycle(decision: Decision) | FromUser(user: UserId, channel: ChannelType, message: M)

  datatype Sender = User(user: UserId) | Itself

  datatype Content<M> = UserConnected | UserDisconnected | Message(message: M)

  // What the actor handles.
  datatype Letter<M> = Letter(from: Sender, content: Content<M>)

  datatype Actor<!S, !M> = Actor(
    startup: S,
    handle: (S, Letter<M>) -> (S, seq<Output<M>>),
    shutdown: S -> S)

  function Address<M>(event: Event<M>): Letter<M> {
    match event
    case Lifecycle(Ready(u)) => Letter(User(u), UserConnected)
    case Lifecycle(Gone(u)) => Letter(User(u), UserDisconnected)
    case FromUser(u, _, m) => Letter(User(u), Message(m))
  }

  // Readiness is told as a connection, its end as a disconnection, and a message by who sent it.
  lemma LettersSayWhatHappened<M>(u: UserId, channel: ChannelType, m: M)
    ensures Address<M>(Lifecycle(Ready(u))) == Letter(User(u), UserConnected)
    ensures Address<M>(Lifecycle(Gone(u))) == Letter(User(u), UserDisconnected)
    ensures Address(FromUser(u, channel, m)) == Letter(User(u), Message(m))
  {
  }

  function Addressed<M>(events: seq<Event<M>>): (r: seq<Letter<M>>)
    ensures |r| == |events|
  {
    seq(|events|, i requires 0 <= i < |events| => Address(events[i]))
  }

  function StateAfter<S, M>(actor: Actor<S, M>, log: seq<Letter<M>>): S {
    if log == [] then actor.startup
    else actor.handle(StateAfter(actor, log[..|log| - 1]), log[|log| - 1]).0
  }

  // The letters of a log that came from users.
  function FromUsers<M>(log: seq<Letter<M>>): seq<Letter<M>> {
    if log == [] then []
    else FromUsers(log[..|log| - 1]) + if log[|log| - 1].from.User? then [log[|log| - 1]] else []
  }

  // The messages of a log that the actor sent itself.
  function FromItself<M>(log: seq<Letter<M>>): seq<M> {
    if log == [] then []
    else
      var last := log[|log| - 1];
      FromItself(log[..|log| - 1]) + if last.from.Itself? && last.content.Message? then [last.content.message] else []
  }

  lemma LogSnoc<S, M>(actor: Actor<S, M>, log: seq<Letter<M>>, letter: Letter<M>)
    ensures var next := log + [letter];
            && StateAfter(actor, next) == actor.handle(StateAfter(actor, log), letter).0
            && FromUsers(next) == FromUsers(log) + (if letter.from.User? then [letter] else [])
            && FromItself(next)
                == FromItself(log) +
                (if letter.from.Itself? && letter.content.Message? then [letter.content.message] else [])
  {
    assert (log + [letter])[..|log|] == log;
  }

  lemma {:induction false} FromUsersConcat<M>(a: seq<Letter<M>>, b: seq<Letter<M>>)
    ensures FromUsers(a + b) == FromUsers(a) + FromUsers(b)
    decreases |b|
  {
    if b == [] {
      assert a + b == a;
    } else {
      assert (a + b)[..|a + b| - 1] == a + b[..|b| - 1];
      FromUsersConcat(a, b[..|b| - 1]);
    }
  }

  lemma AddressedConcat<M>(a: seq<Event<M>>, b: seq<Event<M>>)
    ensures Addressed(a + b) == Addressed(a) + Addressed(b)
  {
  }

  lemma AddressedHead<M>(events: seq<Event<M>>)
    requires events != []
    ensures Addressed(events) == [Address(events[0])] + Addressed(events[1..])
  {
  }

  // ---------- the loop ----------

  datatype Pick = NewChannel | Closing | RoomGone | TakeEvent | TakeSelf

  // What arrives before the turn, the routing table during it, and the branch it takes.
  datatype Turn<M> = Turn(arriving: seq<Event<M>>, entries: Entries, pick: Pick)

  datatype Ending = Running | ShutDown | Dropped

  function Arriving<M>(turns: seq<Turn<M>>): seq<Event<M>> {
    if turns == [] then [] else Arriving(turns[..|turns| - 1]) + turns[|turns| - 1].arriving
  }

  // `added` was handled, and of the events, those in it were taken from the front of the queue.
  ghost predicate Progress<M>(before: seq<Event<M>>, added: seq<Letter<M>>, after: seq<Event<M>>) {
    FromUsers(added) + Addressed(after) == Addressed(before)
  }

  lemma NoProgress<M>(queue: seq<Event<M>>)
    ensures Progress(queue, [], queue)
  {
    assert [] + Addressed(queue) == Addressed(queue);
  }

  lemma OneLetter<M>(letter: Letter<M>)
    ensures FromUsers([letter]) == if letter.from.User? then [letter] else []
  {
    assert [letter][..0] == [];
  }

  // Handling one event, or one message of the actor's own.
  lemma EventProgress<M>(queue: seq<Event<M>>)
    requires queue != []
    ensures Progress(queue, [Address(queue[0])], queue[1..])
  {
    OneLetter(Address(queue[0]));
    AddressedHead(queue);
  }

  lemma SelfProgress<M>(queue: seq<Event<M>>, m: M)
    ensures Progress(queue, [Letter(Itself, Message(m))], queue)
  {
    OneLetter(Letter(Itself, Message(m)));
    assert [] + Addressed(queue) == Addressed(queue);
  }

  lemma ProgressAgain<M>(q0: seq<Event<M>>, a: seq<Letter<M>>, q1: seq<Event<M>>, arriving: seq<Event<M>>,
      b: seq<Letter<M>>, q2: seq<Event<M>>)
    requires Progress(q0, a, q1) && Progress(q1 + arriving, b, q2)
    ensures Progress(q0 + arriving, a + b, q2)
  {
    FromUsersConcat(a, b);
    AddressedConcat(q0, arriving);
    AddressedConcat(q1, arriving);
    ConcatAssociative(FromUsers(a), FromUsers(b), Addressed(q2));
    ConcatAssociative(FromUsers(a), Addressed(q1), Addressed(arriving));
  }

  lemma ArrivingSnoc<M>(queue: seq<Event<M>>, turns: seq<Turn<M>>, i: nat)
    requires i < |turns|
    ensures queue + Arriving(turns[..i + 1]) == (queue + Arriving(turns[..i])) + turns[i].arriving
  {
    assert turns[..i + 1][..i] == turns[..i];
    ConcatAssociative(queue, Arriving(turns[..i]), turns[i].arriving);
  }

  // The messages to itself that a queue takes of some outputs.
  function Taken<M(!new)>(queue: seq<M>, outputs: seq<Output<M>>): seq<M> {
    Internals(outputs)[..Room(|queue|, |Internals(outputs)|, SELF_CAPACITY)]
  }

  // An internal message gets into the self queue while there is room in it, and nothing else does.
  lemma TakenOfOne<M(!new)>(queue: seq<M>, m: M)
    ensures Taken(queue, [Internal(m)]) == if |queue| < SELF_CAPACITY then [m] else []
    ensures Taken(queue, [Broadcast(m)]) == []
    ensures forall u :: Taken(queue, [ToUser(u, m)]) == []
  {
    InternalsOfOne(m);
  }

  // Every channel's queue, offered the frames addressed to it.
  function Offered<M(!new)>(codec: Codec<ChannelType, M>, entries: Entries, outputs: seq<Output<M>>,
      queues: Queues): Queues
  {
    map c | c in queues :: OfferAll(queues[c], FramesFor(codec, entries, outputs, c), QUEUE_CAPACITY)
  }

  type Queues = map<ChannelId, seq<seq<byte>>>

  // What the loop works on.
  datatype World<S, M> = World(state: S, eventRx: seq<Event<M>>, selfRx: seq<M>, queues: Queues)

  function AfterLetter<S, M(!new)>(actor: Actor<S, M>, codec: Codec<ChannelType, M>, w: World<S, M>, letter: Letter<M>,
      entries: Entries): World<S, M>
  {
    var (next, outputs) := actor.handle(w.state, letter);
    World(next, w.eventRx, w.selfRx + Taken(w.selfRx, outputs), Offered(codec, entries, outputs, w.queues))
  }

  function AfterTurn<S, M(!new)>(actor: Actor<S, M>, codec: Codec<ChannelType, M>, w: World<S, M>,
      turn: Turn<M>): World<S, M>
  {
    var w' := w.(eventRx := w.eventRx + turn.arriving);
    match turn.pick
    case Closing => w'.(state := actor.shutdown(w'.state))
    case TakeEvent =>
      if w'.eventRx == [] then w'
      else AfterLetter(actor, codec, w'.(eventRx := w'.eventRx[1..]), Address(w'.eventRx[0]), turn.entries)
    case TakeSelf =>
      if w'.selfRx == [] then w'
      else AfterLetter(actor, codec, w'.(selfRx := w'.selfRx[1..]), Letter(Itself, Message(w'.selfRx[0])), turn.entries)
    case _ => w'
  }

  function AfterTurns<S, M(!new)>(actor: Actor<S, M>, codec: Codec<ChannelType, M>, w: World<S, M>,
      turns: seq<Turn<M>>): World<S, M>
  {
    if turns == [] then w
    else AfterTurn(actor, codec, AfterTurns(actor, codec, w, turns[..|turns| - 1]), turns[|turns| - 1])
  }

  lemma TurnsSnoc<S, M(!new)>(actor: Actor<S, M>, codec: Codec<ChannelType, M>, w: World<S, M>, turns: seq<Turn<M>>,
      i: nat)
    requires i < |turns|
    ensures AfterTurns(actor, codec, w, turns[..i + 1])
            == AfterTurn(actor, codec, AfterTurns(actor, codec, w, turns[..i]), turns[i])
  {
    assert turns[..i + 1][..i] == turns[..i];
  }

  class ServerActor<S, M(!new)> {
    const actor: Actor<S, M>
    const codec: Codec<ChannelType, M>
    const outbox: Outbox
    var state: S
    var eventRx: seq<Event<M>>
    var selfRx: seq<M>
    ghost var log: seq<Letter<M>>
    ghost var accepted: seq<M>   // messages the self queue has taken
    ghost var over: bool

    constructor (actor: Actor<S, M>, codec: Codec<ChannelType, M>, outbox: Outbox)
      ensures this.actor == actor && this.codec == codec && this.outbox == outbox
      ensures Valid() && !over && log == [] && eventRx == [] && accepted == []
    {
      this.actor, this.codec, this.outbox := actor, codec, outbox;
      state, eventRx, selfRx := actor.startup, [], [];
      log, accepted, over := [], [], false;
    }

    // The state is that of handling the log, shut down if the loop is over; the self queue is bounded,
    // and what it has taken has been handled in order up to what it still holds.
    ghost predicate Valid()
      reads this
    {
      ValidExcept([])
    }

    function Now(): World<S, M>
      reads this, outbox
    {
      World(state, eventRx, selfRx, outbox.queues)
    }

    // `taken` has left the self queue and is about to be handled.
    ghost predicate ValidExcept(taken: seq<M>)
      reads this
    {
      && state == (if over then actor.shutdown(StateAfter(actor, log)) else StateAfter(actor, log))
      && FromItself(log) + (taken + selfRx) == accepted
      && |selfRx| <= SELF_CAPACITY
    }

    // Route some outputs.
    method Deliver(outputs: seq<Output<M>>, entries: Entries)
      requires |selfRx| <= SELF_CAPACITY
      modifies this`selfRx, outbox
      ensures selfRx == old(selfRx) + Taken(old(selfRx), outputs) && |selfRx| <= SELF_CAPACITY
      ensures outbox.queues == Offered(codec, entries, outputs, old(outbox.queues))
    {
      var queue := RouteOutputs(codec, entries, outputs, outbox, selfRx);
      selfRx := queue;
    }

    // One letter: the actor's new state, then its outputs to the queues they are addressed to.
    method Handle(letter: Letter<M>, entries: Entries)
      requires letter.from.Itself? ==> letter.content.Message?
      requires ValidExcept(if letter.from.Itself? then [letter.content.message] else []) && !over
      modifies this`state, this`selfRx, this`log, this`accepted, outbox
      ensures Valid() && log == old(log) + [letter]
      ensures Now() == AfterLetter(actor, codec, old(Now()), letter, entries)
      ensures accepted == old(accepted) + Taken(old(selfRx), actor.handle(old(state), letter).1)
    {
      var (next, outputs) := actor.handle(state, letter);
      LogSnoc(actor, log, letter);
      ghost var taken := if letter.from.Itself? then [letter.content.message] else [];
      Requeue(FromItself(log), taken, selfRx, Taken(selfRx, outputs));
      accepted := accepted + Taken(selfRx, outputs);
      state := next;
      log := log + [letter];
      Deliver(outputs, entries);
    }

    // The oldest event, taken off its queue and handled.
    method NextEvent(entries: Entries) returns (ghost letter: Letter<M>)
      requires Valid() && !over && eventRx != []
      modifies this`state, this`eventRx, this`selfRx, this`log, this`accepted, outbox
      ensures Valid() && log == old(log) + [letter] && letter == Address(old(eventRx)[0])
      ensures Now() == AfterLetter(actor, codec, old(Now()).(eventRx := old(eventRx)[1..]), letter, entries)
    {
      var event := eventRx[0];
      eventRx := eventRx[1..];
      Handle(Address(event), entries);
      letter := Address(event);
    }

    // The oldest message of the actor's own, likewise.
    method NextOwn(entries: Entries) returns (ghost letter: Letter<M>)
      requires Valid() && !over && selfRx != []
      modifies this`state, this`selfRx, this`log, this`accepted, outbox
      ensures Valid() && log == old(log) + [letter] && letter == Letter(Itself, Message(old(selfRx)[0]))
      ensures Now() == AfterLetter(actor, codec, old(Now()).(selfRx := old(selfRx)[1..]), letter, entries)
    {
      var m := selfRx[0];
      HeadAndTail(selfRx);
      selfRx := selfRx[1..];
      Handle(Letter(Itself, Message(m)), entries);
      letter := Letter(Itself, Message(m));
    }

    // One turn of the loop.
    method TakeTurn(turn: Turn<M>) returns (ending: Ending, ghost added: seq<Letter<M>>)
      requires Valid() && !over
      modifies this`state, this`eventRx, this`selfRx, this`log, this`accepted, this`over, outbox
      ensures Valid() && log == old(log) + added
      ensures Now() == AfterTurn(actor, codec, old(Now()), turn)
      ensures Progress(old(eventRx) + turn.arriving, added, eventRx)
      ensures over <==> ending.ShutDown?
      ensures ending == match turn.pick case Closing => ShutDown case RoomGone => Dropped case _ => Running
      ensures turn.pick.TakeEvent? && old(eventRx) + turn.arriving != [] ==>
                added == [Address((old(eventRx) + turn.arriving)[0])]
      ensures turn.pick.TakeSelf? && old(selfRx) != [] ==> added == [Letter(Itself, Message(old(selfRx)[0]))]
      ensures !turn.pick.TakeEvent? && !turn.pick.TakeSelf? ==> added == []
    {
      eventRx := eventRx + turn.arriving;
      added, ending := [], Running;
      ghost var queue := eventRx;
      NoProgress(eventRx);
      assert log + [] == log;
      match turn.pick {
        case NewChannel =>
        case Closing =>
          state, over, ending := actor.shutdown(state), true, ShutDown;
        case RoomGone =>
          ending := Dropped;
        case TakeEvent =>
          if eventRx != [] {
            ghost var letter := NextEvent(turn.entries);
            EventProgress(queue);
            added := [letter];
          }
        case TakeSelf =>
          if selfRx != [] {
            ghost var letter := NextOwn(turn.entries);
            SelfProgress(queue, letter.content.message);
            added := [letter];
          }
      }
    }

    // The loop ends when the room closes, with a shutdown, or is dropped, without.
    method Run(turns: seq<Turn<M>>) returns (ending: Ending, used: nat, ghost added: seq<Letter<M>>)
      requires Valid() && !over
      modifies this`state, this`eventRx, this`selfRx, this`log, this`accepted, this`over, outbox
      ensures Valid() && used <= |turns| && log == old(log) + added
      ensures Loops(actor, codec, old(Now()), turns[..used], added, Now())
      ensures over <==> ending.ShutDown?
      ensures forall i | 0 <= i < used && (turns[i].pick.Closing? || turns[i].pick.RoomGone?) ::
                i == used - 1 && !ending.Running?
      ensures if ending.Running? then used == |turns| && GoesOn(turns[..used])
              else
                && used > 0 && GoesOn(turns[..used - 1])
                && turns[used - 1].pick == if ending.ShutDown? then Closing else RoomGone
    {
      added, used, ending := [], 0, Running;
      LoopStarts(actor, codec, Now(), turns);
      assert log + [] == log;
      while used < |turns|
        invariant used <= |turns| && ending.Running? && !over
        invariant Valid() && log == old(log) + added
        invariant Loops(actor, codec, old(Now()), turns[..used], added, Now()) && GoesOn(turns[..used])
      {
        ghost var now, more := Now(), [];
        ending, more := TakeTurn(turns[used]);
        LoopsOn(actor, codec, old(Now()), turns, used, added, now, more, Now());
        ConcatAssociative(old(log), added, more);
        added, used := added + more, used + 1;
        if !ending.Running? {
          return;
        }
      }
    }
  }

  // What some turns leave, and what they handled.
  ghost predicate Loops<S, M(!new)>(actor: Actor<S, M>, codec: Codec<ChannelType, M>, w0: World<S, M>,
      turns: seq<Turn<M>>,
      added: seq<Letter<M>>, w: World<S, M>)
  {
    && w == AfterTurns(actor, codec, w0, turns)
    && Progress(w0.eventRx + Arriving(turns), added, w.eventRx)
  }

  // None of the turns ends the loop.
  predicate GoesOn<M>(turns: seq<Turn<M>>) {
    forall i | 0 <= i < |turns| :: !turns[i].pick.Closing? && !turns[i].pick.RoomGone?
  }

  lemma LoopStarts<S, M(!new)>(actor: Actor<S, M>, codec: Codec<ChannelType, M>, w: World<S, M>, turns: seq<Turn<M>>)
    ensures Loops(actor, codec, w, turns[..0], [], w) && GoesOn(turns[..0])
  {
    NoProgress(w.eventRx);
    assert w.eventRx + Arriving(turns[..0]) == w.eventRx;
  }

  lemma LoopsOn<S, M(!new)>(actor: Actor<S, M>, codec: Codec<ChannelType, M>, w0: World<S, M>, turns: seq<Turn<M>>,
      i: nat,
      a: seq<Letter<M>>, w1: World<S, M>, b: seq<Letter<M>>, w2: World<S, M>)
    requires i < |turns| && Loops(actor, codec, w0, turns[..i], a, w1)
    requires w2 == AfterTurn(actor, codec, w1, turns[i]) && Progress(w1.eventRx + turns[i].arriving, b, w2.eventRx)
    ensures Loops(actor, codec, w0, turns[..i + 1], a + b, w2)
    ensures GoesOn(turns[..i]) && !turns[i].pick.Closing? && !turns[i].pick.RoomGone? ==> GoesOn(turns[..i + 1])
    ensures turns[..i + 1][..i] == turns[..i]
  {
    ProgressAgain(w0.eventRx + Arriving(turns[..i]), a, w1.eventRx, turns[i].arriving, b, w2.eventRx);
    ArrivingSnoc(w0.eventRx, turns, i);
    TurnsSnoc(actor, codec, w0, turns, i);
  }

  lemma Requeue<M>(done: seq<M>, taken: seq<M>, queued: seq<M>, more: seq<M>)
    ensures (done + taken) + ([] + (queued + more)) == (done + (taken + queued)) + more
  {
  }

  // ---------- what the actor hears about users ----------

  // The decisions a list of events reports.
  function Lifecycles<M>(events: seq<Event<M>>): seq<Decision> {
    if events == [] then []
    else Lifecycles(events[..|events| - 1]) + if events[|events| - 1].Lifecycle? then [events[|events| - 1].decision]
        else []
  }

  // The arrivals and departures the actor has handled.
  function Heard<M>(letters: seq<Letter<M>>): seq<Decision> {
    if letters == [] then []
    else
      Heard(letters[..|letters| - 1]) +
        match letters[|letters| - 1]
        case Letter(User(u), UserConnected) => [Ready(u)]
        case Letter(User(u), UserDisconnected) => [Gone(u)]
        case _ => []
  }

  lemma {:induction false} HeardIsReported<M>(events: seq<Event<M>>)
    ensures Heard(Addressed(events)) == Lifecycles(events)
    decreases |events|
  {
    if events == [] {
    } else {
      var n := |events| - 1;
      assert Addressed(events)[..n] == Addressed(events[..n]);
      HeardIsReported(events[..n]);
    }
  }

  lemma {:induction false} HeardFromUsers<M>(log: seq<Letter<M>>)
    ensures Heard(FromUsers(log)) == Heard(log)
    decreases |log|
  {
    if log == [] {
    } else {
      var n := |log| - 1;
      HeardFromUsers(log[..n]);
      if log[n].from.User? {
        assert FromUsers(log)[..|FromUsers(log[..n])|] == FromUsers(log[..n]);
      } else {
        assert FromUsers(log) == FromUsers(log[..n]);
      }
    }
  }

  lemma {:induction false} LifecyclesPrefix<M>(events: seq<Event<M>>, k: nat)
    requires k <= |events|
    ensures Lifecycles(events[..k]) <= Lifecycles(events)
    decreases |events| - k
  {
    if k == |events| {
      assert events[..k] == events;
    } else {
      assert events[..k + 1][..k] == events[..k];
      LifecyclesPrefix(events, k + 1);
    }
  }

  // The actor hears a beginning of what was reported to it.
  lemma HearsInOrder<M>(arrived: seq<Event<M>>, added: seq<Letter<M>>, left: seq<Event<M>>)
    requires Progress(arrived, added, left)
    ensures Heard(added) <= Lifecycles(arrived)
  {
    var k := |FromUsers(added)|;
    assert FromUsers(added) == Addressed(arrived)[..k] == Addressed(arrived[..k]);
    HeardFromUsers(added);
    HeardIsReported(arrived[..k]);
    LifecyclesPrefix(arrived, k);
  }

  // From channel tasks to actor: for an orderly user with prompt tasks, an actor that is told what the
  // tasks send handles, for each user, `UserConnected` and `UserDisconnected` in strict alternation.
  lemma ActorHearsAlternately<M>(types: set<ChannelType>, steps: seq<Step>, u: UserId,
      arrived: seq<Event<M>>, added: seq<Letter<M>>, left: seq<Event<M>>)
    requires Possible(|types|, steps) && OrderlyRun(types, steps, u) && PromptRun(|types|, steps, u)
    requires Lifecycles(arrived) <= Reached(|types|, steps).sent && Progress(arrived, added, left)
    ensures Alternating(Of(Heard(added), u))
  {
    HearsInOrder(arrived, added, left);
    PromptOrderlyRunsTellAlternately(types, steps, u, Heard(added));
  }
}
