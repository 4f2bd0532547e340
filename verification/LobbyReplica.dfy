/**
 * A lobby subscriber's copy of the room list: a snapshot with the queued events applied on top.
 *
 * Each step of the server is a block without an `.await` that changes the rooms and then notifies.
 */
module LobbyReplica {
  import opened Wrappers
  import opened Ids
  import opened Rooms
  import opened LobbyLog

  datatype Server<C> = Server(reg: Registry<C>, log: seq<LobbyEvent<C>>)

  datatype Step<C> =
    | Create(creator: UserId, config: C, active: nat, born: nat)
    | Delete(id: RoomId, requester: UserId)
    | Open(id: RoomId, user: UserId, handlerGone: bool, now: nat)
    | Close(id: RoomId, channel: ChannelId, now: nat)
    | Update(id: RoomId)   // a transport reports the current state of a room, if it still exists
    | Expire(id: RoomId)   // notified even when someone else has removed the room meanwhile

  function Updates<C(!new), Q(!new)>(game: Game<C, Q>, reg: Registry<C>, id: RoomId): seq<LobbyEvent<C>> {
    if id in reg.rooms then [RoomUpdated(InfoOf(game, id, reg.rooms[id]))] else []
  }

  function RegistryAfter<C(!new), Q(!new)>(game: Game<C, Q>, reg: Registry<C>, step: Step<C>): Registry<C> {
    match step
    case Create(creator, config, active, born) => Created(game, reg, creator, config, active, born)
    case Delete(id, requester) => Deleted(reg, id, requester)
    case Open(id, user, handlerGone, now) => Opened(game, reg, id, user, handlerGone, now)
    case Close(id, channel, now) => Closed(reg, id, channel, now)
    case Update(_) => reg
    case Expire(id) => Removed(reg, id)
  }

  function EventsOf<C(!new), Q(!new)>(game: Game<C, Q>, reg: Registry<C>, step: Step<C>): seq<LobbyEvent<C>> {
    var next := RegistryAfter(game, reg, step);
    match step
    case Create(_, config, _, _) =>
      if game.valid(config) then CreationOf(game, next, reg.nextRoom) else []
    case Delete(id, requester) => if MayDelete(reg, id, requester) then [RoomDeleted(id)] else []
    case Open(id, user, handlerGone, _) => if LetsIn(game, reg, id, user) && !handlerGone then Updates(game, next, id)
        else []
    case Close(_, _, _) => []
    case Update(id) => Updates(game, reg, id)
    case Expire(id) => [RoomDeleted(id)]
  }

  function After<C(!new), Q(!new)>(game: Game<C, Q>, s: Server<C>, step: Step<C>): Server<C> {
    Server(RegistryAfter(game, s.reg, step), s.log + EventsOf(game, s.reg, step))
  }

  function Run<C(!new), Q(!new)>(game: Game<C, Q>, steps: seq<Step<C>>): Server<C>
    decreases |steps|
  {
    if steps == [] then Server(Start(), []) else After(game, Run(game, steps[..|steps| - 1]), steps[|steps| - 1])
  }

  // ---------- the subscriber ----------

  type Replica<C> = map<RoomId, RoomInfo<C>>

  function Snapshot<C(!new), Q(!new)>(game: Game<C, Q>, reg: Registry<C>): Replica<C> {
    map id | id in reg.rooms :: InfoOf(game, id, reg.rooms[id])
  }

  function Subject<C>(e: LobbyEvent<C>): RoomId {
    match e
    case RoomCreated(info) => info.id
    case RoomUpdated(info) => info.id
    case RoomDeleted(id) => id
  }

  function Apply<C>(m: Replica<C>, e: LobbyEvent<C>): Replica<C> {
    match e
    case RoomCreated(info) => m[info.id := info]
    case RoomUpdated(info) => m[info.id := info]
    case RoomDeleted(id) => m - {id}
  }

  function Replay<C>(m: Replica<C>, events: seq<LobbyEvent<C>>): Replica<C>
    decreases |events|
  {
    if events == [] then m else Apply(Replay(m, events[..|events| - 1]), events[|events| - 1])
  }

  // Whether the last event about a room says it exists.
  function LastWord<C>(events: seq<LobbyEvent<C>>, id: RoomId): Option<bool>
    decreases |events|
  {
    if events == [] then None
    else
      var n := |events| - 1;
      if Subject(events[n]) == id then Some(!events[n].RoomDeleted?) else LastWord(events[..n], id)
  }

  lemma {:induction false} ReplayFollowsLastWord<C>(m: Replica<C>, events: seq<LobbyEvent<C>>, id: RoomId)
    ensures id in Replay(m, events) <==> (if LastWord(events, id).Some? then LastWord(events, id).value else id in m)
    decreases |events|
  {
    if events == [] {
    } else {
      ReplayFollowsLastWord(m, events[..|events| - 1], id);
    }
  }

  lemma LastWordSnoc<C>(events: seq<LobbyEvent<C>>, e: LobbyEvent<C>, id: RoomId)
    ensures LastWord(events + [e], id) == if Subject(e) == id then Some(!e.RoomDeleted?) else LastWord(events, id)
  {
    assert (events + [e])[..|events|] == events;
  }

  // A step announces every room it adds or removes, and announces nothing false.
  lemma StepAnnounces<C(!new), Q(!new)>(game: Game<C, Q>, reg: Registry<C>, step: Step<C>, id: RoomId)
    ensures var events := EventsOf(game, reg, step); var next := RegistryAfter(game, reg, step);
            && |events| <= 1
            && (id in next.rooms
                <==> if |events| == 1 && Subject(events[0]) == id then !events[0].RoomDeleted? else id in reg.rooms)
  {
  }

  // What is announced of a room that is there is its state right after the step.
  lemma EventsCarryTheState<C(!new), Q(!new)>(game: Game<C, Q>, reg: Registry<C>, step: Step<C>)
    ensures var events := EventsOf(game, reg, step); var next := RegistryAfter(game, reg, step);
            events != [] && !events[0].RoomDeleted? ==>
              Subject(events[0]) in next.rooms
              && events[0].info == InfoOf(game, Subject(events[0]), next.rooms[Subject(events[0])])
    ensures step.Open? && LetsIn(game, reg, step.id, step.user) && !step.handlerGone ==>
              EventsOf(game, reg, step) != [] && Subject(EventsOf(game, reg, step)[0]) == step.id
    ensures step.Update? && step.id in reg.rooms ==>
              EventsOf(game, reg, step) != [] && Subject(EventsOf(game, reg, step)[0]) == step.id
  {
  }

  // The events tell whether the room exists now, given whether it existed before them.
  predicate Announced<C>(events: seq<LobbyEvent<C>>, id: RoomId, before: Registry<C>, now: Registry<C>) {
    id in now.rooms <==> if LastWord(events, id).Some? then LastWord(events, id).value else id in before.rooms
  }

  lemma AnnouncedStep<C(!new), Q(!new)>(game: Game<C, Q>, before: Registry<C>, reg: Registry<C>, step: Step<C>,
      past: seq<LobbyEvent<C>>, id: RoomId)
    requires Announced(past, id, before, reg)
    ensures Announced(past + EventsOf(game, reg, step), id, before, RegistryAfter(game, reg, step))
  {
    StepAnnounces(game, reg, step, id);
    var events := EventsOf(game, reg, step);
    if events == [] {
      assert past + events == past;
    } else {
      assert events == [events[0]];
      LastWordSnoc(past, events[0], id);
    }
  }

  // What has been announced after the first `from` steps.
  function EventsSince<C(!new), Q(!new)>(game: Game<C, Q>, steps: seq<Step<C>>, from: nat): seq<LobbyEvent<C>>
    requires from <= |steps|
    decreases |steps|
  {
    if |steps| == from then []
    else
      var n := |steps| - 1;
      EventsSince(game, steps[..n], from) + EventsOf(game, Run(game, steps[..n]).reg, steps[n])
  }

  // One more step lengthens the log and the part of it.
  lemma LogGrows<C(!new), Q(!new)>(game: Game<C, Q>, steps: seq<Step<C>>, from: nat, before: seq<LobbyEvent<C>>)
    requires from < |steps|
    requires Run(game, steps[..|steps| - 1]).log == before + EventsSince(game, steps[..|steps| - 1], from)
    ensures Run(game, steps).log == before + EventsSince(game, steps, from)
  {
    var n := |steps| - 1;
    ConcatAssociative(before, EventsSince(game, steps[..n], from), EventsOf(game, Run(game, steps[..n]).reg, steps[n]));
  }

  // It is the part of the log that a receiver subscribed then has been sent.
  lemma {:induction false} EventsSinceIsLog<C(!new), Q(!new)>(game: Game<C, Q>, steps: seq<Step<C>>, from: nat)
    requires from <= |steps|
    ensures Run(game, steps).log == Run(game, steps[..from]).log + EventsSince(game, steps, from)
    decreases |steps|
  {
    if |steps| == from {
      assert steps[..from] == steps;
      assert Run(game, steps).log + [] == Run(game, steps).log;
    } else {
      var n := |steps| - 1;
      assert steps[..n][..from] == steps[..from];
      EventsSinceIsLog(game, steps[..n], from);
      LogGrows(game, steps, from, Run(game, steps[..from]).log);
    }
  }

  lemma {:induction false} EventsSinceSplit<C(!new), Q(!new)>(game: Game<C, Q>, steps: seq<Step<C>>, from: nat, at: nat)
    requires from <= at <= |steps|
    ensures EventsSince(game, steps, from) == EventsSince(game, steps[..at], from) + EventsSince(game, steps, at)
    decreases |steps|
  {
    if |steps| == at {
      assert steps[..at] == steps;
      assert EventsSince(game, steps, from) + [] == EventsSince(game, steps, from);
    } else {
      var n := |steps| - 1;
      assert steps[..n][..at] == steps[..at];
      EventsSinceSplit(game, steps[..n], from, at);
      ConcatAssociative(EventsSince(game, steps[..at], from), EventsSince(game, steps[..n], at),
          EventsOf(game, Run(game, steps[..n]).reg, steps[n]));
    }
  }

  lemma EventsTellOneMore<C(!new), Q(!new)>(game: Game<C, Q>, steps: seq<Step<C>>, from: nat, before: Registry<C>,
      id: RoomId)
    requires from < |steps|
    requires Announced(EventsSince(game, steps[..|steps| - 1], from), id, before, Run(game, steps[..|steps| - 1]).reg)
    ensures Announced(EventsSince(game, steps, from), id, before, Run(game, steps).reg)
  {
    var n := |steps| - 1;
    AnnouncedStep(game, before, Run(game, steps[..n]).reg, steps[n], EventsSince(game, steps[..n], from), id);
  }

  // Since any earlier moment: a room exists now if the last event about it says so, or, without one,
  // if it existed then.
  lemma {:induction false} EventsTellTheDifference<C(!new), Q(!new)>(game: Game<C, Q>, steps: seq<Step<C>>, from: nat,
      id: RoomId)
    requires from <= |steps|
    ensures Announced(EventsSince(game, steps, from), id, Run(game, steps[..from]).reg, Run(game, steps).reg)
    decreases |steps|
  {
    if |steps| == from {
      assert steps[..from] == steps;
    } else {
      assert steps[..|steps| - 1][..from] == steps[..from];
      EventsTellTheDifference(game, steps[..|steps| - 1], from, id);
      EventsTellOneMore(game, steps, from, Run(game, steps[..from]).reg, id);
    }
  }

  // What a subscriber holds that subscribed after `from` steps and took its snapshot after `at`.
  function ReplicaAfter<C(!new), Q(!new)>(game: Game<C, Q>, steps: seq<Step<C>>, from: nat, at: nat): Replica<C>
    requires from <= |steps| && at <= |steps|
  {
    Replay(Snapshot(game, Run(game, steps[..at]).reg), EventsSince(game, steps, from))
  }

  // A WebSocket subscriber subscribes first: once it has applied all events, whatever happened before
  // or after its snapshot, it lists exactly the rooms there are.
  lemma SubscribeThenSnapshotConverges<C(!new), Q(!new)>(game: Game<C, Q>, steps: seq<Step<C>>, from: nat, at: nat)
    requires from <= at <= |steps|
    ensures ReplicaAfter(game, steps, from, at).Keys == Run(game, steps).reg.rooms.Keys
  {
    var events := EventsSince(game, steps, from);
    forall id
      ensures id in ReplicaAfter(game, steps, from, at) <==> id in Run(game, steps).reg.rooms
    {
      EventsTellTheDifference(game, steps, from, id);
      ReplayFollowsLastWord(Snapshot(game, Run(game, steps[..at]).reg), events, id);
      if LastWord(events, id).None? {
        SilenceMeansNoChange(game, steps, from, at, id);
      }
    }
  }

  // If nothing is ever said about a room after `from`, it is at every later moment what it was then.
  lemma SilenceMeansNoChange<C(!new), Q(!new)>(game: Game<C, Q>, steps: seq<Step<C>>, from: nat, at: nat, id: RoomId)
    requires from <= at <= |steps|
    requires LastWord(EventsSince(game, steps, from), id).None?
    ensures id in Run(game, steps[..at]).reg.rooms <==> id in Run(game, steps[..from]).reg.rooms
  {
    assert steps[..at][..from] == steps[..from];
    EventsTellTheDifference(game, steps[..at], from, id);
    EventsSinceSplit(game, steps, from, at);
    LastWordOfPrefix(EventsSince(game, steps[..at], from), EventsSince(game, steps, at), id);
  }

  lemma {:induction false} LastWordOfPrefix<C>(a: seq<LobbyEvent<C>>, b: seq<LobbyEvent<C>>, id: RoomId)
    requires LastWord(a + b, id).None?
    ensures LastWord(a, id).None?
    decreases |b|
  {
    if b == [] {
      assert a + b == a;
    } else {
      assert (a + b)[..|a + b| - 1] == a + b[..|b| - 1];
      LastWordOfPrefix(a, b[..|b| - 1], id);
    }
  }

  // A QUIC subscriber takes its snapshot first and subscribes later: it lists the right rooms exactly
  // if every room that came or went in between has been mentioned again since.
  lemma SnapshotThenSubscribeConverges<C(!new), Q(!new)>(game: Game<C, Q>, steps: seq<Step<C>>, at: nat, from: nat)
    requires at <= from <= |steps|
    ensures ReplicaAfter(game, steps, from, at).Keys == Run(game, steps).reg.rooms.Keys
       <==> forall id :: !Missed(game, steps, at, from, id)
  {
    forall id
      ensures (id in ReplicaAfter(game, steps, from, at) <==> id in Run(game, steps).reg.rooms)
              <==> !Missed(game, steps, at, from, id)
    {
      EventsTellTheDifference(game, steps, from, id);
      ReplayFollowsLastWord(Snapshot(game, Run(game, steps[..at]).reg), EventsSince(game, steps, from), id);
    }
    SameKeys(ReplicaAfter(game, steps, from, at), Run(game, steps).reg.rooms);
  }

  // The room came or went between the snapshot and the subscription and is never mentioned again.
  ghost predicate Missed<C(!new), Q(!new)>(game: Game<C, Q>, steps: seq<Step<C>>, at: nat, from: nat, id: RoomId)
    requires at <= |steps| && from <= |steps|
  {
    && (id in Run(game, steps[..at]).reg.rooms) != (id in Run(game, steps[..from]).reg.rooms)
    && LastWord(EventsSince(game, steps, from), id).None?
  }

  // ---------- what the rooms look like ----------

  // How many steps had been taken right after the last event about a room.
  function LastMention<C(!new), Q(!new)>(game: Game<C, Q>, steps: seq<Step<C>>, from: nat, id: RoomId): Option<nat>
    requires from <= |steps|
    decreases |steps|
  {
    if |steps| == from then None
    else
      var n := |steps| - 1;
      var events := EventsOf(game, Run(game, steps[..n]).reg, steps[n]);
      if events != [] && Subject(events[0]) == id then Some(|steps|) else LastMention(game, steps[..n], from, id)
  }

  ghost predicate Shows<C(!new), Q(!new)>(game: Game<C, Q>, m: Replica<C>, reg: Registry<C>, id: RoomId) {
    id in m && id in reg.rooms && m[id] == InfoOf(game, id, reg.rooms[id])
  }

  lemma AppliedAtTheEnd<C>(m: Replica<C>, events: seq<LobbyEvent<C>>, more: seq<LobbyEvent<C>>)
    requires |more| <= 1
    ensures Replay(m, events + more) == if more == [] then Replay(m, events) else Apply(Replay(m, events), more[0])
  {
    if more == [] {
      assert events + more == events;
    } else {
      assert (events + more)[..|events|] == events;
    }
  }

  // What one step's announcement makes of a replica.
  lemma ShownAfterStep<C(!new), Q(!new)>(game: Game<C, Q>, reg: Registry<C>, step: Step<C>, m: Replica<C>, id: RoomId)
    ensures var events := EventsOf(game, reg, step); var now := if events == [] then m else Apply(m, events[0]);
            if events != [] && Subject(events[0]) == id
            then id in now ==> Shows(game, now, RegistryAfter(game, reg, step), id)
            else (id in now <==> id in m) && (id in m ==> now[id] == m[id])
  {
    EventsCarryTheState(game, reg, step);
  }

  // A replica shows each room as it was when it was last mentioned, or as it was in the snapshot.
  lemma {:induction false} ShownAsLastMentioned<C(!new), Q(!new)>(game: Game<C, Q>, steps: seq<Step<C>>, from: nat,
      m: Replica<C>, id: RoomId)
    requires from <= |steps|
    ensures var j := LastMention(game, steps, from, id); var now := Replay(m, EventsSince(game, steps, from));
            && (j.Some? ==> from < j.value <= |steps|)
            && (j.None? ==> (id in now <==> id in m) && (id in m ==> now[id] == m[id]))
            && (j.Some? && id in now ==> Shows(game, now, Run(game, steps[..j.value]).reg, id))
    decreases |steps|
  {
    if |steps| == from {
    } else {
      var n := |steps| - 1;
      var reg := Run(game, steps[..n]).reg;
      var j := LastMention(game, steps[..n], from, id);
      ShownAsLastMentioned(game, steps[..n], from, m, id);
      StepAnnounces(game, reg, steps[n], id);
      ShownAfterStep(game, reg, steps[n], Replay(m, EventsSince(game, steps[..n], from)), id);
      AppliedAtTheEnd(m, EventsSince(game, steps[..n], from), EventsOf(game, reg, steps[n]));
      assert steps[..|steps|] == steps && Run(game, steps).reg == RegistryAfter(game, reg, steps[n]);
      assert j.Some? ==> steps[..n][..j.value] == steps[..j.value];
    }
  }

  // A step that says nothing about a room and neither opens nor closes a channel of it leaves it alone.
  predicate Touches<C>(step: Step<C>, id: RoomId) {
    (step.Open? || step.Close?) && step.id == id
  }

  lemma Untouched<C(!new), Q(!new)>(game: Game<C, Q>, reg: Registry<C>, step: Step<C>, id: RoomId)
    requires !Touches(step, id) && id in reg.rooms && id in RegistryAfter(game, reg, step).rooms
    requires var events := EventsOf(game, reg, step); events == [] || Subject(events[0]) != id
    ensures RegistryAfter(game, reg, step).rooms[id] == reg.rooms[id]
  {
  }

  lemma {:induction false} UntouchedSince<C(!new), Q(!new)>(game: Game<C, Q>, steps: seq<Step<C>>, j: nat, id: RoomId)
    requires j <= |steps| && id in Run(game, steps).reg.rooms && LastMention(game, steps, j, id).None?
    requires forall k | j <= k < |steps| :: !Touches(steps[k], id)
    ensures id in Run(game, steps[..j]).reg.rooms
    ensures Run(game, steps[..j]).reg.rooms[id] == Run(game, steps).reg.rooms[id]
    decreases |steps|
  {
    if |steps| == j {
      assert steps[..j] == steps;
    } else {
      var n := |steps| - 1;
      var reg := Run(game, steps[..n]).reg;
      StepAnnounces(game, reg, steps[n], id);
      assert Run(game, steps).reg == RegistryAfter(game, reg, steps[n]);
      Untouched(game, reg, steps[n], id);
      assert steps[..n][..j] == steps[..j];
      UntouchedSince(game, steps[..n], j, id);
    }
  }

  lemma {:induction false} NotMentionedSince<C(!new), Q(!new)>(game: Game<C, Q>, steps: seq<Step<C>>, from: nat,
      j: nat, id: RoomId)
    requires from <= j <= |steps|
    requires LastMention(game, steps, from, id).None? || LastMention(game, steps, from, id).value <= j
    ensures LastMention(game, steps, j, id).None?
    decreases |steps|
  {
    if |steps| == j {
    } else {
      NotMentionedSince(game, steps[..|steps| - 1], from, j, id);
    }
  }

  // The moment whose state of a room a subscriber shows: right after the last event about it, or the
  // snapshot's if there was none.
  function ShownMoment<C(!new), Q(!new)>(game: Game<C, Q>, steps: seq<Step<C>>, from: nat, at: nat, id: RoomId): nat
    requires from <= |steps|
  {
    var j := LastMention(game, steps, from, id);
    if j.Some? then j.value else at
  }

  // So a WebSocket subscriber that has applied all events shows a room as it is now exactly if it looks
  // as it did at that moment; and it does if no channel of it has been opened or closed since.
  lemma SubscriberShowsTheRoom<C(!new), Q(!new)>(game: Game<C, Q>, steps: seq<Step<C>>, from: nat, at: nat, id: RoomId)
    requires from <= at <= |steps| && id in Run(game, steps).reg.rooms
    ensures var since := ShownMoment(game, steps, from, at, id); var now := Run(game, steps).reg;
            && since <= |steps| && id in Run(game, steps[..since]).reg.rooms
            && (Shows(game, ReplicaAfter(game, steps, from, at), now, id) <==>
                InfoOf(game, id, Run(game, steps[..since]).reg.rooms[id]) == InfoOf(game, id, now.rooms[id]))
            && ((forall k | since <= k < |steps| :: !Touches(steps[k], id)) ==>
                  Shows(game, ReplicaAfter(game, steps, from, at), now, id))
  {
    var since := ShownMoment(game, steps, from, at, id);
    var snapshot := Snapshot(game, Run(game, steps[..at]).reg);
    SubscribeThenSnapshotConverges(game, steps, from, at);
    assert id in ReplicaAfter(game, steps, from, at);
    ShownAsLastMentioned(game, steps, from, snapshot, id);
    if forall k | since <= k < |steps| :: !Touches(steps[k], id) {
      NotMentionedSince(game, steps, from, since, id);
      UntouchedSince(game, steps, since, id);
    }
  }

  lemma SameKeys<A, B>(a: map<RoomId, A>, b: map<RoomId, B>)
    ensures a.Keys == b.Keys <==> forall id :: id in a <==> id in b
  {
  }
}
