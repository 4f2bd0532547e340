/**
 * Channels that nobody can close: when a room's handler is gone, `open_channel` has entered the channel
 * into the tables and returns `None`, so its caller never learns the id.
 */
module LostChannels {
  import opened Wrappers
  import opened Ids
  import opened Seats
  import opened Rooms

  // A user that is let in, and a close by a caller that was given the channel.
  datatype Visit = Enter(user: UserId, handlerGone: bool, now: nat) | Leave(channel: ChannelId, now: nat)

  // A room, the channel ids its callers were given, and those they were not.
  datatype Visited<C> = Visited(room: Room<C>, returned: set<ChannelId>, lost: set<ChannelId>)

  predicate Enabled<C>(s: Visited<C>, v: Visit) {
    v.Leave? ==> v.channel in s.returned
  }

  function After<C>(s: Visited<C>, v: Visit): Visited<C>
    requires Enabled(s, v)
  {
    match v
    case Enter(user, handlerGone, now) =>
      var id := {s.room.nextChannel};
      Visited(Seated(s.room, user, handlerGone, now),
              if handlerGone then s.returned else s.returned + id,
              if handlerGone then s.lost + id else s.lost)
    case Leave(channel, now) => Visited(Unseated(s.room, channel, now), s.returned, s.lost)
  }

  predicate Possible<C>(room: Room<C>, visits: seq<Visit>)
    decreases |visits|, 0
  {
    visits != [] ==>
      var n := |visits| - 1;
      Possible(room, visits[..n]) && Enabled(Reached(room, visits[..n]), visits[n])
  }

  function Reached<C>(room: Room<C>, visits: seq<Visit>): Visited<C>
    requires Possible(room, visits)
    decreases |visits|, 1
  {
    if visits == [] then Visited(room, {}, {})
    else After(Reached(room, visits[..|visits| - 1]), visits[|visits| - 1])
  }

  // Every id was either given to a caller or lost; the lost ones are all still open.
  ghost predicate Accounted<C>(s: Visited<C>) {
    && Partitioned(s.room.seats) && NoUserIsEmpty(s.room.seats)
    && s.lost <= s.room.seats.channels <= s.returned + s.lost
    && s.returned !! s.lost
    && (forall c | c in s.returned + s.lost :: c < s.room.nextChannel)
  }

  lemma StepKeepsAccounts<C>(s: Visited<C>, v: Visit)
    requires Enabled(s, v) && Accounted(s)
    ensures Accounted(After(s, v))
  {
    match v {
      case Enter(user, handlerGone, now) =>
        TakenIsPartitioned(s.room.seats, user, s.room.nextChannel);
        TakenHasNoEmptyUser(s.room.seats, user, s.room.nextChannel);
      case Leave(channel, now) =>
        WithoutIsPartitioned(s.room.seats, {channel});
    }
  }

  predicate HandlerWasThere(visits: seq<Visit>) {
    forall i | 0 <= i < |visits| :: visits[i].Enter? ==> !visits[i].handlerGone
  }

  lemma {:induction false} EveryIdIsAccountedFor<C>(room: Room<C>, visits: seq<Visit>)
    requires room.seats == Empty && Possible(room, visits)
    ensures Accounted(Reached(room, visits))
    decreases |visits|
  {
    if visits == [] {
    } else {
      var n := |visits| - 1;
      EveryIdIsAccountedFor(room, visits[..n]);
      StepKeepsAccounts(Reached(room, visits[..n]), visits[n]);
    }
  }

  lemma HandlerWasThereSnoc(visits: seq<Visit>, n: nat)
    requires n + 1 == |visits|
    ensures HandlerWasThere(visits) <==> HandlerWasThere(visits[..n]) && (visits[n].Enter? ==> !visits[n].handlerGone)
  {
  }

  lemma {:induction false} LostWithoutHandler<C>(room: Room<C>, visits: seq<Visit>)
    requires Possible(room, visits)
    ensures Reached(room, visits).lost == {} <==> HandlerWasThere(visits)
    decreases |visits|
  {
    if visits == [] {
    } else {
      var n := |visits| - 1;
      LostWithoutHandler(room, visits[..n]);
      HandlerWasThereSnoc(visits, n);
    }
  }

  // When the callers have closed every channel they were ever given, exactly the lost ones are left: the
  // room is empty again if and only if its handler was there each time a user came in.
  lemma ClosingAllReturned<C>(room: Room<C>, visits: seq<Visit>)
    requires room.seats == Empty && Possible(room, visits)
    ensures var s := Reached(room, visits); var left := Without(s.room.seats, s.returned);
            && left.channels == s.lost
            && (left == Empty <==> HandlerWasThere(visits))
  {
    var s := Reached(room, visits);
    var left := Without(s.room.seats, s.returned);
    EveryIdIsAccountedFor(room, visits);
    LostWithoutHandler(room, visits);
    assert left.channels == s.lost;
    WithoutIsPartitioned(s.room.seats, s.returned);
    if s.lost == {} {
      UsersHaveChannels(left);
    }
  }
}
