/**
 * A lifecycle check as it runs: the rooms that have expired are listed in one step, and each is removed in
 * a step of its own, with anything happening in between.
 */
module Sweeps {
  import opened Wrappers
  import opened Ids
  import opened Seats
  import opened Rooms

  // A room that is there was there all along.
  lemma StillThere<C(!new), Q(!new)>(game: Game<C, Q>, settings: Settings, reg: Registry<C>, op: Op<C>, id: RoomId)
    requires id < reg.nextRoom && id in After(game, settings, reg, op).rooms
    ensures id in reg.rooms
    ensures op.Open? && op.id == id && LetsIn(game, reg, id, op.user) ==>
              After(game, settings, reg, op).rooms[id].seats.channels
                  == reg.rooms[id].seats.channels + {reg.rooms[id].nextChannel}
    ensures !(op.Open? && op.id == id && LetsIn(game, reg, id, op.user)) ==>
              After(game, settings, reg, op).rooms[id].seats.channels <= reg.rooms[id].seats.channels
  {
  }

  lemma {:induction false} NumbersGrow<C(!new), Q(!new)>(game: Game<C, Q>, settings: Settings, reg: Registry<C>,
      ops: seq<Op<C>>)
    ensures reg.nextRoom <= RunFrom(game, settings, reg, ops).nextRoom
    decreases |ops|
  {
    if ops == [] {
    } else {
      NumbersGrow(game, settings, reg, ops[..|ops| - 1]);
    }
  }

  // The `k`-th operation lets a user into the room, on this channel.
  ghost predicate OpensAt<C(!new), Q(!new)>(game: Game<C, Q>, settings: Settings, reg: Registry<C>, ops: seq<Op<C>>,
      k: nat,
      id: RoomId, channel: ChannelId)
    requires k < |ops|
  {
    var now := RunFrom(game, settings, reg, ops[..k]);
    && ops[k].Open? && ops[k].id == id
    && LetsIn(game, now, id, ops[k].user) && now.rooms[id].nextChannel == channel
  }

  ghost predicate OpenedSince<C(!new), Q(!new)>(game: Game<C, Q>, settings: Settings, reg: Registry<C>, ops: seq<Op<C>>,
      id: RoomId, channel: ChannelId)
  {
    exists k :: 0 <= k < |ops| && OpensAt(game, settings, reg, ops, k, id, channel)
  }

  lemma OpenedBeforeLast<C(!new), Q(!new)>(game: Game<C, Q>, settings: Settings, reg: Registry<C>, ops: seq<Op<C>>,
      id: RoomId, channel: ChannelId)
    requires ops != [] && OpenedSince(game, settings, reg, ops[..|ops| - 1], id, channel)
    ensures OpenedSince(game, settings, reg, ops, id, channel)
  {
    var n := |ops| - 1;
    var k :| 0 <= k < n && OpensAt(game, settings, reg, ops[..n], k, id, channel);
    assert ops[..n][..k] == ops[..k];
    assert OpensAt(game, settings, reg, ops, k, id, channel);
  }

  // An open channel was open at the beginning or has been opened since.
  lemma {:induction false} WhereChannelsComeFrom<C(!new), Q(!new)>(game: Game<C, Q>, settings: Settings,
      reg: Registry<C>,
      ops: seq<Op<C>>, id: RoomId, channel: ChannelId)
    requires id < reg.nextRoom && id in RunFrom(game, settings, reg, ops).rooms
    requires channel in RunFrom(game, settings, reg, ops).rooms[id].seats.channels
    ensures id in reg.rooms
            && (channel in reg.rooms[id].seats.channels || OpenedSince(game, settings, reg, ops, id, channel))
    decreases |ops|
  {
    if ops == [] {
    } else {
      var n := |ops| - 1;
      var before := RunFrom(game, settings, reg, ops[..n]);
      NumbersGrow(game, settings, reg, ops[..n]);
      StillThere(game, settings, before, ops[n], id);
      if channel in before.rooms[id].seats.channels {
        WhereChannelsComeFrom(game, settings, reg, ops[..n], id, channel);
        if channel !in reg.rooms[id].seats.channels {
          OpenedBeforeLast(game, settings, reg, ops, id, channel);
        }
      } else {
        assert OpensAt(game, settings, reg, ops, n, id, channel);
        RoomWasThere(game, settings, reg, ops[..n], id);
      }
    }
  }

  lemma {:induction false} RoomWasThere<C(!new), Q(!new)>(game: Game<C, Q>, settings: Settings, reg: Registry<C>,
      ops: seq<Op<C>>, id: RoomId)
    requires id < reg.nextRoom && id in RunFrom(game, settings, reg, ops).rooms
    ensures id in reg.rooms
    decreases |ops|
  {
    if ops == [] {
    } else {
      var n := |ops| - 1;
      NumbersGrow(game, settings, reg, ops[..n]);
      StillThere(game, settings, RunFrom(game, settings, reg, ops[..n]), ops[n], id);
      RoomWasThere(game, settings, reg, ops[..n], id);
    }
  }

  // The room's tables agree, but for its count.
  ghost predicate Tidy<C>(room: Room<C>) {
    && Partitioned(room.seats) && NoUserIsEmpty(room.seats)
    && (forall c | c in room.seats.channels :: c < room.nextChannel)
  }

  lemma TidyAfter<C(!new), Q(!new)>(game: Game<C, Q>, settings: Settings, reg: Registry<C>, op: Op<C>, id: RoomId)
    requires id in reg.rooms && id < reg.nextRoom && id in After(game, settings, reg, op).rooms && Tidy(reg.rooms[id])
    ensures Tidy(After(game, settings, reg, op).rooms[id])
  {
    var room := reg.rooms[id];
    match op {
      case Open(_, user, _, _) =>
        TakenIsPartitioned(room.seats, user, room.nextChannel);
        TakenHasNoEmptyUser(room.seats, user, room.nextChannel);
      case Close(_, channel, _) =>
        WithoutIsPartitioned(room.seats, {channel});
      case _ =>
    }
  }

  lemma {:induction false} StaysTidy<C(!new), Q(!new)>(game: Game<C, Q>, settings: Settings, reg: Registry<C>,
      ops: seq<Op<C>>, id: RoomId)
    requires id in reg.rooms && id < reg.nextRoom && Tidy(reg.rooms[id])
    requires id in RunFrom(game, settings, reg, ops).rooms
    ensures Tidy(RunFrom(game, settings, reg, ops).rooms[id])
    decreases |ops|
  {
    if ops == [] {
    } else {
      var n := |ops| - 1;
      var before := RunFrom(game, settings, reg, ops[..n]);
      NumbersGrow(game, settings, reg, ops[..n]);
      StillThere(game, settings, before, ops[n], id);
      StaysTidy(game, settings, reg, ops[..n], id);
      TidyAfter(game, settings, before, ops[n], id);
    }
  }

  // Somebody has been let in on a channel that is still open.
  ghost predicate LetInSince<C(!new), Q(!new)>(game: Game<C, Q>, settings: Settings, reg: Registry<C>, ops: seq<Op<C>>,
      id: RoomId)
    requires id in RunFrom(game, settings, reg, ops).rooms
  {
    exists channel :: channel in RunFrom(game, settings, reg, ops).rooms[id].seats.channels
                   && OpenedSince(game, settings, reg, ops, id, channel)
  }

  lemma OpenMeansLetIn<C(!new), Q(!new)>(game: Game<C, Q>, settings: Settings, reg: Registry<C>, ops: seq<Op<C>>,
      id: RoomId)
    requires id in reg.rooms && id < reg.nextRoom && reg.rooms[id].seats == Empty
    requires id in RunFrom(game, settings, reg, ops).rooms
    ensures RunFrom(game, settings, reg, ops).rooms[id].seats.channels != {}
            <==> LetInSince(game, settings, reg, ops, id)
  {
    var channels := RunFrom(game, settings, reg, ops).rooms[id].seats.channels;
    if channels != {} {
      var channel :| channel in channels;
      WhereChannelsComeFrom(game, settings, reg, ops, id, channel);
    }
  }

  // A room was empty when the check listed it, and whatever has happened since it is still there when its
  // turn comes: there are users in it, to be removed with it, if and only if somebody was let in in
  // between on a channel that is still open.
  lemma SweptWithUsers<C(!new), Q(!new)>(game: Game<C, Q>, settings: Settings, reg: Registry<C>, ops: seq<Op<C>>,
      id: RoomId)
    requires id in reg.rooms && id < reg.nextRoom && reg.rooms[id].seats == Empty
    requires id in RunFrom(game, settings, reg, ops).rooms
    ensures RunFrom(game, settings, reg, ops).rooms[id].seats.users != map[]
       <==> LetInSince(game, settings, reg, ops, id)
  {
    StaysTidy(game, settings, reg, ops, id);
    UsersHaveChannels(RunFrom(game, settings, reg, ops).rooms[id].seats);
    OpenMeansLetIn(game, settings, reg, ops, id);
  }

  // Listing them and removing them at once is the uninterrupted check.
  function Removals<C>(ids: seq<RoomId>): (ops: seq<Op<C>>)
    ensures |ops| == |ids|
  {
    seq(|ids|, i requires 0 <= i < |ids| => Remove(ids[i]))
  }

  lemma {:induction false} RemovalsRemove<C(!new), Q(!new)>(game: Game<C, Q>, settings: Settings, reg: Registry<C>,
      ids: seq<RoomId>)
    ensures RunFrom(game, settings, reg, Removals(ids)) == reg.(rooms := reg.rooms - Elements(ids))
    decreases |ids|
  {
    if ids == [] {
      assert Elements(ids) == {} && reg.rooms - {} == reg.rooms;
    } else {
      var n := |ids| - 1;
      RemovalsRemove(game, settings, reg, ids[..n]);
      assert Removals<C>(ids)[..n] == Removals<C>(ids[..n]);
      ElementsSnoc(ids[..n], ids[n]);
      assert ids == ids[..n] + [ids[n]];
      assert (reg.rooms - Elements(ids[..n])) - {ids[n]} == reg.rooms - Elements(ids);
    }
  }

  lemma UninterruptedSweepIsCheck<C(!new), Q(!new)>(game: Game<C, Q>, settings: Settings, reg: Registry<C>, now: nat,
      expired: seq<RoomId>)
    requires forall id :: id in expired <==> id in reg.rooms && Expires(settings, reg.rooms[id], now)
    ensures RunFrom(game, settings, reg, Removals(expired)) == After(game, settings, reg, Check(now))
  {
    RemovalsRemove(game, settings, reg, expired);
    SurvivorsRemain(game, settings, reg, now, expired);
  }
}
