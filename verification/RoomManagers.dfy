/** The manager itself, with one shared state object per room, and the REST handlers that drive it. */
module RoomManagers {
  import opened Wrappers
  import opened Ids
  import opened Seats
  import opened Rooms
  import opened LobbyLog

  datatype Entry<C> = Entry(config: C, creator: UserId, shared: RoomShared, createdAt: nat, nextChannel: ChannelId)

  datatype DeleteResult = DeletedRoom | NotCreator | NotFound

  function RoomOf<C>(e: Entry<C>): Room<C>
    reads e.shared
  {
    Room(e.config, e.creator, e.shared.View(), e.createdAt, e.shared.lastActivity, e.nextChannel)
  }

  ghost function SharedOf<C>(rooms: map<RoomId, Entry<C>>): set<RoomShared> {
    set id | id in rooms :: rooms[id].shared
  }

  lemma SameFootprint<C>(rooms: map<RoomId, Entry<C>>, id: RoomId, entry: Entry<C>)
    requires id in rooms && rooms[id].shared == entry.shared
    ensures SharedOf(rooms[id := entry]) == SharedOf(rooms)
  {
    var now := rooms[id := entry];
    forall s | s in SharedOf(rooms)
      ensures s in SharedOf(now)
    {
      var i :| i in rooms && rooms[i].shared == s;
      assert now[i].shared == s;
    }
  }

  lemma RemovedAfterUpdate<C>(reg: Registry<C>, id: RoomId, room: Room<C>)
    ensures Removed(Updated(reg, id, room), id) == Removed(reg, id)
  {
    assert reg.rooms[id := room] - {id} == reg.rooms - {id};
  }

  // Which rooms stay, said by the users in them and the times; they stay as they are.
  ghost predicate Stay<C>(settings: Settings, was: Registry<C>, left: Registry<C>, now: nat) {
    && (forall id | id in was.rooms ::
          id in left.rooms <==>
            && now <= was.rooms[id].createdAt + settings.maxLifetime
            && (was.rooms[id].seats.users == map[] ==>
                  && now <= was.rooms[id].createdAt + settings.firstConnectTimeout
                  && now <= was.rooms[id].lastActivity + settings.emptyTimeout))
    && (forall id | id in left.rooms :: id in was.rooms && left.rooms[id] == was.rooms[id])
  }

  lemma WhoStays<C(!new), Q(!new)>(game: Game<C, Q>, settings: Settings, reg: Registry<C>, now: nat)
    requires Sound(game, reg)
    ensures Stay(settings, reg, Checked(settings, reg, now), now)
  {
    forall id | id in reg.rooms {
      RoomStays(game, settings, reg.rooms[id], now);
    }
  }

  lemma RoomStays<C(!new), Q(!new)>(game: Game<C, Q>, settings: Settings, room: Room<C>, now: nat)
    requires RoomIsSound(game, room)
    ensures !Expires(settings, room, now) <==>
              && now <= room.createdAt + settings.maxLifetime
              && (room.seats.users == map[] ==>
                    && now <= room.createdAt + settings.firstConnectTimeout
                    && now <= room.lastActivity + settings.emptyTimeout)
  {
    if room.seats.users == map[] {
      EmptyRoomStays(settings, room, now);
    } else {
      OccupiedRoomStays(settings, room, now);
    }
  }

  class RoomManager<C(!new), Q(!new)> {
    const game: Game<C, Q>
    const settings: Settings
    var rooms: map<RoomId, Entry<C>>
    var nextRoomId: RoomId

    constructor (game: Game<C, Q>, settings: Settings)
      ensures this.game == game && this.settings == settings
      ensures Valid() && View() == Start() && Footprint() == {}
    {
      this.game, this.settings := game, settings;
      rooms, nextRoomId := map[], 1;
    }

    ghost function Footprint(): set<RoomShared>
      reads this
    {
      SharedOf(rooms)
    }

    ghost function View(): Registry<C>
      reads this, Footprint()
    {
      Registry(map id | id in rooms :: RoomOf(rooms[id]), nextRoomId)
    }

    ghost predicate Separate()
      reads this
    {
      forall i, j | i in rooms && j in rooms && rooms[i].shared == rooms[j].shared :: i == j
    }

    ghost predicate Valid()
      reads this, Footprint()
    {
      Separate() && Sound(game, View())
    }

    // ----- changes of the table, one at a time -----

    method Insert(creator: UserId, config: C, active: nat, born: nat) returns (id: RoomId)
      requires Separate()
      modifies this
      ensures Separate() && id == old(nextRoomId)
      ensures View() == Inserted(old(View()), creator, config, active, born)
      ensures fresh(Footprint() - old(Footprint()))
    {
      var shared := new RoomShared(active);
      id := Enter(Entry(config, creator, shared, born, 1));
    }

    method Enter(entry: Entry<C>) returns (id: RoomId)
      requires Separate() && entry.shared !in Footprint()
      modifies this
      ensures Separate() && Footprint() <= old(Footprint()) + {entry.shared} && id == old(nextRoomId)
      ensures View() == Registry(old(View()).rooms[id := RoomOf(entry)], id + 1)
    {
      id := nextRoomId;
      nextRoomId := nextRoomId + 1;
      rooms := rooms[id := entry];
    }

    method Seat(id: RoomId, user: UserId, handlerGone: bool, now: nat) returns (channel: ChannelId)
      requires Separate() && id in rooms
      modifies this`rooms, rooms[id].shared
      ensures Separate() && Footprint() == old(Footprint())
      ensures channel == old(View()).rooms[id].nextChannel
      ensures View() == Updated(old(View()), id, Seated(old(View()).rooms[id], user, handlerGone, now))
    {
      channel := rooms[id].nextChannel;
      TakeSeat(id, user, handlerGone, now);
      NumberNext(id);
    }

    method NumberNext(id: RoomId)
      requires Separate() && id in rooms
      modifies this`rooms
      ensures Separate() && Footprint() == old(Footprint())
      ensures View() == Updated(old(View()), id, old(View()).rooms[id].(nextChannel := old(rooms)[id].nextChannel + 1))
    {
      var entry := rooms[id];
      SameFootprint(rooms, id, entry.(nextChannel := entry.nextChannel + 1));
      rooms := rooms[id := entry.(nextChannel := entry.nextChannel + 1)];
    }

    method TakeSeat(id: RoomId, user: UserId, handlerGone: bool, now: nat)
      requires Separate() && id in rooms
      modifies rooms[id].shared
      ensures var seated := Seated(old(View()).rooms[id], user, handlerGone, now);
              View() == Updated(old(View()), id, seated.(nextChannel := rooms[id].nextChannel))
    {
      ghost var before := View();
      rooms[id].shared.Open(user, rooms[id].nextChannel, handlerGone, now);
      assert forall i | i in before.rooms && i != id :: RoomOf(rooms[i]) == before.rooms[i];
    }

    method Unseat(id: RoomId, channel: ChannelId, now: nat)
      requires Separate() && id in rooms && Consistent(rooms[id].shared.View(), rooms[id].nextChannel)
      modifies rooms[id].shared
      ensures View() == Updated(old(View()), id, Unseated(old(View()).rooms[id], channel, now))
    {
      ghost var before := View();
      rooms[id].shared.Close(channel, now, rooms[id].nextChannel);
      assert forall i | i in before.rooms && i != id :: RoomOf(rooms[i]) == before.rooms[i];
    }

    method ClearChannels(id: RoomId)
      requires Separate() && id in rooms
      modifies rooms[id].shared
      ensures id in View().rooms && View() == Updated(old(View()), id, View().rooms[id])
    {
      ghost var before := View();
      rooms[id].shared.channels := {};
      assert forall i | i in before.rooms && i != id :: RoomOf(rooms[i]) == before.rooms[i];
    }

    method Remove(id: RoomId)
      requires Separate() && id in rooms
      modifies this`rooms
      ensures Separate() && Footprint() <= old(Footprint())
      ensures View() == Removed(old(View()), id)
    {
      rooms := rooms - {id};
    }

    // ----- the manager's operations -----

    method CreateRoom(creator: UserId, config: C, active: nat, born: nat) returns (r: Option<RoomId>)
      requires Valid()
      modifies this
      ensures Valid() && View() == Created(game, old(View()), creator, config, active, born)
      ensures fresh(Footprint() - old(Footprint()))
      ensures r == if game.valid(config) then Some(old(nextRoomId)) else None
    {
      if !game.valid(config) {
        return None;
      }
      ghost var before := View();
      var id := Insert(creator, config, active, born);
      NewRoomIsSound(game, before, creator, config, active, born);
      return Some(id);
    }

    method DeleteRoom(id: RoomId, requester: UserId) returns (r: DeleteResult)
      requires Valid()
      modifies this, Footprint()
      ensures Valid() && View() == Deleted(old(View()), id, requester)
      ensures Footprint() <= old(Footprint())
      ensures r == if id !in old(rooms) then NotFound else if old(rooms)[id].creator != requester then NotCreator
              else DeletedRoom
      ensures r.DeletedRoom? <==> MayDelete(old(View()), id, requester)
    {
      if id !in rooms {
        return NotFound;
      }
      if rooms[id].creator != requester {
        return NotCreator;
      }
      ghost var before := View();
      ClearChannels(id);
      RemovedAfterUpdate(before, id, View().rooms[id]);
      Remove(id);
      FewerRoomsAreSound(game, before, Removed(before, id).rooms);
      return DeletedRoom;
    }

    // `None` leaves the tables as they were exactly when the room does not let the user in; when only
    // the handler is gone, the channel stays in them.
    method OpenChannel(id: RoomId, user: UserId, handlerGone: bool, now: nat) returns (r: Option<ChannelId>)
      requires Valid() && CountersHold(View())
      modifies this, Footprint()
      ensures Valid() && View() == Opened(game, old(View()), id, user, handlerGone, now)
      ensures Footprint() == old(Footprint())
      ensures r.Some? <==> LetsIn(game, old(View()), id, user) && !handlerGone
      ensures id in old(View()).rooms && user in old(View()).rooms[id].seats.users && !handlerGone ==> r.Some?
      ensures id in old(View()).rooms && user !in old(View()).rooms[id].seats.users && !handlerGone ==>
                var cap := game.maxPlayers(old(View()).rooms[id].config);
                (r.None? <==> cap.Some? && old(View()).rooms[id].seats.count >= cap.value)
      ensures r.Some? ==>
              r.value == old(View()).rooms[id].nextChannel && r.value !in old(View()).rooms[id].seats.channels
      ensures r.None? ==> (View() == old(View()) <==> !LetsIn(game, old(View()), id, user))
    {
      if id !in rooms {
        return None;
      }
      var entry := rooms[id];
      assert View().rooms[id] == RoomOf(entry);
      var max := game.maxPlayers(entry.config);
      if max.Some? {
        if user !in entry.shared.userChannels {
          if entry.shared.userCount >= max.value {
            return None;
          }
        }
      }
      var channel := Admit(id, user, handlerGone, now);
      return if handlerGone then None else Some(channel);
    }

    method Admit(id: RoomId, user: UserId, handlerGone: bool, now: nat) returns (channel: ChannelId)
      requires Valid() && CountersHold(View()) && LetsIn(game, View(), id, user)
      modifies this, Footprint()
      ensures Valid() && View() == Opened(game, old(View()), id, user, handlerGone, now) && View() != old(View())
      ensures Footprint() == old(Footprint())
      ensures channel == old(View()).rooms[id].nextChannel && channel !in old(View()).rooms[id].seats.channels
    {
      ghost var before := View();
      assert RoomIsSound(game, before.rooms[id]);
      channel := Seat(id, user, handlerGone, now);
      OpenedIsSound(game, before, id, user, handlerGone, now);
    }

    method CloseChannel(id: RoomId, channel: ChannelId, now: nat)
      requires Valid()
      modifies Footprint()
      ensures Valid() && View() == Closed(old(View()), id, channel, now)
    {
      if id in rooms {
        ghost var before := View();
        assert before.rooms[id] == RoomOf(rooms[id]) && RoomIsSound(game, before.rooms[id]);
        Unseat(id, channel, now);
        ClosedIsSound(game, before, id, channel, now);
      }
    }

    method GetRoomInfo(id: RoomId) returns (r: Option<RoomInfo<C>>)
      ensures r == if id in View().rooms then Some(InfoOf(game, id, View().rooms[id])) else None
    {
      if id !in rooms {
        return None;
      }
      var entry := rooms[id];
      var playerCount := entry.shared.userCount;
      var max := game.maxPlayers(entry.config);
      var shown := if max.Some? then Some(Wrap32(max.value)) else None;
      var isJoinable := if shown.Some? then playerCount < shown.value else true;
      return Some(RoomInfo(id, playerCount, shown, isJoinable, entry.config));
    }

    // A room is found exactly when one passes the cap, the config match and the filter.
    method FindQuickplayRoom(request: Q) returns (r: Option<RoomId>)
      ensures r.Some? ==> Eligible(game, View(), request, r.value)
      ensures r.Some? ==> r.value in rooms && game.matches(rooms[r.value].config, request)
      ensures r.Some? && game.filter.Some? ==> game.filter.value(r.value, rooms[r.value].config)
      ensures r.Some? && game.maxPlayers(rooms[r.value].config).Some? ==>
                rooms[r.value].shared.userCount < game.maxPlayers(rooms[r.value].config).value
      ensures r.None? ==> forall id | id in rooms && game.matches(rooms[id].config, request) ::
                || (game.filter.Some? && !game.filter.value(id, rooms[id].config))
                || (game.maxPlayers(rooms[id].config).Some?
                    && rooms[id].shared.userCount >= game.maxPlayers(rooms[id].config).value)
      ensures r.Some? <==> Findable(game, View(), request)
    {
      var todo := rooms.Keys;
      while todo != {}
        invariant todo <= rooms.Keys
        invariant forall id | id in rooms && id !in todo :: !Eligible(game, View(), request, id)
        invariant forall id | id in rooms && id !in todo && game.matches(rooms[id].config, request) ::
                    || (game.filter.Some? && !game.filter.value(id, rooms[id].config))
                    || (game.maxPlayers(rooms[id].config).Some?
                        && rooms[id].shared.userCount >= game.maxPlayers(rooms[id].config).value)
        decreases todo
      {
        var id :| id in todo;
        todo := todo - {id};
        var entry := rooms[id];
        assert View().rooms[id] == RoomOf(entry);
        var max := game.maxPlayers(entry.config);
        if max.Some? && entry.shared.userCount >= max.value {
          continue;
        }
        if !game.matches(entry.config, request) {
          continue;
        }
        if game.filter.Some? && !game.filter.value(id, entry.config) {
          continue;
        }
        assert Eligible(game, View(), request, id);
        return Some(id);
      }
      return None;
    }

    // Exactly the expired rooms go, each with one notification, and the others stay as they are: one with
    // users in it for its lifetime, one without while none of the three times has run out.
    method RunLifecycleChecks(lobby: Lobby<C>, now: nat) returns (ghost removed: seq<RoomId>)
      requires Valid()
      modifies this, lobby
      ensures Valid() && View() == Checked(settings, old(View()), now)
      ensures Stay(settings, old(View()), View(), now)
      ensures Footprint() <= old(Footprint())
      ensures lobby.events == old(lobby.events) + Deletions(removed)
      ensures forall id :: id in removed <==> id in old(View()).rooms && Expires(settings, old(View()).rooms[id], now)
      ensures forall i, j | 0 <= i < j < |removed| :: removed[i] != removed[j]
    {
      ghost var before := View();
      var toRemove := Expired(now);
      assert View() == before;
      RemoveAll(lobby, toRemove);
      SurvivorsRemain(game, settings, before, now, toRemove);
      WhoStays(game, settings, before, now);
      removed := toRemove;
    }

    method RemoveAll(lobby: Lobby<C>, ids: seq<RoomId>)
      requires Separate()
      modifies this, lobby
      ensures Separate() && Footprint() <= old(Footprint())
      ensures View() == old(View()).(rooms := old(View()).rooms - Elements(ids))
      ensures lobby.events == old(lobby.events) + Deletions(ids)
    {
      var i := 0;
      assert ids[..0] == [];
      assert rooms == old(rooms) - Elements(ids[..0]);
      while i < |ids|
        invariant 0 <= i <= |ids|
        invariant nextRoomId == old(nextRoomId)
        invariant rooms == old(rooms) - Elements(ids[..i])
        invariant lobby.events == old(lobby.events) + Deletions(ids[..i])
      {
        rooms := rooms - {ids[i]};
        lobby.Notify(RoomDeleted(ids[i]));
        assert ids[..i + 1] == ids[..i] + [ids[i]];
        ElementsSnoc(ids[..i], ids[i]);
        assert Deletions<C>(ids[..i + 1]) == Deletions<C>(ids[..i]) + [RoomDeleted(ids[i])];
        i := i + 1;
      }
      assert ids[..i] == ids;
    }

    method Expired(now: nat) returns (toRemove: seq<RoomId>)
      ensures forall id :: id in toRemove <==> id in View().rooms && Expires(settings, View().rooms[id], now)
      ensures forall id | id in View().rooms ::
                now > View().rooms[id].createdAt + settings.maxLifetime ==> id in toRemove
      ensures forall id | id in View().rooms && View().rooms[id].seats.count > 0 ::
                id in toRemove <==> now > View().rooms[id].createdAt + settings.maxLifetime
      ensures forall id | id in View().rooms && View().rooms[id].seats.count == 0 ::
                id in toRemove <==>
                  || now > View().rooms[id].createdAt + settings.maxLifetime
                  || now > View().rooms[id].createdAt + settings.firstConnectTimeout
                  || now > View().rooms[id].lastActivity + settings.emptyTimeout
      ensures forall i, j | 0 <= i < j < |toRemove| :: toRemove[i] != toRemove[j]
    {
      toRemove := [];
      var todo := rooms.Keys;
      while todo != {}
        invariant todo <= rooms.Keys
        invariant forall id ::
                    id in toRemove <==> id in rooms && id !in todo && Expires(settings, View().rooms[id], now)
        invariant forall i, j | 0 <= i < j < |toRemove| :: toRemove[i] != toRemove[j]
        decreases todo
      {
        var id :| id in todo;
        todo := todo - {id};
        var entry := rooms[id];
        assert View().rooms[id] == RoomOf(entry);
        var age := Since(now, entry.createdAt);
        var userCount := entry.shared.userCount;
        var idleTime := Since(now, entry.shared.lastActivity);
        if age > settings.maxLifetime {
          toRemove := toRemove + [id];
          continue;
        }
        if userCount == 0 && age > settings.firstConnectTimeout {
          toRemove := toRemove + [id];
          continue;
        }
        if userCount == 0 && idleTime > settings.emptyTimeout {
          toRemove := toRemove + [id];
        }
      }
    }
  }

  // ---------- the REST handlers, behind authentication and parsing ----------

  // `get_room_info`, and a notification if the room is there.
  method AnnounceCreation<C(!new), Q(!new)>(manager: RoomManager<C, Q>, lobby: Lobby<C>, id: RoomId)
    modifies lobby
    ensures manager.View() == old(manager.View())
    ensures old(manager.Valid()) ==> manager.Valid()
    ensures lobby.events == old(lobby.events) + CreationOf(manager.game, manager.View(), id)
  {
    var info := manager.GetRoomInfo(id);
    if info.Some? {
      lobby.Notify(RoomCreated(info.value));
    }
  }

  method AnnounceDeletion<C(!new), Q(!new)>(manager: RoomManager<C, Q>, lobby: Lobby<C>, id: RoomId)
    modifies lobby
    ensures manager.View() == old(manager.View())
    ensures old(manager.Valid()) ==> manager.Valid()
    ensures lobby.events == old(lobby.events) + [RoomDeleted(id)]
  {
    lobby.Notify(RoomDeleted(id));
  }

  method PostRoom<C(!new), Q(!new)>(manager: RoomManager<C, Q>, lobby: Lobby<C>, user: UserId, config: C, active: nat,
      born: nat)
      returns (r: Option<RoomId>)
    requires manager.Valid()
    modifies manager, lobby
    ensures manager.Valid() && manager.View() == Created(manager.game, old(manager.View()), user, config, active, born)
    ensures r.Some? <==> manager.game.valid(config)
    ensures r.Some? ==> r.value == old(manager.nextRoomId)
    ensures lobby.events == old(lobby.events) +
              if r.Some? then CreationOf(manager.game, manager.View(), r.value) else []
    ensures r.Some? ==>
              && r.value in manager.View().rooms && |lobby.events| == |old(lobby.events)| + 1
              && lobby.events[|lobby.events| - 1].RoomCreated?
              && lobby.events[|lobby.events| - 1].info.id == r.value
              && lobby.events[|lobby.events| - 1].info.config == config
              && lobby.events[|lobby.events| - 1].info.playerCount == 0
  {
    r := manager.CreateRoom(user, config, active, born);
    if r.Some? {
      AnnounceCreation(manager, lobby, r.value);
    }
  }

  method DeleteRoomRequest<C(!new), Q(!new)>(manager: RoomManager<C, Q>, lobby: Lobby<C>, id: RoomId, user: UserId)
      returns (r: DeleteResult)
    requires manager.Valid()
    modifies manager, manager.Footprint(), lobby
    ensures manager.Valid() && manager.View() == Deleted(old(manager.View()), id, user)
    ensures r.DeletedRoom? <==> MayDelete(old(manager.View()), id, user)
    ensures lobby.events == old(lobby.events) + if r.DeletedRoom? then [RoomDeleted(id)] else []
  {
    r := manager.DeleteRoom(id, user);
    if r.DeletedRoom? {
      AnnounceDeletion(manager, lobby, id);
    }
  }

  datatype QuickplayResult = Joined(room: RoomId, created: bool) | NotEnabled | CreateFailed

  // What creating a room for a quickplay request does: the default config's room is there and
  // announced, or nothing has changed.
  ghost predicate QuickCreated<C(!new), Q(!new)>(game: Game<C, Q>, before: Registry<C>, after: Registry<C>,
      announced: seq<LobbyEvent<C>>, user: UserId, request: Q, active: nat, born: nat, r: QuickplayResult)
  {
    var config := game.quickplayDefault(request);
    match r
    case Joined(room, created) =>
      && created && config.Some? && room == before.nextRoom
      && after == Created(game, before, user, config.value, active, born) && room in after.rooms
      && announced == CreationOf(game, after, room)
    case NotEnabled => config.None? && after == before && announced == []
    case CreateFailed => config.Some? && !game.valid(config.value) && after == before && announced == []
  }

  method QuickCreate<C(!new), Q(!new)>(manager: RoomManager<C, Q>, lobby: Lobby<C>, user: UserId, request: Q,
      active: nat, born: nat)
      returns (r: QuickplayResult, ghost announced: seq<LobbyEvent<C>>)
    requires manager.Valid()
    modifies manager, lobby
    ensures manager.Valid() && lobby.events == old(lobby.events) + announced
    ensures QuickCreated(manager.game, old(manager.View()), manager.View(), announced, user, request, active, born, r)
    ensures r.NotEnabled? <==> manager.game.quickplayDefault(request).None?
    ensures r.Joined? ==>
              && r.created && r.room in manager.rooms
              && manager.game.quickplayDefault(request) == Some(manager.rooms[r.room].config)
              && manager.rooms[r.room].creator == user
  {
    announced := [];
    assert lobby.events + [] == lobby.events;
    var config := manager.game.quickplayDefault(request);
    if config.None? {
      return NotEnabled, [];
    }
    var id := PostRoom(manager, lobby, user, config.value, active, born);
    if id.None? {
      return CreateFailed, [];
    }
    return Joined(id.value, true), CreationOf(manager.game, manager.View(), id.value);
  }

  // Find or create: an existing room is returned exactly when an eligible one exists.
  method Quickplay<C(!new), Q(!new)>(manager: RoomManager<C, Q>, lobby: Lobby<C>, user: UserId, request: Q, active: nat,
      born: nat)
      returns (r: QuickplayResult, ghost announced: seq<LobbyEvent<C>>)
    requires manager.Valid()
    modifies manager, lobby
    ensures manager.Valid() && lobby.events == old(lobby.events) + announced
    ensures r.Joined? && !r.created <==> Findable(manager.game, old(manager.View()), request)
    ensures if r.Joined? && !r.created
            then
              && Eligible(manager.game, old(manager.View()), request, r.room)
              && manager.View() == old(manager.View()) && announced == []
            else QuickCreated(manager.game, old(manager.View()), manager.View(), announced,
                              user, request, active, born, r)
  {
    ghost var before := manager.View();
    var found := manager.FindQuickplayRoom(request);
    assert manager.View() == before;
    if found.Some? {
      assert lobby.events + [] == lobby.events;
      return Joined(found.value, false), [];
    }
    r, announced := QuickCreate(manager, lobby, user, request, active, born);
  }
}
