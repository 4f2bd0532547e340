/**
 * The room manager: rooms by id, the player cap, channel ids, expiry and quickplay.
 *
 * `Registry` is what the manager holds, as a value; the functions on it say what each operation
 * leaves, and the class is proved against them.
 */
module Rooms {
  import opened Wrappers
  import opened Ids
  import opened Seats

  // What a game's room config provides, and the optional quickplay filter of the server.
  datatype Game<!C(!new), !Q(!new)> = Game(
    valid: C -> bool,
    maxPlayers: C -> Option<nat>,
    matches: (C, Q) -> bool,
    quickplayDefault: Q -> Option<C>,
    filter: Option<(RoomId, C) -> bool>)

  datatype Settings = Settings(maxLifetime: nat, firstConnectTimeout: nat, emptyTimeout: nat)

  datatype Room<C> = Room(
    config: C,
    creator: UserId,
    seats: Seats,
    createdAt: nat,
    lastActivity: nat,
    nextChannel: ChannelId)

  datatype Registry<C> = Registry(rooms: map<RoomId, Room<C>>, nextRoom: RoomId)

  // ---------- admission ----------

  predicate BelowCap(cap: Option<nat>, count: nat) {
    cap.Some? ==> count < cap.value
  }

  // Only newcomers are counted against the cap.
  predicate Admits<C(!new), Q(!new)>(game: Game<C, Q>, room: Room<C>, user: UserId) {
    user in room.seats.users || BelowCap(game.maxPlayers(room.config), room.seats.count)
  }

  predicate Eligible<C(!new), Q(!new)>(game: Game<C, Q>, reg: Registry<C>, request: Q, id: RoomId) {
    && id in reg.rooms
    && BelowCap(game.maxPlayers(reg.rooms[id].config), reg.rooms[id].seats.count)
    && game.matches(reg.rooms[id].config, request)
    && (game.filter.Some? ==> game.filter.value(id, reg.rooms[id].config))
  }

  ghost predicate Findable<C(!new), Q(!new)>(game: Game<C, Q>, reg: Registry<C>, request: Q) {
    exists id :: Eligible(game, reg, request, id)
  }

  datatype RoomInfo<C> = RoomInfo(id: RoomId, playerCount: nat, maxPlayers: Option<nat>, isJoinable: bool, config: C)

  // The cap is cut to 32 bits on the way out.
  function InfoOf<C(!new), Q(!new)>(game: Game<C, Q>, id: RoomId, room: Room<C>): RoomInfo<C> {
    var cap := game.maxPlayers(room.config);
    var shown := if cap.Some? then Some(Wrap32(cap.value)) else None;
    RoomInfo(id, room.seats.count, shown, BelowCap(shown, room.seats.count), room.config)
  }

  // What the lobby is told about a room: all of it as it is, but for caps of 2^32 and more.
  lemma InfoTellsTheRoom<C(!new), Q(!new)>(game: Game<C, Q>, id: RoomId, room: Room<C>)
    ensures var info := InfoOf(game, id, room); var cap := game.maxPlayers(room.config);
            && info.id == id && info.playerCount == room.seats.count && info.config == room.config
            && (cap.None? <==> info.maxPlayers.None?)
            && (cap.None? ==> info.isJoinable)
            && (cap.Some? && cap.value < U32_MODULUS ==>
                  info.maxPlayers == cap && (info.isJoinable <==> room.seats.count < cap.value))
  {
  }

  // `is_joinable` is the admission check for newcomers, except in a room below its cap whose cut cap
  // is already reached.
  lemma JoinableMeansAdmitted<C(!new), Q(!new)>(game: Game<C, Q>, id: RoomId, room: Room<C>, newcomer: UserId)
    requires newcomer !in room.seats.users
    ensures var cap := game.maxPlayers(room.config); var count := room.seats.count;
            (InfoOf(game, id, room).isJoinable <==> Admits(game, room, newcomer))
            <==> (cap.None? || cap.value < U32_MODULUS || count < Wrap32(cap.value) || count >= cap.value)
  {
    var cap := game.maxPlayers(room.config);
    if cap.Some? { WrapShrinks(cap.value); }
  }

  lemma WrapShrinks(n: nat)
    ensures Wrap32(n) <= n
  {
  }

  // In particular it is, for every cap below 2^32.
  lemma SmallCapIsShownExactly<C(!new), Q(!new)>(game: Game<C, Q>, id: RoomId, room: Room<C>, newcomer: UserId)
    requires newcomer !in room.seats.users
    requires game.maxPlayers(room.config).Some? ==> game.maxPlayers(room.config).value < U32_MODULUS
    ensures InfoOf(game, id, room).isJoinable <==> Admits(game, room, newcomer)
  {
    JoinableMeansAdmitted(game, id, room, newcomer);
  }

  // ---------- expiry ----------

  // `duration_since`, which saturates at zero.
  function Since(now: nat, then_: nat): nat {
    if now >= then_ then now - then_ else 0
  }

  predicate Expires<C>(settings: Settings, room: Room<C>, now: nat) {
    || Since(now, room.createdAt) > settings.maxLifetime
    || (room.seats.count == 0 && Since(now, room.createdAt) > settings.firstConnectTimeout)
    || (room.seats.count == 0 && Since(now, room.lastActivity) > settings.emptyTimeout)
  }

  // A room with users in it stays exactly for its lifetime, however young its last activity.
  lemma OccupiedRoomStays<C>(settings: Settings, room: Room<C>, now: nat)
    requires room.seats.count > 0
    ensures !Expires(settings, room, now) <==> now <= room.createdAt + settings.maxLifetime
  {
  }

  // A room without users stays exactly while all three times have not run out.
  lemma EmptyRoomStays<C>(settings: Settings, room: Room<C>, now: nat)
    requires room.seats.count == 0
    ensures !Expires(settings, room, now) <==>
              && now <= room.createdAt + settings.maxLifetime
              && now <= room.createdAt + settings.firstConnectTimeout
              && now <= room.lastActivity + settings.emptyTimeout
  {
  }

  // The room goes only because it has been idle for too long.
  predicate OnlyIdle<C>(settings: Settings, room: Room<C>, now: nat) {
    && Expires(settings, room, now)
    && Since(now, room.createdAt) <= settings.maxLifetime
    && !(room.seats.count == 0 && Since(now, room.createdAt) > settings.firstConnectTimeout)
  }

  // A room's activity may have been noted up to `slack` before its creation: the two clocks are read one
  // after the other.  Then the idle clause ever decides anything exactly if the empty timeout is shorter
  // than the first-connect timeout and the lifetime, each with the slack; otherwise the age clauses imply
  // it.
  lemma IdleClauseMatters<C(!new)>(settings: Settings, slack: nat, config: C, creator: UserId)
    ensures (exists room: Room<C>, now: nat ::
            room.createdAt <= room.lastActivity + slack && OnlyIdle(settings, room, now))
       <==> (settings.emptyTimeout < settings.firstConnectTimeout + slack
             && settings.emptyTimeout < settings.maxLifetime + slack)
  {
    var first, life := settings.firstConnectTimeout, settings.maxLifetime;
    var least := if first <= life then first else life;
    if settings.emptyTimeout < least + slack {
      assert OnlyIdle(settings, Room(config, creator, Empty, slack, 0, 1), slack + least);
    }
  }

  // An empty room that is still within its empty timeout is kept exactly while its age is within the
  // first-connect timeout (and its lifetime): being emptied earns no grace of its own.
  lemma GraceEndsWithFirstConnect<C>(settings: Settings, room: Room<C>, now: nat)
    requires room.seats.count == 0 && Since(now, room.lastActivity) <= settings.emptyTimeout
    ensures !Expires(settings, room, now) <==>
              Since(now, room.createdAt) <= settings.firstConnectTimeout
                  && Since(now, room.createdAt) <= settings.maxLifetime
  {
  }

  // ---------- what each operation leaves ----------

  function Created<C(!new), Q(!new)>(game: Game<C, Q>, reg: Registry<C>, creator: UserId, config: C, active: nat,
      born: nat): Registry<C>
  {
    if game.valid(config) then Inserted(reg, creator, config, active, born) else reg
  }

  function Inserted<C>(reg: Registry<C>, creator: UserId, config: C, active: nat, born: nat): Registry<C> {
    Registry(reg.rooms[reg.nextRoom := Room(config, creator, Empty, born, active, 1)], reg.nextRoom + 1)
  }

  function Deleted<C>(reg: Registry<C>, id: RoomId, requester: UserId): Registry<C> {
    if MayDelete(reg, id, requester) then Removed(reg, id) else reg
  }

  predicate MayDelete<C>(reg: Registry<C>, id: RoomId, requester: UserId) {
    id in reg.rooms && reg.rooms[id].creator == requester
  }

  function Removed<C>(reg: Registry<C>, id: RoomId): Registry<C> {
    reg.(rooms := reg.rooms - {id})
  }

  predicate LetsIn<C(!new), Q(!new)>(game: Game<C, Q>, reg: Registry<C>, id: RoomId, user: UserId) {
    id in reg.rooms && Admits(game, reg.rooms[id], user)
  }

  // A user already in the room is never refused, and a newcomer exactly when the room has a cap and it
  // is reached.
  lemma RefusedExactlyWhenFull<C(!new), Q(!new)>(game: Game<C, Q>, reg: Registry<C>, id: RoomId, user: UserId)
    requires id in reg.rooms
    ensures user in reg.rooms[id].seats.users ==> LetsIn(game, reg, id, user)
    ensures user !in reg.rooms[id].seats.users ==>
              (!LetsIn(game, reg, id, user) <==>
               exists cap :: game.maxPlayers(reg.rooms[id].config) == Some(cap) && reg.rooms[id].seats.count >= cap)
  {
  }

  // When the handler is gone the tables keep the channel all the same.
  function Seated<C>(room: Room<C>, user: UserId, handlerGone: bool, now: nat): Room<C> {
    Room(room.config, room.creator, Taken(room.seats, user, room.nextChannel), room.createdAt,
         if handlerGone then room.lastActivity else now, room.nextChannel + 1)
  }

  function Unseated<C>(room: Room<C>, channel: ChannelId, now: nat): Room<C> {
    Room(room.config, room.creator, Without(room.seats, {channel}), room.createdAt, now, room.nextChannel)
  }

  function Updated<C>(reg: Registry<C>, id: RoomId, room: Room<C>): Registry<C> {
    Registry(reg.rooms[id := room], reg.nextRoom)
  }

  function Opened<C(!new), Q(!new)>(game: Game<C, Q>, reg: Registry<C>, id: RoomId, user: UserId, handlerGone: bool,
      now: nat): Registry<C>
  {
    if LetsIn(game, reg, id, user) then Updated(reg, id, Seated(reg.rooms[id], user, handlerGone, now)) else reg
  }

  function Closed<C>(reg: Registry<C>, id: RoomId, channel: ChannelId, now: nat): Registry<C> {
    if id in reg.rooms then Updated(reg, id, Unseated(reg.rooms[id], channel, now)) else reg
  }

  function Surviving<C>(settings: Settings, rooms: map<RoomId, Room<C>>, now: nat): map<RoomId, Room<C>> {
    map id | id in rooms && !Expires(settings, rooms[id], now) :: rooms[id]
  }

  function Checked<C>(settings: Settings, reg: Registry<C>, now: nat): Registry<C> {
    reg.(rooms := Surviving(settings, reg.rooms, now))
  }

  // A room changes by an open or a close only in its seats, the next channel and the time of its last
  // activity, and no other room changes.
  lemma OnlySeatsChange<C(!new), Q(!new)>(game: Game<C, Q>, reg: Registry<C>, id: RoomId, user: UserId,
      handlerGone: bool, channel: ChannelId, now: nat)
    requires id in reg.rooms
    ensures var after, left := Opened(game, reg, id, user, handlerGone, now), Closed(reg, id, channel, now);
            && after.nextRoom == left.nextRoom == reg.nextRoom
            && after.rooms.Keys == left.rooms.Keys == reg.rooms.Keys
            && forall i | i in reg.rooms ::
                 && (i != id ==> after.rooms[i] == left.rooms[i] == reg.rooms[i])
                 && after.rooms[i].config == left.rooms[i].config == reg.rooms[i].config
                 && after.rooms[i].creator == left.rooms[i].creator == reg.rooms[i].creator
                 && after.rooms[i].createdAt == left.rooms[i].createdAt == reg.rooms[i].createdAt
  {
  }

  // A user that is let in holds the next channel, besides what it and all others hold already; only a
  // channel that its handler takes over counts as activity.
  lemma LetInHoldsNext<C(!new), Q(!new)>(game: Game<C, Q>, reg: Registry<C>, id: RoomId, user: UserId,
      handlerGone: bool, now: nat)
    requires LetsIn(game, reg, id, user)
    ensures var room, next := Opened(game, reg, id, user, handlerGone, now).rooms[id], reg.rooms[id].nextChannel;
            && (forall u, c :: Holds(room.seats, u, c) <==>
                               Holds(reg.rooms[id].seats, u, c) || (u == user && c == next))
            && room.seats.channels == reg.rooms[id].seats.channels + {next} && room.nextChannel == next + 1
            && (handlerGone ==> room.lastActivity == reg.rooms[id].lastActivity)
            && (!handlerGone ==> room.lastActivity == now)
  {
  }

  // A close takes the channel from whoever holds it, and is activity even if nobody does.
  lemma ClosedIsHeldByNobody<C>(reg: Registry<C>, id: RoomId, channel: ChannelId, now: nat)
    requires id in reg.rooms
    ensures var room := Closed(reg, id, channel, now).rooms[id];
            && (forall u, c :: Holds(room.seats, u, c) <==> Holds(reg.rooms[id].seats, u, c) && c != channel)
            && room.seats.channels == reg.rooms[id].seats.channels - {channel}
            && room.nextChannel == reg.rooms[id].nextChannel && room.lastActivity == now
  {
    forall u, c
      ensures Holds(Without(reg.rooms[id].seats, {channel}), u, c) <==>
              Holds(reg.rooms[id].seats, u, c) && c != channel
    {
      HoldsAfterWithout(reg.rooms[id].seats, {channel}, u, c);
    }
  }

  // A new room is empty and as it was asked for; an invalid config leaves everything alone.
  lemma NewRoomIsAsAsked<C(!new), Q(!new)>(game: Game<C, Q>, reg: Registry<C>, creator: UserId, config: C,
      active: nat, born: nat)
    requires reg.nextRoom !in reg.rooms
    ensures var after := Created(game, reg, creator, config, active, born); var id := reg.nextRoom;
            && (!game.valid(config) ==> after == reg)
            && (game.valid(config) ==>
                  && id in after.rooms && after.rooms - {id} == reg.rooms && after.nextRoom == id + 1
                  && after.rooms[id].config == config && after.rooms[id].creator == creator
                  && after.rooms[id].seats.users == map[] && after.rooms[id].seats.channels == {}
                  && after.rooms[id].createdAt == born && after.rooms[id].lastActivity == active)
  {
  }

  // Only its creator can delete a room, and only that room goes.
  lemma DeletedByItsCreator<C>(reg: Registry<C>, id: RoomId, requester: UserId)
    ensures var after := Deleted(reg, id, requester);
            && after.nextRoom == reg.nextRoom
            && forall i :: (i in after.rooms <==> i in reg.rooms && !(i == id && reg.rooms[i].creator == requester))
                        && (i in after.rooms ==> after.rooms[i] == reg.rooms[i])
  {
  }

  // ---------- every run ----------

  ghost predicate RoomIsSound<C(!new), Q(!new)>(game: Game<C, Q>, room: Room<C>) {
    && Consistent(room.seats, room.nextChannel)
    && (game.maxPlayers(room.config).Some? ==> room.seats.count <= game.maxPlayers(room.config).value)
  }

  ghost predicate Sound<C(!new), Q(!new)>(game: Game<C, Q>, reg: Registry<C>) {
    forall id | id in reg.rooms :: id < reg.nextRoom && RoomIsSound(game, reg.rooms[id])
  }

  datatype Op<C> =
    | Create(creator: UserId, config: C, active: nat, born: nat)
    | Delete(id: RoomId, requester: UserId)
    | Open(id: RoomId, user: UserId, handlerGone: bool, now: nat)
    | Close(id: RoomId, channel: ChannelId, now: nat)
    | Check(now: nat)      // a lifecycle check that is not interrupted
    | Remove(id: RoomId)   // one removal of a check that is

  function After<C(!new), Q(!new)>(game: Game<C, Q>, settings: Settings, reg: Registry<C>, op: Op<C>): Registry<C> {
    match op
    case Create(creator, config, active, born) => Created(game, reg, creator, config, active, born)
    case Delete(id, requester) => Deleted(reg, id, requester)
    case Open(id, user, handlerGone, now) => Opened(game, reg, id, user, handlerGone, now)
    case Close(id, channel, now) => Closed(reg, id, channel, now)
    case Check(now) => Checked(settings, reg, now)
    case Remove(id) => Removed(reg, id)
  }

  // The 32-bit user counters do not overflow.
  predicate CountersHold<C>(reg: Registry<C>) {
    forall id | id in reg.rooms :: |reg.rooms[id].seats.users| + 1 < U32_MODULUS
  }

  lemma SeatedIsSound<C(!new), Q(!new)>(game: Game<C, Q>, room: Room<C>, user: UserId, handlerGone: bool, now: nat)
    requires RoomIsSound(game, room) && Admits(game, room, user) && |room.seats.users| + 1 < U32_MODULUS
    ensures RoomIsSound(game, Seated(room, user, handlerGone, now))
    ensures room.nextChannel !in room.seats.channels
  {
    TakenIsConsistent(room.seats, user, room.nextChannel);
  }

  lemma UnseatedIsSound<C(!new), Q(!new)>(game: Game<C, Q>, room: Room<C>, channel: ChannelId, now: nat)
    requires RoomIsSound(game, room)
    ensures RoomIsSound(game, Unseated(room, channel, now))
  {
    var left := Without(room.seats, {channel});
    WithoutIsConsistent(room.seats, {channel}, room.nextChannel);
    SubsetSize(left.users.Keys, room.seats.users.Keys);
    CountKeys(room.seats.users);
    CountKeys(left.users);
  }

  lemma UpdatedIsSound<C(!new), Q(!new)>(game: Game<C, Q>, reg: Registry<C>, id: RoomId, room: Room<C>)
    requires Sound(game, reg) && RoomIsSound(game, room) && id < reg.nextRoom
    ensures Sound(game, Updated(reg, id, room))
  {
  }

  lemma NewRoomIsSound<C(!new), Q(!new)>(game: Game<C, Q>, reg: Registry<C>, creator: UserId, config: C, active: nat,
      born: nat)
    requires Sound(game, reg)
    ensures Sound(game, Created(game, reg, creator, config, active, born))
  {
    EmptyIsConsistent(1);
    var room := Room(config, creator, Empty, born, active, 1);
    UpdatedIsSound(game, reg.(nextRoom := reg.nextRoom + 1), reg.nextRoom, room);
  }

  lemma FewerRoomsAreSound<C(!new), Q(!new)>(game: Game<C, Q>, reg: Registry<C>, rooms: map<RoomId, Room<C>>)
    requires Sound(game, reg) && forall id | id in rooms :: id in reg.rooms && rooms[id] == reg.rooms[id]
    ensures Sound(game, Registry(rooms, reg.nextRoom))
  {
  }

  lemma ClosedIsSound<C(!new), Q(!new)>(game: Game<C, Q>, reg: Registry<C>, id: RoomId, channel: ChannelId, now: nat)
    requires Sound(game, reg)
    ensures Sound(game, Closed(reg, id, channel, now))
  {
    if id in reg.rooms {
      UnseatedIsSound(game, reg.rooms[id], channel, now);
      UpdatedIsSound(game, reg, id, Unseated(reg.rooms[id], channel, now));
    }
  }

  lemma OpenedIsSound<C(!new), Q(!new)>(game: Game<C, Q>, reg: Registry<C>, id: RoomId, user: UserId, handlerGone: bool,
      now: nat)
    requires Sound(game, reg) && CountersHold(reg)
    ensures Sound(game, Opened(game, reg, id, user, handlerGone, now))
    ensures LetsIn(game, reg, id, user) ==> Opened(game, reg, id, user, handlerGone, now) != reg
    ensures LetsIn(game, reg, id, user) ==> reg.rooms[id].nextChannel !in reg.rooms[id].seats.channels
  {
    if LetsIn(game, reg, id, user) {
      SeatedIsSound(game, reg.rooms[id], user, handlerGone, now);
      UpdatedIsSound(game, reg, id, Seated(reg.rooms[id], user, handlerGone, now));
      assert Opened(game, reg, id, user, handlerGone, now).rooms[id].nextChannel != reg.rooms[id].nextChannel;
    }
  }

  // Removing the expired rooms one by one leaves the surviving ones.
  lemma SurvivorsRemain<C(!new), Q(!new)>(game: Game<C, Q>, settings: Settings, reg: Registry<C>, now: nat,
      expired: seq<RoomId>)
    requires forall id :: id in expired <==> id in reg.rooms && Expires(settings, reg.rooms[id], now)
    ensures reg.(rooms := reg.rooms - Elements(expired)) == Checked(settings, reg, now)
    ensures Sound(game, reg) ==> Sound(game, Checked(settings, reg, now))
  {
    assert reg.rooms - Elements(expired) == Surviving(settings, reg.rooms, now);
    if Sound(game, reg) {
      FewerRoomsAreSound(game, reg, Surviving(settings, reg.rooms, now));
    }
  }

  lemma StepKeepsSound<C(!new), Q(!new)>(game: Game<C, Q>, settings: Settings, reg: Registry<C>, op: Op<C>)
    requires Sound(game, reg) && CountersHold(reg)
    ensures Sound(game, After(game, settings, reg, op))
  {
    match op {
      case Create(creator, config, active, born) => NewRoomIsSound(game, reg, creator, config, active, born);
      case Delete(id, requester) => FewerRoomsAreSound(game, reg, reg.rooms - {id});
      case Check(now) => FewerRoomsAreSound(game, reg, Surviving(settings, reg.rooms, now));
      case Remove(id) => FewerRoomsAreSound(game, reg, reg.rooms - {id});
      case Open(id, user, handlerGone, now) => OpenedIsSound(game, reg, id, user, handlerGone, now);
      case Close(id, channel, now) => ClosedIsSound(game, reg, id, channel, now);
    }
  }

  function Start<C>(): Registry<C> { Registry(map[], 1) }

  // From any registry on.
  function RunFrom<C(!new), Q(!new)>(game: Game<C, Q>, settings: Settings, reg: Registry<C>,
      ops: seq<Op<C>>): Registry<C>
    decreases |ops|
  {
    if ops == [] then reg
    else After(game, settings, RunFrom(game, settings, reg, ops[..|ops| - 1]), ops[|ops| - 1])
  }

  ghost predicate CountersHoldFrom<C(!new), Q(!new)>(game: Game<C, Q>, settings: Settings, reg: Registry<C>,
      ops: seq<Op<C>>)
  {
    forall k | 0 <= k < |ops| :: CountersHold(RunFrom(game, settings, reg, ops[..k]))
  }

  lemma CountersHoldBefore<C(!new), Q(!new)>(game: Game<C, Q>, settings: Settings, reg: Registry<C>, ops: seq<Op<C>>)
    requires ops != [] && CountersHoldFrom(game, settings, reg, ops)
    ensures CountersHoldFrom(game, settings, reg, ops[..|ops| - 1])
    ensures CountersHold(RunFrom(game, settings, reg, ops[..|ops| - 1]))
  {
    var n := |ops| - 1;
    forall k | 0 <= k < n
      ensures CountersHold(RunFrom(game, settings, reg, ops[..n][..k]))
    {
      assert ops[..n][..k] == ops[..k];
    }
  }

  lemma {:induction false} StaysSound<C(!new), Q(!new)>(game: Game<C, Q>, settings: Settings, reg: Registry<C>,
      ops: seq<Op<C>>)
    requires Sound(game, reg) && CountersHoldFrom(game, settings, reg, ops)
    ensures Sound(game, RunFrom(game, settings, reg, ops))
    decreases |ops|
  {
    if ops == [] {
    } else {
      var n := |ops| - 1;
      CountersHoldBefore(game, settings, reg, ops);
      StaysSound(game, settings, reg, ops[..n]);
      StepKeepsSound(game, settings, RunFrom(game, settings, reg, ops[..n]), ops[n]);
    }
  }

  function Run<C(!new), Q(!new)>(game: Game<C, Q>, settings: Settings, ops: seq<Op<C>>): Registry<C> {
    RunFrom(game, settings, Start(), ops)
  }

  ghost predicate NeverOverflows<C(!new), Q(!new)>(game: Game<C, Q>, settings: Settings, ops: seq<Op<C>>) {
    CountersHoldFrom(game, settings, Start(), ops)
  }

  // In every reachable state of every room: the count is the number of users, the users' channel sets
  // partition the open channels, no id is at or above the next one, and the cap is kept.
  lemma EveryRunIsSound<C(!new), Q(!new)>(game: Game<C, Q>, settings: Settings, ops: seq<Op<C>>)
    requires NeverOverflows(game, settings, ops)
    ensures Sound(game, Run(game, settings, ops))
  {
    StaysSound(game, settings, Start(), ops);
  }

  // The default settings, in seconds.
  const DEFAULTS := Settings(3600, 300, 300)

  // A room is created, one user joins after a second and leaves after five minutes and a second: a second
  // later the room expires, although it has been empty for that second only.
  lemma NoGraceAfterFiveMinutes<C(!new), Q(!new)>(game: Game<C, Q>, creator: UserId, user: UserId, config: C)
    requires game.valid(config) && BelowCap(game.maxPlayers(config), 0)
    ensures var reg := Run(game, DEFAULTS, [Create(creator, config, 0, 0), Open(1, user, false, 1), Close(1, 1, 301)]);
            && reg.rooms.Keys == {1} && reg.rooms[1].seats == Empty && reg.rooms[1].lastActivity == 301
            && Expires(DEFAULTS, reg.rooms[1], 302)
  {
    var create: Op<C> := Create(creator, config, 0, 0);
    var open: Op<C>, close: Op<C> := Open(1, user, false, 1), Close(1, 1, 301);
    assert [] + [create] == [create] && [create] + [open] == [create, open];
    assert [create, open] + [close] == [create, open, close];
    RunSnoc(game, DEFAULTS, [], create);
    RunSnoc(game, DEFAULTS, [create], open);
    RunSnoc(game, DEFAULTS, [create, open], close);
    EmptyIsConsistent(1);
    CloseUndoesOpen(Empty, user, 1);
    assert Run(game, DEFAULTS, [create]) == Registry(map[1 := Room(config, creator, Empty, 0, 0, 1)], 2);
  }

  lemma RunSnoc<C(!new), Q(!new)>(game: Game<C, Q>, settings: Settings, ops: seq<Op<C>>, op: Op<C>)
    ensures Run(game, settings, ops + [op]) == After(game, settings, Run(game, settings, ops), op)
  {
    assert (ops + [op])[..|ops|] == ops;
  }

  // Room ids are never used again: once a number below the counter names no room, it never will.
  lemma {:induction false} RoomIdsAreNotReused<C(!new), Q(!new)>(game: Game<C, Q>, settings: Settings, ops: seq<Op<C>>,
      from: nat, id: RoomId)
    requires from <= |ops|
    requires id < Run(game, settings, ops[..from]).nextRoom && id !in Run(game, settings, ops[..from]).rooms
    ensures id < Run(game, settings, ops).nextRoom && id !in Run(game, settings, ops).rooms
    decreases |ops|
  {
    if |ops| == from {
      assert ops[..from] == ops;
    } else {
      assert ops[..|ops| - 1][..from] == ops[..from];
      RoomIdsAreNotReused(game, settings, ops[..|ops| - 1], from, id);
    }
  }

  // A channel number the room has given out and that is not open.
  predicate Spent<C>(reg: Registry<C>, id: RoomId, channel: ChannelId) {
    && id < reg.nextRoom
    && (id in reg.rooms ==> channel < reg.rooms[id].nextChannel && channel !in reg.rooms[id].seats.channels)
  }

  lemma StepKeepsSpent<C(!new), Q(!new)>(game: Game<C, Q>, settings: Settings, reg: Registry<C>, op: Op<C>, id: RoomId,
      channel: ChannelId)
    requires Spent(reg, id, channel)
    ensures Spent(After(game, settings, reg, op), id, channel)
  {
  }

  // Nor are channel ids: a closed channel of a room stays closed for good.
  lemma {:induction false} ChannelIdsAreNotReused<C(!new), Q(!new)>(game: Game<C, Q>, settings: Settings,
      ops: seq<Op<C>>, from: nat, id: RoomId, channel: ChannelId)
    requires from <= |ops| && Spent(Run(game, settings, ops[..from]), id, channel)
    ensures Spent(Run(game, settings, ops), id, channel)
    decreases |ops|
  {
    if |ops| == from {
      assert ops[..from] == ops;
    } else {
      var n := |ops| - 1;
      assert ops[..n][..from] == ops[..from];
      ChannelIdsAreNotReused(game, settings, ops[..n], from, id, channel);
      StepKeepsSpent(game, settings, Run(game, settings, ops[..n]), ops[n], id, channel);
    }
  }

  // A room quickplay finds would let in any user as things stand.
  lemma QuickplayRoomLetsAnyoneIn<C(!new), Q(!new)>(game: Game<C, Q>, reg: Registry<C>, request: Q, id: RoomId,
      user: UserId, handlerGone: bool, now: nat)
    requires Eligible(game, reg, request, id)
    ensures LetsIn(game, reg, id, user)
    ensures var after := Opened(game, reg, id, user, handlerGone, now);
            id in after.rooms && Holds(after.rooms[id].seats, user, reg.rooms[id].nextChannel)
  {
  }
}
