/** Who sits in a room: its channels, which user holds which of them, and the cached user count. */
module Seats {
  import opened Wrappers
  import opened Ids

  datatype Seats = Seats(channels: set<ChannelId>, users: map<UserId, set<ChannelId>>, count: nat)

  const Empty := Seats({}, map[], 0)

  predicate Holds(s: Seats, u: UserId, c: ChannelId) {
    u in s.users && c in s.users[u]
  }

  // Every channel has a holder, and only one.
  ghost predicate Partitioned(s: Seats) {
    && (forall c | c in s.channels :: exists u :: Holds(s, u, c))
    && (forall u, c | Holds(s, u, c) :: c in s.channels)
    && (forall u, v, c | Holds(s, u, c) && Holds(s, v, c) :: u == v)
  }

  ghost predicate NoUserIsEmpty(s: Seats) {
    forall u | u in s.users :: s.users[u] != {}
  }

  // Then there are users exactly if there are channels.
  lemma UsersHaveChannels(s: Seats)
    requires Partitioned(s) && NoUserIsEmpty(s)
    ensures s.users != map[] <==> s.channels != {}
  {
    if s.users != map[] {
      var u :| u in s.users;
      var c :| c in s.users[u];
      assert Holds(s, u, c);
    }
    if s.channels != {} {
      var c :| c in s.channels;
      var u :| Holds(s, u, c);
    }
  }

  // The three tables agree, and all ids come from the counter.
  ghost predicate Consistent(s: Seats, next: ChannelId) {
    && s.count == |s.users| < U32_MODULUS
    && NoUserIsEmpty(s)
    && Partitioned(s)
    && (forall c | c in s.channels :: c < next)
  }

  lemma EmptyIsConsistent(next: ChannelId)
    ensures Consistent(Empty, next)
  {
  }

  function HeldBy(s: Seats, user: UserId): set<ChannelId> {
    if user in s.users then s.users[user] else {}
  }

  // Opening a channel; the count is a wrapping 32-bit counter.
  function Taken(s: Seats, user: UserId, id: ChannelId): Seats {
    Seats(s.channels + {id}, s.users[user := HeldBy(s, user) + {id}],
          if user in s.users then s.count else Wrap32(s.count + 1))
  }

  // What is left of the users when some channels close.
  function UsersWithout(users: map<UserId, set<ChannelId>>, ids: set<ChannelId>): map<UserId, set<ChannelId>> {
    map u | u in users && users[u] - ids != {} :: users[u] - ids
  }

  function Without(s: Seats, ids: set<ChannelId>): Seats {
    Seats(s.channels - ids, UsersWithout(s.users, ids), |UsersWithout(s.users, ids)|)
  }

  lemma HoldsAfterTaken(s: Seats, user: UserId, id: ChannelId, u: UserId, c: ChannelId)
    ensures Holds(Taken(s, user, id), u, c) <==> Holds(s, u, c) || (u == user && c == id)
  {
  }

  lemma HoldsAfterWithout(s: Seats, ids: set<ChannelId>, u: UserId, c: ChannelId)
    ensures Holds(Without(s, ids), u, c) <==> Holds(s, u, c) && c !in ids
  {
    if Holds(s, u, c) && c !in ids {
      assert c in s.users[u] - ids;
    }
  }

  lemma TakenIsPartitioned(s: Seats, user: UserId, id: ChannelId)
    requires Partitioned(s) && id !in s.channels
    ensures Partitioned(Taken(s, user, id))
  {
    var s' := Taken(s, user, id);
    forall u, c ensures Holds(s', u, c) <==> Holds(s, u, c) || (u == user && c == id) {
      HoldsAfterTaken(s, user, id, u, c);
    }
    forall c | c in s'.channels
      ensures exists u :: Holds(s', u, c)
    {
      if c == id {
        assert Holds(s', user, c);
      } else {
        var u :| Holds(s, u, c);
        assert Holds(s', u, c);
      }
    }
  }

  lemma WithoutIsPartitioned(s: Seats, ids: set<ChannelId>)
    requires Partitioned(s)
    ensures Partitioned(Without(s, ids))
  {
    var s' := Without(s, ids);
    forall u, c ensures Holds(s', u, c) <==> Holds(s, u, c) && c !in ids {
      HoldsAfterWithout(s, ids, u, c);
    }
    forall c | c in s'.channels
      ensures exists u :: Holds(s', u, c)
    {
      var u :| Holds(s, u, c);
      assert Holds(s', u, c);
    }
  }

  lemma UsersAfterTaken(s: Seats, user: UserId, id: ChannelId)
    ensures |Taken(s, user, id).users| == if user in s.users then |s.users| else |s.users| + 1
  {
    CountKeys(s.users);
    CountKeys(Taken(s, user, id).users);
    assert Taken(s, user, id).users.Keys == s.users.Keys + {user};
  }

  lemma TakenHasNoEmptyUser(s: Seats, user: UserId, id: ChannelId)
    requires forall u | u in s.users :: s.users[u] != {}
    ensures forall u | u in Taken(s, user, id).users :: Taken(s, user, id).users[u] != {}
  {
    assert id in Taken(s, user, id).users[user];
  }

  lemma TakenIsConsistent(s: Seats, user: UserId, next: ChannelId)
    requires Consistent(s, next) && |s.users| + 1 < U32_MODULUS
    ensures Consistent(Taken(s, user, next), next + 1)
  {
    TakenIsPartitioned(s, user, next);
    UsersAfterTaken(s, user, next);
    TakenHasNoEmptyUser(s, user, next);
  }

  lemma CountKeys(m: map<UserId, set<ChannelId>>)
    ensures |m| == |m.Keys|
  {
  }

  lemma WithoutIsConsistent(s: Seats, ids: set<ChannelId>, next: ChannelId)
    requires Consistent(s, next)
    ensures Consistent(Without(s, ids), next)
  {
    WithoutIsPartitioned(s, ids);
    CountKeys(s.users);
    CountKeys(Without(s, ids).users);
    SubsetSize(Without(s, ids).users.Keys, s.users.Keys);
  }

  // Ids that are not open are in nobody's set.
  lemma NotHeld(s: Seats, ids: set<ChannelId>, u: UserId)
    requires Partitioned(s) && ids !! s.channels && u in s.users
    ensures s.users[u] - ids == s.users[u]
  {
    forall c | c in s.users[u]
      ensures c !in ids
    {
      assert Holds(s, u, c);
    }
  }

  // A channel that was just opened closes without a trace.
  lemma CloseUndoesOpen(s: Seats, user: UserId, next: ChannelId)
    requires Consistent(s, next)
    ensures Without(Taken(s, user, next), {next}) == s
  {
    assert next !in s.channels;
    UsersUndone(s, user, next);
    assert (s.channels + {next}) - {next} == s.channels;
  }

  lemma UsersUndone(s: Seats, user: UserId, id: ChannelId)
    requires Partitioned(s) && id !in s.channels && forall u | u in s.users :: s.users[u] != {}
    ensures UsersWithout(Taken(s, user, id).users, {id}) == s.users
  {
    var users := UsersWithout(Taken(s, user, id).users, {id});
    forall u
      ensures u in s.users <==> u in users
      ensures u in s.users ==> users[u] == s.users[u]
    {
      if u in s.users {
        NotHeld(s, {id}, u);
        assert (s.users[u] + {id}) - {id} == s.users[u];
      } else {
        assert {id} - {id} == {};
      }
    }
  }

  // ---------- closing many ----------

  function CloseEach(s: Seats, ids: seq<ChannelId>): Seats
    decreases |ids|
  {
    if ids == [] then s else CloseEach(Without(s, {ids[0]}), ids[1..])
  }

  lemma WithoutTwice(s: Seats, a: set<ChannelId>, b: set<ChannelId>)
    ensures Without(Without(s, a), b) == Without(s, a + b)
  {
    forall u | u in s.users
      ensures (s.users[u] - a) - b == s.users[u] - (a + b)
    {
    }
    assert UsersWithout(UsersWithout(s.users, a), b) == UsersWithout(s.users, a + b);
    assert (s.channels - a) - b == s.channels - (a + b);
  }

  lemma WithoutNone(s: Seats, next: ChannelId)
    requires Consistent(s, next)
    ensures Without(s, {}) == s
  {
    assert forall u | u in s.users :: s.users[u] - {} == s.users[u];
    assert UsersWithout(s.users, {}) == s.users;
    assert s.channels - {} == s.channels;
  }

  // Closing channels one by one, in any order and however often, comes to closing the set of them.
  lemma {:induction false} CloseEachClosesSet(s: Seats, ids: seq<ChannelId>, next: ChannelId)
    requires Consistent(s, next)
    ensures CloseEach(s, ids) == Without(s, Elements(ids))
    decreases |ids|
  {
    if ids == [] {
      WithoutNone(s, next);
      assert Elements(ids) == {};
    } else {
      WithoutIsConsistent(s, {ids[0]}, next);
      CloseEachClosesSet(Without(s, {ids[0]}), ids[1..], next);
      WithoutTwice(s, {ids[0]}, Elements(ids[1..]));
      assert {ids[0]} + Elements(ids[1..]) == Elements(ids);
    }
  }

  // A second close, and a close of a channel that is not open, change nothing; any other does.
  lemma CloseIsIdempotent(s: Seats, id: ChannelId, next: ChannelId)
    requires Consistent(s, next)
    ensures Without(Without(s, {id}), {id}) == Without(s, {id})
    ensures Without(s, {id}) == s <==> id !in s.channels
  {
    WithoutTwice(s, {id}, {id});
    assert {id} + {id} == {id};
    if id in s.channels {
      assert id !in (s.channels - {id});
    } else {
      forall u | u in s.users ensures s.users[u] - {id} == s.users[u] {
        NotHeld(s, {id}, u);
      }
      assert UsersWithout(s.users, {id}) == s.users;
      assert s.channels - {id} == s.channels;
    }
  }

  // Two lists that name the same channels leave the same tables.
  lemma CloseOrderDoesNotMatter(s: Seats, a: seq<ChannelId>, b: seq<ChannelId>, next: ChannelId)
    requires Consistent(s, next) && forall c :: c in a <==> c in b
    ensures CloseEach(s, a) == CloseEach(s, b)
  {
    CloseEachClosesSet(s, a, next);
    CloseEachClosesSet(s, b, next);
    assert Elements(a) == Elements(b);
  }

  // When every open channel has been closed the room is empty and the count is zero.
  lemma ClosingAllEmpties(s: Seats, ids: seq<ChannelId>, next: ChannelId)
    requires Consistent(s, next) && forall c | c in s.channels :: c in ids
    ensures CloseEach(s, ids) == Empty
  {
    var closed := Elements(ids);
    CloseEachClosesSet(s, ids, next);
    assert s.channels - closed == {};
    forall u | u in s.users
      ensures s.users[u] - closed == {}
    {
      assert forall c | c in s.users[u] :: Holds(s, u, c);
    }
    assert UsersWithout(s.users, closed) == map[];
  }

  // ---------- the shared room state ----------

  class RoomShared {
    var channels: set<ChannelId>
    var userChannels: map<UserId, set<ChannelId>>
    var userCount: nat
    var lastActivity: nat

    constructor (now: nat)
      ensures View() == Empty && lastActivity == now
    {
      channels, userChannels, userCount, lastActivity := {}, map[], 0, now;
    }

    function View(): Seats
      reads this
    {
      Seats(channels, userChannels, userCount)
    }

    method TrackOpen(user: UserId, id: ChannelId)
      modifies this
      ensures View() == Taken(old(View()), user, id) && lastActivity == old(lastActivity)
    {
      var isNewUser := user !in userChannels;
      if user !in userChannels {
        userChannels := userChannels[user := {}];
      }
      userChannels := userChannels[user := userChannels[user] + {id}];
      if isNewUser {
        userCount := Wrap32(userCount + 1);
      }
      channels := channels + {id};
    }

    // With the handler there, the room has been active.
    method Open(user: UserId, id: ChannelId, handlerGone: bool, now: nat)
      modifies this
      ensures View() == Taken(old(View()), user, id) && lastActivity == if handlerGone then old(lastActivity) else now
    {
      TrackOpen(user, id);
      if !handlerGone {
        lastActivity := now;
      }
    }

    method Close(id: ChannelId, now: nat, ghost next: ChannelId)
      requires Consistent(View(), next)
      modifies this
      ensures View() == Without(old(View()), {id}) && lastActivity == now
    {
      TrackClose(id, next);
      lastActivity := now;
    }

    // The count is decremented with wrap-around; it stays the number of users.
    method TrackClose(id: ChannelId, ghost next: ChannelId)
      requires Consistent(View(), next)
      modifies this
      ensures View() == Without(old(View()), {id}) && lastActivity == old(lastActivity)
    {
      ghost var seats := View();
      channels := channels - {id};
      var left, userToRemove := DropFromUsers(seats, userChannels, id);
      userChannels := left;
      if userToRemove.Some? {
        userChannels := userChannels - {userToRemove.value};
        WrapDecrement(userCount);
        userCount := Wrap32(userCount + U32_MODULUS - 1);
      }
    }
  }

  // The scan over all users' sets; it stops at a user left without channels, which is returned.
  method DropFromUsers(ghost s: Seats, users: map<UserId, set<ChannelId>>, id: ChannelId)
      returns (left: map<UserId, set<ChannelId>>, userToRemove: Option<UserId>)
    requires users == s.users && Partitioned(s) && forall u | u in s.users :: s.users[u] != {}
    ensures userToRemove.None? ==> left == UsersWithout(users, {id}) && |UsersWithout(users, {id})| == |users|
    ensures userToRemove.Some? ==>
              left - {userToRemove.value} == UsersWithout(users, {id}) && |UsersWithout(users, {id})| + 1 == |users|
  {
    left, userToRemove := users, None;
    var todo := users.Keys;
    assert left == Visited(users, todo, id);
    while todo != {} && userToRemove.None?
      invariant todo <= users.Keys
      invariant left == Visited(users, todo, id)
      invariant userToRemove.None? ==> NoneEmptied(users, todo, id)
      invariant userToRemove.Some? ==> userToRemove.value in users && users[userToRemove.value] == {id}
      decreases todo
    {
      var u :| u in todo;
      var found := id in left[u];
      left := left[u := left[u] - {id}];
      todo := todo - {u};
      assert left == Visited(users, todo, id);
      if found && left[u] == {} {
        userToRemove := Some(u);
      }
    }
    if userToRemove.Some? {
      LastChannelClosed(s, userToRemove.value, id, todo);
    } else {
      NoUserLeaves(s, id);
    }
  }

  // The users' sets when all but `todo` have been visited.
  function Visited(users: map<UserId, set<ChannelId>>, todo: set<UserId>, id: ChannelId): map<UserId, set<ChannelId>> {
    map u | u in users :: if u in todo then users[u] else users[u] - {id}
  }

  ghost predicate NoneEmptied(users: map<UserId, set<ChannelId>>, todo: set<UserId>, id: ChannelId) {
    forall u | u in users && u !in todo :: users[u] - {id} != {}
  }

  lemma NoUserLeaves(s: Seats, id: ChannelId)
    requires NoneEmptied(s.users, {}, id)
    ensures Visited(s.users, {}, id) == UsersWithout(s.users, {id})
    ensures |UsersWithout(s.users, {id})| == |s.users|
  {
    var left := UsersWithout(s.users, {id});
    assert left == Visited(s.users, {}, id);
    CountKeys(left);
    CountKeys(s.users);
    assert left.Keys == s.users.Keys;
  }

  // When a user's only channel closes, no other user's set changes and one user fewer remains.
  lemma LastChannelClosed(s: Seats, user: UserId, id: ChannelId, todo: set<UserId>)
    requires Partitioned(s) && (forall u | u in s.users :: s.users[u] != {})
    requires user in s.users && s.users[user] == {id}
    ensures Visited(s.users, todo, id) - {user} == UsersWithout(s.users, {id})
    ensures |s.users| > 0 && |UsersWithout(s.users, {id})| == |s.users| - 1
  {
    assert Holds(s, user, id);
    forall v | v in s.users && v != user
      ensures s.users[v] - {id} == s.users[v] != {}
    {
      assert !Holds(s, v, id);
    }
    var left := UsersWithout(s.users, {id});
    assert left == Visited(s.users, todo, id) - {user};
    CountKeys(left);
    CountKeys(s.users);
    assert left.Keys == s.users.Keys - {user};
  }
}
