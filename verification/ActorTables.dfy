/**
 * The three tables shared by all channel tasks of one room, and the two blocks of
 * `handle_server_channel` that change them.  Neither block contains an `.await`, so each is one step.
 */
module ActorTables {
  import opened Ids

  type ChannelType(==, !new)

  datatype Tables = Tables(
    userChannels: map<ChannelId, (UserId, ChannelType)>,
    pending: map<UserId, map<ChannelType, ChannelId>>,
    connected: set<UserId>)

  // What the user has identified so far, with the new channel.
  function Collected(t: Tables, user: UserId, id: ChannelId, channel: ChannelType): map<ChannelType, ChannelId> {
    (if user in t.pending then t.pending[user] else map[])[channel := id]
  }

  function CompletesUser(t: Tables, user: UserId, id: ChannelId, channel: ChannelType, expected: nat): bool {
    |Collected(t, user, id, channel)| >= expected
  }

  function AfterRegister(t: Tables, user: UserId, id: ChannelId, channel: ChannelType, expected: nat): Tables {
    var entries := t.userChannels[id := (user, channel)];
    if CompletesUser(t, user, id, channel, expected)
    then Tables(entries, t.pending - {user}, t.connected + {user})
    else Tables(entries, t.pending[user := Collected(t, user, id, channel)], t.connected)
  }

  function WithoutUser(entries: map<ChannelId, (UserId, ChannelType)>, user: UserId): map<ChannelId,
                       (UserId, ChannelType)> {
    map c | c in entries && entries[c].0 != user :: entries[c]
  }

  function AfterCleanup(t: Tables, user: UserId, id: ChannelId): Tables {
    var entries := t.userChannels - {id};
    if user in t.connected
    then Tables(WithoutUser(entries, user), t.pending, t.connected - {user})
    else Tables(entries, t.pending - {user}, t.connected)
  }

  class SharedTables {
    var userChannels: map<ChannelId, (UserId, ChannelType)>
    var pendingUsers: map<UserId, map<ChannelType, ChannelId>>
    var connectedUsers: set<UserId>

    constructor ()
      ensures View() == Tables(map[], map[], {})
    {
      userChannels, pendingUsers, connectedUsers := map[], map[], {};
    }

    function View(): Tables
      reads this
    {
      Tables(userChannels, pendingUsers, connectedUsers)
    }

    // Registration of an identified channel; true when it makes its user ready.
    method Register(user: UserId, id: ChannelId, channel: ChannelType, expected: nat) returns (ready: bool)
      modifies this
      ensures View() == AfterRegister(old(View()), user, id, channel, expected)
      ensures ready == CompletesUser(old(View()), user, id, channel, expected)
      ensures userChannels == old(userChannels)[id := (user, channel)]
      ensures forall u | u != user ::
                && (u in pendingUsers <==> u in old(pendingUsers))
                && (u in pendingUsers ==> pendingUsers[u] == old(pendingUsers)[u])
      ensures ready ==> user !in pendingUsers && connectedUsers == old(connectedUsers) + {user}
      ensures !ready ==>
                && connectedUsers == old(connectedUsers) && user in pendingUsers && |pendingUsers[user]| < expected
                && pendingUsers[user] ==
                   (if user in old(pendingUsers) then old(pendingUsers)[user] else map[])[channel := id]
    {
      userChannels := userChannels[id := (user, channel)];
      ghost var before := pendingUsers;
      var entry: map<ChannelType, ChannelId> := if user in pendingUsers then pendingUsers[user] else map[];
      entry := entry[channel := id];
      pendingUsers := pendingUsers[user := entry];
      if |entry| >= expected {
        pendingUsers := pendingUsers - {user};
        assert pendingUsers == before - {user};
        connectedUsers := connectedUsers + {user};
        return true;
      }
      return false;
    }

    // Cleanup when a channel's read side ends; true when its user is gone.
    method Cleanup(user: UserId, id: ChannelId) returns (gone: bool)
      modifies this
      ensures View() == AfterCleanup(old(View()), user, id)
      ensures gone == (user in old(connectedUsers)) && connectedUsers == old(connectedUsers) - {user}
      ensures gone ==> pendingUsers == old(pendingUsers)
      ensures !gone ==> pendingUsers == old(pendingUsers) - {user} && userChannels == old(userChannels) - {id}
      ensures gone ==>
                forall c :: c in userChannels <==> c in old(userChannels) && c != id && old(userChannels)[c].0 != user
      ensures forall c | c in userChannels :: c in old(userChannels) && userChannels[c] == old(userChannels)[c]
    {
      userChannels := userChannels - {id};
      if user in connectedUsers {
        connectedUsers := connectedUsers - {user};
        ghost var before := userChannels;
        var toRemove := set c | c in userChannels && userChannels[c].0 == user;
        while toRemove != {}
          invariant toRemove <= userChannels.Keys
          invariant forall c | c in toRemove :: before[c].0 == user
          invariant forall c | c in before && before[c].0 == user && c in userChannels :: c in toRemove
          invariant forall c | c in userChannels :: c in before && before[c] == userChannels[c]
          invariant forall c | c in before && before[c].0 != user :: c in userChannels
          invariant pendingUsers == old(pendingUsers) && connectedUsers == old(connectedUsers) - {user}
          decreases toRemove
        {
          var c :| c in toRemove;
          userChannels := userChannels - {c};
          toRemove := toRemove - {c};
        }
        assert userChannels == WithoutUser(before, user);
        return true;
      }
      pendingUsers := pendingUsers - {user};
      return false;
    }
  }
}
