/** The lobby's event log. */
module LobbyLog {
  import opened Ids
  import opened Rooms

  datatype LobbyEvent<C> =
    | RoomCreated(info: RoomInfo<C>)
    | RoomUpdated(info: RoomInfo<C>)
    | RoomDeleted(id: RoomId)

  function Deletions<C>(ids: seq<RoomId>): (r: seq<LobbyEvent<C>>)
    ensures |r| == |ids|
  {
    seq(|ids|, i requires 0 <= i < |ids| => RoomDeleted(ids[i]))
  }

  // The announcement of a room as it is, if there is one.
  function CreationOf<C(!new), Q(!new)>(game: Game<C, Q>, reg: Registry<C>, id: RoomId): seq<LobbyEvent<C>> {
    if id in reg.rooms then [RoomCreated(InfoOf(game, id, reg.rooms[id]))] else []
  }

  class Lobby<C> {
    var events: seq<LobbyEvent<C>>

    constructor ()
      ensures events == []
    {
      events := [];
    }

    method Notify(event: LobbyEvent<C>)
      modifies this
      ensures events == old(events) + [event]
    {
      events := events + [event];
    }
  }
}
