/** Identifiers. User ids are whatever the game supplies; the server numbers channels and rooms. */
module Ids {
  type UserId(==, !new)
  type ChannelId = nat
  type RoomId = nat
}
