/** The parts of a peer, its presence and its input activity that the
    member list looks at. Everything else about a peer is abstracted away. */
module Peers {
  import opened Options

  /** Peer identifiers are compared for equality only. */
  type PeerId = int

  /** A peer with the one title the channel branch inspects. */
  datatype Peer = Peer(id: PeerId, rawDisplayTitle: string)

  /** A peer presence. Only a user presence carries a status; `status`
      stands for the user presence status under its own `<` (a higher value
      is a more recent presence). Any other kind of presence is opaque. */
  datatype Presence = UserPresence(status: int) | OtherPresence

  /** An input activity (typing, recording, ...); its kind is opaque. */
  datatype Activity = Activity(kind: int)

  /** The status seen through the cast `presence as? TelegramUserPresence`:
      nil for a missing presence and for a presence that is not a user one. */
  function UserStatus(p: Option<Presence>): Option<int>
  {
    match p
    case Some(UserPresence(s)) => Some(s)
    case _ => None
  }
}
