/** The per-screen state of the member list and the two updates a removal
    applies to it. */
module RosterState {
  import opened Options
  import opened Peers

  /** A participant added locally and not yet confirmed by the server. */
  datatype TemporaryParticipant = TemporaryParticipant(peer: Peer, presence: Option<Presence>, timestamp: int)

  /** `GroupPeersState`: pending participants in insertion order, the ids
      added successfully, and the ids whose removal is in flight. */
  datatype GroupPeersState = GroupPeersState(
    temporaryParticipants: seq<TemporaryParticipant>,
    successfullyAddedParticipantIds: set<PeerId>,
    removingParticipantIds: set<PeerId>)

  /** The state a freshly opened screen starts from. */
  const InitialState := GroupPeersState([], {}, {})

  /** No participant of `ps` has the id `id`. */
  predicate NoneWithId(ps: seq<TemporaryParticipant>, id: PeerId)
  {
    forall i | 0 <= i < |ps| :: ps[i].peer.id != id
  }

  /** Position of the first participant with id `id`, or `|ps|` when there
      is none. */
  function FirstIndexWithId(ps: seq<TemporaryParticipant>, id: PeerId): (k: nat)
    ensures k <= |ps|
    ensures NoneWithId(ps[..k], id)
    ensures k < |ps| ==> ps[k].peer.id == id
  {
    if |ps| == 0 then 0
    else if ps[0].peer.id == id then 0
    else
      var k := 1 + FirstIndexWithId(ps[1..], id);
      assert ps[..k] == [ps[0]] + ps[1..][..k - 1];
      k
  }

  /** The loop that scans the pending participants and removes the first
      one with id `id`, then breaks: the element at the first matching
      position goes, and nothing changes when no position matches. */
  function RemoveFirstWithId(ps: seq<TemporaryParticipant>, id: PeerId): (r: seq<TemporaryParticipant>)
    ensures var k := FirstIndexWithId(ps, id);
      r == if k < |ps| then ps[..k] + ps[k + 1..] else ps
  {
    if |ps| == 0 then []
    else if ps[0].peer.id == id then
      assert ps[..0] + ps[1..] == ps[1..];
      ps[1..]
    else
      var rest := RemoveFirstWithId(ps[1..], id);
      RemoveStep(ps, id, rest);
      [ps[0]] + rest
  }

  /** When the head does not match, removing from the tail and keeping the
      head removes the first match of the whole sequence. */
  lemma RemoveStep(ps: seq<TemporaryParticipant>, id: PeerId, rest: seq<TemporaryParticipant>)
    requires |ps| > 0 && ps[0].peer.id != id
    requires var k := FirstIndexWithId(ps[1..], id);
      rest == if k < |ps[1..]| then ps[1..][..k] + ps[1..][k + 1..] else ps[1..]
    ensures var k := FirstIndexWithId(ps, id);
      [ps[0]] + rest == if k < |ps| then ps[..k] + ps[k + 1..] else ps
  {
    var k := FirstIndexWithId(ps[1..], id);
    assert FirstIndexWithId(ps, id) == k + 1;
    RemoveAfterHead(ps, k, rest);
  }

  /** Removing position `k` of the tail is removing position `k + 1` of the
      whole sequence, behind the kept head. */
  lemma RemoveAfterHead(ps: seq<TemporaryParticipant>, k: nat, rest: seq<TemporaryParticipant>)
    requires 0 < |ps| && k <= |ps| - 1
    requires rest == if k < |ps| - 1 then ps[1..][..k] + ps[1..][k + 1..] else ps[1..]
    ensures [ps[0]] + rest == if k + 1 < |ps| then ps[..k + 1] + ps[k + 2..] else ps
  {
    if k + 1 < |ps| {
      assert ps[..k + 1] == [ps[0]] + ps[1..][..k];
      assert ps[k + 2..] == ps[1..][k + 1..];
    } else {
      assert ps == [ps[0]] + ps[1..];
    }
  }

  /** "Start removal": drop the first pending participant with that id,
      forget it as successfully added, and mark it as being removed. */
  function StartRemoval(s: GroupPeersState, id: PeerId): (r: GroupPeersState)
    ensures r.temporaryParticipants == RemoveFirstWithId(s.temporaryParticipants, id)
    ensures id !in r.successfullyAddedParticipantIds
    ensures id in r.removingParticipantIds
    ensures forall x | x != id ::
              (x in r.successfullyAddedParticipantIds <==> x in s.successfullyAddedParticipantIds)
              && (x in r.removingParticipantIds <==> x in s.removingParticipantIds)
  {
    s.(temporaryParticipants := RemoveFirstWithId(s.temporaryParticipants, id),
       successfullyAddedParticipantIds := s.successfullyAddedParticipantIds - {id},
       removingParticipantIds := s.removingParticipantIds + {id})
  }

  /** "Removal finished": the removal call completed, failed or was
      disposed; only the in-flight mark of that id goes away. */
  function FinishRemoval(s: GroupPeersState, id: PeerId): (r: GroupPeersState)
    ensures r.temporaryParticipants == s.temporaryParticipants
    ensures r.successfullyAddedParticipantIds == s.successfullyAddedParticipantIds
    ensures id !in r.removingParticipantIds
    ensures forall x | x != id :: x in r.removingParticipantIds <==> x in s.removingParticipantIds
  {
    s.(removingParticipantIds := s.removingParticipantIds - {id})
  }

  /** A removal that starts and then finishes restores the in-flight set
      when the id was not already in flight; the pending list loses at most
      one participant, and exactly one when the id was pending. */
  lemma RemovalRoundTrip(s: GroupPeersState, id: PeerId)
    ensures var r := FinishRemoval(StartRemoval(s, id), id);
      && (id !in s.removingParticipantIds ==> r.removingParticipantIds == s.removingParticipantIds)
      && r.successfullyAddedParticipantIds == s.successfullyAddedParticipantIds - {id}
      && |r.temporaryParticipants| == |s.temporaryParticipants| - (if NoneWithId(s.temporaryParticipants, id) then 0 else 1)
  {
    var ps := s.temporaryParticipants;
    var k := FirstIndexWithId(ps, id);
    if k == |ps| {
      assert ps[..k] == ps;
    } else {
      assert !NoneWithId(ps, id);
    }
  }
}
