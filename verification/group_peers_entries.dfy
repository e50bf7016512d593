/** The rows of the member list: which participants become rows, in which
    order, and with which status, editing flag, enabled flag and view type. */
module GroupPeersEntries {
  import opened Options
  import opened Peers
  import opened RosterOrder
  import opened RosterState

  datatype GroupParticipantKind = GroupMember | GroupAdmin | GroupCreator

  /** A participant listed in the cached data of a basic group. `invitedBy`
      is the inviter the participant reports; `order` is its position under
      the participant type's own `<`. */
  datatype GroupParticipant = GroupParticipant(peerId: PeerId, kind: GroupParticipantKind, invitedBy: PeerId, order: int)

  /** A channel participant; `hasAdminRights` stands for `adminInfo != nil`. */
  datatype ChannelParticipant =
    | ChannelCreator(id: PeerId, rank: Option<string>)
    | ChannelMember(id: PeerId, hasAdminRights: bool, rank: Option<string>)

  /** A channel participant with its peer, the presence its own presence map
      holds for that peer, and its position under the type's own `<`. */
  datatype RenderedChannelParticipant = RenderedChannelParticipant(
    participant: ChannelParticipant, peer: Peer, presence: Option<Presence>, order: int)

  /** The result of the casts `as? TelegramGroup` and `as? TelegramChannel`. */
  datatype PeerKind = GroupPeer | ChannelPeer | OtherPeer

  /** The main peer of the view: its kind, whether its access highlights
      admins, and the participant ids its `canRemoveParticipant` accepts. */
  datatype MainPeer = MainPeer(kind: PeerKind, highlightAdmins: bool, removableIds: set<PeerId>)

  /** The cached data of the view, told apart by the casts the list makes. */
  datatype CachedData =
    | CachedGroupData(participants: Option<seq<GroupParticipant>>)
    | CachedChannelData
    | OtherCachedData

  datatype PeerView = PeerView(
    mainPeer: Option<MainPeer>,
    cachedData: CachedData,
    peers: map<PeerId, Peer>,
    peerPresences: map<PeerId, Presence>)

  /** Every peer of the view is stored under its own id. */
  predicate WellKeyed(view: PeerView)
  {
    forall id | id in view.peers :: view.peers[id].id == id
  }

  datatype Badge = AdminBadge | OwnerBadge
  datatype Rank = BadgeRank(badge: Badge) | CustomRank(title: string)
  datatype MemberStatus = Member | Admin(rank: Rank)

  /** Row view types; `BestGeneral(i)` is whatever `bestGeneralViewType`
      picks for position `i`, which this model does not look into. */
  datatype ViewType = SingleItem | InnerItem | LastItem | BestGeneral(position: nat)

  /** A member row. `editing` is the optional deleting descriptor and, when
      present, holds whether the member may be deleted. */
  datatype Row = Row(
    index: nat,
    peerId: PeerId,
    peer: Peer,
    presence: Option<Presence>,
    activity: Option<Activity>,
    memberStatus: MemberStatus,
    editing: Option<bool>,
    enabled: bool,
    viewType: ViewType)

  datatype Entry = MemberEntry(sectionId: int, index: nat, row: Row) | SectionEntry(sectionId: int)

  /** What every row of one screen update shares. */
  datatype RowContext = RowContext(
    main: MainPeer,
    isEditing: bool,
    view: PeerView,
    activities: map<PeerId, Activity>,
    accountPeerId: PeerId,
    disabledIds: set<PeerId>)

  // ---------------------------------------------------------------------
  // Merging the pending participants

  /** The merge loop's effects: ids it appends to the (never read) merged
      participant list, the peer map it extends, and the disabled ids. */
  datatype PendingMerge = PendingMerge(appendedIds: seq<PeerId>, peers: map<PeerId, Peer>, disabledIds: set<PeerId>)

  /** Ids of pending participants that the confirmed list does not hold. */
  function PendingIds(temps: seq<TemporaryParticipant>, confirmed: set<PeerId>): set<PeerId>
  {
    set t | t in temps && t.peer.id !in confirmed :: t.peer.id
  }

  /** Reference definition of the ids whose rows are disabled. */
  function DisabledIds(state: GroupPeersState, confirmed: set<PeerId>): set<PeerId>
  {
    state.removingParticipantIds + PendingIds(state.temporaryParticipants, confirmed)
  }

  /** The loop over the pending participants: one not yet confirmed is
      appended to the merged list, added to the peer map when the map does
      not know it, and disabled; one already confirmed is skipped. */
  function MergePending(temps: seq<TemporaryParticipant>, confirmed: set<PeerId>, acc: PendingMerge): (r: PendingMerge)
    ensures r.disabledIds == acc.disabledIds + PendingIds(temps, confirmed)
    ensures forall id | id in confirmed :: Lookup(r.peers, id) == Lookup(acc.peers, id)
    ensures |acc.appendedIds| <= |r.appendedIds| && r.appendedIds[..|acc.appendedIds|] == acc.appendedIds
    ensures forall id | id in r.appendedIds[|acc.appendedIds|..] :: id in PendingIds(temps, confirmed)
    ensures forall id | id in PendingIds(temps, confirmed) :: id in r.appendedIds[|acc.appendedIds|..]
    decreases |temps|
  {
    if |temps| == 0 then acc
    else
      var t := temps[0];
      var next :=
        if t.peer.id in confirmed then acc
        else PendingMerge(
          acc.appendedIds + [t.peer.id],
          if t.peer.id in acc.peers then acc.peers else acc.peers[t.peer.id := t.peer],
          acc.disabledIds + {t.peer.id});
      assert temps == [t] + temps[1..];
      var r := MergePending(temps[1..], confirmed, next);
      MergeStep(temps, confirmed, acc, next, r);
      r
  }

  lemma MergeStep(temps: seq<TemporaryParticipant>, confirmed: set<PeerId>, acc: PendingMerge, next: PendingMerge, r: PendingMerge)
    requires |temps| > 0
    requires temps[0].peer.id in confirmed ==> next == acc
    requires temps[0].peer.id !in confirmed ==>
      next.appendedIds == acc.appendedIds + [temps[0].peer.id] && next.disabledIds == acc.disabledIds + {temps[0].peer.id}
    requires r.disabledIds == next.disabledIds + PendingIds(temps[1..], confirmed)
    requires |next.appendedIds| <= |r.appendedIds| && r.appendedIds[..|next.appendedIds|] == next.appendedIds
    requires forall id | id in r.appendedIds[|next.appendedIds|..] :: id in PendingIds(temps[1..], confirmed)
    requires forall id | id in PendingIds(temps[1..], confirmed) :: id in r.appendedIds[|next.appendedIds|..]
    ensures r.disabledIds == acc.disabledIds + PendingIds(temps, confirmed)
    ensures |acc.appendedIds| <= |r.appendedIds| && r.appendedIds[..|acc.appendedIds|] == acc.appendedIds
    ensures forall id | id in r.appendedIds[|acc.appendedIds|..] :: id in PendingIds(temps, confirmed)
    ensures forall id | id in PendingIds(temps, confirmed) :: id in r.appendedIds[|acc.appendedIds|..]
  {
    var t := temps[0];
    assert temps == [t] + temps[1..];
    var head := if t.peer.id in confirmed then {} else {t.peer.id};
    assert PendingIds(temps, confirmed) == head + PendingIds(temps[1..], confirmed);
    var n := |acc.appendedIds|;
    var m := |next.appendedIds|;
    assert r.appendedIds[..n] == r.appendedIds[..m][..n];
    assert r.appendedIds[n..] == next.appendedIds[n..] + r.appendedIds[m..];
  }

  // ---------------------------------------------------------------------
  // Basic group branch

  function GroupKey(p: GroupParticipant, presences: map<PeerId, Presence>, activities: map<PeerId, Activity>): SortKey
  {
    SortKey(p.peerId in activities, UserStatus(Lookup(presences, p.peerId)), p.order)
  }

  function GroupKeyOf(presences: map<PeerId, Presence>, activities: map<PeerId, Activity>): GroupParticipant -> SortKey
  {
    p => GroupKey(p, presences, activities)
  }

  function ConfirmedGroupIds(ps: seq<GroupParticipant>): set<PeerId>
  {
    set p | p in ps :: p.peerId
  }

  /** The merge of the pending participants against a confirmed id set,
      starting from the view's peers and the ids being removed. */
  function Merge(state: GroupPeersState, confirmed: set<PeerId>, peers: map<PeerId, Peer>): PendingMerge
  {
    MergePending(state.temporaryParticipants, confirmed, PendingMerge([], peers, state.removingParticipantIds))
  }

  /** The confirmed participants whose peer is known, sorted. The filter
      asks the merged peer map, and the sort runs over the confirmed list,
      never over the list the pending participants were appended to. */
  function GroupSorted(ps: seq<GroupParticipant>, state: GroupPeersState, view: PeerView, activities: map<PeerId, Activity>): (r: seq<GroupParticipant>)
    ensures SortedBy(r, GroupKeyOf(view.peerPresences, activities))
    ensures forall p :: multiset(r)[p] == if p.peerId in view.peers then multiset(ps)[p] else 0
  {
    var merged := Merge(state, ConfirmedGroupIds(ps), view.peers);
    var titled := Filter(ps, (p: GroupParticipant) => p.peerId in merged.peers);
    assert forall p | p in ps :: Lookup(merged.peers, p.peerId) == Lookup(view.peers, p.peerId);
    SortBy(titled, GroupKeyOf(view.peerPresences, activities))
  }

  function GroupMemberStatus(highlightAdmins: bool, kind: GroupParticipantKind): MemberStatus
  {
    if highlightAdmins then
      match kind
      case GroupAdmin => Admin(BadgeRank(AdminBadge))
      case GroupCreator => Admin(BadgeRank(OwnerBadge))
      case GroupMember => Member
    else Member
  }

  function GroupRow(i: nat, p: GroupParticipant, peer: Peer, ctx: RowContext): Row
  {
    Row(i, peer.id, peer,
        Lookup(ctx.view.peerPresences, peer.id),
        Lookup(ctx.activities, peer.id),
        GroupMemberStatus(ctx.main.highlightAdmins, p.kind),
        if ctx.isEditing && ctx.main.kind == GroupPeer then
          Some(p.peerId in ctx.main.removableIds || (p.invitedBy == ctx.accountPeerId && p.peerId != ctx.accountPeerId))
        else None,
        peer.id !in ctx.disabledIds,
        SingleItem)
  }

  /** The loop over the sorted participants; one whose peer the view does
      not know yields no row. */
  function GroupRowsFrom(sorted: seq<GroupParticipant>, i: nat, ctx: RowContext): seq<Row>
    requires i <= |sorted|
    decreases |sorted| - i
  {
    if i == |sorted| then []
    else
      (match Lookup(ctx.view.peers, sorted[i].peerId)
       case Some(peer) => [GroupRow(i, sorted[i], peer, ctx)]
       case None => [])
      + GroupRowsFrom(sorted, i + 1, ctx)
  }

  /** When the view knows every peer from position `i` on, the loop yields
      exactly one row per participant, in order. */
  lemma {:induction false} GroupRowsFromComplete(sorted: seq<GroupParticipant>, i: nat, ctx: RowContext)
    requires i <= |sorted|
    requires forall k | i <= k < |sorted| :: sorted[k].peerId in ctx.view.peers
    ensures var rows := GroupRowsFrom(sorted, i, ctx);
      && |rows| == |sorted| - i
      && forall k | 0 <= k < |rows| ::
           rows[k] == GroupRow(i + k, sorted[i + k], ctx.view.peers[sorted[i + k].peerId], ctx)
    decreases |sorted| - i
  {
    if i < |sorted| {
      GroupRowsFromComplete(sorted, i + 1, ctx);
    }
  }

  function GroupBlock(main: MainPeer, ps: seq<GroupParticipant>, state: GroupPeersState, isEditing: bool,
                      view: PeerView, activities: map<PeerId, Activity>, accountPeerId: PeerId): seq<Row>
  {
    var merged := Merge(state, ConfirmedGroupIds(ps), view.peers);
    var ctx := RowContext(main, isEditing, view, activities, accountPeerId, merged.disabledIds);
    GroupRowsFrom(GroupSorted(ps, state, view, activities), 0, ctx)
  }

  // ---------------------------------------------------------------------
  // Channel branch

  function ChannelKey(m: RenderedChannelParticipant, activities: map<PeerId, Activity>): SortKey
  {
    SortKey(m.peer.id in activities, UserStatus(m.presence), m.order)
  }

  function ChannelKeyOf(activities: map<PeerId, Activity>): RenderedChannelParticipant -> SortKey
  {
    m => ChannelKey(m, activities)
  }

  function ConfirmedChannelIds(ms: seq<RenderedChannelParticipant>): set<PeerId>
  {
    set m | m in ms :: m.peer.id
  }

  /** The channel members with a non-empty raw title, sorted. */
  function ChannelSorted(ms: seq<RenderedChannelParticipant>, activities: map<PeerId, Activity>): (r: seq<RenderedChannelParticipant>)
    ensures SortedBy(r, ChannelKeyOf(activities))
    ensures forall m :: multiset(r)[m] == if |m.peer.rawDisplayTitle| > 0 then multiset(ms)[m] else 0
  {
    SortBy(Filter(ms, (m: RenderedChannelParticipant) => |m.peer.rawDisplayTitle| > 0), ChannelKeyOf(activities))
  }

  function ChannelMemberStatus(highlightAdmins: bool, p: ChannelParticipant): MemberStatus
  {
    if highlightAdmins then
      match p
      case ChannelCreator(_, rank) => Admin(if rank.Some? then CustomRank(rank.value) else BadgeRank(OwnerBadge))
      case ChannelMember(_, hasAdminRights, rank) =>
        if hasAdminRights then Admin(if rank.Some? then CustomRank(rank.value) else BadgeRank(AdminBadge)) else Member
    else Member
  }

  function ChannelRow(i: nat, m: RenderedChannelParticipant, ctx: RowContext): Row
  {
    Row(i, m.peer.id, m.peer, m.presence,
        Lookup(ctx.activities, m.peer.id),
        ChannelMemberStatus(ctx.main.highlightAdmins, m.participant),
        if ctx.isEditing && ctx.main.kind == ChannelPeer then Some(m.peer.id in ctx.main.removableIds) else None,
        m.peer.id !in ctx.disabledIds,
        SingleItem)
  }

  function ChannelBlock(main: MainPeer, ms: seq<RenderedChannelParticipant>, state: GroupPeersState, isEditing: bool,
                        view: PeerView, activities: map<PeerId, Activity>, accountPeerId: PeerId): seq<Row>
  {
    var merged := Merge(state, ConfirmedChannelIds(ms), view.peers);
    var ctx := RowContext(main, isEditing, view, activities, accountPeerId, merged.disabledIds);
    var sorted := ChannelSorted(ms, activities);
    seq(|sorted|, i requires 0 <= i < |sorted| => ChannelRow(i, sorted[i], ctx))
  }

  // ---------------------------------------------------------------------
  // The whole list

  /** The confirmed participant ids the pending participants are checked against. */
  function ConfirmedIds(view: PeerView, channelMembers: seq<RenderedChannelParticipant>): set<PeerId>
  {
    match view.cachedData
    case CachedGroupData(Some(ps)) => ConfirmedGroupIds(ps)
    case CachedChannelData => ConfirmedChannelIds(channelMembers)
    case _ => {}
  }

  /** The main peer kind under which rows carry an editing descriptor. */
  function EditableKind(view: PeerView): Option<PeerKind>
  {
    match view.cachedData
    case CachedGroupData(_) => Some(GroupPeer)
    case CachedChannelData => Some(ChannelPeer)
    case OtherCachedData => None
  }

  /** The rows before view types are assigned (`usersBlock`). */
  function UsersBlock(state: GroupPeersState, isEditing: bool, view: PeerView, activities: map<PeerId, Activity>,
                      channelMembers: seq<RenderedChannelParticipant>, accountPeerId: PeerId): seq<Row>
  {
    match view.mainPeer
    case None => []
    case Some(main) =>
      match view.cachedData
      case CachedGroupData(Some(ps)) => GroupBlock(main, ps, state, isEditing, view, activities, accountPeerId)
      case CachedChannelData => ChannelBlock(main, channelMembers, state, isEditing, view, activities, accountPeerId)
      case _ => []
  }

  /** `applyBlock`: only the view type of each row changes; the first row
      becomes an inner item when more rows follow and the last item when it
      is alone. */
  function ApplyBlock(block: seq<Row>): (r: seq<Row>)
    ensures |r| == |block|
    ensures forall i | 0 <= i < |r| :: r[i].(viewType := SingleItem) == block[i].(viewType := SingleItem)
    ensures |r| > 1 ==> r[0].viewType == InnerItem
    ensures |r| == 1 ==> r[0].viewType == LastItem
  {
    seq(|block|, i requires 0 <= i < |block| =>
      block[i].(viewType := if i > 0 then BestGeneral(i) else if |block| > 1 then InnerItem else LastItem))
  }

  /** `groupPeersEntries`: one member entry per row of the block, numbered
      from 0 in section 0, followed by the section separator. */
  function GroupPeersEntries(state: GroupPeersState, isEditing: bool, view: PeerView, activities: map<PeerId, Activity>,
                             channelMembers: seq<RenderedChannelParticipant>, accountPeerId: PeerId): (es: seq<Entry>)
    ensures var block := UsersBlock(state, isEditing, view, activities, channelMembers, accountPeerId);
      && |es| == |block| + 1
      && es[|block|] == SectionEntry(0)
      && forall k | 0 <= k < |block| ::
           && es[k].MemberEntry? && es[k].sectionId == 0 && es[k].index == k
           && es[k].row.(viewType := SingleItem) == block[k].(viewType := SingleItem)
  {
    var rows := ApplyBlock(UsersBlock(state, isEditing, view, activities, channelMembers, accountPeerId));
    seq(|rows|, k requires 0 <= k < |rows| => MemberEntry(0, k, rows[k])) + [SectionEntry(0)]
  }
}
