/** Properties of the member list as a whole. */
module GroupPeersLemmas {
  import opened Options
  import opened Peers
  import opened RosterOrder
  import opened RosterState
  import opened GroupPeersEntries

  /** Every row is enabled exactly when its id is not in `disabled`. */
  predicate EnabledExactly(rows: seq<Row>, disabled: set<PeerId>)
  {
    forall i | 0 <= i < |rows| :: rows[i].enabled <==> rows[i].peerId !in disabled
  }

  /** Every row's id belongs to `ids`. */
  predicate IdsWithin(rows: seq<Row>, ids: set<PeerId>)
  {
    forall i | 0 <= i < |rows| :: rows[i].peerId in ids
  }

  /** A row with an input activity never follows one without; among rows
      alike in that, a row with a user presence never follows one without,
      and user presences appear by non-increasing status. */
  predicate ActivityThenPresenceOrder(rows: seq<Row>)
  {
    forall i, j | 0 <= i < j < |rows| ::
      && (rows[j].activity.Some? ==> rows[i].activity.Some?)
      && (rows[i].activity.Some? == rows[j].activity.Some? && UserStatus(rows[j].presence).Some? ==>
            UserStatus(rows[i].presence).Some? && UserStatus(rows[i].presence).value >= UserStatus(rows[j].presence).value)
  }

  /** Rows carry an editing descriptor exactly when `editable`, and are
      plain members whenever admins are not highlighted. */
  predicate DetailsHold(rows: seq<Row>, editable: bool, highlightAdmins: bool)
  {
    forall i | 0 <= i < |rows| ::
      && (rows[i].editing.Some? <==> editable)
      && (!highlightAdmins ==> rows[i].memberStatus == Member)
  }

  /** The rows of the group branch are the sorted participants, one row
      each, in order: the view knows the peer of every participant that
      passed the filter, so the loop never skips one. */
  lemma GroupBlockShape(main: MainPeer, ps: seq<GroupParticipant>, state: GroupPeersState, isEditing: bool,
                        view: PeerView, activities: map<PeerId, Activity>, accountPeerId: PeerId)
    ensures var sorted := GroupSorted(ps, state, view, activities);
      var ctx := RowContext(main, isEditing, view, activities, accountPeerId,
                            Merge(state, ConfirmedGroupIds(ps), view.peers).disabledIds);
      var rows := GroupBlock(main, ps, state, isEditing, view, activities, accountPeerId);
      && |rows| == |sorted|
      && forall k | 0 <= k < |rows| ::
           sorted[k].peerId in view.peers && rows[k] == GroupRow(k, sorted[k], view.peers[sorted[k].peerId], ctx)
  {
    var sorted := GroupSorted(ps, state, view, activities);
    var ctx := RowContext(main, isEditing, view, activities, accountPeerId,
                          Merge(state, ConfirmedGroupIds(ps), view.peers).disabledIds);
    GroupSortedKnown(ps, state, view, activities);
    GroupRowsFromComplete(sorted, 0, ctx);
  }

  /** Every participant that survives the filter has its peer in the view. */
  lemma GroupSortedKnown(ps: seq<GroupParticipant>, state: GroupPeersState, view: PeerView,
                         activities: map<PeerId, Activity>)
    ensures var sorted := GroupSorted(ps, state, view, activities);
      forall k | 0 <= k < |sorted| :: sorted[k].peerId in view.peers
  {
    var sorted := GroupSorted(ps, state, view, activities);
    forall k | 0 <= k < |sorted|
      ensures sorted[k].peerId in view.peers
    {
      assert multiset(sorted)[sorted[k]] > 0;
    }
  }

  /** The facts of the group branch, one by one. */
  lemma GroupBlockFacts(main: MainPeer, ps: seq<GroupParticipant>, state: GroupPeersState, isEditing: bool,
                        view: PeerView, activities: map<PeerId, Activity>, accountPeerId: PeerId)
    ensures var rows := GroupBlock(main, ps, state, isEditing, view, activities, accountPeerId);
      && EnabledExactly(rows, DisabledIds(state, ConfirmedGroupIds(ps)))
      && DetailsHold(rows, isEditing && main.kind == GroupPeer, main.highlightAdmins)
      && (WellKeyed(view) ==> IdsWithin(rows, ConfirmedGroupIds(ps)) && ActivityThenPresenceOrder(rows))
  {
    GroupBlockShape(main, ps, state, isEditing, view, activities, accountPeerId);
    if WellKeyed(view) {
      GroupBlockIds(main, ps, state, isEditing, view, activities, accountPeerId);
      GroupBlockOrder(main, ps, state, isEditing, view, activities, accountPeerId);
    }
  }

  /** In a well-keyed view the group rows carry confirmed ids only. */
  lemma GroupBlockIds(main: MainPeer, ps: seq<GroupParticipant>, state: GroupPeersState, isEditing: bool,
                      view: PeerView, activities: map<PeerId, Activity>, accountPeerId: PeerId)
    requires WellKeyed(view)
    ensures IdsWithin(GroupBlock(main, ps, state, isEditing, view, activities, accountPeerId), ConfirmedGroupIds(ps))
  {
    var rows := GroupBlock(main, ps, state, isEditing, view, activities, accountPeerId);
    var sorted := GroupSorted(ps, state, view, activities);
    GroupBlockShape(main, ps, state, isEditing, view, activities, accountPeerId);
    forall k | 0 <= k < |rows|
      ensures rows[k].peerId in ConfirmedGroupIds(ps)
    {
      assert multiset(sorted)[sorted[k]] > 0;
      assert sorted[k] in ps;
    }
  }

  /** In a well-keyed view the group rows follow the roster order. */
  lemma GroupBlockOrder(main: MainPeer, ps: seq<GroupParticipant>, state: GroupPeersState, isEditing: bool,
                        view: PeerView, activities: map<PeerId, Activity>, accountPeerId: PeerId)
    requires WellKeyed(view)
    ensures ActivityThenPresenceOrder(GroupBlock(main, ps, state, isEditing, view, activities, accountPeerId))
  {
    var rows := GroupBlock(main, ps, state, isEditing, view, activities, accountPeerId);
    var sorted := GroupSorted(ps, state, view, activities);
    GroupBlockShape(main, ps, state, isEditing, view, activities, accountPeerId);
    var key := GroupKeyOf(view.peerPresences, activities);
    forall i, j | 0 <= i < j < |rows|
      ensures rows[j].activity.Some? ==> rows[i].activity.Some?
      ensures rows[i].activity.Some? == rows[j].activity.Some? && UserStatus(rows[j].presence).Some? ==>
                UserStatus(rows[i].presence).Some? && UserStatus(rows[i].presence).value >= UserStatus(rows[j].presence).value
    {
      SortedCriteria(sorted, key, i, j);
      assert rows[i].peerId == sorted[i].peerId && rows[j].peerId == sorted[j].peerId;
    }
  }

  /** The facts of the channel branch, one by one. */
  lemma ChannelBlockFacts(main: MainPeer, ms: seq<RenderedChannelParticipant>, state: GroupPeersState, isEditing: bool,
                          view: PeerView, activities: map<PeerId, Activity>, accountPeerId: PeerId)
    ensures var rows := ChannelBlock(main, ms, state, isEditing, view, activities, accountPeerId);
      && EnabledExactly(rows, DisabledIds(state, ConfirmedChannelIds(ms)))
      && DetailsHold(rows, isEditing && main.kind == ChannelPeer, main.highlightAdmins)
      && IdsWithin(rows, ConfirmedChannelIds(ms))
      && ActivityThenPresenceOrder(rows)
  {
    var rows := ChannelBlock(main, ms, state, isEditing, view, activities, accountPeerId);
    var disabled := Merge(state, ConfirmedChannelIds(ms), view.peers).disabledIds;
    var ctx := RowContext(main, isEditing, view, activities, accountPeerId, disabled);
    var sorted := ChannelSorted(ms, activities);
    ChannelBlockShape(main, ms, state, isEditing, view, activities, accountPeerId);
    assert disabled == DisabledIds(state, ConfirmedChannelIds(ms));
    forall k | 0 <= k < |rows|
      ensures rows[k].enabled <==> rows[k].peerId !in DisabledIds(state, ConfirmedChannelIds(ms))
      ensures rows[k].editing.Some? <==> isEditing && main.kind == ChannelPeer
      ensures !main.highlightAdmins ==> rows[k].memberStatus == Member
    {
      assert rows[k] == ChannelRow(k, sorted[k], ctx);
    }
    ChannelBlockIds(main, ms, state, isEditing, view, activities, accountPeerId);
    ChannelBlockOrder(main, ms, state, isEditing, view, activities, accountPeerId);
  }

  /** The rows of the channel branch are the sorted participants, one row
      each, in order. */
  lemma ChannelBlockShape(main: MainPeer, ms: seq<RenderedChannelParticipant>, state: GroupPeersState, isEditing: bool,
                          view: PeerView, activities: map<PeerId, Activity>, accountPeerId: PeerId)
    ensures var sorted := ChannelSorted(ms, activities);
      var ctx := RowContext(main, isEditing, view, activities, accountPeerId,
                            Merge(state, ConfirmedChannelIds(ms), view.peers).disabledIds);
      var rows := ChannelBlock(main, ms, state, isEditing, view, activities, accountPeerId);
      && |rows| == |sorted|
      && forall k | 0 <= k < |rows| :: rows[k] == ChannelRow(k, sorted[k], ctx)
  {
  }

  /** The channel rows carry confirmed ids only. */
  lemma ChannelBlockIds(main: MainPeer, ms: seq<RenderedChannelParticipant>, state: GroupPeersState, isEditing: bool,
                        view: PeerView, activities: map<PeerId, Activity>, accountPeerId: PeerId)
    ensures IdsWithin(ChannelBlock(main, ms, state, isEditing, view, activities, accountPeerId), ConfirmedChannelIds(ms))
  {
    var rows := ChannelBlock(main, ms, state, isEditing, view, activities, accountPeerId);
    var sorted := ChannelSorted(ms, activities);
    ChannelBlockShape(main, ms, state, isEditing, view, activities, accountPeerId);
    ChannelSortedFromMembers(ms, activities);
    forall k | 0 <= k < |rows|
      ensures rows[k].peerId in ConfirmedChannelIds(ms)
    {
      assert rows[k].peerId == sorted[k].peer.id;
    }
  }

  /** Every sorted channel participant is one of the loaded members. */
  lemma ChannelSortedFromMembers(ms: seq<RenderedChannelParticipant>, activities: map<PeerId, Activity>)
    ensures var sorted := ChannelSorted(ms, activities);
      forall k | 0 <= k < |sorted| :: sorted[k] in ms
  {
    var sorted := ChannelSorted(ms, activities);
    forall k | 0 <= k < |sorted|
      ensures sorted[k] in ms
    {
      assert multiset(sorted)[sorted[k]] > 0;
    }
  }

  /** The channel rows follow the roster order. */
  lemma ChannelBlockOrder(main: MainPeer, ms: seq<RenderedChannelParticipant>, state: GroupPeersState, isEditing: bool,
                          view: PeerView, activities: map<PeerId, Activity>, accountPeerId: PeerId)
    ensures ActivityThenPresenceOrder(ChannelBlock(main, ms, state, isEditing, view, activities, accountPeerId))
  {
    var rows := ChannelBlock(main, ms, state, isEditing, view, activities, accountPeerId);
    var sorted := ChannelSorted(ms, activities);
    forall i, j | 0 <= i < j < |rows|
      ensures rows[j].activity.Some? ==> rows[i].activity.Some?
      ensures rows[i].activity.Some? == rows[j].activity.Some? && UserStatus(rows[j].presence).Some? ==>
                UserStatus(rows[i].presence).Some? && UserStatus(rows[i].presence).value >= UserStatus(rows[j].presence).value
    {
      SortedCriteria(sorted, ChannelKeyOf(activities), i, j);
    }
  }

  /** A row is enabled exactly when its id is neither being removed nor
      the id of a pending participant that the confirmed list lacks. */
  lemma RowEnabledIff(state: GroupPeersState, isEditing: bool, view: PeerView, activities: map<PeerId, Activity>,
                      channelMembers: seq<RenderedChannelParticipant>, accountPeerId: PeerId)
    ensures EnabledExactly(UsersBlock(state, isEditing, view, activities, channelMembers, accountPeerId),
                           DisabledIds(state, ConfirmedIds(view, channelMembers)))
  {
    match view.mainPeer
    case None =>
    case Some(main) =>
      match view.cachedData
      case CachedGroupData(Some(ps)) =>
        GroupBlockFacts(main, ps, state, isEditing, view, activities, accountPeerId);
      case CachedChannelData =>
        ChannelBlockFacts(main, channelMembers, state, isEditing, view, activities, accountPeerId);
      case _ =>
  }

  /** Only confirmed participants become rows: with peers stored under
      their own ids, every row's id is a confirmed participant id, so a
      pending participant the server has not confirmed never shows up. */
  lemma RowsAreConfirmed(state: GroupPeersState, isEditing: bool, view: PeerView, activities: map<PeerId, Activity>,
                         channelMembers: seq<RenderedChannelParticipant>, accountPeerId: PeerId)
    requires WellKeyed(view)
    ensures IdsWithin(UsersBlock(state, isEditing, view, activities, channelMembers, accountPeerId),
                      ConfirmedIds(view, channelMembers))
  {
    match view.mainPeer
    case None =>
    case Some(main) =>
      match view.cachedData
      case CachedGroupData(Some(ps)) =>
        GroupBlockFacts(main, ps, state, isEditing, view, activities, accountPeerId);
      case CachedChannelData =>
        ChannelBlockFacts(main, channelMembers, state, isEditing, view, activities, accountPeerId);
      case _ =>
  }

  /** Pending participants change nothing on screen: with peers stored
      under their own ids, a row is enabled exactly when its id is not being
      removed. The pending ids that enter the disabled set are exactly the
      unconfirmed ones, and no row carries an unconfirmed id. */
  lemma PendingNeverDisables(state: GroupPeersState, isEditing: bool, view: PeerView,
                             activities: map<PeerId, Activity>, channelMembers: seq<RenderedChannelParticipant>,
                             accountPeerId: PeerId)
    requires WellKeyed(view)
    ensures EnabledExactly(UsersBlock(state, isEditing, view, activities, channelMembers, accountPeerId),
                           state.removingParticipantIds)
  {
    var rows := UsersBlock(state, isEditing, view, activities, channelMembers, accountPeerId);
    var confirmed := ConfirmedIds(view, channelMembers);
    RowEnabledIff(state, isEditing, view, activities, channelMembers, accountPeerId);
    RowsAreConfirmed(state, isEditing, view, activities, channelMembers, accountPeerId);
    forall i | 0 <= i < |rows|
      ensures rows[i].peerId !in PendingIds(state.temporaryParticipants, confirmed)
    {
      assert rows[i].peerId in confirmed;
    }
  }

  /** The rows are the same whatever participants are pending. */
  lemma PendingInvisible(state: GroupPeersState, isEditing: bool, view: PeerView,
                         activities: map<PeerId, Activity>, channelMembers: seq<RenderedChannelParticipant>,
                         accountPeerId: PeerId)
    requires WellKeyed(view)
    ensures UsersBlock(state, isEditing, view, activities, channelMembers, accountPeerId)
         == UsersBlock(state.(temporaryParticipants := []), isEditing, view, activities, channelMembers, accountPeerId)
  {
    var bare := state.(temporaryParticipants := []);
    var b1 := UsersBlock(state, isEditing, view, activities, channelMembers, accountPeerId);
    var b2 := UsersBlock(bare, isEditing, view, activities, channelMembers, accountPeerId);
    StateOnlyAffectsEnabled(state, bare, isEditing, view, activities, channelMembers, accountPeerId);
    PendingNeverDisables(state, isEditing, view, activities, channelMembers, accountPeerId);
    PendingNeverDisables(bare, isEditing, view, activities, channelMembers, accountPeerId);
    forall k | 0 <= k < |b1|
      ensures b1[k] == b2[k]
    {
      assert b1[k].(enabled := true) == b2[k].(enabled := true);
    }
  }

  /** When the screen opens nothing is pending or being removed, so every
      row is enabled. */
  lemma InitiallyAllEnabled(isEditing: bool, view: PeerView, activities: map<PeerId, Activity>,
                            channelMembers: seq<RenderedChannelParticipant>, accountPeerId: PeerId)
    ensures var rows := UsersBlock(InitialState, isEditing, view, activities, channelMembers, accountPeerId);
      forall i | 0 <= i < |rows| :: rows[i].enabled
  {
    assert DisabledIds(InitialState, ConfirmedIds(view, channelMembers)) == {};
    RowEnabledIff(InitialState, isEditing, view, activities, channelMembers, accountPeerId);
  }

  /** The list order as the rows show it. */
  lemma RowsOrdered(state: GroupPeersState, isEditing: bool, view: PeerView, activities: map<PeerId, Activity>,
                    channelMembers: seq<RenderedChannelParticipant>, accountPeerId: PeerId)
    requires WellKeyed(view)
    ensures ActivityThenPresenceOrder(UsersBlock(state, isEditing, view, activities, channelMembers, accountPeerId))
  {
    match view.mainPeer
    case None =>
    case Some(main) =>
      match view.cachedData
      case CachedGroupData(Some(ps)) =>
        GroupBlockFacts(main, ps, state, isEditing, view, activities, accountPeerId);
      case CachedChannelData =>
        ChannelBlockFacts(main, channelMembers, state, isEditing, view, activities, accountPeerId);
      case _ =>
  }

  /** A row carries an editing descriptor exactly when the list is being
      edited and the main peer is a group (group data) or a channel
      (channel data); without highlighting every row is a plain member. */
  lemma RowDetails(state: GroupPeersState, isEditing: bool, view: PeerView, activities: map<PeerId, Activity>,
                   channelMembers: seq<RenderedChannelParticipant>, accountPeerId: PeerId)
    requires view.mainPeer.Some?
    ensures DetailsHold(UsersBlock(state, isEditing, view, activities, channelMembers, accountPeerId),
                        isEditing && EditableKind(view) == Some(view.mainPeer.value.kind),
                        view.mainPeer.value.highlightAdmins)
  {
    var main := view.mainPeer.value;
    var rows := UsersBlock(state, isEditing, view, activities, channelMembers, accountPeerId);
    match view.cachedData
    case CachedGroupData(Some(ps)) =>
      assert rows == GroupBlock(main, ps, state, isEditing, view, activities, accountPeerId);
      assert EditableKind(view) == Some(GroupPeer);
      GroupBlockFacts(main, ps, state, isEditing, view, activities, accountPeerId);
    case CachedChannelData =>
      assert rows == ChannelBlock(main, channelMembers, state, isEditing, view, activities, accountPeerId);
      assert EditableKind(view) == Some(ChannelPeer);
      ChannelBlockFacts(main, channelMembers, state, isEditing, view, activities, accountPeerId);
    case _ =>
      assert rows == [];
  }

  /** The screen state decides only which rows are enabled: whatever the
      pending, added and removing participants are, the rows, their order
      and every other field stay the same. */
  lemma StateOnlyAffectsEnabled(s1: GroupPeersState, s2: GroupPeersState, isEditing: bool, view: PeerView,
                                activities: map<PeerId, Activity>, channelMembers: seq<RenderedChannelParticipant>,
                                accountPeerId: PeerId)
    ensures var b1 := UsersBlock(s1, isEditing, view, activities, channelMembers, accountPeerId);
      var b2 := UsersBlock(s2, isEditing, view, activities, channelMembers, accountPeerId);
      && |b1| == |b2|
      && forall k | 0 <= k < |b1| :: b1[k].(enabled := true) == b2[k].(enabled := true)
  {
    match view.mainPeer
    case None =>
    case Some(main) =>
      match view.cachedData
      case CachedGroupData(Some(ps)) =>
        GroupStateOnlyAffectsEnabled(main, ps, s1, s2, isEditing, view, activities, accountPeerId);
      case CachedChannelData =>
        ChannelStateOnlyAffectsEnabled(main, channelMembers, s1, s2, isEditing, view, activities, accountPeerId);
      case _ =>
  }

  /** The channel rows, too, differ between two screen states only in the
      enabled flag. */
  lemma ChannelStateOnlyAffectsEnabled(main: MainPeer, ms: seq<RenderedChannelParticipant>, s1: GroupPeersState,
                                       s2: GroupPeersState, isEditing: bool, view: PeerView,
                                       activities: map<PeerId, Activity>, accountPeerId: PeerId)
    ensures var b1 := ChannelBlock(main, ms, s1, isEditing, view, activities, accountPeerId);
      var b2 := ChannelBlock(main, ms, s2, isEditing, view, activities, accountPeerId);
      && |b1| == |b2|
      && forall k | 0 <= k < |b1| :: b1[k].(enabled := true) == b2[k].(enabled := true)
  {
    var sorted := ChannelSorted(ms, activities);
    var ctx1 := RowContext(main, isEditing, view, activities, accountPeerId,
                           Merge(s1, ConfirmedChannelIds(ms), view.peers).disabledIds);
    var ctx2 := ctx1.(disabledIds := Merge(s2, ConfirmedChannelIds(ms), view.peers).disabledIds);
    ChannelBlockShape(main, ms, s1, isEditing, view, activities, accountPeerId);
    ChannelBlockShape(main, ms, s2, isEditing, view, activities, accountPeerId);
    forall k | 0 <= k < |sorted|
      ensures ChannelRow(k, sorted[k], ctx1).(enabled := true) == ChannelRow(k, sorted[k], ctx2).(enabled := true)
    {
    }
  }

  /** The sorted group participants do not depend on the screen state:
      the merged peer map agrees with the view on every confirmed id. */
  lemma GroupSortedIgnoresState(ps: seq<GroupParticipant>, s1: GroupPeersState, s2: GroupPeersState,
                                view: PeerView, activities: map<PeerId, Activity>)
    ensures GroupSorted(ps, s1, view, activities) == GroupSorted(ps, s2, view, activities)
  {
    var confirmed := ConfirmedGroupIds(ps);
    var m1 := Merge(s1, confirmed, view.peers);
    var m2 := Merge(s2, confirmed, view.peers);
    assert forall p | p in ps :: Lookup(m1.peers, p.peerId) == Lookup(m2.peers, p.peerId);
    FilterCongruent(ps, (p: GroupParticipant) => p.peerId in m1.peers, (p: GroupParticipant) => p.peerId in m2.peers);
  }

  /** Two row contexts that differ only in the disabled ids yield the same
      rows up to the enabled flag. */
  lemma {:induction false} GroupRowsIgnoreDisabled(sorted: seq<GroupParticipant>, i: nat, ctx1: RowContext, ctx2: RowContext)
    requires i <= |sorted|
    requires ctx2 == ctx1.(disabledIds := ctx2.disabledIds)
    ensures var b1 := GroupRowsFrom(sorted, i, ctx1);
      var b2 := GroupRowsFrom(sorted, i, ctx2);
      && |b1| == |b2|
      && forall k | 0 <= k < |b1| :: b1[k].(enabled := true) == b2[k].(enabled := true)
    decreases |sorted| - i
  {
    if i < |sorted| {
      GroupRowsIgnoreDisabled(sorted, i + 1, ctx1, ctx2);
    }
  }

  lemma GroupStateOnlyAffectsEnabled(main: MainPeer, ps: seq<GroupParticipant>, s1: GroupPeersState, s2: GroupPeersState,
                                     isEditing: bool, view: PeerView, activities: map<PeerId, Activity>, accountPeerId: PeerId)
    ensures var b1 := GroupBlock(main, ps, s1, isEditing, view, activities, accountPeerId);
      var b2 := GroupBlock(main, ps, s2, isEditing, view, activities, accountPeerId);
      && |b1| == |b2|
      && forall k | 0 <= k < |b1| :: b1[k].(enabled := true) == b2[k].(enabled := true)
  {
    GroupSortedIgnoresState(ps, s1, s2, view, activities);
    var ctx1 := RowContext(main, isEditing, view, activities, accountPeerId,
                           Merge(s1, ConfirmedGroupIds(ps), view.peers).disabledIds);
    var ctx2 := ctx1.(disabledIds := Merge(s2, ConfirmedGroupIds(ps), view.peers).disabledIds);
    GroupRowsIgnoreDisabled(GroupSorted(ps, s1, view, activities), 0, ctx1, ctx2);
  }

  /** While a removal is in flight the row of that id is disabled; once it
      finishes the row is enabled again unless the id is still a pending
      participant the confirmed list lacks. */
  lemma RemovingRowDisabled(state: GroupPeersState, id: PeerId, isEditing: bool, view: PeerView,
                            activities: map<PeerId, Activity>, channelMembers: seq<RenderedChannelParticipant>,
                            accountPeerId: PeerId)
    ensures var rows := UsersBlock(StartRemoval(state, id), isEditing, view, activities, channelMembers, accountPeerId);
      forall i | 0 <= i < |rows| && rows[i].peerId == id :: !rows[i].enabled
    ensures var rows := UsersBlock(FinishRemoval(state, id), isEditing, view, activities, channelMembers, accountPeerId);
      forall i | 0 <= i < |rows| && rows[i].peerId == id ::
        rows[i].enabled <==> id !in PendingIds(state.temporaryParticipants, ConfirmedIds(view, channelMembers))
  {
    RowEnabledIff(StartRemoval(state, id), isEditing, view, activities, channelMembers, accountPeerId);
    RowEnabledIff(FinishRemoval(state, id), isEditing, view, activities, channelMembers, accountPeerId);
  }
}
