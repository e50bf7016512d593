# Member list ordering and link-preview layout, modelled in Dafny

This project models two pieces of decision logic from the Telegram macOS client.

**The group/channel member list** (`PeerMediaGroupPeersController.swift`):
- Rows are built from the confirmed participants. For a basic group these come from the cached group data; for a channel, from the loaded channel members.
- A participant without a display title gets no row.
- The rest are sorted:
  - participants with an input activity (typing, recording, ...) come first;
  - then participants with a user presence, the higher presence status first;
  - when neither participant has a user presence, the participant type's own `<` decides. Two participants with equal presence statuses are left unordered; the closure never reaches `<` for them.
- A row is disabled while a removal of that id is in flight. The ids of locally pending ("temporary") participants the server has not confirmed are added to the disabled set too. No row carries such an id, so they change nothing on screen.
- Each row gets a member status (admin rank or plain member), an optional deleting descriptor while editing, and, for the first row, a view type.
- The screen state `GroupPeersState` changes when a removal starts and when it finishes.

**The link-preview layout** (`WPArticleLayout.swift`):
- `isFullImageSize` chooses between two layouts. In the stacked one the image is fitted above the text. In the inset one a 54×54 thumbnail sits in a top-right cutout the text wraps around.
- `measure(width:)` computes the thumbnail size, the cutout, the small-thumb flag, the image arguments and the content size.

Modules:
- `Options`: optional values and dictionary lookup.
- `Peers`: peer ids, peers, presences, activities.
- `RosterOrder`: the comparator, filtering, and an insertion sort proved to return a sorted permutation.
- `RosterState`: the screen state and its removal transitions.
- `GroupPeersEntries`: the merge of pending participants, both branches of the row building, `applyBlock` and the entries.
- `GroupPeersLemmas`: properties of the whole list.
- `ArticleLayout`: the layout decision and one measuring pass.

Three points in the code are easy to misread, and the model follows the code:
- The merged list of confirmed plus pending participants is built and then never read. The sort runs over the confirmed list alone, so pending participants never become rows. Their ids enter the disabled set only when they are unconfirmed, so they disable no row either: the rows are the same whatever is pending.
- A preview with no content type and no text is laid out full size however narrow its image is. The 200-point threshold applies only when the content has a type and asks for a full-size layout.
- The participant type's own `<` is not a tie-break for every tie. It decides only when neither participant has a user presence, and it compares participants, not identifiers. Equal presence statuses stay unordered.

## Model

| member | source | states |
|---|---|---|
| RosterOrder.BeforeIsLexicographic | Telegram-Mac/PeerMediaGroupPeersController.swift:142-164 | The sort closure is exactly the lexicographic order on (typing first, having a presence first, then higher status, or own order when neither has a presence) |
| RosterOrder.BeforeIsStrictWeakOrder | Telegram-Mac/PeerMediaGroupPeersController.swift:142-164 | The sort closure is irreflexive, asymmetric and transitive, and "not after" is transitive, so it is a valid argument for `sorted(by:)` |
| RosterOrder.Filter | Telegram-Mac/PeerMediaGroupPeersController.swift:224 | `filter` keeps every element that satisfies the condition with its full multiplicity and drops every other element |
| RosterOrder.FilterCongruent | Telegram-Mac/PeerMediaGroupPeersController.swift:142 | Two filter conditions that agree on every element of the list keep the same elements |
| RosterOrder.SortBy | Telegram-Mac/PeerMediaGroupPeersController.swift:142-164 | The sorted list is a permutation of its input in which no element goes before an earlier one under the closure |
| RosterOrder.SortedCriteria | Telegram-Mac/PeerMediaGroupPeersController.swift:149-163 | In a sorted list, a typing participant never follows a silent one. With equal typing, a participant with a presence never follows one without, and statuses do not increase. With equal typing and no presences, own order does not decrease |
| RosterState.FirstIndexWithId | Telegram-Mac/PeerMediaGroupPeersController.swift:338-343 | The position the removal loop stops at: the first pending participant with that id, or the end of the list when there is none |
| RosterState.RemoveFirstWithId | Telegram-Mac/PeerMediaGroupPeersController.swift:338-343 | Removes exactly the element at the first matching position and leaves the list unchanged when no participant has that id |
| RosterState.StartRemoval | Telegram-Mac/PeerMediaGroupPeersController.swift:336-347 | Starting a removal drops the first pending participant with the id, removes the id from the added set and puts it into the removing set; membership of every other id is unchanged |
| RosterState.FinishRemoval | Telegram-Mac/PeerMediaGroupPeersController.swift:351-367 | Completion, failure or disposal of a removal takes only that id out of the removing set; the pending list and the added set are unchanged |
| RosterState.RemovalRoundTrip | Telegram-Mac/PeerMediaGroupPeersController.swift:336-367 | Start then finish restores the removing set when the id was not in flight before. The added set loses the id. The pending list shrinks by one exactly when the id was pending |
| GroupPeersEntries.MergePending | Telegram-Mac/PeerMediaGroupPeersController.swift:125-140 | The merge loop disables exactly the removing ids plus the pending ids missing from the confirmed list. It leaves the peer map unchanged on confirmed ids. It appends exactly the unconfirmed pending ids, so a pending id already confirmed is neither appended nor disabled |
| GroupPeersEntries.GroupSorted | Telegram-Mac/PeerMediaGroupPeersController.swift:142-164 | The group branch sorts a permutation of exactly the confirmed participants whose peer the view knows. The filter reads the merged peer map, which gives the same answer as the view for confirmed ids. The result is sorted by the closure |
| GroupPeersEntries.ChannelSorted | Telegram-Mac/PeerMediaGroupPeersController.swift:224-246 | The channel branch sorts a permutation of exactly the channel members with a non-empty raw title, and the result is sorted by the closure |
| GroupPeersEntries.GroupRowsFromComplete | Telegram-Mac/PeerMediaGroupPeersController.swift:166-167 | When the view knows every peer, the row loop yields one row per sorted participant, in order, indexed by position |
| GroupPeersEntries.ApplyBlock | Telegram-Mac/PeerMediaGroupPeersController.swift:54-68 | Only view types change. The first row becomes an inner item when more rows follow and the last item when it is alone |
| GroupPeersEntries.GroupPeersEntries | Telegram-Mac/PeerMediaGroupPeersController.swift:45-283 | One member entry per row, in section 0, numbered from 0 in row order, carrying the row unchanged apart from its view type, followed by the section separator |
| GroupPeersLemmas.GroupBlockShape | Telegram-Mac/PeerMediaGroupPeersController.swift:166-193 | In the group branch the peer lookup inside the loop never fails, so row k is built from the k-th sorted participant |
| GroupPeersLemmas.GroupBlockFacts | Telegram-Mac/PeerMediaGroupPeersController.swift:166-192 | Group rows are enabled exactly when their id is not disabled. They carry an editing descriptor exactly when editing a group. They are plain members without highlighting. With well-keyed peers they are confirmed participants in activity/presence order |
| GroupPeersLemmas.ChannelBlockFacts | Telegram-Mac/PeerMediaGroupPeersController.swift:249-272 | Channel rows are enabled exactly when their id is not disabled. They carry an editing descriptor exactly when editing a channel and are plain members without highlighting. Every row is a channel member, and rows are in activity/presence order |
| GroupPeersLemmas.RowEnabledIff | Telegram-Mac/PeerMediaGroupPeersController.swift:125-140 | A row is enabled if and only if its id is neither in the removing set nor a pending id missing from the confirmed list |
| GroupPeersLemmas.RowsAreConfirmed | Telegram-Mac/PeerMediaGroupPeersController.swift:142-167 | Every row's id is a confirmed participant id, so unconfirmed pending participants never become rows |
| GroupPeersLemmas.RowsOrdered | Telegram-Mac/PeerMediaGroupPeersController.swift:149-161 | Across the rows, a row with an input activity never follows one without. Among rows alike in that, a row with a user presence never follows one without, and statuses do not increase |
| GroupPeersLemmas.RowDetails | Telegram-Mac/PeerMediaGroupPeersController.swift:168-189 | A row has an editing descriptor exactly when editing and the main peer is a group (group data) or a channel (channel data). Without admin highlighting every row is a plain member |
| GroupPeersLemmas.GroupSortedIgnoresState | Telegram-Mac/PeerMediaGroupPeersController.swift:120-142 | The sorted group participants are the same whatever the screen state holds |
| GroupPeersLemmas.StateOnlyAffectsEnabled | Telegram-Mac/PeerMediaGroupPeersController.swift:120-142 | For any two screen states the rows agree in number, order and every field except the enabled flag |
| GroupPeersLemmas.PendingNeverDisables | Telegram-Mac/PeerMediaGroupPeersController.swift:125-142 | With peers stored under their own ids, a row is enabled if and only if its id is not being removed; unconfirmed pending ids reach the disabled set but no row |
| GroupPeersLemmas.PendingInvisible | Telegram-Mac/PeerMediaGroupPeersController.swift:120-167 | With peers stored under their own ids, the rows are identical whether or not participants are pending |
| GroupPeersLemmas.InitiallyAllEnabled | Telegram-Mac/PeerMediaGroupPeersController.swift:288 | In the state the screen opens with, every row is enabled |
| GroupPeersLemmas.RemovingRowDisabled | Telegram-Mac/PeerMediaGroupPeersController.swift:336-367 | After a removal starts, the row of that id is disabled. After it finishes, the row is enabled unless the id is still an unconfirmed pending participant |
| ArticleLayout.Lowercased | Telegram-Mac/WPArticleLayout.swift:47 | The lowercased site name contains no ASCII capital and equals the input up to ASCII case, character by character |
| ArticleLayout.LowercasedEqualIff | Telegram-Mac/WPArticleLayout.swift:47 | Two names lowercase to the same string if and only if they are equal ignoring ASCII case |
| ArticleLayout.TrimStart | Telegram-Mac/WPArticleLayout.swift:56 | Trimming the head leaves a suffix of the text and drops only white space; the result is empty exactly when the text is all white space, and otherwise starts with a non-space character |
| ArticleLayout.TrimEnd | Telegram-Mac/WPArticleLayout.swift:56 | Trimming the tail leaves a prefix of the text and drops only white space; the result is empty exactly when the text is all white space, and otherwise ends with a non-space character |
| ArticleLayout.Trimmed | Telegram-Mac/WPArticleLayout.swift:56 | The trimmed text is a slice of the text with only white space before and after it. It is empty exactly when the text is all white space; otherwise it starts and ends with a non-space character |
| ArticleLayout.FullImageSizeRules | Telegram-Mac/WPArticleLayout.swift:46-57 | A full-size candidate (has a type; and media type, image site, instant page or no text) is full size unless its image is narrower than 200. Any other content is full size exactly when its text is nil or all white space |
| ArticleLayout.SiteNameIgnoresCase | Telegram-Mac/WPArticleLayout.swift:47-48 | Typed content whose site name equals "instagram" or "twitter" ignoring ASCII case is a full-size candidate. When its type is not a media type, there is no instant page and there is text, it is a candidate if and only if its site name matches that way |
| ArticleLayout.NoTypeNoTextIsFullSize | Telegram-Mac/WPArticleLayout.swift:48-56 | Content with neither a type nor text is full size whatever the image width |
| ArticleLayout.InitialLayoutDefaults | Telegram-Mac/WPArticleLayout.swift:16-39 | Before measuring, the thumbnail is 54 by 54, the thumb is small, there are no image arguments, and an image size exists only with an image |
| ArticleLayout.MeasureFullSize | Telegram-Mac/WPArticleLayout.swift:64-72 | Stacked layout: the image is fitted into min(width − left inset, 320) by 300, the cutout is cleared and the thumb is not small. The content is as wide as the fitted image and as high as it, plus 6 and the text height when there is text |
| ArticleLayout.MeasureInset | Telegram-Mac/WPArticleLayout.swift:73-78 | Inset layout: the thumbnail is 54 by 54, the text wraps around a top-right 70 by 64 cutout, and the small-thumb flag is left as it was |
| ArticleLayout.MeasureCutoutBounds | Telegram-Mac/WPArticleLayout.swift:90-93 | With a cutout the content width is at most width − left inset, and with an image the content height is at least the thumbnail height |
| ArticleLayout.MeasureImageArguments | Telegram-Mac/WPArticleLayout.swift:99-107 | Image arguments are nil exactly when the image size is nil; otherwise they bound the image by the constrained size with radius 4 |
| ArticleLayout.MeasureWithoutImage | Telegram-Mac/WPArticleLayout.swift:62-81 | Without an image size the thumbnail size, the small-thumb flag and the cutout are left untouched, and a duration label is laid out at the width minus the left inset |
| ArticleLayout.MeasureIdempotent | Telegram-Mac/WPArticleLayout.swift:59-113 | Measuring twice at the same width yields the same state and content size as measuring once |

## Left out

- Reactive plumbing is left out: `combineLatest`, promises, `Atomic`, disposables, queues. It only delivers values; the model takes the latest values as parameters.
- Removal I/O is left out: `loadedPeerWithId`, `removePeerMember`, `updateMemberBannedRights` and loading more members on scroll are calls into the data store and the network. The removal signal always yields `true`, so its `.complete()` branch is dead.
- Navigation (`peerInfo`) is left out.
- `ShortPeerRowItem` construction is left out: themes, fonts, localized strings, and presence strings that depend on the current clock. Localized badges are the values `AdminBadge` and `OwnerBadge`.
- `bestGeneralViewType` is not part of this model. Rows after the first get the opaque view type `BestGeneral(i)`.
- `canRemoveParticipant` (group and channel) is not part of this model. It is the parameter `MainPeer.removableIds`.
- The participant types' own `<` is the integer field `order`.
- The presence status order is an integer rank.
- The group filter `peers[id]?.displayTitle != nil` is modelled as "the merged peer map has the id". This assumes `displayTitle` is a non-optional string; the peer extension that declares it is not part of this model.
- The merge loops also add the pending participants' presences to a local presence map. In the channel branch the account's own presence is also set to present. Neither map is ever read afterwards, so neither is modelled.
- Only `removePeer` changes the screen state. Nothing on this screen adds pending participants or reads `successfullyAddedParticipantIds`.
- Swift's `sorted(by:)` does not promise an order among ties. The model sorts by insertion, and its contracts state only the sorted-permutation property.
- `super.measure(width:)`, `layout(with:)`, the duration label's text layout and the drawing are left out. The model records only the width the duration label is laid out in.
- `NSSize.fitted` and the text layout's own measuring are left out. They are the parameters `fit` and `measureText`.
- The `imageArguments != self.imageArguments` test is left out. Assigning only when the value differs leaves the same value as always assigning.
- `CGFloat` arithmetic is modelled with `real`; rounding is not modelled.
- ArticleLayout.Lowercased: maps only ASCII capitals. Swift's `lowercased()` follows Unicode, which matters only for site names with non-ASCII letters.
- ArticleLayout.Trimmed: uses the fixed Unicode white-space set (tab to carriage return, space, U+0085, U+00A0, U+1680, U+2000–U+200A, U+2028, U+2029, U+202F, U+205F, U+3000) instead of the platform's character set.
- GroupPeersLemmas.RowsOrdered: the group-branch proof assumes the view stores every peer under its own id (`WellKeyed`). The sort keys on the participant id; the row shows the peer's id.
- GroupPeersLemmas.RowsAreConfirmed: assumes `WellKeyed` for the same reason.
- GroupPeersLemmas.PendingNeverDisables and GroupPeersLemmas.PendingInvisible: assume `WellKeyed`. A view that stored a peer under another participant's id could show a pending id in a row.
- GroupPeersLemmas.RowDetails: does not restate which admin badge or custom rank a highlighted row carries, or the value of the deletable flag; these follow `GroupMemberStatus`, `ChannelMemberStatus` and `canRemoveParticipant`.
