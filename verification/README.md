# A verified model of the vachat server

vachat is a chat server: an ordered byte-keyed message store, a cache of users and groups in front
of SQL tables, a broadcast stream to subscribers, and a bridge that lets bots take part through the
Matrix protocol. This project models the parts on which its guarantees rest and proves them.
`dafny verify dfyconfig.toml` checks everything.

**The message store.** `Bytes` and `Keys` give the byte order and the six kinds of keys, filled in
place and decoded as the store does it. `MessageLog` is the plain meaning: a log of messages, a merged
view and a leased id. `MessageDb` is the store itself, a class over a map from bytes to bytes; every
operation is proved to refine the plain one, and the defensive branches of its loops are proved
unreachable. `Durability` lets the store crash at any moment and lose the tail of its writes.
`Listing` says which ids a query means and proves that reading page by page reaches everything.

**Subscribers.** `Subscription` holds the snapshot and the relay loop of a session, `Delivery` the
interleaving: senders that take ids, store and broadcast under the shared guard, sessions that join
under the exclusive one. A session receives every message once. `Reconnect` says exactly when a client that
comes back with the highest id it has received can miss a message. The machines of `Delivery`, `Durability`,
`PinCoherence` and `SyncChain` are tied to the methods they stand for: one method each shows that the contract is the step.

**Messages that change.** `MergedView` is the current form of the messages as a fold over all that
was stored and taken in, in whatever order parallel senders do it; `Sending` carries it through the checks down to
the bytes of the store and says who receives what and what is refused; `Inboxes` proves over any run that an inbox
holds what was sent to its owner while the owner belonged to the conversation. `Pinned` and
`PinCoherence` follow the pinned copies that a background updater brings up to date, step by step.

**Users and groups.** `Groups` and `GroupServer` keep cache and tables in agreement over every request,
failed or not, and say exactly when a restart rebuilds the cache. `Membership` proves over every run that members
are those who were let in last and values those given last; `Accounts` the same for users, and that nobody changes
what is not theirs. `UserLog` proves that replaying the
log of changes on an old snapshot gives the current one if the log is complete, `LogGaps` exactly when it
does although changes were not logged; `ClientView` puts that together with what a session hands out.

**The Matrix side and the rest.** `RoomIds`, `MatrixSync`, `SyncChain`, `SyncReach`, `SyncResponse` cover room ids, the
polling, its tokens and what they can still reach, and the answer; `CanonicalJson` the text that is signed, with a parser as its inverse;
`Archive` the numbering of users and files; `AuthLimiter` the counting of failed logins.
`Ordered`, `Selection`, `Encoding`, `Results`, `Payloads`, `GroupKinds` and `LastGiven` are shared vocabulary.

## Where the code falls short of what one might expect

Each of these is stated below over all inputs, mostly as the exact condition under which the expectation is met.

- A reconnecting client can miss a message whose id was taken earlier but broadcast later than the last one it
  saw (`Reconnect.ResumeMayLose`, a run: `Reconnect.OvertakenIsMissed`); a Matrix token can pass an id that is
  still being sent (`SyncChain.WhatIsMissed`, `SyncChain.PassedIsOver`, a run: `SyncChain.OvertakenIsLost`).
- A sync does not get over 1000 direct messages in a row that no bot can want or that are too old, which nothing
  ever removes; the exact condition for an id in flight is `SyncReach.InFlightIsLost`, with `SyncReach.WallBlocks`,
  `SyncReach.WallsDecide` and a run: `SyncReach.ChatterBlocks`.
- A sync finds nothing when none of the first 1000 messages behind its token is wanted (`MatrixSync.NothingFetched`).
- With parallel senders an edit can be lost to the merged view (`MergedView.ShownIsLastTakenIn`, a run:
  `MergedView.OvertakingEditIsLost` and, through the handlers, `Sending.EditWhileSending`).
- A crash that loses a lease can have ids issued twice (`Durability.LostLeaseReissues`).
- The refresh of pinned copies stops at the first group (`PinCoherence.EditReachesAllPins`).
- Deleting the owner of a group leaves its rows behind (`Groups.OrphansGrow`, `Groups.ReloadIsExact`).
- A user's own change of gender or language alone is not logged (`UserLog.SelfUpdateExplained`); when the log
  gives the current view all the same is `LogGaps.ReplayIsCurrentExactly`.
- The room ids listed for a bot work only for contacts whose id is not above the bot's (`RoomIds.OrderedRoomWorks`).
- An array of one null has the text of the empty array, and nothing else that nulls do makes the canonical text
  ambiguous (`CanonicalJson.SameText`, `CanonicalJson.ConfusedExactly`); quotes in keys do
  (`CanonicalJson.QuoteInKeyIsAmbiguous`, `CanonicalJson.CrowdedOrHollowIsConfused`).
- Control characters other than line feed, carriage return and tab stand unescaped in the canonical text
  (`CanonicalJson.EscapedCharacters`).
- Clearing a group can fail half-way, its messages gone and their pins still there (`Pinned.PinBoard.Clear`).
- Negative `after` and `before` values select something else than they say (`Listing.AfterIsExact`,
  `Listing.BeforeIsExact`), and a page number beyond 64 bits wraps round (`Listing.PageIsExact`).
- A reaction by somebody outside a direct conversation goes to another one (`Sending.ReactionStaysInConversation`).
- A failure recorded late lifts a block (`AuthLimiter.BlockIsCutShort`, `AuthLimiter.BlockMayEndEarly`, a run:
  `AuthLimiter.BlockLiftedAfterAMinute`).

Two more follow the code against its tests or text: withdrawing a message (a Delete reaction) leaves merged view
and pins alone (src/api/message.rs:754), although a test expects the pin to go (src/api/group.rs:2247-2260);
and the downward scan includes the id it is given (crates/msgdb/src/messages.rs:188-199).

## Model

| member | source | states |
|---|---|---|
| Bytes.LessAfterPrefix | crates/msgdb/src/messages.rs:51-55 | Two keys with the same prefix compare like what follows it. |
| Bytes.RangeKeepsPrefix | crates/msgdb/src/messages.rs:51-68 | Whatever lies between two keys that share a prefix has that prefix itself: a scan cannot leave its conversation. |
| Bytes.BigEndianRoundTrip | crates/msgdb/src/messages.rs:266-280 | Every 64-bit integer is read back from its eight bytes. |
| Bytes.FromBigEndianRoundTrip | crates/msgdb/src/messages.rs:273-280 | Every eight bytes are written back as themselves. |
| Bytes.BigEndianOrder | crates/msgdb/src/messages.rs:266-271 | Byte order is the order of the unsigned forms. |
| Bytes.BigEndianOrderIsSigned | crates/msgdb/src/messages.rs:266-271 | Byte order is the order of the signed integers if and only if the signs agree. |
| Keys.FillMsgKey | crates/msgdb/src/messages.rs:266-271 | The array filled in place is the prefix and the id, big-endian. |
| Keys.FillMergedKey | crates/msgdb/src/messages.rs:282-287 | As above for the merged view. |
| Keys.FillUserKey | crates/msgdb/src/messages.rs:289-295 | As above for an inbox entry: user, then id. |
| Keys.FillGroupKey | crates/msgdb/src/messages.rs:307-313 | As above for a group's history. |
| Keys.FillDmKey | crates/msgdb/src/messages.rs:325-334 | As above for a direct conversation, the smaller user first. |
| Keys.FillSequenceKey | crates/msgdb/src/sequence.rs:48-53 | As above for the id sequence. |
| Keys.MsgKeyRoundTrip | crates/msgdb/src/messages.rs:266-280 | A message key decodes to its id. |
| Keys.UserKeyRoundTrip | crates/msgdb/src/messages.rs:289-305 | An inbox key decodes to its user and id. |
| Keys.GroupKeyRoundTrip | crates/msgdb/src/messages.rs:307-323 | A group key decodes to its group and id. |
| Keys.DmKeyRoundTrip | crates/msgdb/src/messages.rs:325-346 | A direct key decodes to the two users in order and the id. |
| Keys.MsgKeyDecoded | crates/msgdb/src/messages.rs:273-280 | Only message keys decode as message keys, and to the id they were made from. |
| Keys.PairDecoded | crates/msgdb/src/messages.rs:297-323 | Only keys of that prefix and length decode as inbox or group keys. |
| Keys.DmKeyDecoded | crates/msgdb/src/messages.rs:336-346 | What decodes as a direct key is one that the encoder makes if and only if its users are in order. |
| Keys.DmKeySymmetricInjective | crates/msgdb/src/messages.rs:325-334 | Direct keys are equal exactly for the same two users, in either order, and the same id. |
| Keys.KeySpacesDisjoint | crates/msgdb/src/messages.rs:266-334 | Keys of the six kinds are never equal. |
| Keys.DecodersReadTheirSpace | crates/msgdb/src/messages.rs:273-346 | Each decoder accepts only keys of its own kind. |
| Keys.DecodeEncode | crates/msgdb/src/messages.rs:266-346 | Every key of every kind is read back from its bytes. |
| Keys.UserRange | crates/msgdb/src/messages.rs:51-56 | A stored key lies in the range of an inbox scan exactly when it is an inbox key of that user with an id in the interval. |
| Keys.GroupRange | crates/msgdb/src/messages.rs:145-151 | The same for a group scan. |
| Keys.DmRange | crates/msgdb/src/messages.rs:111-117 | The same for a direct scan, for the users in either order. |
| Keys.MsgRange | crates/msgdb/src/messages.rs:84-89 | The same for the scan over all messages. |
| Keys.MsgRangeInclusive | crates/msgdb/src/messages.rs:194-200 | The same for the scan downwards, whose end is included. |
| MessageLog.SecondaryHasPrimary | crates/msgdb/src/messages.rs:23-43 | Every inbox, group or direct entry has a primary entry with the same bytes. |
| MessageLog.OneConversationPerMessage | crates/msgdb/src/messages.rs:23-43 | Of all group and direct keys with the id of a stored message, exactly that of its conversation is present. |
| MessageLog.AppendRefines | crates/msgdb/src/messages.rs:22-43 | Applying the batch of a new message to the byte map appends it to the log, and the batch touches no key that was there. |
| MessageLog.PutMergedRefines | crates/msgdb/src/messages.rs:171-174 | Writing a merged entry changes that entry of the merged view only. |
| MessageLog.PutLeaseRefines | crates/msgdb/src/sequence.rs:30-33 | Writing the lease changes nothing else. |
| MessageLog.LeaseReadBack | crates/msgdb/src/sequence.rs:23-30 | The lease is read back as it was written; without one, counting starts at 1. |
| MessageLog.ClearRefines | crates/msgdb/src/messages.rs:222-263 | The batch that clears a group turns the byte map into that of the log without the group's messages. |
| MessageLog.ClearKeepsOthers | crates/msgdb/src/messages.rs:222-263 | Messages of other conversations, their merged entries and inbox entries stay as they are. |
| MessageLog.ScanInbox | crates/msgdb/src/messages.rs:51-71 | The keys an inbox scan yields are, in order, those of the user's messages after the given id. |
| MessageLog.ScanGroup | crates/msgdb/src/messages.rs:145-165 | The same for a group's history before an id. |
| MessageLog.ScanDm | crates/msgdb/src/messages.rs:111-132 | The same for a direct conversation. |
| MessageLog.ScanMessagesAfter | crates/msgdb/src/messages.rs:84-99 | The same for all messages after an id. |
| MessageLog.ScanMessagesUpTo | crates/msgdb/src/messages.rs:194-209 | The same for all messages up to an id. |
| MessageDb.MsgDb.Open | crates/msgdb/src/db.rs:22-26 | Opening leases 32 ids from the persisted one on and fails exactly when the sequence entry is not eight bytes long. |
| MessageDb.MsgDb.Close | crates/msgdb/src/db.rs:15-19 | Closing writes the next unused id as the lease. |
| MessageDb.MsgDb.UpdateSequenceLease | crates/msgdb/src/sequence.rs:23-34 | The persisted lease is read and raised by 32. |
| MessageDb.MsgDb.GenerateId | crates/msgdb/src/sequence.rs:36-46 | Ids follow each other without a gap, also across a new lease; the persisted lease stays above every id handed out, and no message has the new one. |
| MessageDb.MsgDb.SendToGroup | crates/msgdb/src/messages.rs:16-31 | The log gains exactly this message under a fresh id; every entry stored before stays. |
| MessageDb.MsgDb.SendToDm | crates/msgdb/src/messages.rs:33-43 | The same for a direct message. |
| MessageDb.MsgDb.Get | crates/msgdb/src/messages.rs:12-14 | Returns the bytes of the message if it is stored. |
| MessageDb.MsgDb.FetchUserMessagesAfter | crates/msgdb/src/messages.rs:45-75 | Returns the newest `limit` messages of the inbox after the given id, oldest first. |
| MessageDb.MsgDb.FetchMessagesAfter | crates/msgdb/src/messages.rs:79-102 | Returns the oldest `limit` messages after the given id, oldest first. |
| MessageDb.MsgDb.FetchDmMessagesBefore | crates/msgdb/src/messages.rs:104-136 | Returns the newest `limit` messages of the conversation before the given id, oldest first. |
| MessageDb.MsgDb.FetchGroupMessagesBefore | crates/msgdb/src/messages.rs:138-169 | The same for a group. |
| MessageDb.MsgDb.FetchMessagesBeforeRev | crates/msgdb/src/messages.rs:189-211 | Returns the newest `limit` messages up to and including the given id, newest first. |
| MessageDb.MsgDb.CollectOwned | crates/msgdb/src/messages.rs:59-71 | The loop of the inbox and group scans; its two `break` branches are never taken. |
| MessageDb.MsgDb.CollectDirect | crates/msgdb/src/messages.rs:120-132 | The loop of the direct scan; its two `break` branches are never taken. |
| MessageDb.MsgDb.CollectForward | crates/msgdb/src/messages.rs:92-99 | The loop of the ascending scan; its `break` branch is never taken. |
| MessageDb.MsgDb.CollectBackward | crates/msgdb/src/messages.rs:202-209 | The loop of the descending scan; its `break` branch is never taken. |
| MessageDb.MsgDb.InsertMergedMsg | crates/msgdb/src/messages.rs:171-174 | Sets one entry of the merged view. |
| MessageDb.MsgDb.UpdateMergedMsg | crates/msgdb/src/messages.rs:176-181 | Changes an entry of the merged view if it is there and creates none. |
| MessageDb.MsgDb.RemoveMergedMsg | crates/msgdb/src/messages.rs:183-186 | Removes one entry of the merged view. |
| MessageDb.MsgDb.GetMergedMsg | crates/msgdb/src/messages.rs:213-219 | Returns an entry of the merged view if it is there. |
| MessageDb.MsgDb.GetMaxMsgId | crates/msgdb/src/db.rs:38-49 | Returns the greatest stored id, and none exactly when nothing is stored. |
| MessageDb.MsgDb.ClearGroupMessages | crates/msgdb/src/messages.rs:222-263 | Removes exactly the group's messages from all five indexes and returns their ids in ascending order. |
| MessageDb.MsgDb.ClearBatch | crates/msgdb/src/messages.rs:223-259 | The batch holds exactly the five kinds of keys of the group's messages. |
| Durability.RunSafe | crates/msgdb/src/sequence.rs:14-45 | In every reachable state of any run of open, generate, write, close and crash the invariant of leases and ids holds. |
| Durability.EveryCrashImageOpens | crates/msgdb/src/sequence.rs:14-34 | Whatever prefix of the writes a crash leaves, its lease exceeds every id in it. |
| Durability.NothingIsOverwritten | crates/msgdb/src/sequence.rs:36-45 | A message is only ever written under an id that no stored message has. |
| Durability.WasteIsBounded | crates/msgdb/src/sequence.rs:5-45 | After n ids and k crashes the next id is at most n + 32 k + 1. |
| Durability.WasteBoundIsTight | crates/msgdb/src/sequence.rs:5-45 | The bound is reached for every number n of ids and k of crashes. |
| Durability.FirstOpen | crates/msgdb/src/db.rs:22-26 | An empty disk opens as the machine starts, and counting begins at 1. |
| Durability.NoCrashNoWaste | crates/msgdb/src/db.rs:15-19 | Without a crash the ids are 1, 2, 3, ..., across clean closes and new leases. |
| Durability.OpenStep | crates/msgdb/src/db.rs:22-26 | Opening the database is the opening step of the machine of runs: same session, same content on disk. |
| Durability.GenerateStep | crates/msgdb/src/sequence.rs:36-46 | Handing out an id is its generating step, with and without a new lease. |
| Durability.CommitStep | crates/msgdb/src/messages.rs:16-31 | Sending to a group is its generating and its writing step. |
| Durability.CloseStep | crates/msgdb/src/db.rs:15-19 | Closing is its closing step. |
| Durability.IdsIncrease | crates/msgdb/src/sequence.rs:23-45 | If every crash leaves a lease above all ids issued, ids strictly increase over the life of the database. |
| Durability.DurableIdsIncrease | crates/msgdb/src/sequence.rs:23-45 | Crashes that lose no completed write leave such a lease. |
| Durability.LostLeaseReissues | crates/msgdb/src/sequence.rs:23-45 | A closed database without repeated ids can go on, without another crash, to issue some id twice exactly when its lease is not above every id issued. |
| Listing.AfterIsExact | crates/msgdb/src/messages.rs:51-56 | `after` means greater than it exactly for values of at least -1, or when there is nothing to miss. |
| Listing.BeforeIsExact | crates/msgdb/src/messages.rs:111-117 | `before` means less than it exactly for values of at least 0, or when there is nothing in excess. |
| Listing.WalkIsComplete | crates/msgdb/src/messages.rs:104-169 | Asking for page after page before the oldest message seen yields the whole history, every message once, in order. |
| Listing.GetFiles | src/api/admin_system.rs:552-660 | Returns the requested page of the files among all stored messages, newest first. |
| Listing.CollectFrom | src/api/admin_system.rs:569-585 | The cursor loop visits every stored message once, in descending order, and ends. |
| Listing.PagesConcatenate | src/api/admin_system.rs:649-655 | The pages put one after the other are the whole list. |
| Listing.PageIsExact | src/api/admin_system.rs:649-655 | A page is the requested slice exactly when its offset fits 64 bits, or both slices are empty. |
| Listing.PageClamps | src/api/admin_system.rs:563-564 | Page numbers begin at 1, and pages have at most 1000 files. |
| Subscription.CandidateMembers | src/api/user.rs:1944-1948 | A message is a candidate for the snapshot exactly when it is in the inbox after the given id and at most 5000 of those are as new. |
| Subscription.NewestMembers | src/api/user.rs:1938-1958 | The snapshot is ascending and holds exactly the candidates that can be decoded and whose group exists. |
| Subscription.FetchNewestMessages | src/api/user.rs:1938-1958 | The method over the byte store returns that snapshot. |
| Subscription.EventsLoop | src/api/user.rs:1977-2003 | The loop sends what the event-by-event description of its branches yields. |
| Subscription.FilterIsTransparent | src/api/user.rs:1986-1991 | The `push_start_id` check drops nothing exactly when the first message for the user lies above it. |
| Delivery.RunKeeps | src/api/user.rs:782-823 | Under every interleaving of senders, group changes and subscribers the invariant of ids, log, channel, lock and sessions is kept. |
| Delivery.OpenOk | src/api/user.rs:782-823 | A session that joins under the write guard meets it: nobody can be sending meanwhile. |
| Delivery.LiveIsExact | src/api/user.rs:1977-1996 | What a session has passed on is exactly the broadcasts for its user since it joined, in order, up to where it has read. |
| Delivery.StopsWhenLagging | src/server.rs:119 | A session goes on exactly while at most 128 events wait for it. |
| Delivery.SentIsRelayed | src/api/user.rs:1977-2003 | It is what the relay loop sends, started with the session's `push_start_id` on that part of the channel. |
| Delivery.NoDuplicates | src/api/user.rs:793-823 | No id occurs twice in what a session hands out, snapshot and live part together. |
| Delivery.Gapless | src/api/user.rs:782-823 | Of all messages broadcast for the user so far the session receives exactly those since it joined and those its snapshot is meant to show; an earlier one is missing from the store only if it was cleared. |
| Delivery.LogsAreConsecutive | src/api/user.rs:1997-2003 | The user-log rows a session passes on follow those present when it joined without a gap, and are all of them once it has read the whole channel. |
| Delivery.LogsComplete | src/api/user.rs:1737-1792 | Fetched and live rows together are all rows above the client's version exactly when that version is not ahead of the live rows. |
| Reconnect.ResumeMayLose | src/api/user.rs:793-794 | A client that leaves a session and comes back with the highest id it has received can, in some continuation, miss a stored message for it exactly when one with a lower id is stored and in the unread part of the channel, or still being sent. |
| Reconnect.MissedForGood | src/api/user.rs:793-823 | Such a message is never received: not in the session left, not in the new one, however the run goes on. |
| Reconnect.OvertakenIsMissed | src/api/user.rs:793-794 | A run from an empty server that gets there: ids 1 and 2 are taken, 2 is received, 1 is broadcast, the client comes back after 2 and never receives 1. |
| ClientView.FetchedAreNewer | src/api/user.rs:1737-1792 | The rows fetched for a version are those with higher numbers. |
| ClientView.ReceivedFollow | src/api/user.rs:1737-1792 | Fetched and live rows together follow the client's version without a gap. |
| ClientView.ClientIsCurrent | src/api/user.rs:1731-1816 | Replaying fetched and live rows on the snapshot of any earlier moment gives the view of the moment after the last row received: once the channel is read, the current one. |
| ClientView.LogStep | src/api/admin_user.rs:456-470 | A request broadcasts the row it writes, if any, under the next number, so the two logs stay in step. |
| ClientView.OtherStepsKeepLog | src/api/user.rs:1997-2003 | Nothing else that the server does touches the log. |
| Pinned.PinBoard.FirstGroupWith | src/server.rs:306-313 | The loop over the groups stops at the first, in ascending order, that has the message pinned. |
| Pinned.PinBoard.ProcessUpdate | src/server.rs:299-374 | Exactly that group's pin takes the new content, or goes if the message is gone, with its row unless deleting that fails; every pin keeps its row, and no row is left over without a failure. |
| Pinned.PinBoard.PinMessage | src/api/group.rs:1046-1115 | Answers with the handler's errors, in its order, or adds the row and the pin; a failing statement changes nothing. |
| Pinned.PinBoard.UnpinMessage | src/api/group.rs:1120-1179 | Answers with the handler's errors, in its order, or removes the row and the pin; a failing statement changes nothing. |
| Pinned.PinBoard.Clear | src/api/group.rs:383-468 | Messages go first; if the transaction fails then, pins and rows stay though the messages are gone. |
| Pinned.PinningIs | src/api/group.rs:1046-1099 | Pinning is for administrators and the owner, for a message that is there and not pinned in the group; the pin says who pinned it, when, and its content. |
| Pinned.UnpinningIs | src/api/group.rs:1120-1179 | The same right for unpinning and clearing, and what their errors mean. |
| Pinned.PlacedBehind | src/api/group.rs:1096-1099 | The new pin stands behind all that are not newer, the others stay in their order. |
| Pinned.RefreshKeeps | src/server.rs:319-356 | Lists stay free of duplicates and in order of time, every pin keeps its row, and deleting the row of a dropped pin leaves none over. |
| Pinned.WithPinKeeps | src/api/group.rs:1076-1099 | The same for adding a pin with its row. |
| Pinned.PlaceByTime | src/api/group.rs:1096-1099 | Appending and sorting by time keeps the list in order of time. |
| Pinned.PlaceDistinct | src/api/group.rs:1069-1099 | No message is pinned twice in one group. |
| Pinned.RefreshElements | src/server.rs:321-340 | After a refresh every pin is an old one of another message or carries the content read. |
| PinCoherence.WriteStep | src/api/message.rs:714-788 | What a sender does to the merged view and the queue is the machine's step: nothing for likes and withdrawals. |
| PinCoherence.UpdateStep | src/server.rs:299-374 | The updater's work on the groups is its step of the machine. |
| PinCoherence.PinStep | src/api/group.rs:1046-1115 | So is pinning. |
| PinCoherence.UnpinStep | src/api/group.rs:1120-1179 | So is unpinning. |
| PinCoherence.ClearStep | src/api/group.rs:383-468 | So is clearing that gets as far as the messages, whether the transaction fails then or not. |
| PinCoherence.GroupsComeAndGo | src/api/group.rs:185-361 | Groups come without pins and go with theirs, and nothing else changes then. |
| PinCoherence.UpdatedOnly | src/server.rs:305-369 | With no message pinned in two groups the updater changes the only group concerned. |
| PinCoherence.RunKeeps | src/server.rs:299-374 | Coherence is kept by every step of senders, updater and handlers, a half-failed clearing included, while no message is pinned in two groups. |
| PinCoherence.OutdatedPinsAreExpected | src/server.rs:299-374 | At any moment an outdated copy's id is queued, about to be queued, or in the updater's hand with the current content or unread. |
| PinCoherence.SettledPinsAreCurrent | src/server.rs:299-374 | When nothing is under way every pinned copy equals the merged message. |
| PinCoherence.EditReachesAllPins | src/server.rs:305-369 | After one edit is worked off, all copies carry it exactly when at most one group had the message pinned. |
| Groups.CreateKeeps | src/api/group.rs:139-220 | Creating a group keeps the invariant: private owners are members, members exist, public groups have no list, cache and tables agree. |
| Groups.DeleteKeeps | src/api/group.rs:333-361 | Deleting a group keeps it. |
| Groups.UpdateKeeps | src/api/group.rs:510-616 | Changing name, description or owner keeps it. |
| Groups.ChangeTypeKeeps | src/api/group.rs:619-775 | Changing between public and private keeps it; the foreign key guards the requested members. |
| Groups.LeaveKeeps | src/api/group.rs:779-820 | Leaving keeps it. |
| Groups.AddMembersKeeps | src/api/group.rs:855-905 | Adding members keeps it. |
| Groups.RemoveMembersKeeps | src/api/group.rs:928-976 | Removing members keeps it. |
| Groups.CreateUserKeeps | src/create_user.rs:112-229 | Creating a user keeps it. |
| Groups.DeleteUserKeeps | src/state.rs:1013-1081 | Deleting a user, with its cascades, keeps it. |
| Groups.RunKeeps | src/state.rs:55-73 | In every reachable state groups are safe and every cached group equals its rows, whichever requests failed. |
| Membership.PermittedIsGranted | src/api/group.rs:139-976 | A request goes through exactly when the user may make it and its values are possible: managing is for administrators and the owner, adding for members too, leaving for all but the owner. |
| Membership.ErrorsTell | src/api/group.rs:139-976 | Not found means that the group, user or member is missing, bad request that the request is wrong in itself. |
| Membership.MembersWereLetIn | src/api/group.rs:139-976 | In every run a user is a member of a private group, in cache and table, exactly when the last request that went through and concerned both let the user in. |
| Membership.GroupsWereFounded | src/api/group.rs:139-361 | A group is there exactly when it was founded and neither it nor its owner deleted since. |
| Membership.ValuesWereGiven | src/api/group.rs:510-775 | Name, description, kind and owner of a group, in cache and table, are those given last. |
| Membership.OthersStay | src/api/group.rs:139-976 | A request about one group leaves all other groups and all users as they are. |
| Groups.ReloadIsExact | src/state.rs:622-705 | Loading the groups from the tables rebuilds the cache exactly when no deleted owner has left rows behind. |
| Groups.ReloadIsSafe | src/state.rs:622-705 | Exactly then the loaded groups are safe. |
| Groups.OrphansGrow | src/state.rs:1020-1081 | Rows without a cached group come from deleting an owner and from nothing else, and stay. |
| GroupServer.InsertMembers | src/api/group.rs:191-198 | Rows are inserted one by one; a missing user, a missing group or a repeated pair fails the transaction. |
| GroupServer.DeleteMembers | src/api/group.rs:961-971 | Deletes exactly the listed pairs. |
| GroupServer.Server.AllKnown | src/api/group.rs:166-171 | The loop over the members answers whether all of them are users. |
| GroupServer.Server.Create | src/api/group.rs:139-220 | Ends in the error, the failure or the state that the request calls for, under a group id never used. |
| GroupServer.Server.Delete | src/api/group.rs:333-361 | Likewise. |
| GroupServer.Server.Update | src/api/group.rs:510-616 | Likewise. |
| GroupServer.Server.ChangeType | src/api/group.rs:619-775 | Likewise. |
| GroupServer.Server.Leave | src/api/group.rs:779-820 | Likewise; when it succeeds the user is a member no more, in cache and table. |
| GroupServer.Server.AddMembers | src/api/group.rs:855-905 | Likewise. |
| GroupServer.Server.RemoveMembers | src/api/group.rs:928-976 | Likewise; the first member that cannot be removed decides the error. |
| GroupServer.Server.CreateUser | src/create_user.rs:112-229 | Likewise, for the table and the cache of users. |
| GroupServer.Server.DeleteUser | src/state.rs:1013-1081 | Likewise. |
| GroupServer.Server.RemoveFromGroups | src/state.rs:1059-1081 | The two passes remove the user's own groups and the user from the other private groups. |
| GroupServer.LoadGroups | src/state.rs:622-705 | The two passes over the rows build the groups the tables describe. |
| UserLog.SelfUpdateExplained | src/api/user.rs:538-568 | A user's change of its own data is reproduced by the log exactly when the logging condition holds, the user is a guest, or nothing changed. |
| UserLog.CreateExplained | src/create_user.rs:172-192 | Replaying the row of a creation gives the new view. |
| UserLog.ChangeExplained | src/api/admin_user.rs:397-440 | Replaying the row of a change gives the changed view; for users not in the view it does nothing. |
| UserLog.DeleteExplained | src/state.rs:1020-1050 | Replaying the row of a deletion gives the view without the user. |
| UserLog.RequestExplained | src/api/admin_user.rs:260-474 | The rows a request adds turn the old view into the new one, unless it is an unlogged self-update. |
| UserLog.ReplayIsCurrent | src/api/user.rs:1731-1816 | Replaying all rows above the version of a snapshot gives the current one if the changes since then left the log complete. |
| LogGaps.ReplayIsCurrentExactly | src/api/user.rs:538-568 | Replaying all rows above the version of a snapshot gives the current one exactly when everyone's gender and language have the value with which they were last logged, or that of the snapshot if they were not logged since. |
| LogGaps.UserIsCurrent | src/api/user.rs:538-568 | For one user what a client has is the truth exactly when both fields are as they were last logged. |
| UserLog.NamesAndEmailsUnique | src/state.rs:351-366 | In every reachable state names and addresses differ between users, whatever the case of their letters. |
| UserLog.VersionKept | src/api/user.rs:1795-1812 | As soon as there is a user to show there is a log row, so the version of a snapshot exists. |
| UserLog.OrderlyKept | src/state.rs:351-366 | Every request, refused, failed or granted, keeps ids fresh, names and addresses distinct and the version in place. |
| Accounts.FoldIgnoresCase | src/state.rs:351-366 | Names and addresses count as equal exactly when their letters are, but for ASCII case. |
| Accounts.PermittedIsGranted | src/api/admin_user.rs:260-316 | A request goes through exactly when the token allows it, the user is there and names and addresses are free. |
| Accounts.AnswersTell | src/api/admin_user.rs:260-316 | What each answer means; forbidden is told exactly to those who may not ask. |
| Accounts.ChangesAreEntitled | src/api/admin_user.rs:267-285 | In every run, whenever a field of a user changes, the request carries the token of an administrator, or the user's own, and then it is neither address, rights nor status. |
| Accounts.ValuesWereGiven | src/api/admin_user.rs:340-440 | In every run each field of profile and account has the value given last by a request that went through. |
| Accounts.UsersWereCreated | src/create_user.rs:112-229 | A user is there exactly when created and not deleted since. |
| Accounts.RowOfOne | src/api/admin_user.rs:397-440 | A request writes at most one log row, about the user concerned, with exactly the values given; which write none. |
| Accounts.AvatarOfOne | src/api/user.rs:594-648 | The file of an accepted picture is that of the user concerned, even if the transaction fails then; no other file changes. |
| UserLog.FetchUserLog | src/api/user.rs:1731-1816 | Returns the rows above the version, numbered, or the snapshot and its version. |
| UserLog.UserServer.CreateUser | src/create_user.rs:112-229 | Ends in the error or the state that the request calls for, and keeps the invariant. |
| UserLog.UserServer.UpdateUser | src/api/user.rs:480-567 | Likewise, with the logging condition as it stands. |
| UserLog.UserServer.SetAvatar | src/api/user.rs:594-648 | Likewise, with unreadable, too large and undecodable pictures; the file is written before the transaction, so it stays when that fails. |
| UserLog.UserServer.SaveAvatar | src/state.rs:874-882 | Refuses in the handler's order or writes the file. |
| UserLog.UserServer.CheckAdminUpdate | src/api/admin_user.rs:267-316 | The checks answer in the order of the handler; others than administrators pass them only for themselves, and with neither rights, address nor status. |
| UserLog.UserServer.UpdateByAdmin | src/api/admin_user.rs:260-474 | Likewise, with password, status and webhook address, which are changed and not logged; only for administrators or the users themselves. |
| UserLog.UserServer.SetAvatarByAdmin | src/api/admin_user.rs:477-556 | Likewise. |
| UserLog.UserServer.RemoveUser | src/state.rs:1013-1050 | Likewise. |
| MergedView.ViewMembers | src/api/message.rs:714-775 | The view holds a message exactly when it took it in with content and has not cleared it since; reactions create nothing. |
| MergedView.ViewContent | src/api/message.rs:714-775 | It shows the content of the last edit taken in, or the original, with author, target and time as first sent. |
| MergedView.ShownIsLastTakenIn | src/api/message.rs:714-775 | An edit, the last stored one for instance, is what the view shows exactly when it was taken in after its message and after every other edit taken in. |
| MergedView.InOrderShowsTheLast | src/api/message.rs:714-775 | If messages are taken in as they are stored, the last stored edit is shown. |
| MergedView.OvertakingEditIsLost | src/api/message.rs:686-752 | A checked run in which an edit is stored and taken in between the storing and the taking in of its message: the view goes on showing the original. |
| MergedView.EditsAreByTheAuthor | src/api/message.rs:156-174 | A stored edit that passed the check is by the author of an earlier stored message with content. |
| MergedView.ViewShowsTheAuthor | src/api/message.rs:156-174 | What the view shows was written by the author it shows. |
| Sending.UpdateMerged | src/api/message.rs:714-775 | The bytes of the merged view take in a stored message, whatever others did since it was stored, and the right id is queued. |
| Sending.StoreMessage | src/api/message.rs:684-711 | The message is stored for its targets under a fresh id, and the merged view does not know of it yet. |
| Sending.InternalSendMessage | src/api/message.rs:679-790 | The message is stored and taken in, and broadcast to those for whom it was stored with the bytes that were stored. |
| Sending.SendStep | src/api/message.rs:679-790 | This is what the steps of one sender do in `Delivery`: to the log, the ids and the channel. |
| Delivery.WholeSendDone | src/api/message.rs:679-790 | Those steps, one after the other, store and broadcast one message and leave nothing else changed. |
| Sending.EditWhileSending | src/api/message.rs:684-775 | The losing race through the handlers themselves, down to the bytes of the merged view. |
| Sending.SendMessage | src/api/message.rs:792-983 | Answers unauthorized, forbidden or not found exactly when the sender is unknown, barred, or group or receiver are missing; otherwise the inboxes of exactly those who receive the message gain it, they get the broadcast, and no other inbox changes. |
| Sending.RouteIs | src/api/message.rs:837-932 | The answer in terms of the directory, and for whom a message is stored: both sides, the members of a private group, or all users. |
| Sending.StampIsRight | src/api/message.rs:795-810 | A new message disappears when its sender has set that for this user or group, and else never; nothing else of it changes. |
| Sending.ReactionIs | src/api/message_api.rs:178-207 | A reaction goes through exactly when its message has content and may be edited, liked or withdrawn by this user, and the reaction may be sent to the other side or the group. |
| Sending.ReplyIs | src/api/message_api.rs:103-162 | The same for a reply, for which one must take part in the conversation. |
| Sending.ClearStep | src/api/group.rs:409-414 | Clearing a group in the store is the step of `Delivery`. |
| Sending.JoinStep | src/api/user.rs:782-823 | What a new session is given is the step of `Delivery` that takes its snapshot. |
| Inboxes.SendStep | src/api/message.rs:792-983 | Sending, refused or not, is a step of the runs of `Inboxes`. |
| Inboxes.ClearStep | src/api/group.rs:409-414 | So is clearing a group. |
| Inboxes.SentIsStored | src/api/message.rs:912-970 | What was sent and not cleared since is in the store, in its conversation and for exactly those whom it was for. |
| Inboxes.InboxIsWhatWasSent | src/api/message.rs:912-970 | After any run a message is in an inbox exactly when it was sent to a conversation of which this user was a part at that moment, and its group was not cleared since. |
| Inboxes.FetchReceived | crates/msgdb/src/messages.rs:45-75 | What a user fetches was sent while the user was one of the two, a member of the private group, or a user at all. |
| Sending.ReactionStaysInConversation | src/api/message_api.rs:165-176 | A reaction goes to the conversation of its message exactly when that is a group's or the one who reacts takes part in it. |
| Sending.DoReaction | src/api/message_api.rs:178-207 | Refuses as the handler does, or the history gains the reaction. |
| Sending.ReplyTo | src/api/message_api.rs:103-162 | The same for a reply. |
| Sending.ReactionsAreChecked | src/api/message_api.rs:178-207 | Every reaction that goes through keeps the history checked, even if others come between its check and its storing. |
| Sending.ClearGroup | src/api/group.rs:409-414 | Clearing a group removes its messages from log and merged view alike and returns exactly them. |
| CanonicalJson.ReadBack | src/api/matrix/e2ee/server_olm_account.rs:384-436 | A printed value, nulls included, in front of what may follow it is read back as itself, the rest untouched. |
| CanonicalJson.PrintReadBack | src/api/matrix/e2ee/server_olm_account.rs:377-436 | Reading the canonical text gives the value back up to the order of keys and to arrays of one null. |
| CanonicalJson.SameText | src/api/matrix/e2ee/server_olm_account.rs:377-436 | Without quotes in keys, texts are equal exactly when the values are equal up to the order of keys and to arrays of one null, which print as the empty array. |
| CanonicalJson.Unambiguous | src/api/matrix/e2ee/server_olm_account.rs:377-436 | Without nulls and quotes in keys, texts are equal exactly when the values are equal up to the order of keys. |
| CanonicalJson.ConfusedExactly | src/api/matrix/e2ee/server_olm_account.rs:401-408 | Among documents without quotes in keys, exactly those with an empty array or an array of one null share their text with another. |
| CanonicalJson.OrderDoesNotMatter | src/api/matrix/e2ee/server_olm_account.rs:388-389 | The order in which entries were inserted does not change the text. |
| CanonicalJson.KeyLessByCharacters | src/api/matrix/e2ee/server_olm_account.rs:389 | One key stands before another exactly when it is a proper beginning of it, or its character is the smaller one where they first differ. |
| CanonicalJson.CanonInOrder | src/api/matrix/e2ee/server_olm_account.rs:387-398 | In every object that is printed, at every depth, each key precedes all later ones in that order. |
| CanonicalJson.PrintIsCanonical | src/api/matrix/e2ee/server_olm_account.rs:377-436 | What is read back from the canonical text has its keys in order at every depth and is the value. |
| CanonicalJson.EscapedCharacters | src/api/matrix/e2ee/server_olm_account.rs:412-419 | Exactly backslash, quote, line feed, carriage return and tab are escaped, as the letters of JSON. |
| CanonicalJson.QuoteInKeyIsAmbiguous | src/api/matrix/e2ee/server_olm_account.rs:388-398 | Every object of at least two entries, whatever their values, has the text of an object with one entry less, whose key has quotes in it. |
| CanonicalJson.CrowdedOrHollowIsConfused | src/api/matrix/e2ee/server_olm_account.rs:384-436 | If keys may have quotes, every document shares its text with another in which somewhere an object has two entries, or an array is empty or consists of one null. |
| CanonicalJson.CanonicalJson | src/api/matrix/e2ee/server_olm_account.rs:377-382 | The printer returns a text from which the value can be read back with the keys of every object, at every depth, in the order of their characters; without quotes in keys reading it gives exactly that. |
| CanonicalJson.Canonicalize | src/api/matrix/e2ee/server_olm_account.rs:384-436 | It appends that text to the buffer, by loops over entries, items and characters. |
| CanonicalJson.PushText | src/api/matrix/e2ee/server_olm_account.rs:409-423 | The loop over the characters appends the escaped string in quotes. |
| CanonicalJson.CanonicalizeArray | src/api/matrix/e2ee/server_olm_account.rs:400-408 | The loop over the items appends them between brackets, separated by commas. |
| CanonicalJson.CanonicalizeObject | src/api/matrix/e2ee/server_olm_account.rs:386-399 | The loop over the entries sorted by key appends them between braces. |
| RoomIds.IntRoundTrip | src/api/matrix/rooms.rs:738-747 | A printed integer parses to itself. |
| RoomIds.ParsePrint | src/api/matrix/rooms.rs:738-747 | A parsed integer prints as it was written exactly when it was written canonically. |
| RoomIds.DirectRoundTrip | src/api/matrix/rooms.rs:697-755 | The id of a direct room leads the bot back to the other user and is refused for anybody else. |
| RoomIds.GroupRoundTrip | src/api/matrix/rooms.rs:703-770 | The id of a group room leads back to the group. |
| RoomIds.RoomIdsAreUnique | src/api/matrix/rooms.rs:697-708 | Room ids are equal exactly for equal conversations; a direct one never equals a group's. |
| RoomIds.AcceptedDirectRoom | src/api/matrix/rooms.rs:719-755 | An accepted direct room id has two numbers and is the printed one exactly when both are written canonically. |
| RoomIds.OrderedRoomWorks | src/api/matrix/sync.rs:146-156 | The room id listed for a bot's contact works for the bot exactly when the contact's id is not above the bot's. |
| MatrixSync.ForSomeBotIsPasses | src/api/matrix/sync.rs:429-446 | A message yields an event exactly when it is recent, has content and is addressed to some bot by somebody else. |
| MatrixSync.FetchBotMessages | src/api/matrix/sync.rs:387-457 | Returns the events of the first 1000 messages after the given id: each tells author, time, content, sender name and room of its message, and up to the last event exactly the messages for a bot that are young enough have one. |
| MatrixSync.EventStandsFor | src/api/matrix/sync.rs:459-540 | An event stands for a stored message for a bot by somebody else and names its author, content and time; its room leads the bot back to the author, or everybody to the group. |
| MatrixSync.FetchedIsAccurate | src/api/matrix/sync.rs:387-540 | So it is for all events of an answer, and up to the last of them no message that is due is left out. |
| MatrixSync.TryBots | src/api/matrix/sync.rs:430-445 | The inner loop stops at the first bot that matches. |
| MatrixSync.FetchedAscends | src/api/matrix/sync.rs:454-455 | The events are ascending and without duplicates, so sorting and dropping duplicates changes nothing. |
| MatrixSync.FetchedIsComplete | src/api/matrix/sync.rs:387-457 | Every message stored between the given id and the last event is returned exactly when it is wanted. |
| MatrixSync.NothingFetched | src/api/matrix/sync.rs:405-445 | Nothing is returned exactly when none of the first 1000 messages is wanted, whatever lies behind them. |
| MatrixSync.TokenRoundTrip | src/api/matrix/sync.rs:268-277 | A token handed out is read back, but never beyond what the cache has seen. |
| MatrixSync.BotCache.Begin | src/api/matrix/sync.rs:255-279 | A request reads the maximum once and starts at its token, however the number in it is written, but not beyond the maximum; without a readable token it starts there. |
| MatrixSync.BotCache.Poll | src/api/matrix/sync.rs:326-372 | One pass of the polling loop with that maximum: the messages, the next token and the new cached maximum. |
| SyncChain.NoRepeats | src/api/matrix/sync.rs:268-372 | A chain of syncs delivers no message twice, in the order of ids. |
| SyncChain.WhatIsMissed | src/api/matrix/sync.rs:355-364 | Every id between first and current token falls into exactly one answer, which delivered it exactly when it was stored and wanted then. |
| SyncReach.InFlightIsLost | src/api/matrix/sync.rs:268-457 | The message of an id still in flight is delivered in some continuation, time not going back, exactly when the client's token is at least -1 and a way leads to the id: stops at ids in flight and at messages some sync can want that are young enough now, by the limit for the token they are fetched with, and fewer than 1000 messages that cannot be cleared away between one and the next. |
| SyncReach.WantableExactly | src/api/matrix/sync.rs:459-520 | A message can be wanted from a moment on, for some bots and groups, exactly when it has content, is not from a user to itself and is young enough at that moment. |
| SyncReach.RowReached | src/api/matrix/sync.rs:403-408 | A scan reaches a stored message exactly when fewer than 1000 are stored between its start and it. |
| SyncReach.WallBlocks | src/api/matrix/sync.rs:388-445 | Over 1000 direct messages in a row that no sync from there can want, or can want any more, no way leads: what is behind them is never delivered. |
| SyncReach.WallsDecide | src/api/matrix/sync.rs:403-445 | If no group message in between can be wanted, a way leads to an id exactly when there is no such wall. |
| SyncReach.SparseIsBridged | src/api/matrix/sync.rs:403-445 | Without such walls among the direct messages there is always a way, groups being cleared first. |
| SyncReach.FewAreBridged | src/api/matrix/sync.rs:403-445 | With fewer than 1000 direct messages in between there is always a way. |
| SyncReach.ChatterBlocks | src/api/matrix/sync.rs:388-445 | A run from an empty store: after k direct messages that no first sync can want, or that are over 30 seconds old, the next id can be delivered exactly when k is less than 1000. |
| SyncChain.PassedIsOver | src/api/matrix/sync.rs:268-364 | An id that client and cache have passed undelivered is never delivered. |
| SyncChain.OvertakenIsLost | src/api/matrix/sync.rs:355-364 | A run from an empty store: ids 1 and 2 are taken, 2 is stored and delivered, 1 is stored then, wanted as much, and delivered by no further sync. |
| SyncChain.StoreStep | crates/msgdb/src/messages.rs:16-31 | Sending to a group is the steps of taking an id and storing. |
| SyncChain.ClearStep | crates/msgdb/src/messages.rs:222-263 | Clearing a group is the machine's step. |
| SyncChain.OtherStep | src/api/matrix/sync.rs:326-372 | A pass of another client's polling loop is the machine's step. |
| SyncChain.BeginStep | src/api/matrix/sync.rs:255-279 | Beginning a request is the machine's step. |
| SyncChain.PollStep | src/api/matrix/sync.rs:326-372 | One pass of the polling loop is the machine's step. |
| SyncResponse.BuildSyncResponse | src/api/matrix/sync.rs:741-842 | Every message stands once in its room, in order; a text is tied to the latest media message of its room and sender if within 60 seconds, and to nothing else. |
| Archive.CreateArchive | src/api/archive.rs:62-218 | Packs the messages in the order of their ids, each with its source, properties and content, or answers with the first problem. |
| Archive.ProblemIs | src/api/archive.rs:62-218 | Only administrators and those who take part may pack a message; its author must be known and it must be a text or a file. |
| Archive.FirstProblemIs | src/api/archive.rs:62-218 | The error is that of the first id, in order, with a problem. |
| Archive.PackedFilesAre | src/api/archive.rs:118-190 | A packed file has the bytes on the disk, or none, and type and name of its description, or octet-stream; an avatar is a picture. |
| Archive.EveryFileIsReferencedOnce | src/api/archive.rs:113-217 | Every attachment number is used by exactly one avatar, file or thumbnail. |
| Archive.InternUser | src/api/archive.rs:113-138 | Each author is numbered once, with name and avatar. |
| Archive.AddFiles | src/api/archive.rs:156-196 | A file and its thumbnail take the next numbers. |
| Archive.AddMessage | src/api/archive.rs:84-214 | Adding a message renumbers nothing and refers to its author and files. |
| Archive.SoundGrows | src/api/archive.rs:84-214 | The archive stays sound with every message. |
| Archive.SortMids | src/api/archive.rs:82 | The ids are put in ascending order, repeated ones kept. |
| AuthLimiter.AuthFailureCache.IsBlocked | src/api/matrix/auth.rs:93-103 | True exactly while the client's block lasts. |
| AuthLimiter.AuthFailureCache.RemainingBlockTime | src/api/matrix/auth.rs:105-116 | The whole seconds left of the block. |
| AuthLimiter.AuthFailureCache.RecordFailure | src/api/matrix/auth.rs:118-150 | Counts one failure of this client, starting afresh after the window, and blocks at the fifth. |
| AuthLimiter.AuthFailureCache.ValidateToken | src/api/matrix/auth.rs:282-332 | Refuses while blocked without recording; records a failure for an unknown token; forgets all failures for a known one. |
| AuthLimiter.CountIsBounded | src/api/matrix/auth.rs:118-150 | One at a time, the count never exceeds five, and five mean a block of two minutes. |
| AuthLimiter.FailuresAreBounded | src/api/matrix/auth.rs:282-332 | From the first to the last recording, T milliseconds apart, at most 5 * (T / 61000 + 1) failures are recorded, each attempt having an instant of its check and a later one of its recording. |
| AuthLimiter.CountsTheWindow | src/api/matrix/auth.rs:282-332 | The count is that of the failures since the one that began the window, all within 61 seconds of it; a window begins exactly when the last is over; five in one block for two minutes from the last. |
| AuthLimiter.OverlappingCountIsBounded | src/api/matrix/auth.rs:286-322 | With c attempts at a time the count never exceeds 4 + c. |
| AuthLimiter.OverlappingBoundIsReached | src/api/matrix/auth.rs:286-322 | With c attempts at a time a count of 4 + c does occur. |
| AuthLimiter.BlockIsCutShort | src/api/matrix/auth.rs:118-150 | Along any run a block is cut short exactly when, before it is over, a success is written down or a failure more than a minute after the first of its window. |
| AuthLimiter.BlockMayEndEarly | src/api/matrix/auth.rs:286-322 | Failures alone can cut a block short exactly when an attempt that passed the check before is still under way. |
| AuthLimiter.BlockLiftedAfterAMinute | src/api/matrix/auth.rs:118-150 | A run that gets there with two attempts at a time: blocked for two minutes, let in after 61 seconds. |

## Left out

- MessageDb.MsgDb.GenerateId: requires `next` to be at most 2^63 - 65, because behind that the lease itself would overflow; so do SendToGroup, SendToDm, Open and the steps of Durability.
- MessageDb.MsgDb.Open: requires, apart from a malformed sequence entry, an image whose lease covers its messages, as Durability.EveryCrashImageOpens shows for every crash; images damaged in other ways are not covered.
- MessageDb.MsgDb.FetchMessagesAfter: `id + 1` wraps at the greatest 64-bit integer as in a release build; a debug build stops there.
- MessageDb.MsgDb.Close: an error while the lease is written is ignored by the code and not modelled.
- Durability: the store is assumed to keep a prefix of its writes in a crash and a batch whole.
- Delivery: requests run to their end; a cancelled request gives its guard back while its work goes on, which is not modelled.
- Delivery.LiveIsExact: how far a session has read is up to the schedule; it stops for good when it lags behind the channel by more than 128 events or is told to.
- Subscription.EventsLoop: only the chat and user-log branches are told apart, the other events are one kind; kicks and heartbeats are left out.
- PinCoherence: failed reads of the merged view are left out; a pin or unpin that fails changes nothing and is no step; the pin rows in SQL are in Pinned.
- Pinned.PinBoard: rows are a set without their own ids; the groups are values in a map, so updating a group in place is modelled as replacing it; the same holds for users and groups elsewhere.
- GroupServer: a statement that fails rolls its transaction back and comes before the cache is touched, so a failure is one parameter for the whole request; the broadcasts of the group handlers are left out, and so are avatars, announcements, dates and guests' permissions to create.
- GroupServer: when a user is deleted, the clean-up of read markers, mutes and pinned chats is left out; SQL and cache do not agree on all of these.
- Groups.ReloadIsExact: the pinned messages of a loaded group are left out, since the query for them binds no group.
- UserLog.UserServer: passwords are those after hashing, whether a webhook address answers and a picture can be decoded and written are parameters; ending the sessions of frozen users is left out.
- Accounts.AnswersTell: says exactly when a request is forbidden, and of the other answers what they imply; which of several reasons is told first is the contract of the handlers.
- Accounts: creating and deleting users carries no token; who may call these is left out.
- UserLog: the avatar upload inside the creation and the reading of a random name are left out.
- Sending.SendMessage: notification texts are reduced to whether there is one; mentions and links in content are left out.
- Sending.InternalSendMessage: payloads are encoded by a codec of which only the inverse law is assumed; failures of the store between storing and taking in are left out.
- MatrixSync: waiting between polls and the deadline are left out; the store does not change within one poll, but does between the polls of SyncChain.
- SyncChain: a rebuilt bot cache may set the cached maximum back, after which messages can be delivered again, or forward; the chain is proved without one.
- SyncReach: bots and group members may be anything at each poll; passes are taken in the order of the moments they read; clearing a group is the only removal.
- SyncResponse.BuildSyncResponse: device lists, key counts and the text of the JSON answer are left out; content stays as it is in the payload.
- RoomIds: domains are arbitrary strings; the escaping of room ids in paths is left out.
- CanonicalJson.CrowdedOrHollowIsConfused: states when documents with quotes in keys must share their text; which of those without two entries in an object and without empty arrays do so as well is left open.
- CanonicalJson: numbers are compared as the digits that are printed.
- Archive.CreateArchive: reading directories is a lookup; writing the zip file is left out.
- AuthLimiter.AuthFailureCache.ValidateToken: the search for the owner of a token is a parameter, and the derivation of the client's key from headers is left out.
- Bot presence timers, per-device online state, mute expiry, contacts, one-time keys, refresh tokens, HTTP, configuration, file and image handling, and foreign cryptography.
