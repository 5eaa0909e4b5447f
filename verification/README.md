# Verified model of the Google Messages daemon

A Dafny model of the in-memory state machines of `gmessagesd` and of the panel that mirrors it, with proofs about
every run. The daemon keeps a map of conversations next to a served order that only some writers rebuild; a capped
cache of attachment routes with single-flight downloads and a size-bounded directory; a second capped map of
reactions that drives a toggle; a pairing and session machine fed by the phone and by Google; lossy event channels;
and two cookie codecs. The panel (`GmClient.qml`) keeps its own list by merging one pushed conversation at a time.

Each area has two layers. A state on values with a `Step` (or `Record`, `Sweep`, `Trim`) says what one handler does,
and lemmas about all sequences of steps state what the system keeps. Classes with the source's own fields then
implement the handlers in place; their handler methods are proved to take exactly the step the value layer describes
(`Model() == Step(old(Model()), op)`, or `State()` for the caches and the event channels), so the lemmas hold of the
objects.

| file | covers |
|---|---|
| `ConversationOrder.dfy`, `ConversationIndex.dfy` | the served order, its uniqueness, and the writers that do or do not rebuild it |
| `ClientReplica.dfy`, `PanelFollowing.dfy`, `PanelClient.dfy` | the panel's merge, how far its list agrees with the daemon's, and its table of pending callbacks |
| `AttachmentCache.dfy`, `SliceQueue.dfy` | recording attachments, the capped queue over a slice, full-size requests |
| `SingleFlight.dfy` | the table of downloads that concurrent requests share, step by step |
| `MediaCalls.dfy`, `MediaHandouts.dfy` | whole calls with their files, in every interleaving: lookups, openings, completions, wake-ups, and what callers end up with |
| `Pictures.dfy` | conversation pictures and their files |
| `MediaRoutes.dfy`, `CachePruning.dfy`, `BoundedDownload.dfy` | routes, file names and failed writes, eviction, bounded reads |
| `Reactions.dfy` | reaction records, their eviction, the add / remove / switch toggle |
| `EventFanout.dfy` | subscribers, publishing, lossy channels |
| `Lifecycle.dfy`, `SessionFile.dfy`, `DaemonObject.dfy` | pairing and status; the session file and media directory over runs with restarts; the daemon object with its handlers |
| `AuthRetry.dfy`, `BrowserPairing.dfy` | throttles, retried calls, choosing a browser profile, pairing and recovering from it |
| `CookieHeader.dfy`, `CookieDecryption.dfy` | the cookie header parser and the stored-cookie decoder, with their inverses |
| `Sequences.dfy`, `ByteStrings.dfy` | shared helpers |

What the obvious claims turned out to be:

- The panel follows the daemon's list only while no two conversations tie on pin and timestamp: its comparator has
  no identifier tie-break (`MergeForcedIffNoTies`). With a stable sort it follows exactly when the merge finds every
  tie already in identifier order (`StableMergeFollowsIff`, `AppendedTieStaysBehind`).
- A panel that connects while more than 50 conversations are known begins with the served part only. It then follows
  exactly as long as everything served was there at the start or pushed since (`PanelFollowsDaemon`,
  `ReconnectedPanelFollowsIff`); one that drops out of the served order reveals another it never hears of
  (`RevealedGoesUnseen`).
- After a wholesale replacement, of any size, the panel agrees only if everything it had is still being served
  (`ReplacementFollowedIffStillServed`), and an unpair it does not notice at all (`ForgettingGoesUnnoticed`).
- A handle published with a message can already be forgotten when the message was recorded: seeing a key again does
  not move it back in the queue (`PublishedKeyResolvesIff`, `SeenAgainFromTheStart`).
- Marks of full-size requests can outlive their key (`MarksWithinKeys`, `MarkOutlivesKey`).
- Clearing a message's reactions leaves its queue entry, which can evict the record stored next
  (`JustRecordedIsLostIff`, `ReaddedAfterClearIsLost`). The toggle sends the right request exactly when it knows the
  reaction held, or knows another one and a third is tapped (`ActionRightIff`); a record lost that way or pushed out
  by another message makes it add where it should remove or switch (`TapAfterRecordingRightIff`,
  `TapAfterEvictionRightIff`, `LostRecordMisleads`).
- Unpairing leaves `paired` set, so any later save brings the session back, and the next start is paired again
  (`UnpairStaysGoneIff`, `UnpairedDeviceComesBack`). The comment on `Unpair` promises that it clears the local
  credentials; the model follows the code.
- A logout ignores a failed removal: the file is gone until the next pairing exactly when it was removed or there was
  none, and otherwise the next start is paired again if the file is usable (`LogoutStaysOutIff`,
  `FailedLogoutComesBackIff`).
- A session clear removes the media directory, which only a process start creates: paired again in the same process,
  the daemon cannot write a single attachment (`DownloadWrittenIff`, `PairedAgainWithoutCache`).
- A cached file is whole exactly when no call is writing it and the last write was not cut short (`WholeIff`). The
  lookup comes before the table of downloads is consulted, so a run without any failure answers a call with a file
  still being written (`AnsweredBeforeWhole`), and a call that looked too early empties a file already handed out
  (`HandedOutStaysIff`, `HandedOutThenEmptied`). After a write cut short the waiting calls are answered with what is
  left of it (`WaiterGetsCutFile`).
- A picture whose file a session clear or a trim deleted stays named by its conversation, and is not fetched again
  (`PictureHasFileIff`).
- The pairing emoji is the one status field a late callback can show in any state (`EmojiFitsIffNotLate`,
  `EmojiWhileConnected`).

## Model

| member | source | states |
|---|---|---|
| ConversationOrder.BeforeTotal | internal/daemon/daemon.go:479-488 | the served order decides between any two identifiers and never both ways |
| ConversationOrder.BeforeTransitive | internal/daemon/daemon.go:479-488 | the served order is transitive, so with totality a strict total order |
| ConversationOrder.BeforeReads | internal/daemon/daemon.go:479-488 | pinned before unpinned, then newer before older, then the identifier first in lexicographic order, and nothing else decides |
| ConversationOrder.RankingUnique | internal/daemon/daemon.go:474-493 | only one list ranks a map, whatever the map's iteration order or the sort did |
| ConversationOrder.IndexIsTopIds | internal/daemon/daemon.go:474-493 | a list is the best-ranked min(50, n) of the map, with every omitted conversation ranked below every served one, if and only if it is the rebuilt order |
| ConversationOrder.TopIdsIgnoresOtherFields | internal/daemon/methods.go:162-166 | a write that leaves identifier, pin and timestamp alone needs no rebuild |
| ConversationIndex.StepKeepsValid | internal/daemon/daemon.go:407-501 | each writer keeps order and map in agreement, and every landed picture on its conversation, including the three that skip the rebuild |
| ConversationIndex.ServedOrderIsAlwaysTheIndex | internal/daemon/daemon.go:407-501 | after any run of replace, upsert, touch, mark-read, avatar patch and unpair the order is duplicate-free and exactly the first min(50, n) of the map |
| ConversationIndex.OrderDependsOnMapAlone | internal/daemon/daemon.go:474-493 | two histories that end in the same map end in the same order |
| ConversationIndex.NewestMessageShows | internal/daemon/daemon.go:405-427 | however messages arrive, a conversation ends up with the time and sender side of the newest, the text or "Attachment" of the last one timely on arrival that has either, unread if and only if it was or a timely one came from someone else; older ones change nothing |
| ConversationIndex.FromListTakesTheLast | internal/daemon/daemon.go:436-448 | a replacement knows exactly the identifiers of its list, each by its last entry, unchanged but for the cached picture or none |
| ConversationIndex.UpsertStores | internal/daemon/daemon.go:460-471 | an upsert stores the conversation unchanged but for the cached picture or none, and touches no other entry |
| ConversationIndex.ReplacementStores | internal/daemon/daemon.go:434-455 | a replacement leaves exactly its list in the map, last entries winning, and the pictures as they were |
| ConversationIndex.TouchStores | internal/daemon/daemon.go:407-427 | what one message does to its conversation, field by field, and that an out-of-date one does nothing |
| ConversationIndex.MarkReadClears | internal/daemon/methods.go:162-166 | the flag ends cleared, every other field and entry stays |
| ConversationIndex.LandingShows | internal/daemon/avatars.go:117-125 | the picture is remembered and shown, every other field and entry stays |
| ConversationIndex.WritersPush | internal/daemon/daemon.go:405-471 | each writer of one known conversation pushes it as it then is, an out-of-date message included, and pushes nothing of an unknown one |
| ConversationIndex.TouchesReachTheMap | internal/daemon/daemon.go:407-432 | delivering messages changes that conversation's entry accordingly and no other entry |
| ClientReplica.MergesFollow | GmClient.qml:204-218 | whatever a sort does with ties, merging unambiguous events keeps the panel's list a full ranked copy of the map they amount to |
| PanelFollowing.PanelShowsWhatItKnows | GmClient.qml:202-218 | over any run of any writers without ties, the panel shows exactly what it began with, with every pushed conversation laid over it, ranked |
| PanelFollowing.PanelFollowsDaemon | GmClient.qml:202-218 | a panel that began with any part of the map, after any run of single-conversation writers: the served list heads the panel's list, or is it, if and only if the conversations served are among, or are, those begun with and those pushed since; from the whole map it shows the whole map |
| PanelFollowing.ReconnectedPanelFollowsIff | GmClient.qml:60-64 | from a fresh listing of the served conversations: what is served later heads the list if and only if each was served at the start or pushed since |
| PanelFollowing.RevealedGoesUnseen | GmClient.qml:60-64 | when an update drops a conversation out of a full served order, the panel of such a connection misses the one that moves in |
| ClientReplica.MergeForcedIffNoTies | GmClient.qml:204-218 | merging one event into the ranked list can come out only one way, the daemon's, if and only if no two conversations then share pin and timestamp |
| ClientReplica.OrderForcedIffNoTies | GmClient.qml:212-215 | the panel's sort of a ranked list has one possible outcome if and only if no two conversations share pin and timestamp |
| ClientReplica.StableMergeFollowsIff | GmClient.qml:204-218 | with a stable sort a merge gives the daemon's order if and only if every tie in the list it sorts is in identifier order |
| ClientReplica.AppendedTieStaysBehind | GmClient.qml:204-218 | with a stable sort, a new conversation that ties with a shown one of larger identifier ends up behind it, unlike in the daemon |
| PanelFollowing.ForgettingGoesUnnoticed | internal/daemon/methods.go:303-323 | an unpair pushes no conversation: the panel keeps its list, whatever it was, and agrees with the daemon's if and only if it was empty |
| PanelFollowing.ReplacementFollowedIffStillServed | internal/daemon/daemon.go:434-455 | after a wholesale replacement of any size, whatever the panel knew, it equals the served list if and only if every conversation it knew is among those now served |
| PanelClient.RepliesReachTheirCallback | GmClient.qml:41-53 | over any run with reconnects a callback fires at most once, only for the reply to its own call, and each is waiting, answered or dropped |
| PanelClient.ReplyRunsTheCallback | GmClient.qml:41-53 | from any history, a callback given with a call is run with the outcome of its reply, unless the connection goes first |
| PanelClient.ConnectionSteps | GmClient.qml:41-53 | calls take a fresh identifier while connected and do nothing otherwise; losing the connection forgets who waits |
| PanelClient.Client.HandleReply | GmClient.qml:158-178 | the waiting callback is taken out before it runs; an unknown or repeated reply changes nothing |
| PanelClient.Client.MergeConversation | GmClient.qml:204-218 | the merge in place yields what the merge relation allows: first match overwritten or appended, then sorted; no identifier, no change |
| AttachmentCache.CacheIsTailOfLog | internal/daemon/media.go:81-130 | over every run the queue is duplicate-free, equals the keys, is the last min(n, 4096) of the insertion log, and each key kept has its latest recorded part |
| AttachmentCache.LastPartSays | internal/daemon/media.go:81-111 | what is remembered of a key is the media of the last part filed under it, with that part's message and part id |
| AttachmentCache.TrimCutsTheFront | internal/daemon/media.go:119-125 | the trim loop keeps the last 4096 places and forgets the secrets and request marks of exactly the keys cut |
| AttachmentCache.KeysCoincideIff | internal/daemon/media.go:69-79 | two media parts share a handle if and only if they name the same media, else the same part, else the same message (for media ids that do not carry the fallback prefixes) |
| AttachmentCache.PublishedKeyResolvesIff | internal/daemon/convert.go:103-126 | an attachment handle published with a message resolves after recording it if and only if it is not queued ahead of the last 4096 places |
| AttachmentCache.PublishedInOrder | internal/daemon/convert.go:103-126 | the handles published with a message come in the order of its media parts |
| AttachmentCache.NewestOfAMessageSurvive | internal/daemon/media.go:85-110 | the last min(new, 4096) keys that a message inserts survive its own trim |
| AttachmentCache.SeenAgainYetForgotten | internal/daemon/media.go:94-96 | with a full queue, a message that shows the oldest key again next to a new one loses the key it shows |
| AttachmentCache.SeenAgainFromTheStart | internal/daemon/media.go:94-96 | two messages from an empty cache that end that way |
| AttachmentCache.AskedOnceUntilEvicted | internal/daemon/media.go:139-149 | for a known attachment the phone is not asked for the original twice until its key was evicted |
| AttachmentCache.AskedUnlessClaimedSince | internal/daemon/media.go:119-149 | over every run a claim is granted if and only if none was made since the key was last dropped |
| AttachmentCache.MarksWithinKeys | internal/daemon/media.go:119-149 | request marks stay within the known keys under recording, and under a claim exactly when its key is still known |
| MediaHandouts.MarkOutlivesKey | internal/daemon/media.go:325-331 | a run from an empty cache that leaves a mark for a key no longer known |
| AttachmentCache.MediaCache.RecordMessage | internal/daemon/media.go:82-111 | recording in place takes the modelled step, and the backing array stays within four times the limit, the compaction changing nothing observable |
| AttachmentCache.ConvertAttachments | internal/daemon/convert.go:103-126 | conversion publishes the same keys that recording files secrets under, none of them empty |
| SingleFlight.OneDownloadPerKey | internal/daemon/media.go:219-242 | under every interleaving at most one call downloads a key, and the key is in the table exactly while one does |
| SingleFlight.NeverClosedTwice | internal/daemon/media.go:233-242 | under every interleaving no channel is closed twice: whoever is about to close finds it open |
| SingleFlight.NoLostWakeup | internal/daemon/media.go:221-242 | whoever waits can wake, or a live holder can still take the steps it owes and they release it, although the entry goes before the close |
| SingleFlight.WakesAfterRelease | internal/daemon/media.go:221-231 | a waiter can wake only once nobody holds its channel any more |
| SingleFlight.ArrivingRegisters | internal/daemon/media.go:219-235 | a call that arrives waits on the channel of whoever has the key, or registers under a channel nobody has |
| SingleFlight.QuietMeansReleased | internal/daemon/media.go:219-242 | when no download is left the table is empty and every waiter can wake |
| MediaCalls.StandInNeverShadows | internal/daemon/media.go:202-212 | under every interleaving a file at a call's destination came from that attachment, by the full-size route if and only if the request has a media id |
| MediaCalls.OneWriterPerFile | internal/daemon/media.go:219-242 | under every interleaving at most one call has a given file open for writing, and that call has the key |
| MediaCalls.WholeIff | internal/daemon/media.go:295-297 | under every interleaving a cached file is whole if and only if it is not being written and its last write to end was not cut short |
| MediaCalls.LookupIsWholeIff | internal/daemon/media.go:210-231 | a lookup, first or after waiting, is answered ready if and only if the file is there, and what it names is whole under exactly that condition |
| MediaCalls.StepAnswers | internal/daemon/media.go:189-317 | what each step of a call answers: a miss goes on only with a client, a second miss and giving up fail, a download without bytes is pending or fails |
| MediaCalls.StoreSteps | internal/daemon/media.go:82-111 | recording and removing files interleave with the calls and change only their part of the store |
| MediaCalls.AloneIsFinished | internal/daemon/media.go:189-317 | the steps of a call that meets no other lead to the store and the answer of the one-call object |
| MediaHandouts.WaiterIsReleased | internal/daemon/media.go:221-242 | under every interleaving of whole calls, whoever waits can wake, or some live call can settle and release it on its own |
| MediaHandouts.HandedOutStaysIff | internal/daemon/media.go:210-235 | a whole file stays whole over all runs that neither remove it nor cut a write short if and only if no call is left that looked before it was there and can still open it |
| MediaHandouts.HandedOutThenEmptied | internal/daemon/media.go:210-235 | a run from the start that answers one call with a whole file and lets another empty it |
| MediaHandouts.AnsweredBeforeWhole | internal/daemon/media.go:210-212 | a run from the start, with no failed write, that answers a call with a file that is not whole |
| MediaHandouts.WaiterGetsCutFile | internal/daemon/media.go:221-231 | when the owner's write is cut short, the owner's caller sees an error and a waiting call is answered with the partial file |
| MediaRoutes.NamesMeetIff | internal/daemon/media.go:205-209 | an original and a stand-in share a file name if and only if the media id spells the stand-in's name |
| MediaRoutes.MediaStore.Media | internal/daemon/media.go:189-317 | every branch of one call, by what the message says of the attachment: missing or unknown key, cache hit, no client, giving up or waking after another call had the key, too large, a failed write; original, else thumbnail, else inlined bytes, else pending; the thumbnail flag is set exactly without a media id, on a hit as after a download |
| MediaRoutes.FinishedServes | internal/daemon/media.go:252-316 | the file a download leaves is the original, the thumbnail or the inlined bytes, the first of these the message offers, and nothing above the size limit; the original is asked for exactly after a stand-in or when there is nothing to download |
| MediaRoutes.ExtensionsIff | internal/daemon/media.go:159-184 | which types get which extension |
| MediaRoutes.DownloadWrittenIff | internal/store/store.go:120-126 | within one process an attachment whose bytes arrive can be written if and only if no session clear has removed the media directory since the start |
| MediaRoutes.PairedAgainWithoutCache | internal/store/store.go:52-56 | unpaired and paired again in one process, the daemon is connected and saved, and no request adds a file |
| CachePruning.PruneCaches | internal/daemon/mediaprune.go:24-32 | each directory is trimmed on its own, missing or unreadable ones included; without a reported error both end within their limits; bytes freed and left add up; foreign files in the capture directory stay |
| MediaRoutes.DownloadToCache | internal/daemon/media.go:295-304 | from response to trimmed cache: a file is written if and only if lengths fit, the body is whole and decodes within the limit, the directory is there and the write goes through; it is still there exactly if it fits beside what cannot be removed; a failed write trims nothing |
| CachePruning.SweepConserves | internal/daemon/mediaprune.go:87-99 | bytes freed plus bytes left equal the bytes at the start, and nothing that could not be removed is gone |
| CachePruning.SweepTakesOldest | internal/daemon/mediaprune.go:86-99 | a removed file is no newer than any file kept although it could have been removed |
| CachePruning.SweepStopsInTime | internal/daemon/mediaprune.go:87-99 | just before the last removal the files exceeded the limit |
| CachePruning.SweepFitsOrExhausts | internal/daemon/mediaprune.go:87-100 | if the rest does not fit, every file was tried and an error is returned |
| CachePruning.SweepTrims | internal/daemon/mediaprune.go:86-100 | all of the above together, for any order of ties and any removal failures |
| CachePruning.CountedIff | internal/daemon/mediaprune.go:69-85 | a trim counts exactly the plain files with readable metadata that are ours |
| CachePruning.OwnCaptureIff | internal/daemon/mediaprune.go:24-32 | ours in the capture directory is exactly what is named like a webcam photo or a voice recording from end to end |
| CachePruning.NewestSurvivesIff | internal/daemon/mediaprune.go:86-99 | the strictly newest file survives if and only if it cannot be removed or fits beside those that cannot |
| CachePruning.PruneDir | internal/daemon/mediaprune.go:51-101 | the trim in place keeps all of these promises, leaves every other entry alone, treats a missing directory as nothing to do and an unreadable one as an error |
| BoundedDownload.ReadBoundedTo | internal/daemon/download.go:119-131 | for any chunking it succeeds if and only if declared and actual length fit and the body did not break off, returns the whole body, and never takes more than limit + 1 bytes |
| Reactions.AlwaysBounded | internal/daemon/reactions.go:22-65 | over every run, clears and re-adds included, each recorded message is in the queue and queue and map stay within 4096 |
| Reactions.FifoWithoutClears | internal/daemon/reactions.go:43-61 | without clears the queue is duplicate-free, equals the keys, and is the tail of the insertion log |
| Reactions.JustRecordedIsLostIff | internal/daemon/reactions.go:31-61 | a recording loses what it just stored if and only if a stale entry of the same message heads a full queue |
| Reactions.ReaddedAfterClearIsLost | internal/daemon/reactions.go:31-34 | the run store, clear, fill, store again ends with the record gone |
| Reactions.MirroredReactionIsHeld | internal/daemon/reactions.go:142-175 | with records that mirror the server, the emoji found is the one the server holds for the user |
| Reactions.TapToggles | internal/daemon/reactions.go:92-119 | the action sent is the right one for the server, the user ends with the toggled emoji, nobody else's reaction moves |
| Reactions.TapTwice | internal/daemon/reactions.go:83-91 | two taps of one emoji with the echo in between restore the start if and only if it was none or that emoji |
| Reactions.ActionRightIff | internal/daemon/reactions.go:92-119 | whatever reaction the daemon takes the user to hold, the request it derives is right for the server if and only if that is the one held, or it mistook one for another and a third is tapped |
| Reactions.UnknownReactionAddsRightIff | internal/daemon/reactions.go:142-148 | with no record, or in an unknown conversation, a tap adds, which is right if and only if the user holds none |
| Reactions.TapAfterRecordingRightIff | internal/daemon/reactions.go:31-61 | right after a recording the next tap is right unless the record was lost on arrival and the user holds a reaction |
| Reactions.TapAfterEvictionRightIff | internal/daemon/reactions.go:50-61 | after another message was recorded a tap is still right unless that pushed this record out and the user holds a reaction |
| Reactions.LostRecordMisleads | internal/daemon/reactions.go:101-113 | the run store, clear, fill, store again, seen to its end: the server holds the emoji, and tapping it asks to add it |
| Reactions.RecordedAsSeen | internal/daemon/reactions.go:22-48 | a record that stays has one entry for each reaction, with its custom emoji or else the standard name and its participants; a sighting without reactions removes it; other records change only by being forgotten |
| Reactions.ReactionStore.RecordReactions | internal/daemon/reactions.go:22-48 | recording in place takes the modelled step, with those effects on the map |
| Reactions.SelfIdsAreTheUsers | internal/daemon/reactions.go:151-158 | the identities collected are exactly the participants marked as the user and the outgoing identity, where not empty |
| Reactions.ReactionStore.MyReactionOn | internal/daemon/reactions.go:142-175 | the nested search finds the emoji of the first record left by a participant marked as the user or by the outgoing identity, and none without one or in an unknown conversation |
| Reactions.MarkMyReactions | internal/daemon/reactions.go:68-81 | exactly the reactions with the emoji the records have for the user are flagged in the message, the rest is as before |
| Reactions.React | internal/daemon/reactions.go:92-137 | which request a tap sends, derived from the first record the user left, and when it reports success; where the records mirror the server it toggles exactly the user's reaction |
| EventFanout.FanoutIsFaithful | internal/daemon/daemon.go:217-243 | for every subscriber and run: received then buffered is an in-order part of what was offered, the numbers add up, at most 64 buffered, no send on a closed channel, no double close |
| EventFanout.OfferedIsPublished | internal/daemon/daemon.go:232-243 | a subscriber is offered exactly what is published while it stays subscribed |
| EventFanout.QueuedIsNeverLost | internal/daemon/daemon.go:217-243 | over any run what is queued for a subscriber is never lost, moved or overtaken: an overflow drops only the event being published, and cancelling drops nothing |
| EventFanout.RoomMeansDelivered | internal/daemon/daemon.go:232-243 | a subscriber with room gets the published event, behind everything before it |
| EventFanout.DroppedIff | internal/daemon/daemon.go:232-243 | over every step an event is dropped for a subscriber if and only if 64 earlier ones still wait |
| EventFanout.NothingMissedWhileRoom | internal/daemon/daemon.go:217-243 | over any run whose events fit the channel, a subscriber is handed exactly what is published |
| EventFanout.SubscriptionSteps | internal/daemon/daemon.go:217-229 | taking hands over the event that waited longest, once; a new subscriber starts empty; a cancel closes the channel |
| EventFanout.CancelIsFinal | internal/daemon/daemon.go:222-229 | cancelling again, whatever ran in between, changes nothing |
| EventFanout.Fanout.Publish | internal/daemon/daemon.go:232-243 | every open channel is offered the event once, full ones drop it: the modelled step, so the results above hold of the object |
| Lifecycle.StatusAlwaysFits | internal/daemon/daemon.go:245-280 | in every reachable state and every pushed status: a QR code only while pairing or in error, a hint only in error or pairing, nothing of either nor an error when connected, an exact unread number although some pushes do not recompute it; at most one live QR loop |
| Lifecycle.StatusBoundsAreTight | internal/daemon/pairbrowser.go:73-81 | those bounds are reached: an error keeps the QR code shown, and both pairing flows keep an error's hint |
| Lifecycle.ChangesShow | internal/daemon/daemon.go:282-403 | the state and the message each change of the connection or of a pairing shows, with nothing of a pairing left |
| Lifecycle.ChangesOnlyShow | internal/daemon/daemon.go:245-261 | a change touches neither cache nor session and pushes its status once, freshly counted |
| Lifecycle.PairingEndsShow | internal/daemon/daemon.go:294-370 | what a completed pairing and a logout show and push |
| Lifecycle.UnpairingShows | internal/daemon/methods.go:303-323 | what an unpair shows and empties, and that a failed clear changes nothing shown |
| Lifecycle.PairingBeginsShow | internal/daemon/methods.go:218-241 | what the QR flow, the Google flow and a pairing error show, and which earlier fields they keep |
| Lifecycle.StartAndSyncShow | internal/daemon/daemon.go:104-141 | what a start shows for each outcome, and what a sync and the phone's answer show |
| Lifecycle.WritersShow | internal/daemon/daemon.go:405-471 | each writer of the cache changes the cache as modelled, and which of them push the status |
| Lifecycle.UnreadCountMoves | internal/daemon/daemon.go:263-271 | the unread number moves by exactly the one conversation replaced |
| Lifecycle.EmojiFitsIffNotLate | internal/daemon/gaia.go:63-71 | a step leaves an emoji outside the pairing and error states if and only if it is a callback that comes late |
| Lifecycle.EmojiFitsUnlessLate | internal/daemon/gaia.go:63-71 | over any run without late callbacks an emoji is shown only while pairing or in error |
| Lifecycle.EmojiWhileConnected | internal/daemon/gaia.go:63-71 | a run that shows the emoji on a connected status |
| Lifecycle.NoRefreshLoopLeft | internal/daemon/methods.go:243-300 | after a completed pairing, an unpair or a Google pairing start no QR refresh loop is left uncancelled |
| Lifecycle.OneLoopAfterStart | internal/daemon/methods.go:243-256 | after pairing begins exactly the new refresh loop is running |
| SessionFile.FileNeedsPairing | internal/daemon/daemon.go:196-211 | in every run from a clean machine the session file exists only after some completed pairing |
| SessionFile.FileImpliesPaired | internal/daemon/daemon.go:124-128 | unless a logout failed to remove it, a usable session file implies paired across restarts, and within one process any session file does |
| SessionFile.LogoutStaysOut | internal/daemon/daemon.go:364-370 | after a logout that removed the file it stays away until the next completed pairing, whatever saves, refreshes or restarts come |
| SessionFile.LogoutStaysOutIff | internal/daemon/daemon.go:364-370 | after a logout the file stays away until the next pairing if and only if it was removed or there was none |
| SessionFile.FailedLogoutComesBackIff | internal/daemon/daemon.go:104-128 | a restart after a logout is paired if and only if the removal failed and the file kept is usable |
| SessionFile.FileImpliesPairedStepIff | internal/daemon/daemon.go:366-370 | which steps leave a session file without being paired: exactly a logout that keeps a file, and a start on an unusable one |
| SessionFile.MediaDirStaysIff | internal/store/store.go:120-126 | within one process the media directory is there if and only if it was and no session clear has removed it |
| Pictures.PictureHasFileIff | internal/daemon/avatars.go:47-64 | after any history, a picture that landed: within the process its conversation keeps naming the file and no second attempt is made, and the file is there if and only if no session clear and no trim took it since |
| Pictures.FetchSpends | internal/daemon/avatars.go:94-125 | an attempt is spent whatever comes of it, and only a picture that arrives and is written whole is remembered |
| SessionFile.UnpairStaysGoneIff | internal/daemon/methods.go:303-323 | after an unpair the file stays away until the next pairing if and only if pairing was not complete and no file was there that could not be removed |
| SessionFile.UnpairedDeviceComesBack | internal/daemon/methods.go:314-321 | unpair, any save, start: the daemon is paired as before |
| SessionFile.StartReadsFile | internal/store/store.go:70-100 | a start takes over the credentials in the file, all of them, and counts as paired exactly with both the token and the browser device |
| SessionFile.SavedComesBack | internal/store/store.go:102-118 | a save and a start give back the credentials that were in memory, cookies included |
| SessionFile.WritesReachFile | internal/daemon/daemon.go:196-211 | which credentials reach the file after a save, refreshed cookies and a completed pairing |
| SessionFile.ClearsRemove | internal/store/store.go:120-126 | what a logout and an unpair remove and what they keep in memory |
| SessionFile.GenerationMovesIffPaired | internal/daemon/daemon.go:294-304 | within one process the pairing generation moves if and only if a pairing completed |
| DaemonObject.Daemon.Reorder | internal/daemon/daemon.go:474-493 | collecting in any order, sorting and cutting in place gives the unique index of the map |
| DaemonObject.Daemon.UpsertConversation | internal/daemon/daemon.go:460-471 | the handler takes the modelled step and pushes the new conversation, then the status |
| DaemonObject.Daemon.TouchConversation | internal/daemon/daemon.go:407-432 | the handler takes the modelled step; an out-of-date message is republished without a rebuild |
| DaemonObject.Daemon.MarkRead | internal/daemon/methods.go:153-174 | without a connected client or when the phone refuses nothing changes; otherwise the flag is cleared without rebuilding the order, and conversation and status are pushed |
| DaemonObject.Daemon.AvatarLanded | internal/daemon/avatars.go:113-129 | the handler patches the map without rebuilding the order, and pushes the conversation if it is still there |
| DaemonObject.Daemon.ClaimAvatar | internal/daemon/avatars.go:55-64 | a picture is attempted once |
| DaemonObject.Daemon.ReplaceConversations | internal/daemon/daemon.go:434-455 | the map is rebuilt from the list, cached pictures added, and the served list pushed in order |
| DaemonObject.Daemon.Conversations | internal/daemon/methods.go:41-49 | the served list, or its first entries when a smaller positive limit is given |
| DaemonObject.Daemon.UnreadCount | internal/daemon/daemon.go:263-271 | the walk over the map counts exactly the unread conversations |
| DaemonObject.Daemon.SetState | internal/daemon/daemon.go:245-261 | the whole new status and the one push that follows |
| DaemonObject.Daemon.Start | internal/daemon/daemon.go:104-141 | a process start on whatever session file is there takes the modelled step |
| DaemonObject.StartProcess | internal/store/store.go:70-88 | a session file that cannot be opened ends the start; a missing or unusable one does not |
| DaemonObject.Daemon.HandlePairSuccessful | internal/daemon/daemon.go:294-304 | the handler takes the modelled step |
| DaemonObject.Daemon.HandleLoggedOut | internal/daemon/daemon.go:364-370 | the handler takes the modelled step |
| DaemonObject.Daemon.Unpair | internal/daemon/methods.go:303-323 | the handler takes the modelled step, stopping half way when the session cannot be cleared, and never touching paired |
| DaemonObject.Daemon.SaveSession | internal/daemon/daemon.go:196-211 | the session is written only when paired, and a failed write leaves the old file |
| DaemonObject.Daemon.ClearSession | internal/store/store.go:120-126 | the file goes unless its removal fails, and success means the media went too |
| DaemonObject.Daemon.StartPairing | internal/daemon/methods.go:218-241 | without a client nothing happens, a refused login shows its error, and otherwise the handler takes the modelled step and begins one refresh loop after stopping the last |
| DaemonObject.Daemon.RefreshQr | internal/daemon/methods.go:273-286 | a refreshed code is shown only while still pairing |
| DaemonObject.Daemon.StartGaiaPairing | internal/daemon/gaia.go:42-54 | the handler takes the modelled step, cookies included |
| DaemonObject.Daemon.InstallCookies | internal/daemon/authretry.go:96-98 | fresh cookies are taken over and the session saved with them when paired |
| DaemonObject.Daemon.SetPairError | internal/daemon/pairbrowser.go:73-81 | the handler takes the modelled step, keeping any QR code |
| AuthRetry.AcceptedAreSpaced | internal/daemon/authretry.go:76-83 | among all claims by any callers, accepted ones lie at least an interval apart, times the number between them |
| AuthRetry.WindowHoldsFew | internal/daemon/authretry.go:23-35 | any window of width W holds at most W / interval + 1 accepted claims |
| AuthRetry.NextClaim | internal/daemon/authretry.go:76-83 | a claim is accepted if and only if it is the first or an interval has passed since the last accepted one |
| AuthRetry.EveryClaimIsCovered | internal/daemon/authretry.go:76-83 | a claim is never refused without reason: each lies less than an interval after an accepted one, or is one |
| AuthRetry.CookieRefresher.ClaimRefresh | internal/daemon/authretry.go:76-83 | a refresh is granted if and only if none was or the last one granted is at least 30 seconds ago, and the grants are recorded |
| AuthRetry.CookieRefresher.ClaimRepair | internal/daemon/authretry.go:115-122 | a re-pair is granted if and only if none was or the last one granted is at least 5 minutes ago, independent of refreshes |
| AuthRetry.AwaitPairing | internal/daemon/authretry.go:135-157 | the wait succeeds if and only if some poll shows a new generation and no earlier poll showed an error or unpaired state |
| AuthRetry.RepairNeedsAPairing | internal/daemon/authretry.go:126-157 | over any run meanwhile, a re-pair succeeds if and only if a pairing completed after it noted the generation, before any poll saw failure; a recovered connection is never mistaken for it |
| AuthRetry.WithAuthRetry | internal/daemon/authretry.go:163-193 | one to three calls, the last one's result, every earlier one an authentication error; cookies are refreshed and the session re-paired exactly when called for, each at most once, each further call after one that worked, none left untried when giving up |
| AuthRetry.AuthErrorIff | internal/daemon/authretry.go:55-72 | an error counts as one of authentication, or of a dead session, exactly when one of its markers stands in the message |
| AuthRetry.LowersLetters | internal/daemon/authretry.go:63-72 | the case folding before the search maps each capital to its small letter and nothing else, as far as it yields ASCII |
| BrowserPairing.ChooseProfile | internal/daemon/pairbrowser.go:19-71 | the first complete profile is used; otherwise the earliest of those missing fewest is named; unreadable profiles are reported |
| BrowserPairing.ChosenCookiesAreAccepted | internal/daemon/gaia.go:96-111 | the cookies of a complete profile are not empty, so the validation that follows accepts them |
| BrowserPairing.ValidateGaiaCookies | internal/daemon/gaia.go:96-111 | accepted if and only if there are cookies and none required is missing or blank |
| BrowserPairing.RefreshBrowserCookies | internal/daemon/authretry.go:76-110 | true if and only if the throttle granted it, there are credentials and some profile is complete; then the first one's cookies are installed and saved, and when none is complete the expired sign-in is shown |
| BrowserPairing.RepairSession | internal/daemon/authretry.go:115-158 | true if and only if the claim was granted, pairing began from a complete profile, and a pairing completed during the wait before any poll saw failure |
| BrowserPairing.PairFromBrowser | internal/daemon/pairbrowser.go:19-81 | the Google flow begins from the first complete profile; otherwise the message and hint shown are those for no profiles, unreadable ones, or the closest one, a lone missing Messages cookie told apart |
| BrowserPairing.HintTellsApart | internal/daemon/pairbrowser.go:60-68 | who lacks nothing but the Messages cookie is told to be signed in to Google, anyone else to sign in, each with the profile named |
| BrowserPairing.EachGivesItsReason | internal/daemon/pairbrowser.go:34-54 | when no profile can be read the advice holds each one's reason, in order |
| BrowserPairing.StartGaiaPairing | internal/daemon/gaia.go:29-54 | begins if and only if there is a client and the cookies pass validation, and otherwise changes nothing |
| CookieHeader.AnyOrderReadsBack | internal/wire/cookies.go:57-79 | any map of printable cookies, printed in any order, parses to the same map; values may contain '=' |
| CookieHeader.PrintThenParse | internal/wire/cookies.go:57-79 | printed pairs parse to their map, the last of a repeated name winning |
| CookieHeader.ParsedReadsBack | internal/wire/cookies.go:57-79 | for any header at all, what it parsed to prints and parses to the same again |
| CookieHeader.ParsePartIff | internal/wire/cookies.go:60-76 | a piece names a cookie if and only if both sides of its first '=' hold more than white space, and what it then names |
| CookieHeader.CollectedIsLast | internal/wire/cookies.go:57-79 | a cookie is collected if and only if some piece names it, with the value of the last such piece; malformed pieces are skipped |
| CookieHeader.TrimSpaceTrims | internal/wire/cookies.go:60-76 | trimming takes off white space at both ends, all of it and nothing else |
| CookieHeader.MissingSurvivesTheTrip | internal/wire/cookies.go:81-90 | the list of missing cookies is the same before and after the trip, for no cookies at all too |
| CookieHeader.ParseCookieHeader | internal/wire/cookies.go:57-79 | the parsing loop computes the modelled result, no cookies at all being told apart |
| CookieHeader.MissingGaiaCookies | internal/wire/cookies.go:82-90 | exactly the required names that are absent or blank |
| CookieDecryption.PlainValueComesBack | internal/browser/cookies.go:158-173 | unpadding and stripping recover every printable value at every length, longer than 32 bytes included |
| CookieDecryption.DigestIsStrippedIff | internal/browser/cookies.go:165-173 | behind a 32-byte digest the value is recovered if and only if the digest is not all printable |
| CookieDecryption.StoredValueComesBack | internal/browser/cookies.go:129-174 | encryption under either key with either prefix is undone, exactly under that condition |
| CookieDecryption.DecryptedIsPrintable | internal/browser/cookies.go:158-173 | whatever the stored bytes, an encrypted cookie that decrypts at all yields printable text |
| CookieDecryption.DecryptValue | internal/browser/cookies.go:129-174 | which bytes come to which outcome: short, stored in the clear, no key for the prefix, not aligned, bad padding, not printable, or the value with padding and any digest removed |

## Left out

- Protobuf decoding, libgm, HTTP, D-Bus, the browser database and its keyring, AES: foreign code; their outcomes are inputs of the steps.
- Socket framing and request dispatch (`internal/daemon/server.go`), the command line, the panel's visual parts, GIF search, file picking, sending media: single-branch plumbing.
- Real time, scheduling fairness and races between the critical sections of one handler: handlers are atomic except in serving attachments (`SingleFlight`, `MediaCalls`), where every lookup, critical section, opening and completion is a step of its own; asking for the original goes with completion.
- `MediaRoutes.Destination`: file names, pictures included, stand for truncated SHA-256 digests, taken as free of collisions.
- `ClientReplica.SortOf`: the panel's sort is any sort under its comparator; what a stable one adds is stated apart.
- `CookieDecryption.Cipher`: the block cipher in chaining mode is a pair of functions that are inverse on whole blocks and keep the length.
- `AuthRetry.Lower`: lower-casing is modelled as far as it yields ASCII, which is all the markers contain; other letters stay as they are.
- `MediaRoutes.MediaStore.Media`: models one call at a time, the others appearing as the turn it gets; their interleavings are the subject of `MediaCalls`. A body larger than its declared size, or one that breaks off, appears as a failed delivery, and what the trim after a write removes as a later step.
- `Pictures.PictureHasFileIff`: fetching a picture is one step, so a session clear between its write and its landing is not modelled.
- `MediaRoutes.DownloadWrittenIff`: one process at a time; the pairing command, run beside the daemon, is another process and would create the media directory again.
- `BrowserPairing.RepairSession`: what other handlers do during the wait enters as batches of steps; the daemon object itself shows only what this handler did. The profiles given are the candidates, a pinned profile being a choice among them.
- `CachePruning.RemoveOldest`: sizes are unbounded naturals, the host's 64-bit sum is not modelled.
- `AttachmentCache.MediaCache`: Go's own slice growth is replaced by doubling; only the compaction above four times the limit is the source's.
- The JSON and cURL forms of cookie input, message status classification, initials, typing indicators, history paging: settled by reading one body.
