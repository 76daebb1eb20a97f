# Verified model of the Resident harness and its chat coordinator

This project models, in Dafny, the parts of the system whose correctness depends on order, interleaving or
partial failure, and proves what users of these parts rely on. `dafny verify dfyconfig.toml` checks all of it.

**The chat coordinator** is a machine of atomic steps (`Coordinator.dfy`). A step is one section that the
program runs under a lock, or one message; a run is any sequence of steps in any order, so every statement
about runs covers every interleaving of all rooms, all turns and the reply worker. An event that does not fit
the current state changes nothing. Texts, times, results of turns, save failures, the rooms that are due for
sleep and the Unicode tables are arbitrary inputs. `Invariants.dfy`, `Preservation.dfy` and `RoomSteps.dfy` show
the invariant that every step keeps, `Runs.dfy` lifts it to runs, and these files hold the results:

- `Contexts.dfy`, `Promises.dfy`, `Recall.dfy`: what a turn can rely on (all that it may read and nothing else, its
  history read back in pages, everything that its member has said before, the independence of contributions).
- `Rounds.dfy`, `Termination.dfy`, `Provenance.dfy`, `Completeness.dfy`: rounds are bounded, never deadlock, end,
  and follow the mentions that their answers made, all of them and no others, up to the limit; replies count
  once; rooms follow their lifecycle.
- `Effects.dfy`: a message of the user calls the members that it is meant for, a reply reaches its room, and no
  turn ends silently.
- `Privacy.dfy`: equal ordinary rooms are read and saved alike, whatever incognito rooms contain.
  `RoomHistories.dfy`: sleeps are counted, restarts lose nothing.

`Rooms.dfy` and `Paging.dfy` hold the two history queries; `ChatOps.dfy` the effect of each locked section;
`ChatResident.dfy` the same sections as methods of the object that has the fields, with its snapshot file, the
check for sleeping rooms and the restoration of rooms; `Snapshots.dfy` what is saved and restored;
`Mentions.dfy` the mention grammar as it is scanned, and `Grammar.dfy` what it means.

**Around it:** `SlotFile.dfy` is the three-slot snapshot file that is used in three places, with I/O errors and
crashes at every file operation. `Memory.dfy`, `Evidence.dfy`, `Gathering.dfy` and `MemoryManager.dfy` are the tiered
long-term memory, what a batch of evidence makes of it, and its manager. `Conversations.dfy` is the map from rooms to provider threads. `Relay.dfy` is the
tools Resident. `Registry.dfy` is the registry with its two indexes and the store, and
`Deliveries.dfy` the way of a message through its gates.

## Findings

Five things are less than they seem, each with an exact condition and, where it matters, a concrete case:

- `Path::exists` answers "no" on an I/O error. A save that misses its main file this way and then fails to
  promote the new one renames the older backup over the current snapshot: it returns an error, and an older
  value comes back (`StaleRollbackExample`). A save is atomic if and only if this does not happen
  (`SaveIsAtomicExactly`), and memory and disk part exactly then (`MemoryEqualsDisk`). In the same way a start of
  the program can miss the only file of its memory and begin empty (`StartsFromDiskExactly`,
  `MissedMemoryExample`); the next save then makes that final.
- An accepted message whose save fails leaves its room busy without a round, and nothing but a restart frees it
  (`FailedSaveBlocksTheRoom`, `FailedSaveExample`); a busy room has a round if and only if this has not happened
  to it (`BusyRoomsHaveRounds`).
- `rebalance` can promote a fact that has been idle for a week and drop it at the next pass
  (`IdlePromotionExample`). It does so if and only if an idle fact has matured in the cache while fewer than 32
  livelier facts have a claim to a hot place (`RebalanceRepeatsExactly`).
- `apply` stores the maximum of its batch as the cursor, so the cursor of a room moves back exactly when memory
  is on and a batch ends below it (`CursorMovesBackExactly`).
- A page of size zero makes `chat_context_for` index an empty vector (`PanicsExactly`); the tools Resident
  only lets sizes from 1 to 200 through.

## Model

| member | source | states |
|---|---|---|
| Promises.TurnsReadBackTheirContext | residents/src/chat/mod.rs:369-440 | For every turn of every run, and for reads at any later moments of the run: the pages got by following `next_before_message_id` until `has_earlier` is false are together exactly the context that the turn was sent with (own-room part, or all of it with scope all); no page is denied, and the chain is at most one page longer than the context has messages. |
| Paging.PagedReadsEqualSnapshot | residents/src/chat/mod.rs:394-430 | The same for any snapshot of the rooms and any later rooms that only grew, page size at least 1. |
| Paging.MatchingIsPrefix | residents/src/chat/mod.rs:394-426 | A read that ends before element `k` of the visible history matches exactly the first `k` elements of that history, although the rooms have grown. |
| Contexts.TurnsAreSentWhatTheyMayRead | residents/src/chat/mod.rs:797-842 | In every run: what a turn was sent with is, in ascending order of ids, exactly what it could read at the moment at which it looked. Every message of every readable room that passes the cut is there, whoever wrote it, with room, room name, role, author, text, time and attachments; and everything that is there is such a message. |
| Contexts.TurnContextExactly | residents/src/chat/mod.rs:809-841 | The same for the context as a function of any rooms in order, in both directions. |
| Contexts.RepliesExactly | residents/src/chat/mod.rs:369-430 | A query is answered exactly for members of an existing room. The page has, in order and with all their parts, the newest messages that the query is about (rooms, scope, bounds and cursor spelled out), as many as fit, and says exactly whether there are earlier ones and where to go on. |
| Promises.TurnsMayAlwaysRead | residents/src/tools/mod.rs:394-398 | Whatever the run, the tools Resident accepts a turn's query about its own room with any size from 1 to 200: the bound that is computed from its context always covers this room. |
| Rooms.ComputeVisibleThrough | residents/src/codex/mod.rs:747-753 | The loop over the context computes the bound of each room. |
| Rooms.VisibleThroughIsMax | residents/src/codex/mod.rs:747-753 | The bound of a room is the greatest id of its messages in the context, and only rooms of the context have one. |
| Rooms.PanicsExactly | residents/src/chat/mod.rs:425-430 | The index into the page is out of range if and only if the page size is 0 and some message matches. |
| Rooms.CollectedLists | residents/src/chat/mod.rs:394-426 | Filtering, flattening and sorting lists exactly the wanted messages of the readable rooms; what is listed of each message is in the three rows on contexts and replies. |
| Rooms.CollectedStrictly | residents/src/chat/mod.rs:841 | The result is in strictly ascending order of ids. |
| Recall.OpenTurnsRememberEveryReply | residents/src/chat/mod.rs:786-842 | From its snapshot until it settles, a turn's context holds every reply of its member, as it stands in its room now, with room name, role, author, text, time and attachments, in any ordinary room of that member (in an incognito room: in that room), whether it was given in this run or restored at its start; over all interleavings, also when the own room is cut at the start of the round. |
| Recall.RepliesAreLogged | residents/src/chat/mod.rs:878-906 | Every reply in a room was restored at the start, or was given by a turn that settled in this run. |
| Promises.OneRequestPerMember | residents/src/chat/mod.rs:786-796 | In every reachable state a member has at most one pending request, over all rooms. |
| Promises.ContributionsReadTheSame | residents/src/chat/mod.rs:697-713 | All contributions of a round have the identical own-room part in their contexts, whichever of them looked first. |
| Promises.ContributionsAreIndependent | residents/src/chat/mod.rs:824-826 | Whatever a contribution reads in its room is older than every answer of its own round. |
| Runs.ReachableInv | residents/src/chat/mod.rs:83-120 | The invariant over rooms, rounds, turns, locks, pending requests and the log holds after every step of every run. |
| Runs.RunIsLater | residents/src/chat/mod.rs:909-956 | Between any two moments of a run no room disappears or changes its name, members or privacy, and messages are only appended, with ids from the counter on. |
| Runs.ContextsAreTaken | residents/src/chat/mod.rs:797-842 | Every context was taken once, by the turn that it belongs to, while this turn held the lock of its member. |
| Rounds.RoomsFollowTheirLifecycle | residents/src/chat/mod.rs:621-642 | In every reachable state: ids ascend in each room and never repeat across rooms, the counters are above them; one round per room at most; busy rooms are awake and not archived; incognito rooms are not archived. |
| Rounds.BusyRoomsHaveRounds | residents/src/chat/mod.rs:640-668 | In every reachable state a room with a round is busy, and a busy room has a round if and only if no accepted message to it has met a failed save so far. |
| Rounds.StuckExactly | residents/src/chat/mod.rs:640-655 | The rooms that have lost a round are exactly those to which, at some earlier moment, a message was accepted and its save failed. |
| Rounds.FailedSaveBlocksTheRoom | residents/src/chat/mod.rs:640-655 | After an accepted message whose save failed, its room is busy without a round at every later moment, and accepts no message again. |
| Rounds.FailedSaveExample | residents/src/chat/mod.rs:640-655 | Such a run: from an empty start, the first message to a new room, with a failing save. |
| Rounds.SleepersWereWoken | residents/src/chat/mod.rs:1017-1036 | Between two sleep reports of a room lies an accepted message of the user in it. |
| RoomHistories.SleepsAreCounted | residents/src/chat/mod.rs:1030-1032 | At every moment the sleep generation of a room is its value at the start plus the number of reports of this room. |
| Rounds.RoundsAreBounded | residents/src/chat/mod.rs:720-773 | A round has at most 16 turns more than it began with; its follow-up turns are, in order, for the targets of the first queued mentions; every target is another member of the room. |
| Rounds.RoundsEndAfterTheirMentions | residents/src/chat/mod.rs:744-773 | When a round ends, it has followed exactly the first 16 mentions (or all), the limit was hit if and only if there was a 17th, all turns are joined, and the room is free with nobody active. |
| Rounds.RoundsNeverDeadlock | residents/src/chat/mod.rs:786-796 | While any round is open, the program itself can take a step, or a delivered request awaits its reply. |
| Termination.RoundsTerminate | residents/src/chat/mod.rs:672-774 | From any moment on, at most 9 * (k + 16) + 2 events of a round with k first turns change anything, in every run: a round cannot go on for ever. |
| Provenance.FollowUpsComeFromAnswers | residents/src/chat/mod.rs:1180-1195 | Each queued follow-up was called for by an answer that its source gave in this very round: the answer mentions the target and does not address the user. |
| Completeness.EveryMentionIsQueued | residents/src/chat/mod.rs:720-772 | When a round ends, every other member whom any answer of the round mentions, without addressing the user, has been queued for a follow-up. |
| Stages.TurnsGoOn | residents/src/chat/mod.rs:776-907 | Every event leaves a turn at its stage or takes it on to the one next stage that the program has for it: waiting, holding its lock, with its context, with its request, with its reply, settled, joined. |
| Stages.TurnsMoveExactly | residents/src/chat/mod.rs:776-907 | In every state in order, an event moves a turn if and only if the turn is at the stage that the event is for, and for the first step the turn lock of its member is free; a reply moves it if and only if it comes from its member for its request. |
| Chat.FollowMentions | residents/src/chat/mod.rs:744-772 | The loop itself, for any outcomes of the turns: it follows the first 16 of all mentions that come up, first come first served, and reports the limit if and only if there are more. |
| Chat.JoinAnswers | residents/src/chat/mod.rs:720-742 | The first loop queues the mentions of the answers in the order in which they are joined. |
| Chat.MentionsOfAnswers | residents/src/chat/mod.rs:720-772 | What is queued from any outcomes of turns is exactly what their answers call for; failed turns call nobody. |
| Effects.MessagesStartRounds | residents/src/chat/mod.rs:628-668 | In every reachable state, a message is accepted exactly when there is something to send (trimmed text or media, at most 20000 characters and 4 media), the room is there, free and not archived, and in a group every mention names a member or the user. Saved, it is then the last in its room and starts a round with one waiting turn for each member that it mentions, or for everyone, in this order; contributions start at this message. Any other message changes nothing. |
| Effects.MessagesTakeEffectExactly | residents/src/chat/mod.rs:608-655 | In every state, a message has an effect, saved or not, if and only if these conditions hold. |
| ChatOps.VerdictExactly | residents/src/chat/mod.rs:608-639 | The answer to a message: accepted if and only if these conditions hold, for the members that are mentioned or for all; otherwise the first condition that fails says which refusal it is. |
| Effects.RepliesReachTheirRooms | residents/src/chat/mod.rs:872-906 | In every run, the reply to a delivered request is never lost: at every later moment its turn still has it, or the room of the turn has a newer message of the member with its text and attachments, as a summary if and only if the turn is not direct and addresses the user. |
| Effects.NoTurnEndsSilently | residents/src/chat/mod.rs:680-742 | In every run, when a turn is joined, its room has got a reply of its member or an error message that is newer than any moment at which the turn had not answered yet. |
| Effects.LimitsAreShown | residents/src/chat/mod.rs:744-758 | In every run, when a round hits the limit, its room gets the note that says so, under the next id and in the name of the system, and keeps it. |
| Effects.LimitIsHitExactly | residents/src/chat/mod.rs:744-758 | It hits the limit if and only if it is the round of a group, all of its turns are joined, sixteen of them were follow-ups, and one more mention is queued. |
| Rounds.OnlyTheExpectedReplyCounts | residents/src/chat/mod.rs:332-340 | In every reachable state a result changes something if and only if its request is pending and its source is the one that was asked; then exactly this turn gets exactly this result. |
| Rounds.RepliesCountOnce | residents/src/chat/mod.rs:332-340 | After a result has counted, no later result with the same request id changes anything, at any later moment. |
| Rounds.WaitingTurnsAreRegistered | residents/src/chat/mod.rs:846-878 | A turn that waits for its reply is always registered with its own id and member, so that its reply channel is never dropped unanswered. |
| ChatOps.PushKeeps | residents/src/chat/mod.rs:909-956 | Appending a message keeps the rooms in order: ids ascend, stay below the counter and never repeat. |
| ChatOps.SentKeeps | residents/src/chat/mod.rs:640-655 | So does accepting a message of the user, which wakes the room and makes it busy. |
| ChatOps.InsertKeeps | residents/src/chat/mod.rs:465-490 | So does a new room. |
| ChatOps.SleptKeeps | residents/src/chat/mod.rs:1017-1036 | So does sending rooms to sleep. |
| ChatOps.CalledAreMembers | residents/src/chat/mod.rs:629-640 | An accepted message calls at least one member, each once and all of this room; in a room with one member, this one. |
| Chat.ChatResident.SendUserMessage | residents/src/chat/mod.rs:602-670 | Rejects a message if and only if one of these conditions fails, and changes nothing then; after acceptance the rooms are exactly as specified; the snapshot file follows: after success it holds the new rooms, after an error it reads as before, after a crash as before or as new (but for the one fault of a save). |
| Chat.ChatResident.PushMessage | residents/src/chat/mod.rs:935-956 | Appends one message under the next id; other rooms and counters stay; the snapshot file follows as above. |
| Chat.ChatResident.Finish | residents/src/chat/mod.rs:965-977 | Frees the room and changes nothing else; the snapshot file follows as above. |
| Chat.ChatResident.SetActive | residents/src/chat/mod.rs:958-963 | Sets the active member and changes nothing else. |
| Chat.ChatResident.SetArchived | residents/src/chat/mod.rs:1046-1063 | Refuses unknown, busy and incognito rooms without a change, otherwise sets the flag; the snapshot file follows as above. |
| Chat.ChatResident.EnsureSoloRoom | residents/src/chat/mod.rs:494-533 | Returns a room that fits, unchanged, if there is one; otherwise makes one under the next id; afterwards there is one; the snapshot file follows when an ordinary room is made, and is not touched otherwise. |
| Chat.ChatResident.Register | residents/src/chat/mod.rs:842-854 | Carries out the machine's step on the represented state: the turn gets an id that no pending request has, and its member is the one who has to reply. |
| Chat.ChatResident.Deliver | residents/src/chat/mod.rs:332-340 | Carries out the machine's step on the represented state; no turn loses or changes a reply that it has, and a turn gets one only as the result that its own member sent for the very request that this turn waits for. |
| Chat.ChatResident.SleepDue | residents/src/chat/mod.rs:1006-1044 | Puts to sleep exactly the idle rooms that are due, reports exactly these in order of their ids, and drops stale viewers of the rooms that it looked at; the snapshot file follows when there is a report, and is not touched otherwise. |
| Chat.ChatResident.EnableStorage | residents/src/chat/mod.rs:225-231 | The first call saves the present rooms, and the snapshot file follows as above; any later call is an error and changes nothing. |
| Chat.NobodyIsReportedTwice | residents/src/chat/mod.rs:1017-1036 | Checking again at the same time reports nobody. |
| Chat.WatchedRoomsStayAwake | residents/src/chat/mod.rs:1020-1029 | A room with recent activity and a viewer within the lease is not put to sleep. |
| Chat.RoomsSleepExactly | residents/src/chat/mod.rs:1017-1036 | A room falls asleep if and only if it is awake and not busy, and either nothing has happened in it for the idle time, or no viewer was seen within the lease and the last presence (or activity) lies back the grace time; then its generation goes up by one. |
| Chat.PrunedExactly | residents/src/chat/mod.rs:1017-1022 | A viewer is forgotten if and only if the room was looked at and the viewer was last seen before the lease. |
| Chat.ChatResident.RestoreRooms | residents/src/chat/mod.rs:575-600 | Puts saved rooms in place, at rest, with rebuilt assets, and raises the counters, as specified. |
| Chat.ChatResident.Restart | web/src/main.rs:445-454 | Starting from a snapshot of an orderly state gives an orderly state. |
| Snapshots.TakeSnapshot | residents/src/chat/storage.rs:48-68 | Collects the ordinary rooms in order and their assets by id. |
| Snapshots.RoomsSaved | residents/src/chat/storage.rs:52-68 | Every asset id that an ordinary room uses is saved with an asset that some message carries under this id, and nothing else is. |
| Snapshots.MediaExactly | residents/src/chat/storage.rs:52-68 | Exactly the ids that occur are saved, each with the last asset that has it, in the order of rooms, messages and attachments. |
| Snapshots.SnapshotRoundTrip | residents/src/chat/mod.rs:575-600 | Saving and restoring gives back every ordinary room with all messages, attachments and assets, only put at rest, if and only if no asset id stands for two assets (where attachments show the assets of their message). |
| Snapshots.RestoredMessageExactly | residents/src/chat/mod.rs:590-597 | A message is restored with the saved assets of exactly its attachments, in their order; an attachment without a saved asset stays as it is, and nothing else changes. |
| Snapshots.NextStartIsInOrder | residents/src/chat/mod.rs:583-588 | The restored state is in order, with or without that condition: counters above all restored ids, nobody busy, everyone asleep. |
| Snapshots.IdsGoOn | residents/src/chat/mod.rs:583-588 | Ids go on where the ordinary rooms stop: each counter is 1, or one more than an id of some ordinary room, or of some message in one. |
| RoomHistories.RunsSurviveRestart | residents/src/chat/mod.rs:575-600 | In every state that a run can reach, the next start is again a start of which all this is true, so it holds over any number of restarts; and it has every ordinary room with all messages, attachments and assets, at rest, if and only if no asset id stands for two assets. |
| Privacy.ContextsAreAlike | residents/src/chat/mod.rs:809-818 | Two states with the same ordinary rooms give a turn in an ordinary room the same context. |
| Privacy.RepliesAreAlike | residents/src/chat/mod.rs:394-405 | And the same reply to any query about an ordinary room. |
| Privacy.SnapshotsAreAlike | residents/src/chat/storage.rs:52-68 | And they are saved as the same snapshot. |
| Privacy.TurnsReadTheirSide | residents/src/chat/mod.rs:809-818 | In every run, a turn in an ordinary room reads only ordinary rooms of its member, and a turn in an incognito room reads only that room. |
| Privacy.IncognitoStepsAreInvisible | residents/src/chat/mod.rs:935-977 | Messages, flags and the end of a round in an incognito room leave all ordinary rooms as they are. |
| Privacy.IncognitoOnlyMovesIds | residents/src/chat/mod.rs:909-918 | After a message in an incognito room, the next message in an ordinary room has an id that is one more, and nothing else about ordinary rooms is different. |
| Conversations.IncognitoNeverReachesDisk | residents/src/codex/mod.rs:409-425 | If a room is always or never incognito, no incognito room is ever in any of the three files, over all runs with any errors, crashes and restarts. |
| Conversations.EachSaveIsDiscreet | residents/src/codex/mod.rs:412-419 | Without that rule: no save of one life of the program writes a room that was seen as incognito in this life. |
| Conversations.ChangedMindExample | residents/src/codex/mod.rs:412-419 | The rule is needed: a room that turns incognito later is still on disk from before. |
| Conversations.ThreadsSurviveRestarts | residents/src/codex/mod.rs:143-159 | A turn that completes in an ordinary room, and is saved, survives a restart that can read: its room goes on with its thread, and every other ordinary room with its own; no other room has one. |
| Conversations.RestartsExactly | residents/src/codex/mod.rs:143-159 | A start has the threads on disk or none, and exactly those on disk when it can read. |
| Conversations.Worker.HandleTurn | residents/src/codex/mod.rs:409-425 | The worker's maps and file change as specified. |
| Mentions.MentionCandidates | residents/src/chat/mod.rs:1131-1168 | The loop over all `@` finds the keys of the grammar, in order. |
| Grammar.CandidatesExactly | residents/src/chat/mod.rs:1131-1168 | For every text: the keys are, in order, those of all `@` that do not follow a letter, digit or underscore and have a key, and of no others. |
| Grammar.KeyAfterExactly | residents/src/chat/mod.rs:1141-1162 | What a key is: what stands in braces up to the first closing one; one of the two words for the user, if it is a whole word there; or the longest name of ASCII letters, digits, `_`, `.` and `-` without its final dots. Both directions, for every text. |
| Grammar.IsUserExactly | residents/src/chat/mod.rs:1176-1178 | The user is the two Chinese words, and "user" in any mixture of cases. |
| Text.TrimExactly | residents/src/chat/mod.rs:608 | Trimming takes away white space at both ends, all of it and nothing else. |
| Text.BlankExactly | residents/src/chat/mod.rs:886-893 | An answer is blank if and only if it is white space throughout. |
| Mentions.MentionsRoundTrip | residents/src/chat/mod.rs:1131-1168 | Scanning a list of rendered mentions separated by spaces gives back exactly their keys, in order. |
| Mentions.MentionedMembers | residents/src/chat/mod.rs:1113-1129 | The loop fails with the first key that is no member, and otherwise gives the selected keys. |
| Mentions.SelectedInOrder | residents/src/chat/mod.rs:1115-1128 | Selected keys are exactly the wanted ones, each once, in the order of their first occurrence. |
| Mentions.RenderedMentionsSelect | residents/src/chat/mod.rs:1113-1129 | A list of mentions fails if and only if it names someone who is neither member nor user; otherwise it selects its keys but the user. |
| Mentions.FollowUps | residents/src/chat/mod.rs:1180-1195 | Follow-ups go from the source to other members, none twice, and there are none when the answer addresses the user. |
| Grammar.FollowUpsExactly | residents/src/chat/mod.rs:1180-1195 | An answer calls exactly the other members that it mentions, in the order in which it first mentions them, and nobody if it mentions the user. |
| SlotFile.SaveIsAtomicExactly | residents/src/chat/storage.rs:69-89 | A save installs its value on success, changes nothing for readers on an error, and leaves the old or the new value after a crash, whatever fails, if and only if it does not roll a stale backup over a main file that its probe missed. |
| SlotFile.SavesSucceedExactly | residents/src/chat/storage.rs:69-89 | A save succeeds if and only if none of the operations that it comes to fails; the probes may fail. |
| SlotFile.StaleRollbackExample | residents/src/chat/storage.rs:76-87 | That fault happens: an error brings back an older value. |
| SlotFile.ReadersSeeTheCurrentValue | residents/src/chat/storage.rs:30-46 | A load gives an error or the current value, never an older or partial one; opening the memory file misses a backup exactly when its probe fails. |
| SlotFile.RunsRefineAnAtomicRegister | residents/src/memory.rs:287-310 | Over all runs of saves, errors, crashes and restarts from an empty directory: a load gives an error or the current value, never a partial file; opening the memory file does so if and only if it does not miss a backup by a failed probe; and each save is atomic if and only if it does not meet its fault, whatever happened before. |
| SlotFile.SnapshotFile.Save | residents/src/codex/mod.rs:161-189 | The file steps in place give exactly the specified slots and outcome. |
| Memory.HotTierIsTopK | residents/src/memory.rs:313-366 | From at most 32 hot facts, all cached, a pass leaves at most 32 hot facts, all cached; if a mature cached fact is left out, exactly 32 are hot and none of them was seen less recently. |
| Memory.PassInNumbers | residents/src/memory.rs:313-366 | What a pass makes of each fact: mentions of the last 48 hours stay; a hot fact that was idle for 7 days leaves both tiers; a place is given only to a fact that has been cached for 24 hours, with the time of the pass; and such a fact, or one that was hot, is without a place only if 32 others are hot and none of them was seen less recently. |
| Memory.EvictionTakesTheWorst | residents/src/memory.rs:342-360 | A place is lost only in a full tier, to a fact that was seen more recently, by the fact that was seen least recently, of those with the fewest messages, of those the first. |
| Memory.RebalanceRepeatsExactly | residents/src/memory.rs:313-366 | A second pass at the same time changes something if and only if, before the first, some idle fact has matured in the cache and fewer than 32 facts that are not idle are hot or mature. |
| Memory.RebalanceFixpoint | residents/src/memory.rs:313-366 | Seen from the result: a second pass changes nothing if and only if the first left no idle fact hot. |
| Memory.IdlePromotionExample | residents/src/memory.rs:320-325 | It can leave one: an idle fact that matures is promoted, and the next pass drops it from both tiers. |
| Memory.BalancedSameExactly | residents/src/memory.rs:313-366 | A pass changes nothing if and only if neither of its loops does: no demotion is undone by a promotion. |
| Memory.PromotionProgress | residents/src/memory.rs:342-360 | One turn of the promotion loop keeps the loop invariant: every loser is beaten by a full tier, capacity holds, only `hot_since` changes. |
| Memory.Sweep | residents/src/memory.rs:314-325 | The first loop, with an exact flag. |
| Memory.Promote | residents/src/memory.rs:326-360 | The second loop, with an exact flag. |
| Memory.Rebalance | residents/src/memory.rs:313-366 | The whole pass: true if and only if the facts changed, and then the revision goes up by exactly one. |
| Evidence.AbsorbedGrows | residents/src/memory.rs:229-262 | Absorbing evidence counts each message once, loses none, keeps a fact sound, and caches it only with three distinct messages. |
| Gathering.AppliedRemembers | residents/src/memory.rs:200-284 | For any memory, batch and items: afterwards every key that a usable item with an allowed message names has a fact. It has exactly the messages that it had and those of its items, each once, the text of the last of these items, a time span that is stretched over these messages and no further, its mentions in the window, and a place in the cache, dated now, when these are three; facts that no item names keep key, text, messages and span, and there are no other facts. The cursor is the greatest id of the batch. |
| Gathering.TimeOfExactly | residents/src/memory.rs:214-227 | The time of a message is that of its first event, and now when it has no time stamp. |
| Gathering.WithinExactly | residents/src/memory.rs:256-262 | Mentions inside the window stay, each as often as it was there, and no others. |
| Text.Utf8LengthExactly | residents/src/memory.rs:209-213 | The limits on keys and texts count the bytes of the UTF-8 form. |
| Gathering.UnprocessedExactly | residents/src/memory.rs:139-154 | A room offers exactly the messages above its cursor, and none while memory is off. |
| Evidence.OpGrows | residents/src/memory.rs:116-284 | Every operation keeps all facts sound, with unique keys, and loses no fact and no evidence; new evidence is a user message that was shown. |
| Evidence.OpIsTidy | residents/src/memory.rs:116-284 | Every operation keeps the hot tier within its 32 places, and one that passes over the tiers leaves the most recently seen mature facts hot. |
| Evidence.ProcessedOnce | residents/src/memory.rs:139-154 | After a batch is applied, its messages are not offered again for this room. |
| Evidence.CursorMovesBackExactly | residents/src/memory.rs:277-279 | The cursor of a room goes down if and only if memory is on and a non-empty batch ends below it. |
| Evidence.OverlappingBatches | residents/src/memory.rs:200-276 | When two workers that read the same cursor apply overlapping batches in the wrong order, the cursor moves back, and still all facts stay sound: no message counts twice for a fact. |
| MemoryManager.MemoryEqualsDisk | residents/src/memory.rs:280-284 | After success or error of an operation, memory is what reopening yields, an error changes neither, and a crash reopens to the state before or after, whatever fails, if and only if the save does not meet the one fault. |
| MemoryManager.EveryRunIsSound | residents/src/memory.rs:70-310 | Over all runs with any errors, crashes and restarts, and any faults of the reads at a restart: in memory and in every whole file, facts are sound with unique keys, the hot tier has at most 32 places, and all evidence is a user message that was shown. |
| MemoryManager.EveryPassLeavesTheTopHot | residents/src/memory.rs:313-366 | Over all runs: after every successful operation that passes over the tiers, the hot facts are the most recently seen of all mature cached facts, or there is no mature fact left out. |
| MemoryManager.EveryBatchIsRemembered | residents/src/memory.rs:187-285 | Over all runs with errors, crashes and restarts: whenever an `apply` with something to apply succeeds, its batch is remembered in this sense. |
| MemoryManager.StartsFromDiskExactly | residents/src/memory.rs:70-96 | A start fails if and only if a file that it reads cannot be read. One that succeeds begins with the memory on disk if and only if it does not miss a backup: no main file, a backup that holds more than the empty memory, and a failed probe for it; then it begins empty. |
| MemoryManager.MissedMemoryExample | residents/src/memory.rs:86-91 | That happens: a save dies after it has moved the main file away, and the next start begins empty, although no save met its fault. |
| MemoryManager.FaultlessRunsLoseNothing | residents/src/memory.rs:70-310 | As long as no save has met its one fault and no start has missed a backup: the program, while it runs, has in memory what the disk holds, and between any two moments no fact and no evidence is lost. |
| MemoryManager.OpenManager | residents/src/memory.rs:70-96 | Opening fails exactly when the file cannot be read; otherwise memory equals disk if and only if no backup was missed. |
| MemoryManager.MergeAll | residents/src/memory.rs:208-276 | The loop over the extracted items gives the facts that the rows on evidence are about. |
| MemoryManager.MemoryManager.Apply | residents/src/memory.rs:187-285 | Works on a copy, saves it, and only then replaces the memory; an error changes nothing. On success with memory on, the batch is remembered as in `AppliedRemembers`. |
| MemoryManager.MemoryManager.ReadHot | residents/src/memory.rs:166-185 | The same for reading the hot facts, which saves only when the pass changed something. |
| MemoryManager.HotTextsExactly | residents/src/memory.rs:166-185 | The texts are those of exactly the hot facts, in their order. |
| MemoryManager.StatusExactly | residents/src/memory.rs:98-114 | The status counts the facts, the cached and the hot ones. |
| MemoryManager.MemoryManager.SetEnabled | residents/src/memory.rs:116-123 | The same for switching memory on and off. |
| Relay.PendingOrAnsweredOnce | residents/src/tools/mod.rs:349-445 | At every later moment an accepted request is still pending or has been answered exactly once. |
| Relay.AnswersGoHome | residents/src/tools/mod.rs:349-445 | Every answer goes to the requester of its own request, under the call id that this requester chose; the two rows below say with what content. |
| Relay.ResultsComeFromChat | residents/src/tools/mod.rs:406-445 | Over every run: each relayed answer comes from a result that chat sent for this relay id, with this very body, while the id was waiting. |
| Relay.ResultsReachTheirRequester | residents/src/tools/mod.rs:406-445 | Conversely, each such result gives exactly this one answer, to the requester and under the call id of the request that got the relay id, and the id waits no more. |
| Relay.RequestsAreAnsweredExactly | residents/src/tools/mod.rs:349-405 | A request is accepted if and only if it has a call id and a room and, for history, a visible room and a size from 1 to 200; it waits under the next relay id, or is answered at once when chat cannot be reached; any other request is rejected at once. |
| Relay.RelayIdsAreDistinct | residents/src/tools/mod.rs:360-372 | Accepted requests get different relay ids, also when requesters reuse call ids. |
| Relay.StrayResultsAreIgnored | residents/src/tools/mod.rs:406-445 | A result changes something if and only if it comes from chat for a waiting id; a second one never does. |
| Relay.RoomTools.Run | residents/src/tools/mod.rs:262-449 | The event loop goes through exactly the states of the run that the rows above are about. |
| Registry.EveryRunIsConsistent | src/rdf.rs:179-284 | Over all runs the two indexes are inverse to each other and have the ids of the store, no instance is stored twice, ids are at most the counter, and the two places that would find the indexes in disagreement are unreachable. |
| Registry.RetiredIdsStayRetired | src/rdf.rs:338-371 | An id that was handed out and is not registered any more stays unknown as a source for ever, whoever takes its name. |
| Registry.MessagesKeepTheirRoute | src/rtdf.rs:72-115 | Every accepted message names the key that its source had when its route was resolved, and went to the mailbox that the target had then, whatever was registered or removed since; each delivery is accepted at most once. |
| Deliveries.MessagesPassTheirGates | src/rtdf.rs:72-115 | Over every run: each received message was sent to this target and then got its route; the outbound gate of its source, if the route has one, let it through after that, and the inbound gate of its target, if the route has one, after that. What is received is what the last of these gates made of it, and what was sent if there is none. |
| Deliveries.RefusedIsNeverReceived | src/rtdf.rs:79-101 | What a gate refuses is never received. |
| Deliveries.ResolvingExactly | src/rdf.rs:338-371 | A route is found if and only if source and target are registered; it has the gates and the mailbox that they are registered with, and leads to the outbound gate, the inbound gate or the mailbox, whichever comes first. |
| Registry.RegisterAnswers | src/rdf.rs:179-258 | A registration succeeds with a fresh id exactly when the instance is not stored, the name is free and an id is left, and can then be resolved; otherwise the answer names the conflict and at most the counter changes. |
| Registry.UnregisterKeeps | src/rdf.rs:260-284 | An unregistration succeeds exactly for a registered id and removes it from all three maps. |
| Registry.Rdf.RegisterResident | src/rdf.rs:179-258 | The method does what is specified and keeps the indexes consistent. |
| Registry.Rdf.UnregisterResident | src/rdf.rs:260-284 | So does this one; afterwards the id is in no map. |
| Registry.ResidentStore.ReserveInstanceId | src/resident_store.rs:28-36 | Gives the next id, or none when the ids of 64 bits are used up. |
| Registry.ResidentStore.InstanceId | src/resident_store.rs:43-48 | Finds the id under which an instance is stored, if it is. |

## Left out

- The web server, its event streams and its pages: interface plumbing.
- The child process of an LLM Resident (`residents/src/codex/app_server.rs`): a turn ends with an arbitrary result or failure.
- The other correlation maps of an LLM Resident's mailbox (`residents/src/codex/mod.rs:130-136`): each hands one result to one waiting call.
- Image decoding, base64 and the media store: an asset is a record with an id, names and paths.
- JSON: encoding is taken to lose nothing but the fields that are marked to be skipped.
- Prompts, notices, greetings and error texts: opaque strings.
- Tokio: channels, watches and broadcasts appear only as steps; a task that panics is not modelled, so the branch for a failed join of a turn is not either.
- That a Resident ever replies, and that the scheduler is fair.
- Unicode: which characters are alphanumeric, and lower case, are parameters of the model.
- Overflow of the counters for rooms, messages and requests: they are natural numbers; the bound of the instance counter is modelled.
- Memory triggers and the end hook of a sleeping room: messages without an effect on the rooms.
- Checks of identifiers, room names and heartbeats: single conditions on input.
- The list, subscribe and status calls, and the query for the members of a room: plain reads.
- Announcements that a registration sends to other Residents, and `LlmContextGate`.
- Directory flushes: a rename takes effect at once and in order, and a synced file is whole.
- Restoring rooms into a program that already has rooms, or from a hand-written file.
- Coordinator.Step: the active member is an arbitrary value, and the rooms that are due for sleep are an arbitrary set, so that the results hold for any timing; the times themselves are in `ChatResident.dfy`.
- Chat.FollowMentions: the outcomes of the turns are an arbitrary function of their position; what else happens in the rooms meanwhile is in the step machine.
- Chat.ChatResident.SendUserMessage: starting the task of the round is the step `Send` of the machine.
- MemoryManager.FaultlessRunsLoseNothing: says nothing after a save or a start has met its one fault (`MemoryEqualsDisk`, `StartsFromDiskExactly`), when memory and disk differ; `EveryRunIsSound` holds then too.
- Two whole runs that differ only in incognito rooms are not compared: message ids and the turn locks of members are shared, so ids move (`IncognitoOnlyMovesIds`) and turns may wait.
- Conversations.IncognitoNeverReachesDisk: takes it that a room is always or never incognito, as chat guarantees for the rooms of one start (`RunIsLater`); `ChangedMindExample` shows what happens otherwise.
- Snapshots.SnapshotRoundTrip: takes it that attachments show the assets of their message, which `RunsSurviveRestart` derives for all runs that start so.
