# DeerFlow channel runtime and scripts: a verified model

This project models the parts of DeerFlow where state is shared, raced for or rewritten, and
proves what those parts are there for. All proofs are for every input, every interleaving or
every run of the model. Where the code does not keep what its documentation suggests, the model
follows the code: a lemma gives an input or a run that shows it, and an if-and-only-if says under
which condition the promise is kept. The lemmas named `...ExactlyIf` or `...ExactlyWhen...` state
these conditions.

| file | models |
|---|---|
| `ThreadCreation.dfy` | one DeerFlow thread per conversation: double-checked creation under a lock from a registry that every finishing caller prunes |
| `FeishuBatches.dfy` | batching of file messages, with timers racing arrivals, batches racing each other, and preparations that raise |
| `FeishuTiming.dfy` | the same with a clock |
| `FeishuFiles.dfy` | filling the downloaded paths into a batch's text |
| `RunningCard.dfy` | one running card per Feishu message |
| `Telegram.dfy` | streamed replies edited in place, the cache of what the remote message shows, delivery of the final text, retries |
| `TelegramInterleaving.dfy` | the same cache while the sends of many keys interleave at their awaits |
| `InboundDedupe.dfy` | deduplication of provider redeliveries by an ordered map with a TTL and a bound |
| `StreamReplies.dfy` | merging of deltas and snapshots, throttling, one final message per run |
| `ChannelStore.dfy` | the conversation store and its colon-separated keys |
| `DiscordThreads.dfy` | the channel-to-thread map with its reverse index, and the splitting of long messages |
| `TableRewriter.dfy` | the rewriting of Markdown tables for DingTalk |
| `ConfigReader.dfy` | the indentation-driven reader of `config.yaml` and a printer it inverts |
| `EnvFiles.dfy` | reading and merging `.env` files |
| `Redaction.dfy` | recursive redaction of support bundles |
| `Migration.dfy` | the move of legacy directories into the per-user layout |
| `MigrationScript.dfy` | the whole script: threads, the memory file, agents and skills, one after the other |
| `Text.dfy`, `OrderedDicts.dfy`, `Wrappers.dfy` | Python's string operations, insertion-ordered dictionaries, `None` |

Concurrent protocols are state machines: a step is the code between two awaits, or a locked
section, and a run is any sequence of enabled steps. Histories (what arrived, what was made, what
was sent) are part of the state only so that properties can speak of them. Objects whose methods
update their fields are classes whose methods are proved equal to a specification function, and
the lemmas are about that function. Calls to a provider have nondeterministic outcomes with the
contract that the calling code assumes; clocks and downloaded paths are parameters. Time is a
real number and never goes back where a lemma says so.

What the proofs found about the code:

- `_get_or_create_thread` makes one thread per conversation, over all interleavings, exactly when
  the traffic is isolated (every message is looked up where it is saved, and shares its lock with
  exactly the messages of its slot) and no caller that shares its slot raises or is cancelled. Two
  bound users in one chat and topic, or a connection without an owner, are not isolated; a raising
  creation drops the lock that others wait on. Each has a run with two threads.
- Telegram's cache can be wrong in one case: an edit that was carried out reports an error and
  the message sent in its place is not accepted. A final text whose first chunk equals the stale
  cache entry is then taken as delivered and never written.
- A message gets a second running card exactly if some call finds neither card nor task although
  a card was made. Before the final text that needs a creation whose card was made but whose id
  was lost, since the call raised or returned none; after it, a message that the platform delivers
  again does it, since that starts a creation before the manager drops the duplicate. A card stays
  registered after the final text exactly if such a call was made or a creation was in flight when
  the final text was over.
- Feishu loses a whole batch, although the event loop is up, exactly if its preparation raises
  while it looks up the sender's connection: the batch has left the pending map by then.
- Feishu sends a sender's batches in the order of arrival exactly if none is dispatched while an
  older one that does not get lost is still being prepared. Preparations shorter than the window
  ensure it, if no message id comes twice; for every longer one there is a run in which the second
  batch is sent first.
- A Feishu download that fails returns a text with the placeholder in it; the paths end up out of
  place exactly if a later file of the batch has the same kind.
- A redelivered message is accepted again before its TTL is over exactly if the map of recent keys
  overflowed with newer entries in between.
- Discord's index loses entries when a thread is shared by two channels. When a record runs into
  a load on another thread, a fresh thread is lost to the index between the two clears unless the
  file knows the channel, and during the fill exactly if the channel's own item is still to come.
- A plain value with an open quote in `config.yaml` keeps the comment after it.
- The dry run of the migration announces the wrong place for legacy agents whose names differ in
  case only, and an occupied conflict slot makes a directory end one level deeper than reported.
- The migration loses one file at most: renaming the memory file over the backup that an earlier
  run has left. A thread called `agents` or `skills` that goes to the conflicts is entered by the
  agents or skills that conflict too.
- Keys of the conversation store read back exactly if channel and chat hold no colon; a
  conversation shares its key with another one exactly if it has a topic or a colon in an id.

## Model

| member | source | states |
|---|---|---|
| ThreadCreation.OneThreadExactlyWhenIsolated | deer-flow/backend/app/channels/manager.py:1366-1394 | For any routes: no failure-free run from an empty mapping makes two threads for one conversation or returns two ids, if and only if the traffic is isolated. |
| ThreadCreation.OneThreadExactlyWhenFailuresAreAlone | deer-flow/backend/app/channels/manager.py:1366-1394 | For any routes and any set of failing callers: every run in which only these fail keeps the promise, if and only if the traffic is isolated and none of them shares its slot with another caller. |
| ThreadCreation.IsolatedTrafficIsSafe | deer-flow/backend/app/channels/manager.py:1366-1394 | Over every interleaving of any number of callers, from any stored mappings, in which only callers fail that share their slot with no other: at most one creation per slot and equal ids for all who finish, although each drops the lock from the registry. |
| ThreadCreation.RunKeepsInv | deer-flow/backend/app/channels/manager.py:1366-1394 | The invariant behind it, over the same runs: while a shared slot is empty everyone at its lock uses the lock in the registry; once it is filled nobody creates for it and all read the same id. |
| ThreadCreation.StepKeepsUnsaved | deer-flow/backend/app/channels/manager.py:1380-1394 | No step of isolated traffic replaces or prunes the lock of a slot that is still empty while somebody uses it. |
| ThreadCreation.StepKeepsSaved | deer-flow/backend/app/channels/manager.py:1383-1389 | Once a slot is filled, its second look-up finds it and its value is never replaced. |
| ThreadCreation.BoundUsersInOneChatBreak | deer-flow/backend/app/channels/manager.py:1272-1291 | Two connections in one chat and topic share a lock but not a slot: one of them can make the other create two threads. |
| ThreadCreation.OwnerlessConnectionBreaks | deer-flow/backend/app/channels/manager.py:1272-1299 | A connection without an owner is looked up in the repository but saved in the store, so its second message creates again. |
| ThreadCreation.UnboundTrafficIsIsolated | deer-flow/backend/app/channels/manager.py:1279-1299 | Messages without a connection, whether or not a repository is configured, and all messages when none is, are isolated if their ids hold no colon and their topic is missing or not empty. |
| ThreadCreation.IsolatedByFields | deer-flow/backend/app/channels/manager.py:1272-1299 | For colon-free ids: the routes are isolated if and only if, for any two messages of one slot, every message agrees with them about connection, owner, conversation and topic. |
| ThreadCreation.OneFailureBreaks | deer-flow/backend/app/channels/manager.py:1390-1394 | One raising or cancelled caller is enough: any three callers of a conversation have a run in which the other two both create. |
| ThreadCreation.NoDeadlock | deer-flow/backend/app/channels/manager.py:1383-1394 | After any run, failures included, some caller can move unless all have finished. |
| FeishuBatches.EveryMessageIsInOnePlace | deer-flow/backend/app/channels/feishu.py:757-825 | After any run: every batch is in exactly one container (pending, one hand, sent once) or was lost because the loop was down or its preparation raised; it is the in-order aggregate of members within the window; the batches of a sender cut its arrivals into consecutive pieces. |
| FeishuBatches.StepKeepsInv | deer-flow/backend/app/channels/feishu.py:734-825 | Every arrival, scheduling, timer, dispatch and failure keeps that, and keeps a timer (or a call about to schedule one) for each pending batch. |
| FeishuBatches.AllSentExactlyIf | deer-flow/backend/app/channels/feishu.py:749-848 | While the loop is up: when no timer, call or hand is left, nothing is pending, no batch was sent twice, and all were sent if and only if no preparation raised. |
| FeishuBatches.SentExactlyIf | deer-flow/backend/app/channels/feishu.py:734-848 | After any drained run a batch was sent, and only once, if and only if it left the pending map and the run did not lose it (its hand-over found the loop up and its preparation did not raise); it is still pending only if its timer could not be scheduled. |
| FeishuBatches.PreparationCanLose | deer-flow/backend/app/channels/feishu.py:839-848 | A drained run with the loop up in which a preparation raises, and the batch and its message are in no container any more. |
| FeishuBatches.SentInOrderExactlyIf | deer-flow/backend/app/channels/feishu.py:801-848 | After any drained run: a sender's batches were sent in the order in which they were opened, if and only if none was dispatched while an older one of the same sender was held that the run did not lose. |
| FeishuBatches.SentAsArrived | deer-flow/backend/app/channels/feishu.py:757-825 | In that case the members of the sent batches, in the order of sending, are the sender's messages in the order of arrival, without those in batches that were lost or are still pending; all of them, if the loop was up and no preparation raised. |
| FeishuBatches.RunsDrain | deer-flow/backend/app/channels/feishu.py:811-825 | Once arrivals stop, only boundedly many steps can follow. |
| FeishuBatches.CanGoOn | deer-flow/backend/app/channels/feishu.py:734-755 | While a timer, call or hand is left, some step other than an arrival can be taken. |
| FeishuBatches.PendingBatches.Queue | deer-flow/backend/app/channels/feishu.py:757-799 | The locked section of an arrival: append inside the window, else expire the old batch and open a new one with a timer. |
| FeishuBatches.PendingBatches.Pop | deer-flow/backend/app/channels/feishu.py:801-809 | The locked section of a timer: take the batch only if its anchor is the timer's. |
| FeishuBatches.StepsAreLockedSections | deer-flow/backend/app/channels/feishu.py:757-809 | The protocol changes the pending map exactly as these two sections do. |
| FeishuBatches.ExtendedIsAggregate | deer-flow/backend/app/channels/feishu.py:762-772 | Appending a message to the aggregate of some members gives the aggregate of one more: ids, texts, joined text and files in order. |
| FeishuTiming.PromptPreparationKeepsOrder | deer-flow/backend/app/channels/feishu.py:757-848 | With a clock: if no batch of a sender is in hand for as long as the window and no message id of it comes twice, a drained run sends the sender's batches in order. |
| FeishuTiming.OvertakingHappens | deer-flow/backend/app/channels/feishu.py:757-848 | The bound is sharp: for every preparation that takes a window or longer, a drained run with the loop up and no failure sends a sender's second batch before the first. |
| FeishuTiming.TickKeepsInv | deer-flow/backend/app/channels/feishu.py:757-848 | A timed step keeps that a batch is taken a window after it was opened at the earliest, by its own timer or by the arrival that opens its sender's next batch. |
| FeishuFiles.ReceiveFile | deer-flow/backend/app/channels/feishu.py:316-337 | Each downloaded path replaces the first placeholder of its kind that is left. |
| FeishuFiles.BatchFilesLandInPlace | deer-flow/backend/app/channels/feishu.py:316-337 | For every batch: if no path contains the placeholder of a later file, each path stands at its own placeholder and none is left. |
| FeishuFiles.BatchFilesLandExactlyIf | deer-flow/backend/app/channels/feishu.py:316-337 | For every batch, and paths that are not empty and do not start with a bracket: each path stands at its own placeholder and none is left, if and only if no path contains the placeholder of a later file. |
| FeishuFiles.FailedDownloadsMisplaceExactlyIf | deer-flow/backend/app/channels/feishu.py:316-410 | With any set of failed downloads: the paths are in place if and only if no failed file is followed by a file of its kind. |
| FeishuFiles.FailedDownloadMisplaces | deer-flow/backend/app/channels/feishu.py:328-336 | The smallest such case: a failed download puts its placeholder back, and the next path lands inside the failure text. |
| RunningCard.OneCardPerMessage | deer-flow/backend/app/channels/feishu.py:497-593 | Over every interleaving: at most one creation in flight; at most one card with a known id more than final texts; before the first final text one such card, to which every update goes. |
| RunningCard.SecondCardExactlyIf | deer-flow/backend/app/channels/feishu.py:507-593 | For every run, creations whose card was made but whose id was lost included: a second card is made or in the making at some point, if and only if some call found neither a card nor a task although a card had been made; without such a call there is one card at most. |
| RunningCard.LateCallMakesAnotherCard | deer-flow/backend/app/channels/feishu.py:839-848 | Such a late call is always enabled, and the return of the creation it starts is one more card. |
| RunningCard.LateBeforeFinalExactlyIf | deer-flow/backend/app/channels/feishu.py:497-593 | Before the first final text such a call is possible exactly if an id was lost and neither card nor task is registered. |
| RunningCard.OneCardUntilFinal | deer-flow/backend/app/channels/feishu.py:497-593 | If no id is lost, there is one card at most until the first final text. |
| RunningCard.CardOutlivesFinalExactlyIf | deer-flow/backend/app/channels/feishu.py:507-593 | For every run: a card is registered, or about to be, after a final text, if and only if a call started a creation after it or the final text was over while a creation was in flight. |
| RunningCard.HangingCanBeLeft | deer-flow/backend/app/channels/feishu.py:545-593 | From a reachable state, answers to what is under way can leave the card registered with nobody to take it down, if and only if it hangs in this sense. |
| RunningCard.StepKeepsInv | deer-flow/backend/app/channels/feishu.py:497-593 | Each step of ensuring, creating, calling back and sending keeps the invariant behind it. |
| RunningCard.NoSendIsStuck | deer-flow/backend/app/channels/feishu.py:545-593 | A send that waits can go on, or what it waits for can still return or raise. |
| RunningCard.LateUpdateMakesASecondCard | deer-flow/backend/app/channels/feishu.py:584-590 | Such a call is possible: a run that ends with two cards, the second of which nothing takes down. |
| RunningCard.LostIdMakesASecondCard | deer-flow/backend/app/channels/feishu.py:497-528 | A run without any final text in which a lost id leads to two cards. |
| RunningCard.CreationOutlivesFinal | deer-flow/backend/app/channels/feishu.py:575-590 | A final text sent as a reply can be over before a creation begun meanwhile returns; the card then stays registered. |
| Telegram.SplitHoldsTheText | deer-flow/backend/app/channels/telegram.py:335-336 | The chunks concatenate to the text; all but the last are full, the last is empty only for the empty text. |
| Telegram.TelegramChannel.Send | deer-flow/backend/app/channels/telegram.py:117-138 | Any outcomes: the cache stays right while no request fails unclearly; with a right cache, a final text for a tracked stream that raises nothing is shown by the chosen messages, chunk by chunk and in order, and no call on this path exceeds the limit; an untracked final text is sent whole. |
| Telegram.TelegramChannel.SendStreamUpdate | deer-flow/backend/app/channels/telegram.py:140-195 | The cache stays right exactly unless an unclear edit is followed by a fallback that is not accepted; an update that is held back changes nothing; an accepted one is shown and cached. |
| Telegram.TelegramChannel.EditStream | deer-flow/backend/app/channels/telegram.py:174-195 | The same for the edit of a tracked message that is due, with its fallback to a new message. |
| Telegram.TelegramChannel.TryEdit | deer-flow/backend/app/channels/telegram.py:174-183 | An edit that ends clearly keeps the cache right; one that was carried out but reports an error makes it wrong. |
| Telegram.TelegramChannel.FinalizeStream | deer-flow/backend/app/channels/telegram.py:197-214 | Without an error raised, the messages show the chunks in order if and only if the cache was right about the message or the first chunk differs from it. |
| Telegram.TelegramChannel.DeliverFirst | deer-flow/backend/app/channels/telegram.py:202-211 | The first chunk is shown by the edited or by a fresh message under the same condition; no other message changes. |
| Telegram.TelegramChannel.DeliverRest | deer-flow/backend/app/channels/telegram.py:213-214 | Each follow-up adds one message for its chunk and leaves what was delivered. |
| Telegram.TelegramChannel.EditFinalChunk | deer-flow/backend/app/channels/telegram.py:216-230 | At most two edits, the second only after a rate limit; true exactly when the message is known to show the text. |
| Telegram.TelegramChannel.SendNewMessage | deer-flow/backend/app/channels/base.py:75-107 | At most the allowed number of attempts; success gives the newest message, which shows the text and is remembered for threading. |
| Telegram.TelegramChannel.RegisterStream | deer-flow/backend/app/channels/telegram.py:309-317 | The newest message is tracked, the oldest are forgotten beyond the limit. |
| Telegram.TelegramChannel.SendRunningReply | deer-flow/backend/app/channels/telegram.py:338-357 | Without an application or with a malformed chat id nothing happens; otherwise one message is sent and, if accepted, becomes the tracked message of its key, with its own text in the cache. |
| Telegram.RegisteredTracks | deer-flow/backend/app/channels/telegram.py:309-317 | Registering keeps distinct keys on distinct messages, the bound, and the cache right. |
| Telegram.EditUnclear | deer-flow/backend/app/channels/telegram.py:174-183 | An unclear edit makes the cache wrong about that message and about no other. |
| TelegramInterleaving.CacheIsRightExactlyIf | deer-flow/backend/app/channels/telegram.py:117-230 | Over every interleaving of the sends of any number of keys, running replies of a key during its stream and entries forgotten at any time included: a tracked entry says what its message shows, if and only if no edit of it is in flight and none has left it stale; a message that a final text took as delivered shows its chunk, if and only if the text was not trusted to a stale entry. |
| TelegramInterleaving.SkippedChunkIsShownExactlyIf | deer-flow/backend/app/channels/telegram.py:131-138 | A final text whose first chunk the cache says is shown: the message is taken as delivered, and shows the chunk if and only if the entry was not stale when the text came. |
| TelegramInterleaving.StaleFinalIsNotWritten | deer-flow/backend/app/channels/telegram.py:174-214 | A reachable state in which a final text is through and its message shows another text. |
| TelegramInterleaving.DeliveredInOrder | deer-flow/backend/app/channels/telegram.py:197-214 | When a final text is through, whatever ran meanwhile: its chunks stand in its key's messages, oldest first, all shown but a first one trusted to a stale entry. |
| TelegramInterleaving.ClearKeysAreRight | deer-flow/backend/app/channels/telegram.py:140-195 | While none of a key's own requests fails unclearly its entry is right, whatever happens to the others, except during the key's own unanswered edit. |
| TelegramInterleaving.SettledStays | deer-flow/backend/app/channels/telegram.py:197-230 | A message that a final text has settled is never changed again. |
| TelegramInterleaving.ActedKeeps | deer-flow/backend/app/channels/telegram.py:140-230 | A step of one key keeps its own entry good, and changes no message or entry of another key and nothing settled. |
| TelegramInterleaving.OthersStayGood | deer-flow/backend/app/channels/telegram.py:309-317 | Another key's step, one that forgets the entry of an edit under way included, keeps an entry as good as it was. |
| InboundDedupe.AcceptedAgainExactlyIf | deer-flow/backend/app/channels/manager.py:1102-1141 | In any run with a clock that never goes back, while a key is neither accepted again nor released: a redelivery is accepted if and only if more than the TTL has passed or a message has come while the map was full of newer entries. |
| InboundDedupe.AcceptedAgainExactlyAfterTtl | deer-flow/backend/app/channels/manager.py:1102-1141 | In particular, while fewer others are accepted than the map holds: if and only if more than the TTL has passed. |
| InboundDedupe.RunKeepsExactly | deer-flow/backend/app/channels/manager.py:1108-1141 | Over a run, with releases of other keys taken into account: a key is lost only by expiry or overflow, and one that is still there was never overflown. |
| InboundDedupe.EvictingIsScanning | deer-flow/backend/app/channels/manager.py:1108-1115 | In chronological order, popping from the front removes exactly what a full scan would. |
| InboundDedupe.ReceivedIsGood | deer-flow/backend/app/channels/manager.py:1102-1129 | Handling a message keeps keys unique, in chronological order, and at most one more than the cap. |
| InboundDedupe.DroppedIsGood | deer-flow/backend/app/channels/manager.py:1131-1141 | So does releasing a key. |
| InboundDedupe.PrunedIsSuffix | deer-flow/backend/app/channels/manager.py:1110-1117 | Pruning keeps the newest entries; one is lost only if it is expired or too many are newer. |
| InboundDedupe.KeptExactlyIf | deer-flow/backend/app/channels/manager.py:1108-1117 | Pruning keeps a key if and only if it has not expired and fewer newer entries are there than the map may hold. |
| InboundDedupe.Deduper.CheckDuplicate | deer-flow/backend/app/channels/manager.py:1102-1129 | The two eviction loops, the test and the insertion do what the specification of a received message says; a message without a key changes nothing. |
| InboundDedupe.Deduper.Release | deer-flow/backend/app/channels/manager.py:1131-1141 | Forgets just the one key. |
| StreamReplies.MergeKeepsBoth | deer-flow/backend/app/channels/manager.py:356-366 | The old buffer is a prefix of the merge, the chunk a suffix, and merging it again changes nothing. |
| StreamReplies.MergeAppendsExactlyWhen | deer-flow/backend/app/channels/manager.py:356-366 | A chunk is appended if and only if it neither extends the buffer nor is already its end. |
| StreamReplies.SnapshotsEndAtTheLast | deer-flow/backend/app/channels/manager.py:356-366 | Growing snapshots end at the last one. |
| StreamReplies.DeltasConcatenate | deer-flow/backend/app/channels/manager.py:356-366 | Deltas that look neither like a snapshot nor like a repetition end at their concatenation. |
| StreamReplies.AccumulateTouchesOneBuffer | deer-flow/backend/app/channels/manager.py:385-419 | A chunk extends the buffer of its id and no other, and shows that buffer. |
| StreamReplies.HandleStreamingChat | deer-flow/backend/app/channels/manager.py:1603-1700 | Every run, ended or failed, publishes the throttled updates and then exactly one final message, last and never empty. |
| StreamReplies.RunIsSpaced | deer-flow/backend/app/channels/manager.py:1625-1651 | Consecutive updates differ and are a second or sixty more characters apart. |
| StreamReplies.UpdatesAreBounded | deer-flow/backend/app/channels/manager.py:1603-1651 | For any run: updates are bounded by the time, the length of the last one and the text given up on the way. |
| StreamReplies.OneReplyIsThrottled | deer-flow/backend/app/channels/manager.py:1603-1651 | For a reply in one buffer: at most one update, one a second and one per sixty characters. |
| ChannelStores.KeysSeparateConversations | deer-flow/backend/app/channels/store.py:74-78 | Colon-free conversations have equal keys if and only if they are the same conversation. |
| ChannelStores.PartsOfKey | deer-flow/backend/app/channels/store.py:142-146 | Splitting a key gives back channel, chat and topic if and only if neither channel nor chat holds a colon. |
| ChannelStores.SharesItsKeyExactlyIf | deer-flow/backend/app/channels/store.py:74-78 | A conversation shares its key with a different one if and only if it has a topic or a colon in its channel or chat. |
| ChannelStores.ColonsCollide | deer-flow/backend/app/channels/store.py:74-78 | A colon in a chat id makes two conversations share an entry. |
| ChannelStores.SetRefinesTable | deer-flow/backend/app/channels/store.py:87-107 | Setting changes one conversation of the table and keeps its creation time. |
| ChannelStores.RemoveTopicRefinesTable | deer-flow/backend/app/channels/store.py:119-126 | Removing a topic removes that conversation only. |
| ChannelStores.RemoveChatRefinesTable | deer-flow/backend/app/channels/store.py:128-137 | Removing without a topic removes exactly the conversations of that chat. |
| ChannelStores.ListingShowsTheTable | deer-flow/backend/app/channels/store.py:139-153 | A row is listed if and only if the table holds that conversation with that entry and the channel fits. |
| ChannelStores.ChannelStore.GetThreadId | deer-flow/backend/app/channels/store.py:82-85 | The thread of the conversation's entry, if there is one. |
| ChannelStores.ChannelStore.SetThreadId | deer-flow/backend/app/channels/store.py:87-107 | The dictionary becomes the specified one. |
| ChannelStores.ChannelStore.Remove | deer-flow/backend/app/channels/store.py:109-137 | Both kinds of removal, and whether anything was removed. |
| ChannelStores.ChannelStore.ListEntries | deer-flow/backend/app/channels/store.py:139-153 | The loop lists the specified rows in order. |
| DiscordThreads.RecordKeepsIndexExactlyIf | deer-flow/backend/app/channels/discord.py:133-148 | Recording keeps the index equal to the set of values if and only if the replaced id is the new one, or belongs to no other channel (for an empty id: if it does). |
| DiscordThreads.RunKeepsIndex | deer-flow/backend/app/channels/discord.py:115-165 | Over every run of loads, persists and records of ids that no other channel holds, the index is the set of values. |
| DiscordThreads.PersistThenLoad | deer-flow/backend/app/channels/discord.py:115-165 | What was persisted is what is loaded: the map in its order, and an index that agrees. |
| DiscordThreads.SharedThreadBreaksIndex | deer-flow/backend/app/channels/discord.py:144-148 | With two channels on one thread, replacing it in one makes the index forget the other. |
| DiscordThreads.LoadWithRecordKeepsIndexExactlyIf | deer-flow/backend/app/channels/discord.py:115-148 | For a record of any id for any channel at any moment of a load: the exact condition, on the file and the moment, for index and map to agree afterwards. |
| DiscordThreads.FreshRecordDuringLoad | deer-flow/backend/app/channels/discord.py:115-148 | For a thread just created: they agree if and only if the record comes before the clears, or between them for a channel in the file, or after the channel's own item is stored or if it has none. |
| DiscordThreads.RecordSurvivesLoadExactlyIf | deer-flow/backend/app/channels/discord.py:115-148 | The recorded thread is the channel's after the load if and only if the file says so, or the record comes after the clear of the map and no item of the channel follows. |
| DiscordThreads.LoadAlone | deer-flow/backend/app/channels/discord.py:123-127 | Undisturbed, the steps of the load give the map of the file and its index. |
| DiscordThreads.RecordBetweenClearsBreaks | deer-flow/backend/app/channels/discord.py:117-127 | A record between the two clears leaves index and map in agreement if and only if the file has the channel or the id; if not, the channel's mapping is one that the index does not know. |
| DiscordThreads.RecordBeforeLoadIsForgotten | deer-flow/backend/app/channels/discord.py:110-127 | A record before the load clears the map leaves no trace: the channel is mapped as in the file. |
| DiscordThreads.ThreadIndex.RecordThreadMapping | deer-flow/backend/app/channels/discord.py:133-148 | Map and index after a record. |
| DiscordThreads.ThreadIndex.LoadActiveThreads | deer-flow/backend/app/channels/discord.py:115-131 | Map and index are those of the file; without a readable file nothing changes. |
| DiscordThreads.ThreadIndex.PersistThreadMappings | deer-flow/backend/app/channels/discord.py:150-165 | The file holds the map, or whatever a failed write left. |
| DiscordThreads.SplitText | deer-flow/backend/app/channels/discord.py:626-643 | The loop ends, with the specified chunks. |
| DiscordThreads.ChunksFit | deer-flow/backend/app/channels/discord.py:626-643 | Every chunk is non-empty and fits; a text that fits is one chunk. |
| DiscordThreads.ChunksHoldTheText | deer-flow/backend/app/channels/discord.py:626-643 | The text is the chunks interleaved with whole runs of newlines. |
| DiscordThreads.CutAtSpec | deer-flow/backend/app/channels/discord.py:634-636 | A cut is at the last newline that leaves a non-empty piece that fits, or at the limit. |
| DiscordThreads.SplittingLosesNothingExactlyIf | deer-flow/backend/app/channels/discord.py:638 | The chunks concatenate to the text if and only if no newline stands at a cut. |
| TableRewriter.ConvertMarkdownTable | deer-flow/backend/app/channels/dingtalk.py:80-100 | The nested loops produce the specified conversion of the text's lines. |
| TableRewriter.QuoteRow | deer-flow/backend/app/channels/dingtalk.py:93-94 | One quote line per header and cell pair. |
| TableRewriter.ConvertLeavesNoTable | deer-flow/backend/app/channels/dingtalk.py:80-100 | The output has no header line followed by a separator line. |
| TableRewriter.ConvertIsIdempotent | deer-flow/backend/app/channels/dingtalk.py:80-100 | Converting twice is converting once, for any lines. |
| TableRewriter.ConvertTextIsIdempotent | deer-flow/backend/app/channels/dingtalk.py:80-100 | The same for the whole text, through splitting and joining. |
| TableRewriter.BlocksOf | deer-flow/backend/app/channels/dingtalk.py:80-100 | Any lines are a sequence of plain lines and whole tables; plain lines come through unchanged and in order, tables as their quoted rows. |
| TableRewriter.RowsAreQuoted | deer-flow/backend/app/channels/dingtalk.py:91-96 | Each data row becomes one quote line per header and cell pair and a blank line. |
| ConfigReader.SectionValueReadsTheTree | deer-flow/scripts/detect_uv_extras.py:105-142 | For any tree with unique names, printed with any consistent indentation, blank lines, comments, deeper mappings and lists: a value is returned if and only if the tree stores it at that section and key. |
| ConfigReader.NestedValueReadsTheTree | deer-flow/scripts/detect_uv_extras.py:145-220 | The same three levels down, for any section path: only a path with one dot names anything. |
| ConfigReader.SectionFinds | deer-flow/scripts/detect_uv_extras.py:105-142 | Even with repeated names, from any state of the scan, the first scalar at the path is found. |
| ConfigReader.NestedFinds | deer-flow/scripts/detect_uv_extras.py:145-220 | The same for nested sections. |
| ConfigReader.PrintedIsSeen | deer-flow/scripts/detect_uv_extras.py:74-96 | Every printed line is read as the part of the tree it was printed for, whatever quotes, comments and blanks it has. |
| ConfigReader.PlainReadsBackExactlyIf | deer-flow/scripts/detect_uv_extras.py:79-102 | Before a comment a plain value reads back if and only if it has no `#` outside quotes, leaves no quote open and is not wrapped in quotes. |
| ConfigReader.ValueAtIsStored | deer-flow/scripts/detect_uv_extras.py:105-113 | With unique names, the first scalar at a path is the only one stored there. |
| ConfigReader.StripComment | deer-flow/scripts/detect_uv_extras.py:79-96 | The loop cuts at the first `#` outside quotes and strips the end. |
| ConfigReader.SectionValue | deer-flow/scripts/detect_uv_extras.py:105-142 | The loop over the lines computes the specified scan. |
| ConfigReader.NestedSectionValue | deer-flow/scripts/detect_uv_extras.py:145-220 | The loop over the lines computes the specified nested scan. |
| EnvFiles.FileRoundTrip | deer-flow/scripts/wizard/writer.py:32-73 | Through the file: reading after writing gives the old mapping overridden by the pairs, and writing again changes nothing. |
| EnvFiles.PairReadsBackExactlyIfPlain | deer-flow/scripts/wizard/writer.py:38-43 | A written pair reads back as itself if and only if key and value are trimmed, and the key has no `=` and does not start with `#`. |
| EnvFiles.WrittenReads | deer-flow/scripts/wizard/writer.py:47-73 | Reading the written lines gives the override, key by key. |
| EnvFiles.OtherLinesStay | deer-flow/scripts/wizard/writer.py:59-67 | Every line that assigns none of the pairs is kept verbatim and in place. |
| EnvFiles.WritingTwice | deer-flow/scripts/wizard/writer.py:47-73 | Writing the same pairs to the written lines changes nothing. |
| EnvFiles.ReadEnvFile | deer-flow/scripts/wizard/writer.py:32-44 | The loop fills the mapping that the lines assign. |
| EnvFiles.WriteEnvFile | deer-flow/scripts/wizard/writer.py:47-73 | The loops produce the specified content. |
| EnvFiles.UpdateLines | deer-flow/scripts/wizard/writer.py:57-67 | The first loop rewrites the assigning lines and collects their keys. |
| Redaction.HidesExactly | deer-flow/scripts/support_bundle.py:76-122 | Two trees redact to the same tree if and only if they differ only in what is hidden: secret keys, header values, non-reference env values, strings after a secret flag, and texts that redact alike. |
| Redaction.ItemsHideExactly | deer-flow/scripts/support_bundle.py:76-90 | The same for list items, with the mask carried from item to item. |
| Redaction.EnvValueHidesExactly | deer-flow/scripts/support_bundle.py:93-99 | The same for one env value. |
| Redaction.RedactionIsIdempotent | deer-flow/scripts/support_bundle.py:76-122 | Redacting twice is redacting once, if redacting a text is, fixes the mask and makes no flag. |
| Redaction.RedactData | deer-flow/scripts/support_bundle.py:102-122 | The recursion with its loop over fields computes the redacted tree. |
| Redaction.RedactEnv | deer-flow/scripts/support_bundle.py:109-110 | The loop over an env mapping. |
| Redaction.RedactSecretFlagList | deer-flow/scripts/support_bundle.py:76-90 | The loop with its `mask_next` state computes the redacted items. |
| Migration.MigrationPlaces | deer-flow/backend/scripts/migrate_user_isolation.py:18-212 | After every run that ends well each legacy directory stands whole where it landed and not where it was: in the owner's slot if that was free at its turn, else in the conflict slot, or below that if it was occupied. |
| Migration.EndsWellExactlyIfReady | deer-flow/backend/scripts/migrate_user_isolation.py:40-63 | A run ends well if and only if, as told from the tree at the start, no file is in the way of any slot needed and nothing is where a directory would land. |
| Migration.MigrationTouchesNothingElse | deer-flow/backend/scripts/migrate_user_isolation.py:18-212 | After every run that ends well every other file is where it was with its content, and no other file is new. |
| Migration.NothingIsLost | deer-flow/backend/scripts/migrate_user_isolation.py:40-63 | Whatever is in the way, and even if a move raises: the files before and after the migration correspond one to one, each with its content. |
| Migration.SecondRunChangesNothing | deer-flow/backend/scripts/migrate_user_isolation.py:1-7 | After a run that ended well a second run changes and reports nothing. |
| Migration.DryRunPredictsExactlyIf | deer-flow/backend/scripts/migrate_user_isolation.py:102-130 | If the real run ends well, whatever lies in the conflict slots, the dry run reports exactly its actions if and only if no two directories want one slot that is still free. |
| Migration.ThreadsAndSkillsArePredicted | deer-flow/backend/scripts/migrate_user_isolation.py:40-69 | For threads and skills the dry run is exact for every run that ends well. |
| Migration.CaseVariantsBreakDryRun | deer-flow/backend/scripts/migrate_user_isolation.py:105-122 | For two agents whose names differ in case only it is not. |
| Migration.ConflictSlotHoldsItExactlyIfFree | deer-flow/backend/scripts/migrate_user_isolation.py:49-55 | With the owner's slot taken, a directory ends in the reported conflict slot if and only if that is free; in an occupied one it nests. |
| Migration.MovedSpec | deer-flow/backend/scripts/migrate_user_isolation.py:52-60 | One move takes the whole subtree to its target and changes nothing else. |
| Migration.LayoutsAreSound | deer-flow/backend/scripts/migrate_user_isolation.py:35-50 | In all three layouts, different slots never lie in one another. |
| Migration.Disk.Migrate | deer-flow/backend/scripts/migrate_user_isolation.py:133-212 | The whole function, history and cleanup included; with `dry_run` the tree does not change. |
| Migration.Disk.MigrateEach | deer-flow/backend/scripts/migrate_user_isolation.py:40-63 | The loop over the listed directories moves them and reports as specified. |
| MigrationScript.OnlyABackupIsLost | deer-flow/backend/scripts/migrate_user_isolation.py:40-244 | The whole script, even if it ends in an exception: files before and after correspond one to one, each with its content, but for the memory backup of an earlier run, which is lost if and only if the memory file is renamed over it. |
| MigrationScript.SecondScriptChangesNothing | deer-flow/backend/scripts/migrate_user_isolation.py:1-7 | After a script that ended well a second one, with any listings, changes and reports nothing. |
| MigrationScript.ScriptIsPredictedExactlyIf | deer-flow/backend/scripts/migrate_user_isolation.py:291-294 | If the script ends well, its dry run has reported all parts exactly, although each part looks at a tree that the earlier ones have changed, if and only if no two agents want one slot that is free at the start. |
| MigrationScript.ThreadStaysWholeExactlyIf | deer-flow/backend/scripts/migrate_user_isolation.py:48-55 | After a script that ends well a thread's directory is whole where it landed if and only if no agent or skill has landed inside it. |
| MigrationScript.OnlyTwoNamesAreShared | deer-flow/backend/scripts/migrate_user_isolation.py:48-116 | That can happen only to a thread called `agents` or `skills` that went to the conflicts. |
| MigrationScript.ConflictingAgentEnters | deer-flow/backend/scripts/migrate_user_isolation.py:48-116 | It does happen to a thread called `agents` there as soon as one agent conflicts. |
| MigrationScript.RunScript | deer-flow/backend/scripts/migrate_user_isolation.py:291-294 | The calls of `main`, on the disk, compute the specified sequence and reports; with `dry_run` the tree does not change. |
| MigrationScript.MigrateMemory | deer-flow/backend/scripts/migrate_user_isolation.py:215-244 | The memory file moves to its owner, or is renamed to the backup. |

## Left out

- Unicode: blanks and `\w` are the ASCII ones, and the newline is the only line break.
- Regular expressions of the redactor (secret keys, env keys, flags, references, text patterns) are parameters; those of the config reader, the table separator and the splitters are written out.
- ThreadCreation.OneThreadExactlyWhenIsolated: thread creation with a preferred id and its conflict recovery, `/new` and `/goal`, and HTTP calls are not modelled; a waiting caller may take a free lock in any order, which allows more runs than asyncio's queue does.
- FeishuBatches.EveryMessageIsInOnePlace: batches are values rather than dictionaries updated in place; a timer may fire at any time after it is scheduled, which includes the delay that the code sleeps (`FeishuTiming.dfy` models it).
- FeishuTiming.PromptPreparationKeepsOrder: the batches' times and the timers' sleep are taken from one clock that never goes back.
- FeishuFiles.ReceiveFile: the downloads are given as the list of paths or failure texts they return.
- FeishuFiles.BatchFilesLandExactlyIf: paths are not empty and do not start with a bracket, as virtual paths and failure texts do; without this the condition is only sufficient (FeishuFiles.BatchFilesLandInPlace).
- RunningCard.OneCardPerMessage: card contents, reactions and the mapping of replies to threads are not modelled; the protocol is a state machine on values. A redelivered message that makes a late call is an action of it; its way through the platform and the manager is not.
- Telegram.TelegramChannel.Send: sends run one after the other here; `TelegramInterleaving.dfy` interleaves those of different keys. Backoff delays, typing and formatting are not modelled. Message ids count the messages of one chat list.
- TelegramInterleaving.CacheIsRightExactlyIf: two messages of the manager for one key in flight at once are not modelled; which keys are forgotten for a new one and how often a request is tried again is left open, which allows more runs than the code has.
- StreamReplies.HandleStreamingChat: extraction of text and artifacts from a values event is given as strings; the fallback for attachments without any text cannot be reached, since resolved file names are always appended.
- InboundDedupe.AcceptedAgainExactlyIf: how a key is made from a message and who releases it is not modelled.
- ChannelStores.ChannelStore.SetThreadId: the JSON file, its atomic replacement and the lock around it are not modelled.
- DiscordThreads.LoadWithRecordKeepsIndexExactlyIf: one record runs into a load, as a step of its own; files that hold anything but a dictionary of texts are not modelled.
- ConfigReader.SectionValueReadsTheTree: anchors, block scalars, flow style and tabs as indentation are not part of the printed trees; choosing the file and the extras from the values is left out.
- EnvFiles.WriteEnvFile: encoding and file permissions are not modelled.
- Migration.Disk.Migrate: the order of the listing is a parameter, parent directories that a failing move may have made are not modelled, and neither are links or names with separators.
- MigrationScript.RunScript: `Path.rename` is the POSIX one, which replaces an existing file; the owners' database, the log and the command line are not modelled.
- Migration.ThreadsAndSkillsArePredicted: agents are left to the exact condition, since two of them can share a lower-case name.
- Redaction.RedactData: tuples are lists, and the rewriting of text inside a value is a parameter.
- The other channels, the gateway, the provisioner, authentication, the wizard's screens, the checking scripts and the frontend are left out: they add lookups, layout and calls, not state that these properties depend on.
