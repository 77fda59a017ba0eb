# Verified models of the proxy's hard parts

This project states, in Dafny, what the proxy's most intricate code does and proves what that code is for. It covers
the Anthropic turn encoder and decoder, the restart handoff, the backup archive, the restore transaction, and six
smaller cores: the failed-authentication limiter, version ordering, byte sizes, the documentation copy, the
configuration salvage, and decode-after-encode.

Code that computes values is modelled by functions and lemmas. Code that works step by step is modelled by methods and
classes, each proved against the function that specifies it; the properties are then proved of that function, for every
input, every run or every interleaving. `dafny verify dfyconfig.toml` checks everything.

| files | what they model |
|---|---|
| `anthropic_model`, `anthropic_encode`, `anthropic_turns`, `anthropic_linkage`, `anthropic_items`, `anthropic_conservation`, `anthropic_adjacency`, `anthropic_loops` | the history-to-turns encoder: placement, tool linkage, conservation, neighbours, and its loops |
| `anthropic_system`, `anthropic_wire` | the same told of source blocks alone: where every system text stands, and what carries every block |
| `anthropic_decode`, `anthropic_decode_loops` | decoding content, and the namespace of tool ids that two walks over the same tree share |
| `anthropic_meaning` | which requests can be read, and what they mean, told without that namespace |
| `anthropic_normal`, `anthropic_settling` | what decode-after-encode gives, and when repeating it changes nothing |
| `anthropic_round_trip` | a whole history through the turn encoder and back through the decoder |
| `restart_protocol`, `restarter` | the restart handoff as a transition system, and the restarter's critical sections |
| `archive_bytes`, `archive_framing`, `archive_decode`, `archive_decode_loops`, `archive_encode` | the backup archive: framing, both decoders, the streaming encoder with its self-check |
| `restore`, `restore_steps` | the apply phase of a restore, with a fault at any step and a crash after any file operation |
| `auth_limiter` | the bounded throttle and the order in which requests consult it |
| `semver`, `lexicographic` | version validation, comparison, and the newest of a list |
| `byte_size`, `decimal`, `text` | the byte-size printer and parser; trimming, cutting and splitting |
| `config_salvage`, `config_maximal` | merging configuration keys, the greedy salvage, the lenient and the fail-closed loader; which skipped keys are skipped for good under the validation rules |
| `redaction`, `redaction_copy`, `redaction_loops` | aliases, the redacted rows, and the verifier of the documentation copy |
| `redaction_publishable` | what may be published and what can be redacted, told without either |
| `sequences`, `wrappers` | shared sequence functions and Option/Result |

## Where the code does not do what one might expect

Each of these is stated beside a condition under which the property holds; all but the last come with a concrete input
or run.

- **Decode-after-encode is not idempotent.** Two refusals become two unmarked texts, which the next encoding joins into
  one string (`AnthropicSettling.NotIdempotent`). `IdempotentIff` gives the exact condition, read off the source blocks;
  from the second trip on nothing changes (`SecondTripIsFinal`).
- **A restart can leave the process idle without a listening socket.** If the first server's `Serve` breaks, and the main
  loop, having read that, finds a handoff committed while the socket has never been duplicated, the result is ignored and
  the duplication fails (`RestartProtocol.SocketCanBeLost`). `SocketIsKeptUnlessSwallowed` shows that this is the only
  way.
- **A merge that came with a configuration is not rolled back** when the configuration fails (`Restore.MergeStays`), as
  the handler's own comment says; everything else is all or nothing (`Restore.AllOrNothing`), and a failed restore leaves
  everything as it was exactly when no merge wrote anything (`Restore.FailureLeavesNothingIff`).
- **The greedy salvage can drop a key that its result would take.** Only the length limit of the whole document does
  this: the other rules of `Validate` never refuse in the second pass what the result allows
  (`ConfigMaximal.OnlyLengthBringsBack`). The salvage is maximal when the document fits at its widest or no value renders
  shorter than its default (`SalvageIsMaximal`). For a long path beside two connection limits that must change together,
  `LengthDropsAKeyThatFits` gives exactly the lengths at which it is not.
- **A ceiling below the 48 bytes of the header** does not keep the staging file within the ceiling: the placeholder
  header is written before the ceiling is looked at. The encoder then fails, and from 48 bytes on the ceiling always
  holds (`ArchiveEncode.EncodeFile`). Only a direct caller can see this, with a ceiling of 40 bytes for instance: the
  configuration admits none below 1 MiB.

## Model

| member | source | states |
|---|---|---|
| AnthropicEncode.EncodeAnthropicBlocks | internal/format/anthropic_ir_request_encode.go:526-699 | splitting off the tool results and rendering in one pass gives the results-first order of the rendered blocks |
| AnthropicEncode.EncodeAnthropicContent | internal/format/anthropic_ir_request_encode.go:457-480 | nil, the joined string or the block array, exactly as all-plain content decides |
| AnthropicEncode.OrderRenderedResultsFirst | internal/format/anthropic_ir_request_encode.go:424-452 | the result is the stable results-first partition, and a move is reported exactly when a result followed another block |
| AnthropicEncode.RenderPartition | internal/format/anthropic_ir_request_encode.go:526-537 | partitioning canonical blocks and then rendering is rendering and then partitioning |
| AnthropicEncode.ResultsFirstIncremental | internal/format/anthropic_ir_request_encode.go:398-417 | ordering a turn each time it grows gives what ordering it once at the end gives |
| AnthropicEncode.FormIs | internal/format/anthropic_ir_request_encode.go:457-480 | a message is sent as nothing, as one string or as blocks exactly as it holds unmarked texts that are all empty, unmarked texts, or anything else; the string is the texts one after the other |
| AnthropicEncode.ResultFormIs | internal/format/anthropic_ir_blocks.go:108-170 | the same of a tool result, where nothing is an empty string |
| AnthropicLoops.EncodeTextContent | internal/format/anthropic_ir_request_encode.go:198-217 | the string form joins the texts; one marked block forces the array form |
| AnthropicLoops.EncodeSystemText | internal/format/anthropic_ir_request_encode.go:169-196 | the loop gives the blocks that ItemSpells and SystemTextsArePlaced speak of |
| AnthropicLoops.AppendAnthropicTurn | internal/format/anthropic_ir_request_encode.go:398-417 | only nil content is skipped; an equal role is merged into the last turn, results first; any other role opens a turn |
| AnthropicLoops.FilterOrphans | internal/format/anthropic_ir_request_encode.go:318-342 | the filter that drops results of calls in dropped leading assistants |
| AnthropicLoops.CollectCalls | internal/format/anthropic_ir_request_encode.go:303-308 | the ids of a dropped assistant's calls join those dropped before |
| AnthropicLoops.CollectRun | internal/format/anthropic_ir_request_encode.go:253-263 | a run of system messages is collected to its end |
| AnthropicLoops.LiftMisplacedRuns | internal/format/anthropic_ir_request_encode.go:358-375 | writing kept turns over the array that is still being read ends as the functional filter, with the lifted texts in order |
| AnthropicLoops.EncodeTurns | internal/format/anthropic_ir_request_encode.go:230-347 | the whole encoder computes the specified turns and system field, and its turns obey the placement rules |
| AnthropicTurns.PassAlternates | internal/format/anthropic_ir_request_encode.go:230-347 | before the post-pass no two adjacent turns have the same role and a system turn follows a user turn |
| AnthropicTurns.KeptAccepted | internal/format/anthropic_ir_request_encode.go:358-375 | the post-pass repairs what the pass could not know |
| AnthropicTurns.Placement | internal/format/anthropic_ir_request_encode.go:230-375 | for every history: a user turn first, a system turn between a user turn and an assistant turn or the end, equal neighbours only among users |
| AnthropicLinkage.StepLinked | internal/format/anthropic_ir_request_encode.go:296-342 | one message keeps every emitted result behind its call, unless the call's turn was dropped with its results |
| AnthropicLinkage.ToolLinkage | internal/format/anthropic_ir_request_encode.go:296-347 | if every source result answers an earlier call, every emitted tool_result answers a tool_use in an earlier emitted assistant turn |
| AnthropicItems.PassIsEmission | internal/format/anthropic_ir_request_encode.go:230-347 | the stateful one-pass loop equals emitting, one by one, what each message brings by definition |
| AnthropicItems.NoTurns | internal/format/anthropic_ir_request_encode.go:230-347 | the list is empty exactly when no user message has content to show |
| AnthropicConservation.JoinReplace | internal/format/anthropic_ir_request_encode.go:198-217 | joining a part that was joined before, inside a longer join, is joining once |
| AnthropicConservation.LiftKeepsText | internal/format/anthropic_ir_request_encode.go:358-390 | lifting runs into the system field shows the same text as if they had gone there as separate texts |
| AnthropicConservation.Conservation | internal/format/anthropic_ir_request_encode.go:230-390 | every message with content is in exactly one place: its blocks in source order in one turn (results first), its system text in one system turn or in the system field |
| AnthropicAdjacency.ResultsOpenNextTurn | internal/format/anthropic_ir_request_encode.go:296-347 | results given in the first conversation message after a call open the very next emitted turn |
| AnthropicAdjacency.ValidRunStays | internal/format/anthropic_ir_request_encode.go:245-295 | a system run in a valid position stays an in-conversation turn with its own text |
| AnthropicSystem.ItemSpells | internal/format/anthropic_ir_request_encode.go:169-263 | a developer message, or system messages in a row, say exactly their non-empty texts in order, each with its breakpoint and its Anthropic citations |
| AnthropicSystem.SystemTextsArePlaced | internal/format/anthropic_ir_request_encode.go:169-390 | told of source blocks: the instructions and every non-empty text of system and developer messages stand exactly once, whole and in order, in the system field or in one system turn, with breakpoints and citations wherever blocks are used |
| AnthropicWire.MessageIsCarried | internal/format/anthropic_ir_request_encode.go:457-699 | every block of a message, of any kind and with any fields, has the wire block that carries it, or none exactly when it says nothing |
| AnthropicWire.HistoryIsCarried | internal/format/anthropic_ir_request_encode.go:230-390 | for every history: exactly the messages that speak (a user's that says something, an assistant's after that) stand in the conversation, once and in order, and each turn holds, tool results first, the carriers of what is sent of its messages |
| AnthropicDecode.PreScanClaims | internal/format/anthropic_ir_request_decode.go:221-258 | the first walk succeeds exactly when the explicit ids of the tree are new and distinct, and claims exactly those |
| AnthropicDecode.DecodeConsumes | internal/format/anthropic_ir_request_decode.go:274-437 | the second walk of the same tree meets no duplicate, consumes exactly the claimed ids and gives every call an id of its own |
| AnthropicDecode.FirstFreeIsFree | internal/format/tool_vocabulary.go:95-108 | a generated id is none of those taken |
| AnthropicDecode.RequestIDsAreUnique | internal/format/anthropic_ir_request_decode.go:213-296 | a request is refused for a duplicate id exactly when two tool_use blocks share one; decoded calls never share an id |
| AnthropicMeaning.RequestMeans | internal/format/anthropic_ir_request_decode.go:213-503 | a request decodes exactly when its explicit ids are distinct and all its contents can be read, and then to what its parts mean, told without the id namespace, but for the generated ids |
| AnthropicMeaning.SplitDataURLIff | internal/format/translate.go:40-63 | which URLs are inline images, and the media type and payload that they hold |
| AnthropicDecodeLoops.RequestToolIDs.PreReserve | internal/format/tool_vocabulary.go:66-75 | claiming an id before decoding |
| AnthropicDecodeLoops.RequestToolIDs.Claim | internal/format/tool_vocabulary.go:81-90 | an id of the pre-scan is consumed, any other repeat fails |
| AnthropicDecodeLoops.RequestToolIDs.Generate | internal/format/tool_vocabulary.go:95-108 | the loop finds the first free spelling and claims it |
| AnthropicDecodeLoops.PreReserveContent | internal/format/anthropic_ir_request_decode.go:221-258 | the recursive pre-scan loop computes the specified claims |
| AnthropicDecodeLoops.DecodeBlocks | internal/format/anthropic_ir_request_decode.go:337-437 | the decoding loop over one list of parts computes the specified blocks and namespace, or the same error |
| AnthropicDecodeLoops.DecodeContent | internal/format/anthropic_ir_request_decode.go:274-296 | absent, string, array and unreadable content |
| AnthropicDecodeLoops.DecodeBlock | internal/format/anthropic_ir_request_decode.go:337-503 | one part of each kind, documents with nested content included |
| AnthropicNormal.ToolResultDecodes | internal/format/anthropic_ir_blocks.go:108-170 | string or array form, a tool result's content decodes to its normal form |
| AnthropicNormal.MessageDecodes | internal/format/anthropic_ir_request_encode.go:457-480 | one encoded message decodes to its results-first normal form and holds exactly its own ids |
| AnthropicNormal.DecodeAfterEncode | internal/format/anthropic_ir_request_decode.go:274-437 | messages encoded one by one, with distinct call ids, decode to the normal form of every message |
| AnthropicRoundTrip.GroupDecodes | internal/format/anthropic_ir_request_encode.go:398-417 | a turn merged from several messages decodes to the normal form, results first, of the blocks they sent |
| AnthropicRoundTrip.HistoryComesBack | internal/format/anthropic_ir_request_encode.go:230-390 | the turns of a whole history decode without a refusal, each to the normal form of exactly the messages that conservation places in it |
| AnthropicSettling.ResultIdempotentIff | internal/format/anthropic_ir_blocks.go:108-170 | a tool result's content is a fixpoint after one trip exactly when it is plain text or its parts show something other than several unmarked texts |
| AnthropicSettling.SeveralTextsIff | internal/format/anthropic_ir_request_encode.go:526-699 | the first trip leaves several unmarked texts and nothing else exactly when each source block shows such a text or nothing, and at least two show one |
| AnthropicSettling.IdempotentIff | internal/format/anthropic_ir_request_encode.go:457-699 | a second decode-after-encode changes nothing exactly when the source blocks are plain text, or neither show several unmarked texts alone nor hold one with an empty text or an unsettled result |
| AnthropicSettling.SecondTripIsFinal | internal/format/anthropic_ir_request_encode.go:457-699 | from the second trip on nothing changes, whatever the message |
| AnthropicSettling.NotIdempotent | internal/format/anthropic_ir_request_encode.go:683-696 | two refusals become two texts and then one |
| AnthropicSettling.SecondRoundTrip | internal/format/anthropic_ir_request_decode.go:274-437 | through encoder and decoder twice, a conversation is unchanged exactly when every message settles |
| RestartProtocol.StepKeepsInv | cmd/proxy/restart.go:391-475 | every step of the run, the servers, reloads, watchers and the main loop keeps the protocol's invariant |
| RestartProtocol.InvAlways | cmd/proxy/restart.go:391-638 | the invariant holds in every interleaving with any number of failed runs |
| RestartProtocol.ConnectionsAreCovered | cmd/proxy/restart.go:365-378 | a server with a connection is the current one or retired, so the next drain waits for it |
| RestartProtocol.SpawnIsQuiet | cmd/proxy/restart.go:380-452 | a child is spawned, and takes over, only when every handler of every server has ended and everything written is flushed; who hands over is HandedOffIff |
| RestartProtocol.NoReloadBehindBarrier | cmd/proxy/main.go:785-837 | from the flush barrier to the end of the run, failing and resuming included, no reload transaction can start, write or end |
| RestartProtocol.FencesAreReleasedOnce | cmd/proxy/main.go:817-837 | each fence is taken on a channel of its own and released once, after the run it belongs to failed |
| RestartProtocol.ChannelsCloseOnce | cmd/proxy/restart.go:225-274 | no watcher or resume channel is closed twice, and the registered watchers are open |
| RestartProtocol.ShutdownNeverEndsMain | cmd/proxy/main.go:553-577 | the Serve that a handoff shut down never makes the main loop exit, although it asks its two questions at different times |
| RestartProtocol.SocketIsKept | cmd/proxy/restart.go:391-475 | if accepting never breaks by itself, the running process always holds an open descriptor of the socket; that it goes on running is FailuresFailOver |
| RestartProtocol.SwallowedIff | cmd/proxy/main.go:553-563 | on events: a broken Serve is swallowed exactly when the main loop has read it, finds a handoff committed, and the socket was never duplicated before |
| RestartProtocol.SocketIsKeptUnlessSwallowed | cmd/proxy/main.go:553-577 | the socket is open or its loss is about to end the process, exactly as long as no broken Serve was ignored that way |
| RestartProtocol.SocketCanBeLost | cmd/proxy/main.go:553-566 | a run after which the process idles without a listening socket |
| RestartProtocol.HandedOffIff | cmd/proxy/restart.go:465-475 | the process exits as handed over exactly when an enabled step of its child reported ready |
| RestartProtocol.HandoverHappens | cmd/proxy/restart.go:391-475 | a run that hands over |
| RestartProtocol.EveryStepCanFail | cmd/proxy/restart.go:391-475 | nothing is assumed to go well: every step of a run can fail, and every one that is not a plain wait can panic |
| RestartProtocol.FailuresFailOver | cmd/proxy/restart.go:391-475 | after a failed duplication, drain, flush, spawn or child, and after a first panic, the process runs, the run fails over, and servers, socket and fence are as they were |
| RestartProtocol.FailoverEnds | cmd/proxy/restart.go:579-629 | a failing run then comes to rest: it serves again on the duplicate whenever the socket was duplicated, watchers and waiters are released, its fence can be released, a new run can start |
| RestartProtocol.FailedBuildEnds | cmd/proxy/restart.go:404-411 | a failed build comes to rest without touching a server |
| RestartProtocol.RunsDoNotStick | cmd/proxy/restart.go:391-475 | in every reachable state a run can take its next step, or waits for a reload lock whose holder can let go |
| RestartProtocol.RecordsAre | cmd/proxy/restart.go:364-389 | over events: something is unflushed exactly when a handler or reload wrote since the last flush, and a server has the connections accepted and not ended |
| RestartProtocol.SignalsWait | cmd/proxy/main.go:596-606 | a shutdown signal waits during a committed handoff, and shuts down without a run |
| RestartProtocol.WaitersWake | cmd/proxy/main.go:596-604 | the waiting main loop goes on exactly when the run it waits for has failed |
| RestartProtocol.ResultsAreHandled | cmd/proxy/main.go:553-575 | a Serve result ends the process exactly when it is a failure and no handoff is committed |
| Restarter.Restart.Request | cmd/proxy/restart.go:334-353 | one run at a time, and none where a restart is unavailable |
| Restarter.Restart.RemoveWatcher | cmd/proxy/restart.go:267-274 | a watcher is closed exactly when it was still registered |
| Restarter.Restart.FinishFailure | cmd/proxy/restart.go:614-629 | one section clears the flags, closes every watcher and the resume channel once, and arms a new one |
| Restarter.Restart.HandoffDone | cmd/proxy/restart.go:631-638 | the channel to wait on, open, exactly during a committed handoff |
| Restarter.Restart.Drain | cmd/proxy/restart.go:365-378 | servers are shut down in snapshot order and each is quiet before the next; only a complete drain forgets the retired ones |
| Bytes.WordRoundTrip | internal/backup/archive.go:479-486 | any int64 second survives the unsigned header word |
| Bytes.WordIsTwosComplement | internal/backup/archive.go:479-486 | the eight bytes of a word, most significant first, with the sign in the top bit |
| ArchiveFraming.ParseIff | internal/backup/archive.go:889-941 | the framing loop accepts a payload as these members exactly when it is their framing and they may be listed |
| ArchiveFraming.DecodeMembersIff | internal/backup/archive.go:889-941 | accepted are exactly the framings of distinct, known, flagged members within their bounds with every flagged one non-empty, and those members come back |
| ArchiveFraming.AdmissibleIff | internal/backup/archive.go:889-941 | the admitted lists in figures: a configuration of at most 16 MiB, a database, or both in either order, each once, non-empty, within the limit, and as the flags say |
| ArchiveDecode.HeaderRoundTrip | internal/backup/archive.go:479-486 | a built header parses to the flags, second and digest it was built from |
| ArchiveDecode.HeaderIff | internal/backup/archive.go:970-992 | the headers that parse are exactly the built ones |
| ArchiveDecode.HeaderLayout | internal/backup/archive.go:479-486 | the 48 bytes of a header, each in figures |
| ArchiveDecode.AcceptedIff | internal/backup/archive.go:681-721 | which archives decode, stated without a decoder: header, digest, cap and framing |
| ArchiveDecode.ModesAgree | internal/backup/archive.go:681-878 | kept in memory, staged in a file or discarded, the configuration, second and database content are the same |
| ArchiveDecodeLoops.PayloadReader.ReadFull | internal/backup/archive.go:653-660 | whatever the lengths of the single reads, the bytes asked for or all that is left |
| ArchiveDecodeLoops.NextMember | internal/backup/archive.go:889-933 | a step takes a member that may be taken and consumes its nine bytes and body, or ends or refuses |
| ArchiveDecodeLoops.DecodeStream | internal/backup/archive.go:889-941 | the framing loop over a reader succeeds exactly when the payload ends well and its members decode, and the sink then holds them |
| ArchiveDecodeLoops.DecodeLimited | internal/backup/archive.go:681-721 | the byte decoder accepts exactly the specified archives and returns their members |
| ArchiveDecodeLoops.DecodeFileSelected | internal/backup/archive.go:767-878 | the streaming decoder accepts the same archives, whether or not the database is kept, unless it cannot stage one |
| ArchiveEncode.PayloadFits | internal/backup/archive.go:274-292 | the saturating pre-check passes exactly when the framed members fit, and no step leaves the int64 range |
| ArchiveEncode.FramedLengthIsLength | internal/backup/archive.go:274-292 | the length the pre-check sums is the length of the framing |
| ArchiveEncode.CapWriter.Write | internal/backup/archive.go:491-509 | a write that would cross the ceiling is refused whole |
| ArchiveEncode.PayloadWriter.Write | internal/backup/archive.go:514-534 | what is hashed is what the compressor took, and the limit fires exactly when it would be crossed |
| ArchiveEncode.StreamMember | internal/backup/archive.go:437-467 | a file-backed member is written in chunks exactly as long as announced, or the write fails |
| ArchiveEncode.WriteMembers | internal/backup/archive.go:414-435 | success means the framing of the members was fed; the payload limit cannot fire when the framed length fits |
| ArchiveEncode.CompareMembers | internal/backup/archive.go:590-636 | the comparison passes exactly when the stream starts with the framing of truthfully announced members |
| ArchiveEncode.WalkIsSource | internal/backup/archive.go:386-412 | told of the source: a walk finds its configuration and then its database, whole; it finds them truthfully exactly when there is one database source at most and a file is as long as it says |
| ArchiveEncode.WalkIsAdmissible | internal/backup/archive.go:386-412 | the members of a walk are those the flags announce |
| ArchiveEncode.SelfCheck | internal/backup/archive.go:540-584 | it passes exactly the files that decode to the flags, the second, and the whole configuration and database of an intact source |
| ArchiveEncode.ChecksIff | internal/backup/archive.go:540-584 | what passes, without a decoder: a header with the digest of the source framing over a payload that is this framing, within the limit |
| ArchiveEncode.CheckedArchiveComesBack | internal/backup/archive.go:540-584 | reading back what passes gives the configuration and the database of the source |
| ArchiveEncode.EncodeFile | internal/backup/archive.go:255-364 | with an arbitrary compressor: a returned archive decodes to exactly the configuration and database of the source as the self-check read it, and fits the ceiling; every error has its reason; the payload limit never fires on unchanged sources; the staging file stays within the ceiling from 48 bytes on |
| Restore.RollbackRestores | cmd/proxy/backup.go:825-843 | rolling a held guard back restores every slot and sibling |
| Restore.ReplaceOutcome | cmd/proxy/backup.go:906-930 | a replacement holds its guard over the staged snapshot exactly when slot, staging and preflight allow it; otherwise it has changed nothing |
| Restore.RefusedSnapshotsAreGone | cmd/proxy/backup.go:906-930 | with working rollbacks no slot ends with the snapshot that its preflight refused |
| Restore.ConfigOutcome | cmd/proxy/backup.go:695-742 | file and running configuration change together or not at all |
| Restore.SucceedsIff | cmd/proxy/backup.go:246-325 | a restore succeeds exactly when every part asked for is: the configuration prepared, written and reloaded; the database with a path, merged on a matching path, or captured, staged and accepted |
| Restore.OutcomeIs | cmd/proxy/backup.go:246-325 | the world after a restore in closed form, for every request and every combination of faults, failing rollbacks included |
| Restore.AllOrNothing | cmd/proxy/backup.go:246-325 | with a fault at any step and working rollbacks, file, running configuration, slots and siblings are as before, and the rows are as the database phase left them; on success each part is as requested, and only a preserved snapshot that could not be released is left over |
| Restore.FailureLeavesNothingIff | cmd/proxy/backup.go:246-325 | a failed restore has changed nothing exactly when no merge wrote anything |
| Restore.MergeStays | cmd/proxy/backup.go:246-253 | a finished merge survives whatever failure of the configuration that came with it |
| Restore.CrashKeepsPending | cmd/proxy/backup.go:784-855 | after every file operation each pending snapshot is in its slot or beside it, even if rollbacks fail; only the last step of a success releases the one it has replaced |
| Restore.LastSuccessWins | cmd/proxy/backup.go:254-268 | over any sequence of restores each slot ends with what the last successful restore put there |
| RestoreSteps.Process.CaptureRestorePending | cmd/proxy/backup.go:788-820 | moving a pending snapshot aside |
| RestoreSteps.Process.ReplaceDatabase | cmd/proxy/backup.go:906-930 | capture, stage, preflight and roll back go through the specified states |
| RestoreSteps.Process.ApplyRestoreConfig | cmd/proxy/backup.go:695-742 | write, reload and roll back go through the specified states |
| RestoreSteps.Process.HandleRestore | cmd/proxy/backup.go:265-325 | the phases in order go through the specified states, and the verdict is that of the success condition |
| RestoreSteps.PendingGuard.Rollback | cmd/proxy/backup.go:825-843 | the guard gives its slot back and forgets its backup |
| RestoreSteps.PendingGuard.DiscardBackup | cmd/proxy/backup.go:847-855 | the guard releases what it preserved |
| AuthLimiter.ShiftIsDoubling | cmd/proxy/operator.go:346-351 | the capped shift never wraps: lockouts double from the base up to the maximum |
| AuthLimiter.Limiter.Locked | cmd/proxy/operator.go:308-320 | locked exactly before the end of the lockout; the retry time is whole seconds, never short and never a second long |
| AuthLimiter.Limiter.Failure | cmd/proxy/operator.go:327-357 | a failure is counted for a tracked source, or for a new one when there is room after an eviction |
| AuthLimiter.Limiter.EvictOne | cmd/proxy/operator.go:362-387 | whatever the scan order, the entry removed is past its time, else the oldest unlocked, else the lockout that ends first |
| AuthLimiter.Admit | cmd/proxy/operator.go:487-528 | the order of the gate: a valid credential first, then the lockout, then counting |
| AuthLimiter.AnswerIs | cmd/proxy/operator.go:487-528 | a session or a valid credential is always admitted; any other request of a locked source is told whole seconds that cover the lockout; the rest are denied |
| AuthLimiter.TraceLeft | cmd/proxy/operator.go:491-519 | a valid credential forgets its source and no other; a wrong one counts once; everything else leaves the table as it was |
| AuthLimiter.CountedFigures | cmd/proxy/operator.go:345-356 | in figures: no lockout before the fifth failure, then 10 seconds doubling to 900, never shortened |
| AuthLimiter.HandledKeepsInv | cmd/proxy/operator.go:308-394 | each request keeps the table bounded and every entry explained by the failures behind it |
| AuthLimiter.GuessesWait | cmd/proxy/operator.go:345-356 | the k-th counted failure comes no earlier than the fifth plus the lockouts in between |
| AuthLimiter.WaitGrowsLinearly | cmd/proxy/operator.go:73-79 | from the twelfth failure on every guess costs a quarter of an hour |
| AuthLimiter.Throttled | cmd/proxy/operator.go:308-394 | in every run: at most 4096 entries, lockouts end within the maximum of the last failure, reapable entries are never locked, guesses wait |
| AuthLimiter.LockedOutIff | cmd/proxy/operator.go:308-357 | in every run a request is locked out exactly when it has no credential, five failures or more of its source count, and the seconds of the last are not over |
| AuthLimiter.BoundsInFigures | cmd/proxy/operator.go:73-79 | 4096 sources, lockouts of at most 900 seconds, entries reapable from 1800 seconds on |
| AuthLimiter.LiveLockoutsGoLast | cmd/proxy/operator.go:359-387 | a source loses a live lockout to another's request only when the table is full of live lockouts that end no earlier |
| AuthLimiter.NewcomersAreTracked | cmd/proxy/operator.go:334-343 | at capacity a new source takes a victim's place |
| SemVer.ComparisonIsAntisymmetric | version.go:67-101 | defined exactly on valid versions, antisymmetric, and zero exactly on equal texts |
| SemVer.ComparisonIsTransitive | version.go:67-101 | transitive |
| SemVer.NumeralsCompareAsNumbers | version.go:141-149 | length and then text is the order of the unbounded numbers |
| SemVer.ValidIff | version.go:26-54 | the grammar: a text is valid and is read as these numbers and identifiers exactly when it is written from them |
| SemVer.ComparisonIsPrecedence | version.go:67-127 | the sign is the precedence of section 11 of Semantic Versioning 2.0.0 |
| SemVer.NewestVersion | cmd/release/main.go:70-109 | the scan returns the highest valid candidate and reports the others |
| SemVer.CandidateIff | cmd/release/main.go:75-82 | a line stands for a version exactly when it is that version, or it with the letter of a tag, between white space |
| SemVer.IgnoredAre | cmd/release/main.go:83-89 | reported are the other non-empty lines, in order |
| SemVer.NewestIsUnique | cmd/release/main.go:70-109 | the answer does not depend on the order of the lines |
| ByteSize.CutSuffix | internal/config/bytes.go:133-145 | the suffix loop cuts the first unit of the table that the text has |
| ByteSize.ParseByteSizeString | internal/config/bytes.go:127-153 | a successful parse is the exact product, never a wrapped one |
| ByteSize.ParsesIff | internal/config/bytes.go:127-153 | the grammar in figures: a text names n bytes exactly when, up to case and spaces, it is a sign, digits and one of GiB, MiB, KiB, B or no unit, whose exact product is n, non-negative and an int64 |
| ByteSize.SpacesDoNotCount | internal/config/bytes.go:128 | spaces do not count, wherever they stand |
| ByteSize.FormatIs | internal/config/bytes.go:52-84 | in figures: the coarsest of GiB, MiB, KiB that divides, else bytes |
| Text.TrimIs | internal/config/bytes.go:128 | trimming takes white space off both ends and leaves none there |
| ByteSize.RoundTrip | internal/config/bytes.go:52-84 | parsing the formatted size gives it back, for every non-negative int64 |
| ByteSize.FormatInjective | internal/config/bytes.go:52-84 | two different int64 values, the minimum included, are never shown alike |
| ConfigSalvage.MergeKeys | internal/config/config_load.go:499-510 | the keys overlaid in order, if every overlay and the validation succeed |
| ConfigSalvage.MergedIff | internal/config/config_load.go:499-510 | merging is the chain of single overlays from the defaults on, whose end validates |
| ConfigSalvage.GreedyPass | internal/config/config_load.go:468-489 | one retry loop keeps and defers as specified, and the configuration is that of the kept keys |
| ConfigSalvage.KeepKeys | internal/config/config_load.go:461-497 | the salvage returns the base overlaid with exactly the kept keys, or fails on the first fail-closed key it would drop |
| ConfigSalvage.SalvagePartitions | internal/config/config_load.go:461-497 | kept and skipped keys partition the accepted ones |
| ConfigSalvage.SalvageIsValid | internal/config/config_load.go:461-497 | given a valid default the result validates at every stage, nothing is skipped when all keys validate together, and a skipped key failed in both passes |
| ConfigSalvage.FailClosedKeysAreKept | internal/config/config_load.go:114-121 | on success every accepted fail-closed key is in force |
| ConfigSalvage.LoadLenient | internal/config/config_load.go:284-334 | a misfit fail-closed key refuses the document; otherwise every dropped key is reported |
| ConfigSalvage.ScanAccounts | internal/config/config_load.go:284-334 | every key of the document is accounted for: accepted as often as it occurs when it fits, reported as dropped when not, reported for unknown fields when loose |
| ConfigSalvage.AcceptedInOrder | internal/config/config_load.go:300-334 | the accepted keys keep the order of the document |
| ConfigSalvage.RefusesIff | internal/config/config_load.go:114-121 | only a misfit allowed_base_urls or listen refuses a document |
| ConfigSalvage.PoliciesAreKept | internal/config/config_load.go:114-121 | a document that loads has both in force, whatever else it lost |
| ConfigSalvage.LoadFailClosed | internal/config/config_load.go:341-393 | boot and reload accept exactly the documents whose known keys all overlay and validate together, and load what the salvage makes of them |
| ConfigSalvage.IdleSecondPass | internal/config/config_load.go:468-489 | whatever the rules, a skipped key does not fit the result when the second pass keeps nothing |
| ConfigMaximal.ClashesMeet | internal/config/config_validate.go:148-151 | two values that each clash with the default of a key and its partner clash with each other, so an ordering rule never changes its mind |
| ConfigMaximal.OnlyLengthBringsBack | internal/config/config_load.go:468-489 | a skipped key that would fit the result is one where keys kept later shortened the document under its limit |
| ConfigMaximal.SalvageIsMaximal | internal/config/config_load.go:468-489 | the salvage is maximal if the document fits at its widest or no value is shorter than its default |
| ConfigMaximal.LengthDropsAKeyThatFits | internal/config/config_validate.go:493-503 | for a long path beside two values that shrink together, the salvage is maximal exactly outside a window of path lengths |
| Redaction.AliasStep | scripts/backup_db.py:219-228 | a label gets its one alias, which is valid, and no earlier alias changes |
| Redaction.FinalIsInjective | scripts/backup_db.py:219-228 | within a kind equal aliases come from equal labels |
| Redaction.RedactedFieldsAreThose | scripts/backup_db.py:236-283 | a redacted attempt has exactly the served fields in order: numbers and times unchanged, labels as their aliases |
| Redaction.RedactedAttemptsPass | scripts/backup_db.py:236-283 | redacted attempts pass the verifier's checks |
| Redaction.JsonColumnsAreFixed | scripts/backup_db.py:236-321 | both JSON columns of the copy re-encode to themselves |
| RedactionCopy.DerivedRowPasses | scripts/backup_db.py:286-321 | every derived row passes the verifier and comes out unchanged |
| RedactionCopy.SummaryMeans | scripts/backup_db.py:330-340 | the marker's numbers are the count, the extremes and the totals of the rows |
| RedactionCopy.Manifest.Add | scripts/backup_db.py:330-340 | the manifest is that of the rows fed so far |
| RedactionCopy.DeriveThenVerify | scripts/backup_db.py:346-382 | whatever derive writes, the verifier accepts, rebuilding the same digest and summary |
| RedactionPublishable.AliasValidIff | scripts/backup_db.py:231-233 | a label is valid exactly when it is empty, a class the code owns, or a numbered alias of its kind |
| RedactionPublishable.VerifiesIff | scripts/backup_db.py:231-465 | told without the verifier: it accepts exactly the copies whose rows are all publishable (labels, metrics, stamps, identities, hashes, emptied columns) under the marker of these rows, and answers its summary |
| RedactionPublishable.AcceptedLabels | scripts/backup_db.py:231-321 | no label of an accepted copy, in a column, an attempt or the tool names, is anything but an alias of its kind or such a class |
| RedactionPublishable.DerivesIff | scripts/backup_db.py:236-382 | deriving succeeds exactly when every source row is redactable, told field by field; missing columns may only be those a migration fills with zero |
| RedactionPublishable.DerivedRowIs | scripts/backup_db.py:286-382 | the row with this number: its identity, the hash of its key, its metrics unchanged, its content emptied |
| RedactionPublishable.DerivedLabelIs | scripts/backup_db.py:214-321 | every label of a row, wherever it stands, became a numbered alias of its kind, or stayed if it was empty or a class the code owns |
| RedactionPublishable.ParentsAreCounted | scripts/backup_db.py:330-340 | the parents in the marker are the rows that name one |
| RedactionPublishable.SumsAreTotals | scripts/backup_db.py:330-340 | the sums in the marker are those of their eight columns |
| RedactionPublishable.BoundsAreStarts | scripts/backup_db.py:330-340 | the bounds in the marker are the earliest and the latest start |
| Redaction.RedactedAttemptsAreThose | scripts/backup_db.py:236-283 | every attempt of a column, in order, as RedactedFieldsAreThose says, under the aliases at the end |
| Redaction.RedactedToolsAreThose | scripts/backup_db.py:311-318 | every tool name, in order, has become its alias |
| RedactionCopy.AliasesShowEqualityOnly | scripts/backup_db.py:214-228 | the copy has labels where the source has them, of the same kinds; two labels of a kind, in columns, attempts or tool names of any rows, are equal exactly when the source's were |
| RedactionCopy.IdentitiesAreDistinct | scripts/backup_db.py:301-302 | the copy's row identities are distinct |
| RedactionLoops.AliasTable.Give | scripts/backup_db.py:219-228 | the mutable table gives the specified alias |
| RedactionLoops.AliasTable.RedactAttemptList | scripts/backup_db.py:236-283 | the loop over attempts computes the specified list |
| RedactionLoops.AliasTable.RedactRow | scripts/backup_db.py:286-321 | redacting one row against the table |
| RedactionLoops.Derive | scripts/backup_db.py:346-382 | one pass over the source rows, with the manifest alongside, writes the specified copy |
| RedactionLoops.Verify | scripts/backup_db.py:460-465 | the verifier's pass over the rows computes the verdict that VerifiesIff characterises, and the summary |

## Left out

General:

- Warnings, log lines, HTTP, cookies, HMAC and login pages, deadlines, process spawning and port claiming.
- JSON, YAML, SQLite, zstd, SHA-256 and regular expressions: values are taken as parsed, or the operation is a function
  parameter about which nothing, or only what is stated, is assumed. Malformed JSON is a value of its own.
- Characters are Unicode code points; case mapping and white space beyond ASCII and Latin-1 are not modelled.

Anthropic encoder and decoder:

- The source a document block renders to is given with the block; encodeAnthropicFile is not part of this model.
- The decoder's size bounds are not computed: content over them is the constructor `CRefused`. The round trips are about
  content within the bounds, and about canonical images whose URL is not an inline one, which every decoder takes apart.
- AnthropicDecodeLoops.DecodeContent: the bound on the number of parts and the check of citations are that constructor.
- AnthropicDecodeLoops.DecodeBlock: a file, URL or PDF document source is opaque; a text document holds some text.
- AnthropicNormal.DecodeAfterEncode: encodes message by message; AnthropicRoundTrip.HistoryComesBack goes through the turn
  encoder. The system field's own decoding is not part of either.
- An argument text counts as a JSON object by its outer braces.
- Block lists are values: sharing of slice capacity between lists of blocks is not modelled. The post-pass over the turns
  is modelled in place.
- AnthropicAdjacency.ResultsOpenNextTurn: assumes request-unique, non-empty ids of the call's message, as the request
  validation does.

Restart:

- A shutdown signal that overlaps the build phase, and a panic inside a section that holds the restarter's mutex.
- What a child left running by a panic after its spawn does.
- A server's accepted connections stand for its handlers; hijacked watch connections are watchers only.
- Restarter.Restart.Request: the time stamp of the phase, the phase names within a run and the message are left out.
- Restarter.Restart.Drain: each Shutdown may succeed or fail; how it waits is in the protocol.
- RestartProtocol.SocketIsKeptUnlessSwallowed: speaks of the running process; a resumed server that breaks ends it.

Archive:

- Writing the staged file's header, syncing and closing are one step that may fail; temporary names and directories are
  not modelled.
- ArchiveDecodeLoops.DecodeFileSelected: the staging file of a database is its content, or a failure to create it.
- Reads fail only where the decompressor fails; the semantic validation of members is a given verdict.

Restore:

- SQLite sidecars of a pending snapshot: the boot preflight removes them before it opens the file.
- How the configuration document is prepared, and the comparison of database paths, are given outcomes.
- Other writers of the configuration file, and atomicity of a merge inside the database.

Smaller cores:

- Concurrent check-then-count in the gate; requests are handled one after another. Failure counts are unbounded naturals.
- AuthLimiter.Limiter.EvictOne: says nothing of which entry goes when a source has the empty name, which the scan uses for
  "none yet" and no connection has.
- The column tables of the documentation copy are a parameter; sums are exact numbers, not floating point; equality of key
  aliases is not claimed, since the keyed hash is an arbitrary function.
- ByteSize.ParseByteSizeString: upper-casing follows the letters whose capital is in ASCII; no other can stand in a size.
- ConfigSalvage.MergeKeys: validation is a pure function, while Validate also normalises aliases and overrides in place;
  that changes only the key it is about.
- ConfigMaximal.SalvageIsMaximal: a sufficient condition on the document; which documents with shrinking values lose a key
  is answered for one family.
- ConfigMaximal.LengthDropsAKeyThatFits: the lines of the other keys and the comments are one given length.
- Document-level YAML errors, duplicate keys and extra documents; the loaders start from the sorted keys.
