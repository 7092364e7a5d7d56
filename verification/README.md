# Steward: a verified model of its hardest state

This project models the parts of Steward whose correctness depends on many steps and not on
one function: the Buzz bridge's durable inbox, crash-consistent file publication, Gateway
lifetime locks, two configuration commands, and the loops that must refine a simple
specification. Everything is checked by `dafny verify dfyconfig.toml` (Dafny 4.11).

## How it is organised

| files | what they model |
|---|---|
| BridgeRecord, BridgeWorker, BridgeRuns, BridgeWitness | one inbox record as a transition system: workers, operator retries, failed writes, evictions and crashes between any two operations; the claims about whole runs; and the runs that show where a condition is needed |
| BridgeCode | the bridge's own methods, each proved to be a run of that system |
| BridgeInbox, BridgeInboxWitness | the whole inbox under its capacity lock, and the exact condition for its bound |
| BridgeCapacity, BridgeDirectory | the eviction code and the loop that chooses a record, each proved to be a run of that inbox |
| BridgeIntake, BridgeCommands | polling with a composite cursor into that inbox, eligibility, finding an existing reply, the bounded output buffer |
| Publication, PublicationCode | no-overwrite publication through a temporary name and a hard link, with stops and power losses, and the code that does it |
| LifetimeLock | lock paths, acquisition, and any interleaving of Gateway starts |
| GatewayConnectors, GatewayInference | sequences of `stewardctl gateway connector set` and `inference set` |
| Collectors, SupportBundle | paginated collection against any server, merge and canonical order |
| ConnectorHistory, EffectAudit | the receipt ledger's history check and the effect-bundle audit on top of it |
| EffectsReadiness, SecretScan, PermitHeader, ProfileInventory | exactness of four checks |
| Ordering, Common | Go's string order and sorting; shared types |

Imperative code is modelled by methods and classes that change the same state; each is proved
against a specification function or a transition system, and the properties are lemmas about
those.

## Assumptions

- Digests and identifiers derived from digests are symbolic, so distinct inputs have distinct digests.
- The relay, `stewardctl`, the control server, the clock and the network are arbitrary, except where a claim names what it needs of them.
- A kernel file lock has one holder, by the guard of the step that takes it, and is released when its holder stops; `task run` stops with the bridge.
- Directory updates become durable in order; data of a file that was not synced is arbitrary after a power loss.
- The clock stays within the years 0 to 9999, so that every stored time can be parsed again.
- Times are whole nanoseconds; strings are byte strings, and message text is valid UTF-8, as it comes from a JSON decoder.
- The size of a record file is the encoded size of the message text plus a part that each write chooses freely, since paths and error texts are not modelled.

## What turned out to hold only under a condition

- The bridge can store a record that its own reader refuses, in exactly three ways, given that the clock stays within the years 0 to 9999: it survives an error from the final `replied` write after nine failures (`ReplyWriteErrorIff`), the clock is before 1970 (`StampTimeIff`), or the encoded record is over 64 KiB, which the message limit of 32 KiB does not prevent (`StoredFitsIff`, `OversizeEvent`). Only `StoredRecordsAreReadable` excludes these steps; each comes with a run from the empty slot. Such a file can never be retried (`UnreadableIsStuck`).
- A replied file is final only once the final write has reported no error: an error after the rename makes the failure path overwrite it, as a dead letter after nine failures (`RepliedFileStaysIff`, `RepliedFileOverwritten`).
- The inbox keeps its bound exactly as long as intake does not evict a record between such a late error and the failure being stored (`BoundSurvivesIff`, `OvertakenEvictionOverfills`). No other claim about the inbox needs that.
- A poll keeps every eligible event of its window unless the clock, during one page, falls back behind both its first reading for that page and 300 s before the start of the poll (`PollChannel`); `IngestPage` says exactly which events are then taken.
- An operator retry can write a record that the reader refuses, exactly when it resumes a dead letter whose reply fields do not fit its phase (`RequeuedStartsOver`); no run of the bridge stores such a dead letter without one of the three steps above.
- A file that the reader refuses, torn or oversized, stops all later intake of new events and starves the records listed after it (`UnreadableFileStopsInbox`, `UnreadableFileStarves`); events recorded already are still answered.
- One reply and one bundle are claims about one creation of a record; after an eviction the same event can be answered again (`OneCreationOneReply`, `SecondCreationCanReplyAgain`).
- Publication can report success before the link is durable, exactly when it finds the target without a temporary file and the link not synced (`FinishedIsDurableIff`, `FinishedCanBeLost`).
- A target survives every loss of power exactly when its link and its bytes are durable (`TargetSurvivesEveryRunIff`).
- Publication recovers from every crash exactly when the umask keeps all bits of the requested mode (`StaleTempAcceptedIff`).
- The audit fold reports the right status exactly when no authorization follows its terminal (`StatusMatchesIff`); the ledger's history check guarantees that order (`AcceptedLedgerIsOrdered`).
- The tenant collector checks its item limit only when another page follows, so it refuses an inventory exactly when the last page starts beyond the limit (`TenantLimitIff`, `OverLimitIsAccepted`).
- The audit finds the receipts of every step exactly because task IDs are unique (`StepsReportTheirOwn`, `ShadowedStepReportsNothing`).
- Without a request profile, `inference set` resets an omitted model (`ModelKeptIff`).

## Model

| member | source | states |
|---|---|---|
| BridgeRecord.LiveRecord.RecordFailure | cmd/steward-buzz-bridge/main.go:1165-1193 | one failed attempt is counted, then scheduled again or, when final or out of budget, dead-lettered with the phase to resume |
| BridgeRecord.DoublingDelay | cmd/steward-buzz-bridge/main.go:1185-1191 | the doubling loop gives min(5 * 2^(n-1), 300) seconds for every attempt number n >= 1 |
| BridgeRecord.RequeuedStartsOver | cmd/steward-buzz-bridge/main.go:1061-1098 | what an operator retry gives: a record that is due at once, with its whole budget and no failure, and with its directory and reply kept; it can be read back if and only if it does not resume a dead letter in a phase its reply fields do not fit |
| BridgeRecord.OversizeEvent | cmd/steward-buzz-bridge/main.go:976-979 | for 10,923 or more `<` within the message limit, and any IDs and positive time, there is a valid event whose record never fits the limit of the reader |
| BridgeWorker.StepKeepsInv | cmd/steward-buzz-bridge/main.go:919-974 | every operation of a worker, an operator retry, the environment, an eviction or a crash keeps the slot invariant, failed final writes and a wrong clock included |
| BridgeRuns.RunKeepsInv | cmd/steward-buzz-bridge/main.go:919-974 | the slot invariant holds after every run at all |
| BridgeRuns.StoredRecordsAreReadable | cmd/steward-buzz-bridge/main.go:976-1013 | after any run without a stamp before 1970, a survived failed final write after nine failures, or a write over the size limit, the stored record passes the reader and so does its requeued form |
| BridgeRuns.StoredFitsIff | cmd/steward-buzz-bridge/main.go:976-979 | storing a record that passes the rules gives a readable file if and only if it fits 64 KiB |
| BridgeRuns.AllSendsAreOneReply | cmd/steward-buzz-bridge/main.go:1100-1145 | over any run at all, all sends for one creation of the record have one channel, parent, timestamp and content |
| BridgeRuns.OneCreationOneReply | cmd/steward-buzz-bridge/main.go:1100-1145 | if the record was created once, all sends for the event are one message and all bundles are in one directory |
| BridgeWitness.SecondCreationCanReplyAgain | cmd/steward-buzz-bridge/main.go:862-868 | for any two replies the reader accepts: after an eviction past the replay window and a second intake of the event another reply can be sent |
| BridgeRuns.TaskAuthorityIsUnique | cmd/steward-buzz-bridge/main.go:1207-1266 | over any run at all, every `task run` names the one task of the event and a directory that did not exist, and at most one directory of one creation of the record holds a bundle |
| BridgeRuns.BundlePinsTheRun | cmd/steward-buzz-bridge/main.go:1207-1254 | once the current directory holds a bundle, no run changes the directory or issues another `task run` for the record |
| BridgeRuns.BundleIsPinned | cmd/steward-buzz-bridge/main.go:1207-1254 | a record still to be answered is in that state as soon as its directory holds a bundle |
| BridgeRuns.RepliedIsFinal | cmd/steward-buzz-bridge/main.go:938-946 | once the worker that stored it has let go, no run at all writes a replied file again; it can only be evicted |
| BridgeRuns.RepliedFileStaysIff | cmd/steward-buzz-bridge/main.go:1145-1150 | the replied file that the final write left stays as it is if and only if that write reported no error; it stays in phase replied if and only if there was none or fewer than nine failures precede it |
| BridgeWitness.RepliedFileOverwritten | cmd/steward-buzz-bridge/main.go:954-960 | for every event that fits, any reply and any reply ID, a run from the empty slot in which a replied file is overwritten as a dead letter |
| BridgeRuns.RetriesAreBounded | cmd/steward-buzz-bridge/main.go:1165-1193 | over any run at all, stored failures since creation or the last operator retry and attempts never exceed ten, the tenth leaves a dead letter, and the two counts agree while there is something to do |
| BridgeRuns.FailureReadableIff | cmd/steward-buzz-bridge/main.go:1165-1193 | a stored failure passes the rules of the reader if and only if it does not resume to `replied` and carries no time before 1970 |
| BridgeRuns.ReplyWriteErrorIff | cmd/steward-buzz-bridge/main.go:1145-1150 | a bridge that survives an error from the final write stores a readable record if and only if fewer than nine failures precede it and it fits; otherwise a dead letter |
| BridgeWitness.NineFailuresThenUnreadable | cmd/steward-buzz-bridge/main.go:1145-1150 | for every event that fits, any reply and any reply ID, a run from the empty slot that ends with such a dead letter |
| BridgeRuns.StampTimeIff | cmd/steward-buzz-bridge/main.go:1109-1113 | a reply stamped at or before the epoch is stored readably if and only if the clock is not before 1970 and it fits |
| BridgeWitness.EarlyClockThenUnreadable | cmd/steward-buzz-bridge/main.go:1109-1113 | for every event that fits and any clock before 1970, a run from the empty slot that stores an unreadable record because of the clock |
| BridgeWitness.OversizeIsUnreadable | cmd/steward-buzz-bridge/main.go:767-805 | for every event that does not fit, a run from the empty slot that stores an unreadable record |
| BridgeRuns.UnreadableIsStuck | cmd/steward-buzz-bridge/main.go:1061-1098 | no worker and no operator retry, in any run, changes an unreadable file again, and without a found reply it is never evicted |
| BridgeCode.Worker.WriteRecord | cmd/steward-buzz-bridge/main.go:1490-1524 | an error from the atomic write leaves the old record or the new one, never anything else |
| BridgeCode.Worker.NextRunDirectory | cmd/steward-buzz-bridge/main.go:1256-1266 | the first unused directory of the task's numbered names, or none when all are taken |
| BridgeCode.Worker.RunOrRecoverTask | cmd/steward-buzz-bridge/main.go:1207-1254 | the code is a run of the transition system: it ends holding a reply or a classified failure |
| BridgeCode.Worker.ObtainReply | cmd/steward-buzz-bridge/main.go:1100-1126 | it goes on to publishing only with the digest and timestamp already durable |
| BridgeCode.Worker.PublishReply | cmd/steward-buzz-bridge/main.go:1127-1155 | without an error the durable record is replied |
| BridgeCode.Worker.CompleteRecord | cmd/steward-buzz-bridge/main.go:1100-1156 | the whole completion is a run of the transition system, ending replied or failing with a classified error |
| BridgeCode.Worker.StoreFailure | cmd/steward-buzz-bridge/main.go:954-962 | unless the write fails, the failure is stored, and a final one as a dead letter |
| BridgeCode.Worker.ProcessRecord | cmd/steward-buzz-bridge/main.go:929-974 | from lock to release the code is a run of the transition system; a record that is not ready, replied, dead or unreadable is left untouched; success means replied |
| BridgeDirectory.Process.ProcessNext | cmd/steward-buzz-bridge/main.go:919-946 | the loop over the directory, while anything at all happens to the inbox between its operations, is a run of the inbox: it chooses the first entry that is neither held by another nor readable and not due when the pass comes to it, and works on it or stops at it |
| BridgeDirectory.WorksIff | cmd/steward-buzz-bridge/main.go:919-946 | a pass works on a record if and only if it gets its lock and finds it due, and every entry before it was held, or readable and not due, when the pass came to it |
| BridgeDirectory.UnreadableFileStarves | cmd/steward-buzz-bridge/main.go:934-937 | from any state with an unreadable file and through any run, a pass gets past that file only if another holds its lock at that moment |
| BridgeCode.Worker.RetryRecord | cmd/steward-buzz-bridge/main.go:1061-1098 | an accepted operator retry stores exactly the requeued form of the record it read |
| BridgeInbox.MoveKeepsInv | cmd/steward-buzz-bridge/main.go:767-879 | every move of intake, workers, retries or a crash keeps the invariant over the whole inbox, unless it evicts a record a worker still holds |
| BridgeInbox.MoveKeepsOpen | cmd/steward-buzz-bridge/main.go:767-879 | every move whatever, evictions under a worker and stops in mid-intake included, keeps each slot in order, lists only answered records, and fills only a torn file or one a worker wrote after its eviction |
| BridgeInbox.InboxIsBounded | cmd/steward-buzz-bridge/main.go:780-788 | in any interleaving without such an eviction the number of record files is at most `max_records`; an intake evicts at most one and a refused one none |
| BridgeInboxWitness.BoundSurvivesIff | cmd/steward-buzz-bridge/main.go:862-868 | for every capacity and every state such interleavings reach, the bound holds through every further one after an eviction if and only if the evicted record had no worker |
| BridgeInboxWitness.OvertakingOverfills | cmd/steward-buzz-bridge/main.go:862-868 | after any eviction under a worker there is a run, with no other such eviction, that ends with exactly one record over the limit |
| BridgeInboxWitness.OvertakenEvictionOverfills | cmd/steward-buzz-bridge/main.go:862-868 | such an eviction is reached: a run from the empty inbox with room for one record leads to it, and from there over the limit |
| BridgeInbox.AcceptedHasRecord | cmd/steward-buzz-bridge/main.go:638-654 | from any state and whatever workers do meanwhile, evictions under a worker included, an intake that ends with success leaves its event with a stored record |
| BridgeInbox.UnrepliedIsNeverRemoved | cmd/steward-buzz-bridge/main.go:823-879 | from any state, a stored record that intake neither lists nor is creating, and that is never replied, is still there after any run at all |
| BridgeInbox.UnansweredIsNeverRemoved | cmd/steward-buzz-bridge/main.go:823-879 | at any point of any run from the empty inbox this holds of every record whose reply was not found, as only answered ones are listed |
| BridgeInbox.EvictsOldestWhenFull | cmd/steward-buzz-bridge/main.go:853-868 | in every state any run reaches, an eviction happens only when intake counted a full inbox, and removes the oldest record listed; its reply was found, and it is as listed unless a failed final write was stored over it since; without evictions under a worker the inbox is then exactly full |
| BridgeInbox.UnreadableFileStopsInbox | cmd/steward-buzz-bridge/main.go:835-844 | from any state with a file the reader refuses, torn or stored, no run at all creates or evicts a record |
| BridgeInbox.UnreadableFileFreezesInbox | cmd/steward-buzz-bridge/main.go:835-844 | and as long as no eviction has overtaken a worker, the set of record files stays the same |
| BridgeInboxWitness.TornFileBlocks | cmd/steward-buzz-bridge/main.go:788-805 | for every event, a run from the empty inbox that leaves such a torn file |
| BridgeInboxWitness.OversizeEventBlocks | cmd/steward-buzz-bridge/main.go:788-805 | for every event that does not fit, a run from the empty inbox in which intake accepts it and is stopped by it |
| BridgeCapacity.RecordDirectory.Scan | cmd/steward-buzz-bridge/main.go:835-849 | as a run of the inbox, the scan succeeds if and only if every entry is readable, and then collects exactly the replied records older than the replay window, each once |
| BridgeCapacity.RecordDirectory.EnsureCapacity | cmd/steward-buzz-bridge/main.go:823-879 | as a run of the inbox that ends ready to create or leaving with an error: removes only old replied records, oldest first, never more than needed; unless a removal or sync fails, as many as needed and available, with success exactly when there is room; an unreadable entry changes nothing |
| BridgeCapacity.FrontIsOldest | cmd/steward-buzz-bridge/main.go:853-868 | removing any front part of the sorted queue removes the oldest evictable records |
| BridgeIntake.IsEligible | cmd/steward-buzz-bridge/main.go:733-765 | accepts exactly well-formed mentions by an allowed author in this channel only, with one channel tag and one mention, at most 300 s ahead of the clock |
| BridgeIntake.Poller.Ingest | cmd/steward-buzz-bridge/main.go:638-654 | whatever happens to the inbox before and meanwhile, evictions under a worker, other intakes and a stop at any point included, an accepted event has its own stored record or was replied, and so has every event accepted before |
| BridgeIntake.Poller.IngestPage | cmd/steward-buzz-bridge/main.go:566-610 | it keeps only events that were eligible when their turn came, and when it succeeds all of them: each has a stored record or was replied |
| BridgeIntake.Poller.PollChannel | cmd/steward-buzz-bridge/main.go:566-610 | the cursor moves only to the start of a poll that ingested every page; with a relay that pages newest-first below the composite cursor pagination never stalls, and unless the clock falls back during a page every eligible event of the window then has a stored record or was replied |
| BridgeIntake.Poller.RunPolls | cmd/steward-buzz-bridge/main.go:542-610 | across polls, failed and stopped ones included, unless the clock falls back during a page: every eligible event within the first lookback that appears within 300 s of its timestamp has a stored record or was replied |
| BridgeIntake.PageCovers | cmd/steward-buzz-bridge/main.go:566-610 | an event between the old cursor and the page's oldest event is on the page |
| BridgeCommands.FindExistingReply | cmd/steward-buzz-bridge/main.go:1295-1329 | finds an exact reply of the bridge's own key in the thread, and answers none only when there is none |
| BridgeCommands.BoundedBuffer.Write | cmd/steward-buzz-bridge/main.go:1474-1488 | after any writes the buffer holds the first `maximum` bytes and is marked truncated exactly when there were more |
| Publication.StepKeepsInv | adapters/hermes-agent/entrypoint.py:290-359 | every operation, stop and power loss keeps the publication invariant |
| Publication.PublicationIsCrashConsistent | adapters/hermes-agent/entrypoint.py:290-359 | over any run with stops and power losses nothing fails, so the ambiguous branch is unreachable; any target a power loss can show is synced and exact; done means published with no temporary name |
| Publication.UninterruptedRunFinishes | adapters/hermes-agent/entrypoint.py:290-359 | from every state crashes leave, a run left alone finishes published within a bound |
| Publication.FinishedIsDurableIff | adapters/hermes-agent/entrypoint.py:315-318 | a call left alone that finishes leaves a durable publication if and only if it did not find the target there without a temporary file and with its link not durable |
| Publication.FinishedCanBeLost | adapters/hermes-agent/entrypoint.py:315-318 | a run from a clean directory that reports success while a loss of power can still leave no file |
| Publication.TargetIsNeverReplaced | adapters/hermes-agent/entrypoint.py:290-359 | an existing target is never replaced and no byte of it changes, for any request: in any run when it is durable, in any run without a loss of power when it is not |
| Publication.TargetSurvivesEveryRunIff | adapters/hermes-agent/entrypoint.py:290-359 | every run keeps the target if and only if no loss of power can take it away or change its bytes |
| Publication.DifferingTargetFails | adapters/hermes-agent/entrypoint.py:302-304 | a target that differs from the request makes every run fail, on the same condition |
| Publication.StaleTempAcceptedIff | adapters/hermes-agent/entrypoint.py:269-287 | a temporary file left right after creation is accepted by the next run if and only if the umask keeps every bit of the mode |
| Publication.RejectedTempBlocksForever | adapters/hermes-agent/entrypoint.py:269-287 | a rejected temporary file blocks every later run, losses of power included when its name is durable |
| PublicationCode.Directory.ReadRegularAt | adapters/hermes-agent/entrypoint.py:187-216 | reads exactly regular files within the link and size bounds |
| PublicationCode.Directory.Recover | adapters/hermes-agent/entrypoint.py:305-334 | with an exact target it ends done or with a named refusal and touches neither target nor data |
| PublicationCode.Directory.RemoveStaleTemp | adapters/hermes-agent/entrypoint.py:269-287 | afterwards there is no temporary name, or the run is refused and nothing changed |
| PublicationCode.Directory.WriteTempFile | adapters/hermes-agent/entrypoint.py:337-346 | the temporary inode holds exactly the requested bytes and mode, synced, however the writes are split |
| PublicationCode.Directory.LinkTempFile | adapters/hermes-agent/entrypoint.py:347-359 | links without overwriting, drops the temporary name, and ends done only with an exact target |
| PublicationCode.Directory.PublishExact | adapters/hermes-agent/entrypoint.py:290-359 | the code is an uninterrupted run of the transition system and keeps any existing target |
| LifetimeLock.LockPathCollides | cmd/steward-gateway/lifetime_lock.go:117-135 | true exactly when the lock path clashes with a configured data path |
| LifetimeLock.MutableLockPaths | cmd/steward-gateway/lifetime_lock.go:39-65 | the strictly ascending, duplicate-free lock paths of the mutable resources, or the error of the first resource that fails |
| LifetimeLock.SharedLockIsSharedResource | cmd/steward-gateway/lifetime_lock.go:39-65 | resources with one lock path are the same resource |
| LifetimeLock.LifetimeLockFiles.Acquire | cmd/steward-gateway/lifetime_lock.go:22-37 | takes all locks or, on failure, holds none |
| LifetimeLock.LifetimeLockFiles.Close | cmd/steward-gateway/lifetime_lock.go:137-149 | releases every lock it holds and nothing else |
| LifetimeLock.StepKeepsInv | cmd/steward-gateway/lifetime_lock.go:22-37 | no lock ever has two holders, in any interleaving of starts, failures, exits and kills |
| LifetimeLock.LiveGatewaysShareNothing | cmd/steward-gateway/lifetime_lock.go:22-65 | no two live Gateways share a mutable resource of their configurations, and no failed, ended or killed one holds a lock |
| LifetimeLock.ConflictIsWithAnother | cmd/steward-gateway/lifetime_lock.go:67-102 | a start fails on a lock exactly when another Gateway holds it, never on its own |
| LifetimeLock.ContentionHasAWinner | cmd/steward-gateway/lifetime_lock.go:22-37 | in any complete interleaving where contention is the only failure, at least one start succeeds |
| LifetimeLock.OppositeOrdersCanAllFail | cmd/steward-gateway/lifetime_lock.go:22-37 | the sorted order is needed: with opposite orders both starts can fail |
| GatewayConnectors.GatewayConfig.AddAuthorities | cmd/stewardctl/gateway.go:793-825 | adds the given keys to the table or refuses, as the specification function says |
| GatewayConnectors.GatewayConfig.PruneAuthorities | cmd/stewardctl/gateway.go:1075-1092 | keeps exactly the authorities some connector refers to |
| GatewayConnectors.SetConnector | cmd/stewardctl/gateway.go:740-911 | the command computes the specified new configuration or leaves the old one |
| GatewayConnectors.SetKeepsInv | cmd/stewardctl/gateway.go:740-911 | a `set` keeps the authority table invariant |
| GatewayConnectors.CommandsKeepInv | cmd/stewardctl/gateway.go:740-911 | over any sequence of commands: each referenced authority is defined once, each defined one referenced, epochs positive exactly with authorities, and a permit node exactly when an authority exists |
| GatewayConnectors.AuthorityIsNeverRebound | cmd/stewardctl/gateway.go:804-816 | while a key ID stays defined, no sequence of commands changes its key or tenant |
| GatewayInference.Routes.SetRoute | cmd/stewardctl/gateway.go:215-325 | the command replaces or appends one route as specified, or refuses, fails to be written, and changes nothing |
| GatewayInference.PutRouteFinds | cmd/stewardctl/gateway.go:289-317 | the route with the command's ID becomes the merged one and every other route stays as it was |
| GatewayInference.SettingStaysOn | cmd/stewardctl/gateway.go:279-317 | receipts, task scope, call allowance and request profile stay on through any commands that do not give the `-disallow` flag |
| GatewayInference.ModelIsKept | cmd/stewardctl/gateway.go:291-301 | a route with a profile keeps its model through any commands that give neither a model nor `-disallow-request-profile` |
| GatewayInference.TokenCapIsKept | cmd/stewardctl/gateway.go:291-301 | and its token cap through any commands that give neither a cap nor `-disallow-request-profile` |
| GatewayInference.ProfileIsKept | cmd/stewardctl/gateway.go:291-293 | and its profile through any commands that neither give nor remove one |
| GatewayInference.OtherRoutesUntouched | cmd/stewardctl/gateway.go:279-317 | commands for other routes never change a route |
| GatewayInference.ModelKeptIff | cmd/stewardctl/gateway.go:291-301 | a command without a model keeps the installed one if and only if the route ends with a profile or had no model |
| SecretScan.FindPatterns | adapters/hermes-agent/fixture_secret_scan.py:50-51 | true exactly when some pattern occurs |
| SecretScan.TailDecides | adapters/hermes-agent/fixture_secret_scan.py:54-68 | keeping the last bytes is enough: a new occurrence is always in the tail and the chunk |
| SecretScan.ScanStream | adapters/hermes-agent/fixture_secret_scan.py:54-70 | for every cut of the stream the result is the verdict on the whole readable text, with the size limit and the empty stream |
| SecretScan.CutsDoNotMatter | adapters/hermes-agent/fixture_secret_scan.py:54-70 | two ways of cutting a stream that fits get one verdict, clean exactly when it is not empty and no pattern occurs |
| Collectors.CollectByKey | cmd/stewardctl/control_support_bundle.go:330-373 | against any server at most 32,769 requests, and the result is the one the exchanged pages determine |
| Collectors.CursorProgress | cmd/stewardctl/control_support_bundle.go:467-478 | refuses exactly an inventory over the limit or a next cursor that makes no progress |
| Collectors.CollectByCursor | cmd/stewardctl/control_support_bundle.go:375-478 | as above for the cursor-based inventories |
| Collectors.CollectTenants | cmd/stewardctl/control_support_bundle.go:302-328 | as above for tenants, with the selection |
| Collectors.RunIsBounded | cmd/stewardctl/control_support_bundle.go:330-373 | any collection ends within 32,769 requests |
| Collectors.CollectsEverything | cmd/stewardctl/control_support_bundle.go:330-478 | against a server with a fixed inventory, unless a request fails, the whole inventory in order, or the limit error exactly when it is over the limit |
| Collectors.TenantsAreComplete | cmd/stewardctl/control_support_bundle.go:302-328 | the tenant collector returns the selection from the whole inventory and refuses only inventories over the limit |
| Collectors.TenantLimitIff | cmd/stewardctl/control_support_bundle.go:302-328 | it refuses an inventory if and only if the last page starts beyond the limit |
| Collectors.OverLimitIsAccepted | cmd/stewardctl/control_support_bundle.go:316-322 | an input above the limit that it accepts: 33,000 tenants with IDs of six bytes in pages of 500, every cursor within the 128 bytes the client allows |
| Collectors.SelectionIsExact | cmd/stewardctl/control_support_bundle.go:302-328 | a selected tenant is returned alone, and refused exactly when the inventory does not have it |
| Collectors.KeysetServerIsWellMarked | cmd/stewardctl/control_support_bundle.go:330-373 | a keyset server over strictly ascending IDs is such a server |
| SupportBundle.MergeNodes | cmd/stewardctl/control_support_bundle.go:221-254 | none exactly when two tenants disagree about a node, otherwise the strictly ascending union over all tenants |
| SupportBundle.CanonicalOrder | cmd/stewardctl/control_support_bundle.go:657-677 | accepts exactly bundles in strict order with valid node IDs and matching evidence |
| SupportBundle.SortedDeploymentsAscendIff | cmd/stewardctl/control_support_bundle.go:255-260 | sorting gives strict order exactly when no deployment key repeats |
| SupportBundle.KeysetListingsNeverRepeat | cmd/stewardctl/control_support_bundle.go:221-260 | from keyset servers no deployment key repeats |
| SupportBundle.Assemble | cmd/stewardctl/control_support_bundle.go:221-295 | a bundle exists exactly when tenants agree, loses and invents nothing, and passes the order check if and only if the server listed tenants in order, no deployment twice and valid node IDs |
| PermitHeader.RoundTrip | adapters/hermes-agent/entrypoint.py:758-773 | decoding undoes the unpadded URL-safe encoding of section 5 of RFC 4648, for every payload |
| PermitHeader.GateAcceptsExactly | adapters/hermes-agent/entrypoint.py:758-773 | the gate yields a payload exactly for the encodings of 1 to 32768 bytes |
| PermitHeader.AcceptedHeadersAreDistinct | adapters/hermes-agent/entrypoint.py:758-773 | accepted headers and payloads correspond one to one |
| PermitHeader.LengthBoundIsSizeBound | adapters/hermes-agent/entrypoint.py:763-766 | the header-length bound alone implies the payload bound, and every payload within it fits |
| PermitHeader.ForwardedExactly | adapters/hermes-agent/entrypoint.py:758-773 | a permit is forwarded exactly when there is one header and it encodes a payload within the limit |
| PermitHeader.GateAcceptsIff | adapters/hermes-agent/entrypoint.py:763-767 | of what the decoder reads, the re-encoding check refuses exactly the standard alphabet and set unused bits |
| ConnectorHistory.Ledger.UpdateHistory | internal/connectorledger/ledger.go:934-986 | advances the pending and spent tables as specified or refuses |
| ConnectorHistory.TerminalIsAuthorized | internal/connectorledger/ledger.go:934-986 | in an accepted ledger every terminal has an earlier authorization of the same call under the same permit |
| ConnectorHistory.AcceptedLedgerIsOrdered | internal/connectorledger/ledger.go:934-986 | no authorization of a task follows a terminal for it |
| EffectAudit.Visit | cmd/stewardctl/permit_bundle_audit.go:90-129 | accepts a receipt exactly when it fits the bundle and its slot is free, and updates only that step |
| EffectAudit.Acceptance | cmd/stewardctl/permit_bundle_audit.go:88-132 | the step-by-step acceptance is the statement about the whole ledger: every receipt of the permit fits and no task has two of one phase |
| EffectAudit.ReportedReceiptIsTheOnlyOne | cmd/stewardctl/permit_bundle_audit.go:88-129 | the receipt reported for a step is its only one of that phase |
| EffectAudit.StepsReportTheirOwn | cmd/stewardctl/permit_bundle_audit.go:81-129 | with unique task IDs, what a step reports is exactly the receipt of that phase in the ledger that carries its own digest |
| EffectAudit.ShadowedStepReportsNothing | cmd/stewardctl/permit_bundle_audit.go:83-87 | a step that shares its digest with a later one reports nothing |
| EffectAudit.StatusMatchesIff | cmd/stewardctl/permit_bundle_audit.go:105-127 | status matches the receipts if and only if no authorization follows its terminal |
| EffectAudit.FoldAloneMisreports | cmd/stewardctl/permit_bundle_audit.go:105-127 | without the ledger's order the fold reports `authorized` for a step that has a terminal |
| EffectAudit.StatusMatchesOnLedgers | cmd/stewardctl/permit_bundle_audit.go:88-132 | on a ledger the history check accepts, status always matches |
| EffectAudit.ForeignReceiptsChangeNothing | cmd/stewardctl/permit_bundle_audit.go:91-93 | a receipt of another permit, at any position, changes neither acceptance nor any step |
| EffectAudit.LedgerAuthorizesTerminals | cmd/stewardctl/permit_bundle_audit.go:133-137 | the final check for a terminal without authorization never fires on an accepted ledger |
| EffectAudit.Audit | cmd/stewardctl/permit_bundle_audit.go:81-158 | succeeds exactly on auditable ledgers with the expected head; each step reports its own receipts and the status they call for, terminal implies authorized, and the three counts add up |
| EffectsReadiness.Check | cmd/stewardctl/gateway_effects.go:159-215 | succeeds exactly when ready, with the sorted key IDs and the tenant's first budget |
| EffectsReadiness.ReadyIffExact | cmd/stewardctl/gateway_effects.go:159-215 | with unique IDs, ready if and only if each signed key is configured with its tenant and public key within the selected connectors, and each selected connector lists exactly the keys signed for it |
| ProfileInventory.CheckInventory | adapters/hermes-agent/entrypoint.py:566-579 | accepts exactly the complete inventories, with no explicit completeness check |
| ProfileInventory.AscendingNamesCover | adapters/hermes-agent/entrypoint.py:566-579 | as many strictly ascending known names as there are files are all of them, and only then |

## Left out

- Secure file opening, ownership, permissions, ACLs and the syscalls behind locks and syncs: they are atomic steps here.
- JSON, DSSE, signatures and X.509: decoded and verified values are inputs.
- HTTP servers, proxies, process supervision, signals and timeouts.
- Bridge configuration, status server, prompt text, command redaction and output classification.
- `gateway service`, `route`, `identity` and the connector presets: they would add only simple updates.
- The remaining inventories and timestamps of the support-bundle validation: field checks without state.
- GatewayConnectors.SetConnector: connector settings, receipt budgets and the receipt identity are one accepted-or-refused answer.
- GatewayInference.Routes.SetRoute: provider presets are resolved beforehand, and validating and storing the file is one written-or-not answer.
- EffectAudit.Visit: the permit verification at the observation time is an arbitrary test of that time.
- ConnectorHistory.Ledger.UpdateHistory: task-chain coordinates, run ownership and inference scope are one flag that can only refuse.
- Collectors.CollectByKey: page contents beyond the item ID are one opaque value.
- Nothing was executed: all claims are about the model.
