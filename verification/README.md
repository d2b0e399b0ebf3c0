# Verification of the NWOAS controller core

A Dafny model of the parts of NWOAS whose correctness carries the rest, each
written in the form of the code it models (classes whose methods update fields
and buffers, proved against functions) and followed by laws over all inputs and
all runs.

- **Admin ring, interpreter and payloads** (`AdminPayload`, `AdminState`,
  `AdminLaws`, `AdminScripts`, `AdminAnswers`, `AdminRing`, `RingEngine`,
  `RingTrace`, `PhaseTag`, `HostQueue`, `RingRuns`, `RingLaws`, `RingTorn`,
  `RingReplies`, `RingGenerations`, `RingCalls`, `RingStores`,
  `RingSubmissions`, `HostRuns`, `RingLooks`, `RingAnswers`, `RingCallers`): a
  bounded submission/completion ring with phase tag, back-pressure and PRP
  delivery over an admin command interpreter. `RingRuns` composes it with its
  host: a run is any list of configurations, resets, doorbells, turns,
  acknowledgements, host stores and looks at the completion queue, and a look
  may fall after any store of a turn. The controller implements NVM Express
  1.3.
- **Control registers and their read projection** (`Control`, `Controller`,
  `ControlLaws`, `ControlRegisters`, `ControlAnswers`, `ReadMirror`).
- **File channels** (`Upload`, `UploadReceiver`, `UploadRuns`, `UploadClient`,
  `UploadFrames`, `Download`, `DownloadChannel`, `DownloadRuns`, `DownloadWire`).
- **Memory test** (`Mixer`, `MemTest`), **boot handoff** (`Handoff`) and the
  **APFS checksum** (`Fletcher`).
- `Words`, `Memory`, `Wheel` and `Host` hold bytes and words, RAM, positions on
  a circular queue, and the callbacks with their recorded effects.

Callbacks that may fail are numbered; an environment fixes which of them fail,
so every law holds for every pattern of failures. A refused memory write may
have stored a first part. `contains` is a fixed set of (address, length) pairs;
closure under sub-ranges is a hypothesis only where it is needed
(`RingStores.FatalExactlyWhen`). The hash and the checksum of the file
channels are arbitrary functions.

The ring laws about the consumer hold while the host keeps its side: it cleared
the queue's tags before configuring it, neither it nor any PRP entry stores into
the live completion queue, and it acknowledges only what it has taken. The
model tracks this as `honest`; the other ring laws do not need it. The law about
submissions needs the like of the submission queue, which `RingSubmissions`
tracks as `orderly`.

Three things the code does not do for every input. A completion whose last store
reports failure after it has moved the phase tag shows a polling host an entry
that was never published; the header asks that a transfer be complete when it is
reported done, and says nothing of one that is not.
`RingLaws.PhaseTagSafety` says that this is the only exception, and
`RingTorn.TornEntryIsTaken` is a run that meets it. The polling driver copies
the entry before it tests the tag; when that copy is not atomic and the body
comes first, a new tag may stand behind a stale body. `RingLooks.BodyThenTag`
says exactly when, `RingLooks.StaleBodyIsTaken` is a run that does it, and
reading the tag first is safe at any distance (`RingLooks.TagThenBodyInRuns`).
And the order of the two boot copies that was replaced goes wrong for two kinds
of overlap: `Handoff.FormerOrderFailsExactly`.

Where the code and the comments beside it differ, the code is followed. The
upload receiver's comment mentions a kept partial file only for a link that
fails; when dropping the partial name fails after the link, the verified file is
published and the receiver still reports failure. `UploadRuns.EveryFaultRun`
says exactly when, and `UploadRuns.UnlinkFailureHappens` is a run that does it.

## Model

| member | source | states |
|---|---|---|
| RingLaws.Conservation | NWOAS/nwoas_scripts/native-s227/admin_ring.c:53-102 | In every serving state of every run: commands taken = completions published + 1 if an event request is held; published = acknowledged + pending; pending < depth; tail = (head + pending) mod depth; the last level reported is "pending is not zero". |
| RingLaws.FirstInFirstOut | NWOAS/nwoas_scripts/native-s227/admin_ring.c:61-82 | In every run completion j answers the j-th command that is not held: its identifier, the submission-queue slot just past it, and the phase of lap j / depth. |
| RingReplies.CommandsRunInTurn | NWOAS/nwoas_scripts/native-s227/admin_ring.c:61-77 | In every run the commands of a lifetime run one after the other: the first in the interpreter state the ring was configured with, each in the state that the one before left, and the ring is in the state that the last one left. |
| RingReplies.RepliesAreExecuted | NWOAS/nwoas_scripts/native-s227/admin_ring.c:61-77 | In every run completion j carries the status and dword 0 of executing the command it answers (or Invalid Field and 0 when its payload has nowhere to go), in the state before that command as CommandsRunInTurn chains it from the configuration. |
| RingSubmissions.TakenAsSubmitted | NWOAS/nwoas_scripts/native-s227/admin_ring.c:58-64 | In every run with a host that writes its k-th command into slot k mod depth, never over one outstanding, and then rings: the commands taken are, in order and unchanged, the first it submitted, all it has rung for exactly when the queue is empty; and each completion names the command submitted in its turn. |
| RingReplies.TurnObeys | NWOAS/nwoas_scripts/native-s227/admin_ring.c:58-85 | A served turn leaves the state and payload buffer as executing the command at the head does, and its completion reports that answer. |
| RingLaws.PhaseTagSafety | NWOAS/nwoas_scripts/native-s227/admin_ring.c:75-84 | Section 4.6 of NVM Express 1.3: in every run, at every depth, after any prefix of the stores of any turn, served or stopped, and at rest with an empty submission or a full completion queue, a head/phase consumer sees the slot at its head as new exactly when that completion is fully published and not yet taken, and reads it whole; except exactly when it had taken everything and a store that reported failure moved part of the next status word. |
| RingTorn.TornEntryIsTaken | NWOAS/nwoas_scripts/native-s227/admin_ring.h:6-10 | Such a run, from init: the last store of a completion fails after its first byte, the engine stops with nothing published, and the consumer takes an entry whose last byte is stale. |
| RingLooks.TagThenBodyInRuns | NWOAS/nwoas_scripts/ans2-s87/upstream-nvme.c:258-262 | In every run a host that reads the tag first, at any moment, and the entry at any later moment, any number of turns and stores on, gets the whole completion published next whenever the tag was new; in between the host does not look again, the ring is not set up anew, and no failed store moves part of a status word. |
| RingLooks.TagThenBody | NWOAS/nwoas_scripts/ans2-s87/upstream-nvme.c:258-262 | The same within one turn: the tag after i effects, the entry after j >= i. |
| RingLooks.BodyThenTag | NWOAS/nwoas_scripts/ans2-s87/upstream-nvme.c:258-262 | The order of the driver's copy when it is not atomic: the body read after i effects of a turn that completes and the tag after all is the published entry exactly when the body store was visible by then, or left the bytes that lay there. |
| RingLooks.StaleBodyIsTaken | NWOAS/nwoas_scripts/ans2-s87/upstream-nvme.c:258-262 | Such a run, from init: the body is read before the turn and the tag after it; the tag is new and the entry taken names a stale submission-queue head. |
| RingLaws.ReceivedExactlyOnce | NWOAS/nwoas_scripts/native-s227/admin_ring.c:75-102 | In every run of an honest host, also after the engine stopped, what the consumer took is a prefix of what was published, with no loss, repetition or change of order, and covers what was acknowledged, unless a failed store left part of a status word. |
| RingLaws.QueuesCoherent | NWOAS/nwoas_scripts/native-s226/admin_state.c:41-62 | In every state of every ring run, a queue is present exactly when its generation is odd, and a submission queue only with its completion queue. |
| RingLaws.EveryStateLawful | NWOAS/nwoas_scripts/native-s227/admin_ring.c:22-102 | Counts, order, the view of the completion queue and coherence as one invariant of every reachable state. |
| RingLaws.NextStoreIsSafe | NWOAS/nwoas_scripts/native-s227/admin_ring.c:75-84 | From a lawful state every prefix of the effects of the next turn, failing ones included, shows the consumer exactly what is published, if and only if it is not misled by a torn status word. |
| RingLaws.TurnKeepsView | NWOAS/nwoas_scripts/native-s227/admin_ring.c:58-85 | A turn of the loop, served or stopped, with the consumer looking at any moments during it, keeps the host's view of the completion queue and the consumer's place in it. |
| RingLaws.MoveKeepsCounted | NWOAS/nwoas_scripts/native-s227/admin_ring.c:53-102 | Each entry point keeps the counts, whatever the host does, including going fatal. |
| RingLaws.MoveKeepsOrder | NWOAS/nwoas_scripts/native-s227/admin_ring.c:53-102 | Each entry point keeps every published completion paired with its command. |
| PhaseTag.NewExactlyWhenPublished | NWOAS/nwoas_scripts/ans2-s87/upstream-nvme.c:258-281 | On a sound view the head/phase rule fires exactly when something published is not yet taken, yields that entry, and moves head and phase to the next one, across wraps. |
| PhaseTag.HarmlessKeepsView | NWOAS/nwoas_scripts/native-s227/admin_ring.c:78-80 | A store outside the queue, or into the body of the slot being filled, changes nothing a consumer can see. |
| PhaseTag.StatusPublishes | NWOAS/nwoas_scripts/native-s227/admin_ring.c:75-84 | Storing the status word of an entry whose body is in place appends exactly that entry to the view. |
| PhaseTag.TornIsSeen | NWOAS/nwoas_scripts/native-s227/admin_ring.c:81 | Storing only its first byte already shows the slot as new, and spoils nothing published before. |
| PhaseTag.ClearedQueueIsView | NWOAS/nwoas_scripts/native-s227/admin_ring.c:31-40 | A queue whose tags the host has cleared shows nothing as new. |
| HostQueue.Queue.Await | NWOAS/nwoas_scripts/ans2-s87/upstream-nvme.c:252-301 | The polling loop takes the entry of the first view of RAM that carries its phase, whatever its tag, invalidates that tag, moves on by one and rings the new head; the command is done exactly when the entry names its tag with status 0; or it times out and changes nothing. |
| HostQueue.AwaitsNext | NWOAS/nwoas_scripts/ans2-s87/upstream-nvme.c:252-288 | Polling sound views of a growing queue at any moments yields the next published entry, at the first view that has it. |
| HostRuns.WaitingTakesTheNext | NWOAS/nwoas_scripts/ans2-s87/upstream-nvme.c:252-288 | Polling the successive states of a run with an honest host, the loop takes the completion published next after those it has, at the first state that has one, and nothing before. |
| RingCalls.PollSplits | NWOAS/nwoas_scripts/native-s227/admin_ring.c:53-87 | poll(a) then poll(b) leaves the same ring and the same world as poll(a+b), and the return codes add up, for all a, b >= 1 with a+b <= 256, also when a turn goes fatal. |
| RingCalls.DrainSplits | NWOAS/nwoas_scripts/native-s227/admin_ring.c:58-86 | The loop can be cut after any number of turns, for any budget. |
| RingCalls.DrainIsTurns | NWOAS/nwoas_scripts/native-s227/admin_ring.c:58-86 | A poll is a run of that many turns, so the laws of runs hold for whole calls. |
| RingCalls.TailIsMoves | NWOAS/nwoas_scripts/native-s227/admin_ring.c:88-93 | A tail doorbell is storing the tail and then 256 turns. |
| RingCalls.TurnTakesOne | NWOAS/nwoas_scripts/native-s227/admin_ring.c:58-85 | A turn that is not fatal takes exactly one command and adds at most one pending completion. |
| RingCalls.DrainProgress | NWOAS/nwoas_scripts/native-s227/admin_ring.c:53-87 | A poll that does not fail stops only because the budget is used up, the submission queue is empty or the completion queue is full, and the backlog drops by what it returns. |
| RingCalls.TailEmptiesOrFills | NWOAS/nwoas_scripts/native-s227/admin_ring.c:88-93 | A tail doorbell that does not fail leaves the submission queue empty or the completion queue full. |
| RingCalls.RoundProgress | NWOAS/nwoas_scripts/native-s227/admin_ring.c:53-102 | Acknowledging everything and polling with budget 256 takes the whole backlog or at least cq_depth - 1 commands of it. |
| RingCalls.DrainBound | NWOAS/nwoas_scripts/native-s227/admin_ring.c:53-102 | A backlog of n is gone after ceil(n / (cq_depth - 1)) such rounds, unless the engine goes fatal. |
| RingCalls.EveryBacklogDrains | NWOAS/nwoas_scripts/native-s227/admin_ring.c:53-102 | The bound holds from every serving state of every run. |
| RingStores.FatalExactlyWhen | NWOAS/nwoas_scripts/native-s227/admin_ring.c:53-102 | After a successful init a serving engine turns fatal exactly on a failed read, write or reconcile, an out-of-range doorbell or head, or an acknowledgement beyond pending; never because of what a command says. |
| RingStores.TurnFailsExactly | NWOAS/nwoas_scripts/native-s227/admin_ring.c:58-85 | A turn stops exactly when one of its callbacks reported failure. |
| RingStores.SpansFit | NWOAS/nwoas_scripts/native-s227/admin_ring.c:42-52 | Section 4.3 of NVM Express 1.3: for every pair of PRP entries, resolved spans take all n bytes, each lies in one page that RAM contains, the second starts its page, and the two never overlap. |
| RingStores.ResolvesExactly | NWOAS/nwoas_scripts/native-s227/admin_ring.c:42-52 | And when they resolve: any one or two spans that take n bytes in all, up to a page, each nonempty, within 64 bits, in one page and in RAM, the first from a nonzero 4-aligned PRP1 on and, if there is a second, to the end of its page, the second from a nonzero page-aligned PRP2 on, are what is resolved; and nothing is resolved only when there are none such. |
| RingStores.StoresContained | NWOAS/nwoas_scripts/native-s227/admin_ring.c:67-81 | Every store of a turn lies in a PRP span of its command or in the completion slot being filled. |
| RingStores.CompletionStoredInOrder | NWOAS/nwoas_scripts/native-s227/admin_ring.c:78-84 | A turn that completes ends with body, barrier, status word and raised level, in that order. |
| RingStores.RestUntouched | NWOAS/nwoas_scripts/native-s227/admin_ring.c:58-85 | RAM outside the spans and the slot is what it was. |
| RingStores.DeliveryGathers | NWOAS/nwoas_scripts/native-s227/admin_ring.c:67-74 | The spans read back together are exactly the payload. |
| RingStores.TurnDelivers | NWOAS/nwoas_scripts/native-s227/admin_ring.c:67-77 | By what the PRP entries describe: if they describe spans, the payload lies in them whole and the status is 0; if they describe none, the completion says Invalid Field with result 0. |
| RingStores.ErrorCompletionChangesNothing | NWOAS/nwoas_scripts/native-s227/admin_ring.c:61-77 | A published completion with nonzero status means the command changed neither the interpreter nor the cache, also when its own PRP entries are what failed. |
| RingStores.PayloadCommandsArePure | NWOAS/nwoas_scripts/native-s226/admin_state.c:35-38 | A command that answers with bytes succeeded, changed no state and called no callback, so dropping its payload on a bad PRP loses nothing. |
| RingAnswers.ControllerReachesHost | NWOAS/nwoas_scripts/native-s227/admin_ring.c:58-85 | Identify Controller through the ring: wherever the PRP entries point, the host reads version, vendor, texts and every other byte of the controller there, with status 0. |
| RingAnswers.UnknownOpcodeReachesHost | NWOAS/nwoas_scripts/native-s227/admin_ring.c:58-85 | An opcode outside the ten known ones through the ring: status 1, result 0, nothing delivered and the interpreter unchanged. |
| RingAnswers.TurnReconciles | NWOAS/nwoas_scripts/native-s227/admin_ring.c:65-66 | A served turn calls reconcile exactly once with exactly what changed, and not at all when nothing did. |
| RingCallers.ConfiguresExactly | NWOAS/nwoas_scripts/native-s227/admin_ring.c:31-41 | When a ring is configured, in literal conditions over unbounded integers, and the state it then has. |
| RingCallers.ResetLeaves | NWOAS/nwoas_scripts/native-s227/admin_ring.c:22-30 | What a reset leaves, field by field: no rings, no failure, the next lifetime, no I/O queues or held event, generations moved on where a queue was, features kept or, with a full reset, at their defaults. |
| RingCallers.InitLeaves | NWOAS/nwoas_scripts/native-s227/admin_ring.c:10-21 | What init leaves, field by field. |
| RingCallers.StartsExactly | NWOAS/nwoas_scripts/native-s227/admin_ring.c:13-16 | Which policies and callbacks init accepts, in literal bounds. |
| RingCallers.PollAnswers | NWOAS/nwoas_scripts/native-s227/admin_ring.c:53-87 | The code of every poll: -1, 0, -2 or the commands taken, each exactly when, and that the first two have no effect. |
| RingCallers.TailAnswers | NWOAS/nwoas_scripts/native-s227/admin_ring.c:88-93 | The outcome of every tail doorbell. |
| RingCallers.AckAnswers | NWOAS/nwoas_scripts/native-s227/admin_ring.c:94-102 | The outcome of every acknowledgement that moves the head by n places: failed exactly when out of range or beyond what is pending; else n less pending, and the level raised exactly while something is. |
| RingCallers.LifetimesCounted | NWOAS/nwoas_scripts/native-s227/admin_ring.c:22-40 | Over every run the lifetime number counts the resets and the accepted configurations modulo 2^64, and the policy stays. |
| RingRuns.TurnMoves | NWOAS/nwoas_scripts/native-s227/admin_ring.c:58-85 | A served turn moves the submission head by one, the completion tail by one exactly when it answers, flips the phase exactly at the wrap, and touches the held event request only to hold this command. |
| RingRuns.CompletionFields | NWOAS/nwoas_scripts/native-s227/admin_ring.c:75-77 | The 16 stored bytes decode to the result, head, identifier, status and phase given, the reserved words being zero. |
| RingTrace.TurnTrace | NWOAS/nwoas_scripts/native-s227/admin_ring.c:58-85 | The effects of a turn are stores in its spans or the slot's body, then either the status word and the raised level, or nothing, or one failure followed by the drop of the level and the fault report. |
| RingEngine.Init | NWOAS/nwoas_scripts/native-s227/admin_ring.c:10-21 | An engine exists exactly for a valid policy and paired cache callbacks, starts empty at phase 1, and no callback is called. |
| RingEngine.Engine.Reset | NWOAS/nwoas_scripts/native-s227/admin_ring.c:22-30 | The new state is the reset ring (both queues gone, fatal cleared, next lifetime) and the level is dropped; RAM is not touched. |
| RingEngine.Engine.Configure | NWOAS/nwoas_scripts/native-s227/admin_ring.c:31-40 | Configures exactly when inactive, not fatal, depths 2..256, page aligned and in RAM; a refusal changes nothing. |
| RingEngine.Engine.PublishCompletion | NWOAS/nwoas_scripts/native-s227/admin_ring.c:75-84 | Builds the entry in place and stores body, barrier, status as Publish says, stopping at the first refused store. |
| RingEngine.Engine.ServeOne | NWOAS/nwoas_scripts/native-s227/admin_ring.c:59-84 | One pass of the loop over the real buffers is TakeTurn. |
| RingEngine.Engine.Loop | NWOAS/nwoas_scripts/native-s227/admin_ring.c:58-86 | The while loop is Drain: the turns in order, until budget, empty, full or fatal. |
| RingEngine.Engine.PollRing | NWOAS/nwoas_scripts/native-s227/admin_ring.c:53-87 | Result code, new ring and world are Poll: -1 for a bad budget, 0 when inactive or fatal, -2 on failure, otherwise the commands consumed. |
| RingEngine.Engine.RingTail | NWOAS/nwoas_scripts/native-s227/admin_ring.c:88-93 | A tail doorbell: out of range is fatal, otherwise the tail is stored and 256 turns run. |
| RingEngine.Engine.RingAck | NWOAS/nwoas_scripts/native-s227/admin_ring.c:94-102 | An acknowledgement: out of range or beyond pending is fatal, otherwise head and pending move and the level follows pending. |
| AdminLaws.ExecuteAccounted | NWOAS/nwoas_scripts/native-s226/admin_state.c:26-91 | For every command: a nonzero status leaves state, page and cache alone; each bit of `changed` is set exactly when that descriptor changed, with its generation, or when the cache backend was asked to switch and did; the world is otherwise untouched. |
| AdminLaws.EveryCommandAnswered | NWOAS/nwoas_scripts/native-s226/admin_state.c:30-38 | Every 64-byte command is answered if and only if the policy is valid and the cache callbacks are paired. |
| AdminLaws.EveryStateCoherent | NWOAS/nwoas_scripts/native-s226/admin_state.c:7-62 | Over every run of commands and resets, present means odd generation, absent means the empty descriptor, and a submission queue needs its completion queue. |
| AdminLaws.EqualGenerationsMeanUntouched | NWOAS/nwoas_scripts/native-s226/admin_state.c:7-62 | No ABA: two points of a run less than 2^64 events apart with equal generations had the same descriptor throughout. |
| AdminLaws.GenerationCountsChanges | NWOAS/nwoas_scripts/native-s226/admin_state.c:7-62 | Between any two points of a run each generation has advanced, modulo 2^64, by exactly the number of times its descriptor changed. |
| RingGenerations.NoAbaInRuns | NWOAS/nwoas_scripts/native-s226/admin_state.c:7-62 | The same no-ABA law over runs of the whole ring, with host stores, doorbells, resets and configurations between commands. |
| RingGenerations.RunCountsChanges | NWOAS/nwoas_scripts/native-s226/admin_state.c:7-62 | The same count of descriptor changes over runs of the whole ring. |
| AdminAnswers.OpcodeAnswers | NWOAS/nwoas_scripts/native-s226/admin_state.c:37-90 | For every 64-byte command: flags or a metadata pointer give Invalid Field; an opcode outside the ten known ones gives status 1; Abort gives result 1; an event request is held, and a second one gives 105h; each with nothing else changed. |
| AdminAnswers.UnknownOpcodeRefused | NWOAS/nwoas_scripts/native-s226/admin_state.c:90 | The status-1 answer for every such command as a host encodes it. |
| AdminAnswers.CreateAnswers | NWOAS/nwoas_scripts/native-s226/admin_state.c:41-54 | A queue is created exactly when the namespace is 0, the identifier 1, the queue contiguous, in RAM and not there yet, with vector 0 or completion queue 1; every other command gives Invalid Field and changes nothing. |
| AdminAnswers.DeleteAnswers | NWOAS/nwoas_scripts/native-s226/admin_state.c:55-62 | A queue is deleted exactly when its identifier is 1 and it is there; a completion queue in use gives 10Ch; else Invalid Field. |
| AdminAnswers.FeatureAnswer | NWOAS/nwoas_scripts/native-s226/admin_state.c:63-83 | Feature 7 reads 0; nine features are stored and read back; every other gives Invalid Field. |
| AdminAnswers.CacheAnswer | NWOAS/nwoas_scripts/native-s226/admin_state.c:67-81 | With a cache backend: current, default 1 and capability 4 read; only 0 and 1 set the current value, with change bit 2, or status 6 when refused; reserved bits and other selectors give Invalid Field. |
| AdminAnswers.ControllerAnswer | NWOAS/nwoas_scripts/native-s225/admin_payload.c:30-37 | Identify with CNS 1, from the bytes of the command to the bytes of the page: the whole controller for namespace 0 or all ones, else status Bh. |
| AdminAnswers.NamespaceAnswer | NWOAS/nwoas_scripts/native-s225/admin_payload.c:25-29 | CNS 0: size three times, format and write-protect bit of a namespace that is there, zeros elsewhere; else status Bh. |
| AdminAnswers.ListAnswer | NWOAS/nwoas_scripts/native-s225/admin_payload.c:38-41 | CNS 2: exactly the ascending identifiers above the one given, then zeros. |
| AdminAnswers.OtherIdentifyRefused | NWOAS/nwoas_scripts/native-s225/admin_payload.c:23-42 | Any other CNS or nonzero reserved byte gives Invalid Field. |
| AdminAnswers.LogAnswer | NWOAS/nwoas_scripts/native-s225/admin_payload.c:45-52 | Get Log Page: for logs 1, 2 and 3 exactly 4 * (NUMD + 1) bytes, at most a page, with their fields and zeros; else Invalid Field; the rest of the buffer stays. |
| AdminState.Admin.Run | NWOAS/nwoas_scripts/native-s226/admin_state.c:26-91 | The in-place interpreter leaves exactly the state, page, world and result of Execute. |
| AdminState.Admin.Reset | NWOAS/nwoas_scripts/native-s226/admin_state.c:7-13 | The in-place reset is AfterReset: generations of present queues move, the held request goes, features are restored only on a full reset. |
| AdminScripts.CqCreatedAsAsked | NWOAS/nwoas_scripts/native-s226/admin_state.c:41-48 | A host that builds Create I/O Completion Queue gets the queue it asked for exactly when there is none and RAM can hold it; otherwise Invalid Field and no change. |
| AdminScripts.SqCreatedAsAsked | NWOAS/nwoas_scripts/native-s226/admin_state.c:49-53 | The same for the submission queue, which also needs the completion queue. |
| AdminScripts.CreateThenDelete | NWOAS/nwoas_scripts/native-s226/admin_state.c:41-62 | Create CQ, create SQ, delete SQ, delete CQ restores the state except that each generation has moved by two; deleting the CQ first is refused. |
| AdminScripts.FeatureReadsBack | NWOAS/nwoas_scripts/native-s226/admin_state.c:63-83 | Get Features returns what was last set, after any run of commands and resets that neither sets that feature again nor resets fully. |
| AdminScripts.CacheReadsBack | NWOAS/nwoas_scripts/native-s226/admin_state.c:67-81 | The write cache reads back as last switched, after any run of commands and resets without another switch; a refused switch gives status 6 and leaves it. |
| AdminScripts.IdentifyGivesSize | NWOAS/nwoas_scripts/native-s225/admin_payload.c:25-29 | Identify Namespace returns the policy's size of that namespace, and fails exactly for a namespace that is not there. |
| AdminScripts.CommandFields | NWOAS/nwoas_scripts/native-s226/admin_state.c:39-42 | A command built from an opcode, identifier, namespace, pointer and two dwords reads back as those fields. |
| AdminPayload.Fill | NWOAS/nwoas_scripts/native-s225/admin_payload.c:10-53 | The in-place fill of the caller's buffer is Respond: same code, status, length and bytes, and bytes past the answer are kept. |
| AdminPayload.FillController | NWOAS/nwoas_scripts/native-s225/admin_payload.c:30-37 | The stores build the Identify Controller page at the start of the buffer and keep the rest of it. |
| AdminPayload.FillLog | NWOAS/nwoas_scripts/native-s225/admin_payload.c:45-52 | The stores build the log page of the length asked for and keep the rest of the buffer. |
| AdminPayload.Respond | NWOAS/nwoas_scripts/native-s225/admin_payload.c:10-53 | Whatever the command, the answer is at most 4096 bytes, its status is 0, 2 or Bh, and an answer that is not a success leaves the buffer as it was. |
| AdminPayload.NamespacePageDecodes | NWOAS/nwoas_scripts/native-s225/admin_payload.c:28-29 | The page decodes to the size three times, the 4 KiB format and the write-protect bit; everything else after the sizes is zero. |
| AdminPayload.ControllerPageDecodes | NWOAS/nwoas_scripts/native-s225/admin_payload.c:30-37 | The page decodes to the vendor, the three texts, the transfer limit, controller 1, version 1.3, the entry sizes, the number of namespaces and the cache bit; everything else is zero. |
| AdminPayload.ListPageDecodes | NWOAS/nwoas_scripts/native-s225/admin_payload.c:38-41 | The list holds exactly the active identifiers above the one given, ascending, then zeros. |
| AdminPayload.LogPageDecodes | NWOAS/nwoas_scripts/native-s225/admin_payload.c:45-52 | Health gives 300 K and 100 % spare, firmware slot 1 and its revision, everything else zero. |
| AdminPayload.PutText | NWOAS/nwoas_scripts/native-s225/admin_payload.c:8-9 | Text is stored padded with blanks to its field, cut at the field's end, and nothing else is stored. |
| ControlLaws.ReadyMeansQueuesSetUp | NWOAS/nwoas_scripts/native-s209/model.c:78-121 | Over every run the owner has queues exactly while RDY is set, and then those of the current ASQ, ACQ and AQA with CC.EN set; at rest CSTS is one of 0, 1, 2, 6, 7, 8, 9, 10. |
| ControlLaws.AllEightOccur | NWOAS/nwoas_scripts/native-s209/model.c:97-113 | Each of those eight values is reached by a concrete run, so the list cannot be shortened. |
| ControlLaws.InterruptLevel | NWOAS/nwoas_scripts/native-s209/model.c:6-21 | Over every run the last level given out implies pending, unmasked and INTx enabled, and differs from that condition only after a fatal stop with CC.EN set. |
| ControlLaws.FatalLasts | NWOAS/nwoas_scripts/native-s209/model.c:97-113 | A fatal status survives every call while EN stays set, and the queue registers are frozen with it. |
| ControlLaws.EveryStateLawful | NWOAS/nwoas_scripts/native-s209/model.c:6-121 | The invariant behind these, kept by every register write, PCI write, pending update and reset. |
| ControlRegisters.MaskingIsBitwise | NWOAS/nwoas_scripts/native-s209/model.c:92-96 | Writing the mask-set register, with 32 bits or with 64 and a zero upper half, sets exactly the bits written, the mask-clear register clears exactly them, and the level is updated at once. |
| ControlRegisters.RegistersReadAsFields | NWOAS/nwoas_scripts/native-s209/model.c:58-77 | Reading a register at its own width gives its field. |
| ControlRegisters.QueueBasesReadBack | NWOAS/nwoas_scripts/native-s209/model.c:115-119 | A 64-bit base reads back as written, equals its two halves in either order, and nothing changes while the controller is enabled. |
| ControlRegisters.CommandBits | NWOAS/nwoas_scripts/native-s209/model.c:42-57 | For every write at every offset and width: of the PCI command only bits 0, 1, 2 and 10 stick, from the bytes covered by a write that starts at or before it and from the old value elsewhere; every other write, also a byte write at offset 5, leaves it. |
| ControlAnswers.DisableOutcome | NWOAS/nwoas_scripts/native-s209/model.c:97-113 | A CC write that clears EN: nothing pending, the owner without queues, the line dropped, CSTS 0 or what a shutdown makes of 0. |
| ControlAnswers.EnableOutcome | NWOAS/nwoas_scripts/native-s209/model.c:100-113 | A CC write that sets EN: ready with its queues exactly when the command set, page size, entry sizes and both queues are supported and the setup works; else fatal, without queues, the line dropped and no shutdown. |
| ControlAnswers.StayOutcome | NWOAS/nwoas_scripts/native-s209/model.c:97-113 | A CC write that leaves EN set: only the register, and a shutdown if asked for. |
| ControlAnswers.ResetOutcome | NWOAS/nwoas_scripts/native-s209/model.c:10-14 | What a reset leaves, field by field, and what the owner is told. |
| ControlAnswers.PendOutcome | NWOAS/nwoas_scripts/native-s209/model.c:20-21 | The pending flag and the line it gives. |
| ControlAnswers.WriteAccess | NWOAS/nwoas_scripts/native-s209/model.c:86-120 | Exactly which register writes are refused, left to the owner or handled, and which of the handled ones change nothing. |
| ControlAnswers.PciAccess | NWOAS/nwoas_scripts/native-s209/model.c:42-57 | Exactly which configuration writes are accepted, what they can change, when the sizing probes are set and cleared, and when the level is updated. |
| ControlAnswers.PciReadsAsFields | NWOAS/nwoas_scripts/native-s209/model.c:23-41 | Configuration space shows the device, class, subsystem, BAR or its size while probed, command, pending bit and interrupt pin. |
| ControlAnswers.CapabilitiesRead | NWOAS/nwoas_scripts/native-s209/model.c:60-61 | CAP and VS, as numbers. |
| ControlAnswers.NothingElseReads | NWOAS/nwoas_scripts/native-s209/model.c:35-41 | Every other byte of both spaces reads 0, and the outcome of reads of a bad width or that do not fit. |
| Controller.NvmeControl.ResetAll | NWOAS/nwoas_scripts/native-s209/model.c:10-14 | The in-place reset is AfterReset: registers zero, queues dropped, level recomputed. |
| Controller.NvmeControl.Pend | NWOAS/nwoas_scripts/native-s209/model.c:20-21 | The pending flag is stored and the level recomputed from it. |
| Controller.NvmeControl.Enable | NWOAS/nwoas_scripts/native-s209/model.c:100-107 | Setup of the queues, or fatal, with the registers and the owner as Enabling says. |
| Controller.NvmeControl.ShutDown | NWOAS/nwoas_scripts/native-s209/model.c:109-113 | The shutdown status goes through 1 to 2, or to fatal when the flush fails, and nothing happens on a repeat or a fatal status. |
| Controller.NvmeControl.WriteConfig | NWOAS/nwoas_scripts/native-s209/model.c:97-113 | The CC write is disable, or enable, then shutdown, in that order, with the early returns on failure. |
| Controller.NvmeControl.WriteRegister | NWOAS/nwoas_scripts/native-s209/model.c:86-121 | Every register write at every offset and width: result code, registers and callbacks as RegisterWritten says. |
| Controller.NvmeControl.WritePci | NWOAS/nwoas_scripts/native-s209/model.c:42-57 | The byte loop over the command register and the sizing probes are PciWritten. |
| Controller.NvmeControl.ReadPci | NWOAS/nwoas_scripts/native-s209/model.c:35-41 | The byte loop assembles PciRead; a bad width gives no value, an access that does not fit gives all ones. |
| Controller.NvmeControl.ReadRegister | NWOAS/nwoas_scripts/native-s209/model.c:71-77 | The byte loop assembles RegisterRead. |
| ReadMirror.ProjectionRefines | NWOAS/nwoas_scripts/native-s224/read_mirror.h:24-79 | Right after publishing, every read at every address and width gives the control model's value, with BAR 700100000h; while the fast path is armed with its own mask in place of the model's, and after a fault with 3 for a dword read of CSTS. |
| ReadMirror.TwoHalves | NWOAS/nwoas_scripts/native-s224/read_mirror.h:52-79 | Exactly where a 64-bit read is its two 32-bit halves: where it fits, and in the part of the configuration window where neither it nor its halves fit. |
| ReadMirror.FlagsUnpack | NWOAS/nwoas_scripts/native-s224/module.py:20-21 | The packed flags unpack to the command, pending and the two probe bits, with bit 63 set. |
| ReadMirror.PciBytesAgree | NWOAS/nwoas_scripts/native-s224/read_mirror.h:24-36 | Every PCI byte of the projection is the control model's. |
| ReadMirror.RegisterBytesAgree | NWOAS/nwoas_scripts/native-s224/read_mirror.h:37-51 | Every register byte of the projection is the control model's. |
| ReadMirror.Mirror.PublishWords | NWOAS/nwoas_scripts/native-s224/read_mirror.h:13-21 | Publishing overwrites all five words, counts itself, and serves reads exactly when bit 63 of the flags is set. |
| ReadMirror.Mirror.ReadLocal | NWOAS/nwoas_scripts/native-s224/read_mirror.h:52-79 | The byte loops give Read, and exactly one counter moves, only when a value is returned. |
| ReadMirror.Overlay.Write | NWOAS/nwoas_scripts/native-s224/module.py:25-32 | After every write through the wrapper all local reads agree with the controller, or, when publishing failed, no read is served locally. |
| ReadMirror.BarStays | NWOAS/nwoas_scripts/native-s209/model.c:42-57 | No write moves the BAR, which the projection relies on. |
| UploadRuns.ExactlyOnce | NWOAS/nwoas_scripts/file-upload-s169/receiver.py:22-62 | An honest sender's frames lost, repeated and reordered in any way: the receiver is always at the stage fixed by the greedy in-order subsequence, with the partial file the artifact's prefix for that stage, the digest of the last frame taken and the acknowledgement block naming it. |
| UploadRuns.EveryFaultRun | NWOAS/nwoas_scripts/file-upload-s169/receiver.py:28-62 | The same under any failing file operations: while those of the frames that had their turn work, the receiver is at their stage; otherwise it has failed, and the artifact is at the destination all the same if and only if every frame had its turn and only dropping the partial name went wrong. |
| UploadRuns.UnlinkFailureHappens | NWOAS/nwoas_scripts/file-upload-s169/receiver.py:54-61 | Such a run: each frame once and in order with only the last unlink failing ends with the artifact published and the receiver failed. |
| UploadClient.AckNames | NWOAS/nwoas_scripts/file-upload-s169/client/nwput.c:31-34 | The client accepts an acknowledgement block if and only if it names its frame, the status of its kind and the count it expects. |
| UploadClient.Sender.Send | NWOAS/nwoas_scripts/file-upload-s169/client/nwput.c:35-45 | Three attempts against the receiver: success means that it has taken the frame, and failure that no attempt went well. |
| UploadClient.Sender.Run | NWOAS/nwoas_scripts/file-upload-s169/client/nwput.c:63-73 | For every pattern of lost writes, unreported writes and lost acknowledgement reads, PASS means that the receiver is done with the whole artifact at the destination; and if one attempt in any three goes well, there is a PASS. |
| UploadRuns.UploadCompletes | NWOAS/nwoas_scripts/file-upload-s169/receiver.py:28-62 | done holds exactly when every frame has had its turn; then the destination is the whole artifact, and before that there is none. |
| UploadRuns.NextFrameTaken | NWOAS/nwoas_scripts/file-upload-s169/receiver.py:35-62 | The next frame of the artifact is accepted and moves to the next stage. |
| UploadRuns.OtherFramesIgnored | NWOAS/nwoas_scripts/file-upload-s169/receiver.py:35-36 | Any other frame of the artifact, duplicate or early, changes nothing, and is accepted exactly when it is the last one taken once more. |
| UploadRuns.FrameIsGenuine | NWOAS/nwoas_scripts/file-upload-s169/client/nwput.c:24-30 | A frame built as the client builds it passes the receiver's checks and reads back as its fields and payload. |
| Upload.OnlyVerifiedIsPublished | NWOAS/nwoas_scripts/file-upload-s169/receiver.py:28-62 | For arbitrary frames and failing file operations: whatever appears at the destination has the registered size and digest, nothing existing is replaced, a finished or failed receiver is inert, and a plain rejection changes nothing. |
| Upload.EveryRunPublishesVerified | NWOAS/nwoas_scripts/file-upload-s169/receiver.py:28-62 | The same over every run from registration. |
| Upload.ClosingFrameEnds | NWOAS/nwoas_scripts/file-upload-s169/receiver.py:53-62 | How a closing frame ends that is due and verified, for every pattern of failing operations: done, failed, or failed with the file published, with the new fields and files in each case. |
| UploadFrames.GenuineIsBuilt | NWOAS/nwoas_scripts/file-upload-s169/receiver.py:29-34 | A block passes the receiver's checks only when it is, byte for byte, the frame built from its fields and payload; with FrameIsGenuine, exactly then. |
| UploadFrames.AcceptedExactly | NWOAS/nwoas_scripts/file-upload-s169/receiver.py:35-62 | For arbitrary bytes and faults: a frame with a new number is accepted exactly when its number, kind, offset and length are those that follow the frames taken and its file operations and digest work; what else becomes of the receiver in each case. |
| UploadFrames.EveryRunProgresses | NWOAS/nwoas_scripts/file-upload-s169/receiver.py:28-62 | Over every run of arbitrary frames and faults the receiver has taken some number of frames, with the sizes that fit it. |
| UploadFrames.RepeatAccepted | NWOAS/nwoas_scripts/file-upload-s169/receiver.py:35 | An accepted frame sent again is accepted without effect, whatever it was and whichever operations fail. |
| UploadFrames.OnlyTheLastRepeats | NWOAS/nwoas_scripts/file-upload-s169/receiver.py:35 | Over every run: a genuine frame with the current number is accepted exactly when its digest is that of the frame last taken, without effect. |
| UploadFrames.AcknowledgedOverRuns | NWOAS/nwoas_scripts/file-upload-s169/receiver.py:22-25 | Over every run of arbitrary frames and faults the block names session, frames taken, status 2, 1 or 0, bytes received, size and digest, with its checksum. |
| UploadFrames.AckMeansBuilt | NWOAS/nwoas_scripts/file-upload-s169/client/nwput.c:31-34 | For any block read: the client accepts it exactly when its checksum is right and it is byte for byte the acknowledgement waited for, apart from what the receiver leaves blank. |
| UploadFrames.OverlaidShows | NWOAS/nwoas_scripts/file-upload-s169/receiver.py:63-66 | Byte by byte: block 176 shows the acknowledgement, everything else the original. |
| UploadReceiver.Channel.AcceptFrame | NWOAS/nwoas_scripts/file-upload-s169/receiver.py:28-62 | The in-place receiver is Accept: result, every field, the files and the acknowledgement block. |
| UploadReceiver.Channel.Acknowledge | NWOAS/nwoas_scripts/file-upload-s169/receiver.py:22-25 | The acknowledgement block is rebuilt from the fields and nothing else changes. |
| UploadReceiver.Channel.Overlay | NWOAS/nwoas_scripts/file-upload-s169/receiver.py:63-66 | A read gets the acknowledgement block at its place and every other byte as it was. |
| DownloadRuns.WholeArtifactFetched | NWOAS/nwoas_scripts/file-delivery-s168/channel.py:129-214 | From registration on, chunk requests of any legal lengths that add up to the size fetch exactly the artifact. |
| DownloadRuns.Reassembles | NWOAS/nwoas_scripts/file-delivery-s168/channel.py:129-214 | From any state, successive requests give the artifact's prefix of the total length asked for. |
| DownloadRuns.IdsIncrease | NWOAS/nwoas_scripts/file-delivery-s168/channel.py:146-181 | Over every run of arbitrary request blocks latched ids never decrease, equal ids mean the same request and window, and the artifact is never touched. |
| DownloadRuns.HandleLatches | NWOAS/nwoas_scripts/file-delivery-s168/channel.py:146-181 | A rejected or repeated request changes nothing, a newly latched one has a greater id, and sending an accepted block again is accepted without effect. |
| DownloadRuns.ReadsConcatenate | NWOAS/nwoas_scripts/file-delivery-s168/channel.py:223-241 | A read of n blocks is the concatenation of the reads of its first k and its other n - k, anywhere on the device. |
| Download.ReadIsSlice | NWOAS/nwoas_scripts/file-delivery-s168/channel.py:223-241 | Every read is a slice of one view of the device: the window where it lies, the image elsewhere. |
| DownloadRuns.RequestParses | NWOAS/nwoas_scripts/file-delivery-s168/channel.py:129-144 | A request block parses to the id, offset and length it was built from. |
| DownloadRuns.WindowDecodes | NWOAS/nwoas_scripts/file-delivery-s168/channel.py:184-214 | What the window shows, in numbers: status 2 and nothing before any request; 3, offset all ones and no payload for the manifest; the bytes asked for with 0; those that are left with 1; always id, size, digest and both checksums. |
| DownloadWire.RequestIsBuilt | NWOAS/nwoas_scripts/file-delivery-s168/channel.py:129-144 | A block passes the structural checks only when it is, byte for byte, the request built from its id, offset and length; with RequestParses, exactly then. |
| DownloadWire.OtherBlocksRefused | NWOAS/nwoas_scripts/file-delivery-s168/channel.py:146-156 | Every other block, and any block before registration, is refused without effect. |
| DownloadWire.RequestAnswered | NWOAS/nwoas_scripts/file-delivery-s168/channel.py:146-214 | A request is accepted exactly when it is legal and newer than the last, or repeats it; a new one is latched and the window shows its answer, else nothing changes. |
| DownloadWire.RegisteredShows | NWOAS/nwoas_scripts/file-delivery-s168/channel.py:94-107 | Registering gives the no-request window, once. |
| DownloadRuns.OneChunk | NWOAS/nwoas_scripts/file-delivery-s168/channel.py:146-214 | One request at the end of what is fetched yields the artifact's next bytes, cut at its end. |
| DownloadChannel.HostArtifactChannel.Register | NWOAS/nwoas_scripts/file-delivery-s168/channel.py:94-107 | Registers once; a second call changes nothing. |
| DownloadChannel.HostArtifactChannel.HandleRequest | NWOAS/nwoas_scripts/file-delivery-s168/channel.py:146-181 | The in-place update is Handle: verdict, latched request and cached window. |
| DownloadChannel.HostArtifactChannel.Read | NWOAS/nwoas_scripts/file-delivery-s168/channel.py:223-241 | The intersection arithmetic gives Overlay; a bad shape or an unregistered channel gives nothing. |
| Mixer.PatternInjective | NWOAS/nwoas_scripts/memory-s171-test/pattern.h:4-9 | In every pass different 64-bit indices have different patterns. |
| Mixer.UnpatternPattern | NWOAS/nwoas_scripts/memory-s171-test/pattern.h:4-9 | The mixer is undone by an explicit inverse, pass by pass. |
| Mixer.UnfoldFold | NWOAS/nwoas_scripts/memory-s171-test/pattern.h:5-8 | x ^ (x >> k) is undone by z ^ (z >> k) ^ (z >> 2k) for the shifts used. |
| Mixer.TimesInverse | NWOAS/nwoas_scripts/memory-s171-test/pattern.h:6-7 | Multiplication by an odd constant modulo 2^64 is undone by its inverse. |
| MemTest.PassDetectsEveryAlias | NWOAS/nwoas_scripts/memory-s171-test/memtest.c:31-50 | After a full write pass every read matches if and only if no two indices share a cell, whatever the cells held before. |
| MemTest.Tester.Run | NWOAS/nwoas_scripts/memory-s171-test/memtest.c:31-52 | Out of time exactly when one of the readings of the clock was past the limit; otherwise success exactly when there is no alias and else a mismatch; the sums never disagree. |
| MemTest.Tester.WriteAll | NWOAS/nwoas_scripts/memory-s171-test/memtest.c:32-39 | The chunked write loop leaves the cells as written in index order and returns the wrapped sum, or runs out of time. |
| MemTest.Tester.ReadAll | NWOAS/nwoas_scripts/memory-s171-test/memtest.c:40-48 | The chunked read loop succeeds only when every word matches and reports a mismatch only when one does not. |
| MemTest.UnsharedKeepsPattern | NWOAS/nwoas_scripts/memory-s171-test/memtest.c:33-38 | Without an alias every index still holds its pattern after the write pass. |
| MemTest.MatchingMeansNoAlias | NWOAS/nwoas_scripts/memory-s171-test/memtest.c:41-47 | If every read matches, no two indices share a cell. |
| Handoff.PlaceIsExact | NWOAS/nwoas_scripts/loader-s215/handoff_layout.h:9-32 | The 64-bit layout succeeds if and only if a placement exists over unbounded integers, and returns the least 2 MiB-aligned base and the exact end of the copies. |
| Handoff.ReserveIsExact | NWOAS/nwoas_scripts/firmware-s216/NwoasHandoffRanges.h:5-21 | The 64-bit guard accepts exactly the admissible ranges over unbounded integers, and the reserve size is the page-rounded extent. |
| Handoff.GuardsAgree | NWOAS/nwoas_scripts/firmware-s216/NwoasHandoffRanges.h:5-21 | Every layout the loader returns is accepted by the firmware with that image as the FD if and only if the ADT is at most 1 MiB, and the reserve size is the loader's handoff extent. |
| Handoff.AdtSourceIsExact | NWOAS/nwoas_scripts/firmware-s216/NwoasHandoffRanges.h:22-32 | The ADT source is found exactly when it lies wholly in RAM, and is its physical address. |
| Handoff.UpIsLeast | NWOAS/nwoas_scripts/loader-s215/handoff_layout.h:27-29 | The rounding is the least multiple at or above. |
| Handoff.Machine.HandOver | NWOAS/nwoas_scripts/firmware-s216/patch_sources.py:21-42 | With the guards passed, RAM is that of the new order, with the fields read from the saved copy, and both destinations hold the original BootArgs and ADT bytes wherever the sources lay, if the saved copy lies safely; otherwise nothing but the saved copy is stored. |
| Handoff.NewOrderWorksExactly | NWOAS/nwoas_scripts/firmware-s216/patch_sources.py:22-42 | Where the saved copy may lie: saved BootArgs, ADT first, BootArgs second is right for every content of RAM and every overlap of sources and destinations, if and only if the saved copy is off the ADT source or in place, and off the ADT destination or shifted by as much as the ADT. |
| Handoff.FormerOrderFailsExactly | NWOAS/nwoas_scripts/firmware-s216/patch_sources.py:17-20 | The replaced order, which reads the ADT fields from BootArgs after the first copy, is right for every content of RAM and every function of those bytes as the fields if and only if BootArgs are already in place, or the first copy touches neither the fields nor the ADT, or there is no ADT and its place lies behind. |
| Handoff.HarmlessOverlap | NWOAS/nwoas_scripts/firmware-s216/patch_sources.py:17-20 | For one particular reading it may be spared: with the arithmetic of line 20 on four adjacent fields, overwriting the top byte of a one-byte ADT's size loses nothing, for every RAM with those fields. |
| Handoff.SelfOverlapBreaks | NWOAS/nwoas_scripts/firmware-s216/patch_sources.py:17-20 | An input at which it fails although the ADT is off everything: BootArgs overlap their own destination by all but eight bytes. |
| Fletcher.VerifyBlock | NWOAS/nwoas_scripts/ans2-s87/apfs-Util.cpp:65-82 | Two deferred-modulo calls with an intermediate reduction agree with the unbounded check on every block of 8 to 65536 bytes. |
| Fletcher.Fletcher64 | NWOAS/nwoas_scripts/ans2-s87/apfs-Util.cpp:46-63 | The 64-bit loop returns the unbounded sums reduced and packed; no accumulator overflows. |
| Fletcher.ProbeValid | NWOAS/nwoas_scripts/ans2-s87/apfs_space_probe.py:25-29 | The probe's loop over the reordered words is the same check. |
| Fletcher.ValidMeans | NWOAS/nwoas_scripts/ans2-s87/apfs-Util.cpp:65-82 | The check in closed form: first eight bytes neither all 0 nor all FFh, and words and distance-weighted words adding up to multiples of 2^32 - 1. |
| Fletcher.SumsAreWeighted | NWOAS/nwoas_scripts/ans2-s87/apfs-Util.cpp:46-63 | The two running sums are the total and the weighted total. |
| Fletcher.OneWordNoticed | NWOAS/nwoas_scripts/ans2-s87/apfs-Util.cpp:65-82 | A block that differs from a valid one in one word, by anything but a multiple of 2^32 - 1, is refused. |
| Fletcher.SumsConcat | NWOAS/nwoas_scripts/ans2-s87/apfs-Util.cpp:78-79 | Summing a concatenation is summing its parts in turn. |
| Fletcher.SumsCongruent | NWOAS/nwoas_scripts/ans2-s87/apfs-Util.cpp:59-62 | Reducing between the two calls does not change the result modulo 2^32 - 1. |
| Fletcher.SumsBounded | NWOAS/nwoas_scripts/ans2-s87/apfs-Util.cpp:53-57 | The sums of k words are at most (k+1)M and (k+1)^2 M. |
| Fletcher.NoOverflow | NWOAS/nwoas_scripts/ans2-s87/apfs-DiskStruct.h:192 | Those bounds fit 64 bits up to the largest APFS block. |

## Left out

- RingLaws.PhaseTagSafety: concurrency is a look between any two stores, and a look reads a whole entry at once (entries read in two pieces are in RingLooks); looks after the turn that tore a status word are not described further.
- RingLooks.TagThenBodyInRuns: a look has two pieces, the tag and then the entry; while it lasts the host does not look again, the ring is not set up anew, and no refused store has moved part of a status word.
- RingSubmissions.TakenAsSubmitted: each doorbell rings for all that has been written; a host that rings for part of it is not orderly here.
- HostQueue.Queue.Await: writing the command, setting up its control block, the doorbell that submits it, the clock and the status read after invalidation are not modelled; running out of views is the timeout.
- RingLaws.FirstInFirstOut: speaks of one configured lifetime, because configuring starts the counts anew; the status and result are in RingReplies.RepliesAreExecuted.
- RingEngine.Init: null pointers and missing mandatory callbacks are not represented, because the types exclude them; the conditions on the policy and the cache callbacks are.
- AdminLaws.EqualGenerationsMeanUntouched: the two points are less than 2^64 events apart, because the counter wraps there.
- AdminLaws.EveryCommandAnswered: null pointers and missing mandatory callbacks are not represented; only the I/O queue range and the cache callbacks are optional.
- UploadRuns.ExactlyOnce: an artifact whose frames cannot be numbered in 32 bits is excluded, because no sender can number them, and file operations succeed; failing ones are covered by UploadRuns.EveryFaultRun.
- UploadClient.Sender.Run: finding the disk, reading the source file, waiting between attempts and progress output are not modelled, and the receiver's file operations succeed.
- DownloadRuns.WholeArtifactFetched: fewer than 2^32 - 1 requests and an artifact shorter than 2^64 - 1 bytes, because ids have 32 bits and the offset 2^64 - 1 asks for the manifest.
- Fletcher.VerifyBlock: blocks shorter than two words are excluded, because the code reads past them; Fletcher.ProbeValid also excludes sizes that are not whole words, where the probe raises.
- ReadMirror.Mirror.PublishWords: the three counters do not wrap.
- Handoff.Machine.HandOver: where the fields lie in struct boot_args, which is not part of this model, is left open: they are any function of the saved bytes.
- Handoff.FormerOrderFailsExactly: for the same reason the fields are any function of a range of BootArgs, so a particular arithmetic may be spared (Handoff.HarmlessOverlap); the destinations do not overlap.
- ControlLaws.InterruptLevel: for a controller with an irq callback; the reset callback is taken to exist.
- MemTest.Tester.Run: the clock is a set of readings past the limit; argument parsing, memory availability, allocation, release (error 11) and printing are not modelled.
- UploadReceiver.Channel.AcceptFrame: each file operation either works or raises, flush and close are one, path and symbolic-link checks and permissions are not modelled.
- DownloadChannel.HostArtifactChannel.Register: Python exceptions appear as an absent result.
- The composition of the control registers with the ring by their owner, and the I/O queues behind the admin queue.
- The rest of the NVMe driver copies: the init ladder, MMIO, timeouts and coprocessor messages.
- The tools around the core: device control, proxy probes, USB-PD and display link scripts, NTFS and firmware build scripts, log watchers.
- The download client.
