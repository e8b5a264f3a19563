# Kino's hand-off, modelled in Dafny

Kino serves Rack applications: a Rust front-end accepts connections, parses requests and hands them to Ruby
workers (threads or ractors). This project models the hand-off and the machinery around it and proves what it
keeps. `dafny verify dfyconfig.toml` checks everything.

Code that several threads run at once is modelled as a transition system. One action is one critical section, one
channel operation or one atomic update; a run is any legal list of actions, so a theorem about every run is a
theorem about every interleaving. Code that one caller runs step by step is modelled as a class or a loop, with
its result tied to a specification function or to the property itself. Time is a real number, timeouts are
actions that may happen whenever they are possible, and the application is an arbitrary oracle.

| file | what it models |
|---|---|
| `Lanes.dfy`, `LaneRuns.dfy` | dispatchers, worker slots with bounded lanes, stealing, retiring, recycling, `abort_slot`, `close_queue`; what runs of them do, told from their actions |
| `Scan.dfy` | the wrapping cursor scan shared by the dispatcher and the root slab |
| `Dispatch.dfy` | `try_dispatch`, the steal sweep, the drain and close loops; bursts into fresh lanes |
| `PinSlab.dfy`, `EnvCache.dfy`, `EnvRuns.dfy`, `HostPort.dfy` | the root slab, the three LRU string caches over it, the Host header builder |
| `BodyPipe.dfy`, `Input.dfy` | the body forwarder, the channel and `read_body`; `rack.input` and its empty twin |
| `Responder.dfy`, `WorkerLoop.dfy`, `StreamOut.dfy` | the race for the response head, the worker's request loop, streamed bodies |
| `SlotBank.dfy`, `SlotTables.dfy`, `ThreadedPool.dfy`, `RactorSupervisor.dfy` | slot ownership and the two worker pools |
| `PoolScaler.dfy`, `Scaling.dfy`, `ThreadedScaling.dfy`, `RactorScaling.dfy` | idle inference from samples; the scaler driving each pool |
| `Shards.dfy` | the sharded accept loop |
| `Histogram.dfy` | the queue-wait histogram and its cumulative form |

## What the code does that its comments do not say

Where the comments promise more than the code does, the model follows the code. Each of these is a lemma, with
the exact condition where there is one.

- The cursor scans compute `(start + k) % n` in machine words. Across a wrap of the cursor they miss a slot,
  unless the slot count divides the word size (`Scan.CoversExactly`); a free awake lane can then be passed over
  (`Dispatch.FreeLaneMissed`), a burst be unbalanced (`Dispatch.BalancedExactly`) and a slab with room refuse an
  insert (`PinSlabs.FailsOnlyWhenFull`). The caches survive such a refusal (`EnvCache.RunKeepsInv`), and it can
  come only within a slab's length of the wrap (`EnvCache.ScanFindsSlot`).
- One process-wide host entry serves listeners on different ports correctly exactly when the Host header names
  its port (`HostPort.SharedHostNeedsPort`), and Host headers and URI authorities together exactly when the two
  derivations also agree on the name (`HostPort.SharedKeyExactly`); they do not for a key with user information
  (`HostPort.UserInfoBreaksSharing`).
- An upload cut off by a transport error reads as a clean end of file (`BodyPipe.CutOffReadsAsEof`).
- `Input` and `NullInput` differ on negative lengths, and only there (`Input.NullInputAgrees`).
- A raising `close` of an Array body on the fused path forgets the requests just taken
  (`WorkerLoop.Worker.LostExactly`, `WorkerLoop.Worker.Run`); a callable body that raises still ends its stream cleanly
  (`WorkerLoop.StreamedEnds`).
- An abort closes the stream for good exactly if it does not fall between the claim of a streaming head and the
  publication of its frame sender (`Responder.AbortClosesExactly`, `Responder.AbortBeforePublication`).
- A quarantined slot can be handed out again: exactly when its group was retired and its threads have ended
  (`ThreadedPools.QuarantinedFreedExactly`, `ThreadedPools.QuarantinedIsFree`). A group's slots come back whether its
  threads returned or died.
- A worker respawned on other slots while on the scaler's idle list can be sent home although it has just worked
  (`PoolScalers.RespawnIdleExactly`, `PoolScalers.RespawnHidesWork`).
- The ractor pool passes its ceiling when a worker on its way out crashes or is replaced
  (`RactorScaling.ExactlyThen`, `RactorScaling.OvershootsAlways`), and `retire` marks a worker that has no
  slots yet while answering false (`RactorSupervisors.RactorSupervisor.Retire`).

## Model

| member | source | states |
|---|---|---|
| Lanes.EveryRun | ext/kino/src/queue.rs:75-149 | In every run of sends, own takes, steals, idle ticks, retires, resets, aborts and close: each request that arrived is in exactly one of a dispatcher's hand, one lane, one worker's hands or the dropped ones with a claimed responder; no lane exceeds `LANE_DEPTH`; enqueued = served + queued + drained; served = waits recorded = slots' totals + totals discarded by reset |
| Lanes.StepKeepsInv | ext/kino/src/server.rs:716-865 | Every single action keeps the whole invariant: conservation, lane bounds, what retired, closed and aborted slots may still hold, counters |
| Lanes.RunKeepsInv | ext/kino/src/server.rs:716-865 | So does every run from any good state |
| Lanes.RetiredLaneStaysEmpty | ext/kino/src/registry.rs:282-290 | From a retired worker's exit on its idle tick until its slot is reset, its lane is and stays empty, whatever else happens |
| Lanes.SealedForGood | ext/kino/src/server.rs:828-836 | A closed and empty lane never receives a request again |
| Lanes.GoneLeavesNothing | ext/kino/src/queue.rs:94-123 | After `close_queue`, a slot registered by then whose worker left by closed lane, by retirement, or by a crash whose `abort_slot` returned has an empty lane for good |
| Lanes.DrainedAfterClose | ext/kino/src/server.rs:828-865 | Once all workers registered by `close_queue` are gone their lanes are empty, and every request that arrived is in a dispatcher's hand, claimed, or with a slot registered since; with no such slot, in hand or claimed |
| LaneRuns.LaneIsAQueue | ext/kino/src/server.rs:716-774 | In every run from every state a lane holds what it held, followed by what was sent to it, without the front ones, as many as were received or thrown away |
| LaneRuns.RetiredExactly | ext/kino/src/registry.rs:282-307 | A slot is retired after a run exactly as the last `retire` or `reset` of it in the run says |
| LaneRuns.RetireStopsTheLane | ext/kino/src/registry.rs:282-290 | In every run after `retire` without a reset no request is sent to the lane: it only loses requests from its front |
| LaneRuns.RetiredLeavesWhenIdle | ext/kino/src/queue.rs:36-41 | A retired worker that waits on an empty lane can tick, see the flag and leave as retired |
| LaneRuns.ResetFeedsAgain | ext/kino/src/registry.rs:292-307 | After `reset` a slot with its lane open takes any request in hand at once, and its new worker may start |
| LaneRuns.WorkerLeaves | ext/kino/src/queue.rs:36-124 | From wherever it is, a worker whose slot is retired or whose lane is closed can leave by its own doing, and its lane is empty then |
| LaneRuns.NothingIsStranded | ext/kino/src/queue.rs:75-124 | As long as one worker is in service, it can by its own doing empty every lane, its siblings' too: every request there ends served and answered, and each is counted once |
| LaneRuns.StealsFromTheFirst | ext/kino/src/queue.rs:78-101 | A worker that finds its lane empty, or ticks unretired, gets by itself to the first sibling in table order that has something |
| LaneRuns.NextWithoutParking | ext/kino/src/queue.rs:93-101 | A worker that starts or has answered does not park while any lane has something: it goes to its own lane's next request, else to the first loaded sibling's |
| LaneRuns.StoppedStays | ext/kino/src/queue.rs:94-123 | After nil, interrupt or crash a slot's worker does nothing more until a reset, and a crashed one's slot is never reset |
| LaneRuns.ParkedAtExactly | ext/kino/src/queue.rs:106-108 | A slot's mark tells when it parked, in the order of all parkings; a reset clears it |
| LaneRuns.ParkedMeansWaiting | ext/kino/src/queue.rs:103-123 | In every run the parked flag of an open lane is up exactly while its worker waits or looks around on a tick, or has crashed |
| LaneRuns.OpenExactly | ext/kino/src/server.rs:828-865 | A lane is closed by `close_queue` and by an abort of its slot, and by nothing else |
| LaneRuns.CloseQueueAlone | ext/kino/src/server.rs:828-836 | `close_queue` as protocol actions with nothing in between: every registered lane closed, nothing else changed |
| LaneRuns.ServedExactly | ext/kino/src/queue.rs:137-145 | Each slot's total is what its own worker took since its last reset |
| LaneRuns.WaitsExactly | ext/kino/src/queue.rs:141-145 | The waits recorded are those of the takes, in order |
| LaneRuns.HandExactly | ext/kino/src/server.rs:776-792 | A request is in a dispatcher's hand from its arrival until it is sent or given up |
| LaneRuns.GivenUpIsDone | ext/kino/src/server.rs:776-792 | A request given up is dropped with its responder claimed, for good |
| Scan.CoversExactly | ext/kino/src/server.rs:740-741 | A scan of `(start + k) % n` in machine words visits every slot if and only if it does not cross the wrap or `n` divides the word size |
| Dispatch.Hottest | ext/kino/src/server.rs:752-758 | The idle slot with an empty lane that parked last, the later one on a tie; none exactly if no slot is idle |
| Dispatch.Server.TryLane | ext/kino/src/server.rs:724-738 | Sends exactly if the lane is open, not retired and not full; otherwise the table is unchanged |
| Dispatch.Server.TryDispatch | ext/kino/src/server.rs:716-774 | Sent to the first awake accepting slot in cyclic order, else to the hottest idle slot if it accepts, else to the first accepting slot; Full hands the request back with the table unchanged and nothing accepting; Closed only if no lane it looks at is open |
| Dispatch.WholeTable | ext/kino/src/server.rs:740-774 | With full coverage those verdicts are about the whole table: refused exactly if no lane accepts, draining exactly if all are closed |
| Dispatch.AwakePreferred | ext/kino/src/server.rs:740-750 | With full coverage the request goes to a slot that is not parked whenever one of those has room |
| Dispatch.WakesTheLatest | ext/kino/src/server.rs:750-764 | With everybody parked and some lane empty it goes to an empty lane, that of the worker that parked last of those: a burst spreads |
| Dispatch.FreeLaneMissed | ext/kino/src/server.rs:721-741 | Without it, for every cursor and size, some table has a free awake lane the dispatch does not find |
| Dispatch.BurstBalanced | ext/kino/src/server.rs:721-774 | Of a burst into n fresh awake lanes, from any cursor value, that does not pass the cursor's wrap or with n dividing the word size, exactly the first n * `LANE_DEPTH` requests are sent, and at no point are two lanes' depths more than one apart |
| Dispatch.WrapUnbalances | ext/kino/src/server.rs:721-741 | For every other n, with w the word size modulo n: any burst that starts w before the wrap fills lanes 0 to w - 1 and then lane 0 again, while lane w is empty |
| Dispatch.BalancedExactly | ext/kino/src/server.rs:721-741 | Bursts into n fresh lanes stay balanced from every cursor value if and only if n divides the word size |
| Dispatch.Server.Steal | ext/kino/src/queue.rs:75-124 | Takes the oldest request of the first sibling in table order that has one, and only that; nothing exactly if all siblings are empty |
| Dispatch.Server.DrainLane | ext/kino/src/server.rs:845-865 | The aborted slot's lane is closed, marked parked and emptied, its requests dropped in order; other slots unchanged |
| Dispatch.AbortAlone | ext/kino/src/server.rs:845-865 | `abort_slot` as protocol actions with nothing in between, from its call to its return: answers what the worker holds, closes and parks the lane, empties it, claims every request in it and counts them as drained; nothing else changes |
| Dispatch.Server.CloseQueue | ext/kino/src/server.rs:828-836 | Every registered lane is closed and nothing else changes |
| PinSlabs.PinSlab.Insert | ext/kino/src/pin.rs:107-119 | The value goes into the first empty slot of the scan and no other slot changes; refused only if the scan meets none |
| PinSlabs.PinSlab.Release | ext/kino/src/pin.rs:123-125 | Clears that slot alone |
| PinSlabs.FailsOnlyWhenFull | ext/kino/src/pin.rs:107-119 | An insert is refused only on a full slab, if and only if the scan does not cross the wrap or the capacity divides the word size |
| EnvCache.FindFinds | ext/kino/src/env_strings.rs:432-456 | The lookup finds an entry of the key exactly if the cache has one |
| EnvCache.StepKeepsInv | ext/kino/src/env_strings.rs:432-541 | Every critical section, slab insert, refused insert and slab release of every caller keeps: one owner per occupied slot, every string of a live entry in its own slot, capacities, entries equal to a build, callers' results |
| EnvCache.RunKeepsInv | ext/kino/src/env_strings.rs:432-541 | So does every interleaving, evictions and refused inserts included |
| EnvCache.SlabIsPartitioned | ext/kino/src/env_strings.rs:100-110 | In every run the occupied slots are the disjoint union of the slots of live entries and of at most one entry per cache being rooted or dropped, within `CACHE_SLAB_CAPACITY`; whenever a string is to be rooted there is a free slot, and the insert's scan finds one from every cursor value with `start + CACHE_SLAB_CAPACITY` at most the word size |
| EnvCache.RoomToRoot | ext/kino/src/env_strings.rs:161-187 | A caller with a string to root always finds room in the slab: whether the insert's scan then meets it is `ScanFindsSlot`, with the condition `start + CACHE_SLAB_CAPACITY` at most the word size |
| EnvCache.ScanFindsSlot | ext/kino/src/pin.rs:107-119 | The atomic scan from cursor value `start` finds a first free slot, one the caller may root in, whenever `start + CACHE_SLAB_CAPACITY` is at most the word size |
| EnvCache.CachesReturnTheBuild | ext/kino/src/env_strings.rs:489-580 | In every interleaving the address and value caches return exactly the uncached string; an authority lookup returns the authority itself as HTTP_HOST, also when upgrading an entry in place or when the entry was evicted meanwhile; host name and port are those of some caller's build of the same key |
| EnvRuns.OneEntryPerKey | ext/kino/src/env_strings.rs:444-456 | However callers race between the unlocked build and the second lock, no key is ever cached twice: looking up an entry's key finds that entry |
| EnvRuns.NobodyIsStuck | ext/kino/src/env_strings.rs:432-541 | In every run a caller that has not returned can be got further: its own step is enabled, or one of whoever holds its cache |
| EnvRuns.LeastRecentGoes | ext/kino/src/env_strings.rs:335-341 | In every run putting an entry in drops none while there is room, and otherwise at most the one whose last use, over the whole run, lies furthest back |
| EnvRuns.TransparentExactly | ext/kino/src/env_strings.rs:460-541 | The host cache gives every caller of a key its own build, in every run with lookups by Host header only, or by Host header and by authority, if and only if the builds of those sources agree on the key |
| HostPort.SharedHostNeedsPort | ext/kino/src/request.rs:241-255 | Among lookups by Host header: one entry serves listeners on different ports correctly if and only if the header names its port |
| HostPort.SharedKeyExactly | ext/kino/src/request.rs:232-255 | For a key that comes both as a Host header and as a URI authority: if and only if it names its port and the two derivations agree on its name |
| HostPort.UserInfoBreaksSharing | ext/kino/src/request.rs:232-240 | A key with user information names its port and is not shared correctly: whoever comes first decides the server name |
| HostPort.UsualKeysShare | ext/kino/src/request.rs:495-503 | Every key of a name without user information, either without colons or bracketed, and a port that parses is shared correctly |
| HostPort.SplitExactly | ext/kino/src/request.rs:495-503 | A Host header that is a name, a colon and a port is split into just these; any other is a name alone on the local port |
| HostPort.ParsesExactly | ext/kino/src/request.rs:495-503 | What parses as a port: digits, after a plus sign or not, of a number of 16 bits |
| HostPort.ServerPort | ext/kino/src/env_strings.rs:469-472 | SERVER_PORT of a name and a port that parses, by either way, is the number the port spells, written out |
| HostPort.NumberOfDecimal | ext/kino/src/env_strings.rs:469-472 | What is written out for a number reads back as that number |
| BodyPipe.StepKeepsInv | ext/kino/src/request.rs:320-393 | Every step of forwarder or reader keeps the byte flow, the limit accounting and the read bounds |
| BodyPipe.RunKeepsInv | ext/kino/src/server.rs:551-583 | So does every interleaving |
| BodyPipe.NothingLostOrReordered | ext/kino/src/server.rs:551-583 | In every interleaving, results + leftover + queued bytes are, in order, a prefix of the longest prefix of whole frames within `max_body_size`, and all of it once the forwarder met the end or the limit |
| BodyPipe.ReadsDeliver | ext/kino/src/request.rs:320-393 | In every run what the app has been given is what its reads returned, one after the other, and each returned at most as many bytes as its own argument, one if that was 0 |
| BodyPipe.ShortMeansEmpty | ext/kino/src/request.rs:363-388 | A read returns less than asked for only if nothing is left over or queued at that moment |
| BodyPipe.NilMeansDelivered | ext/kino/src/request.rs:320-356 | In every run, when the last answer is nil every byte that arrived has been delivered and the body was within the limit: no interrupt, stall or oversize reads as nil |
| BodyPipe.WholeBodyCanArrive | ext/kino/src/server.rs:551-583 | Nothing in the pipe can keep a body within the limit from being read to its end |
| BodyPipe.DropHandleDrops | ext/kino/src/server.rs:578-580 | After the handle is dropped nothing is read any more |
| BodyPipe.FitsInLongest | ext/kino/src/server.rs:570-577 | Any fitting prefix of whole frames is a prefix of the longest fitting one |
| BodyPipe.EndOfBody | ext/kino/src/request.rs:320-393 | nil only when every byte that arrived was delivered and the body was within the limit; an oversize body raises with exactly the longest fitting prefix delivered; a stall raises with everything so far delivered |
| BodyPipe.FramingInvisible | ext/kino/src/request.rs:320-393 | At any two moments of any two runs over the same bytes, however framed, chunked, limited and interleaved, one app has been given a prefix of what the other has; a read that ends in nil has been given all of it |
| BodyPipe.CutOffReadsAsEof | ext/kino/src/server.rs:558-562 | A transport error after a frame raises no flag: a run in which the reader sees nil |
| Input.RequestCtx.ReadBody | ext/kino/src/request.rs:320-393 | Run alone, returns exactly the first min(`max_len`, available) bytes (one for a `max_len` of 0) of what is left over and queued, and keeps the rest; the error matches how the forwarder ended |
| Input.RequestCtx.Drain | ext/kino/src/request.rs:363-393 | The greedy drain keeps the order and stops at `max_len` or at an empty channel |
| Input.RackInput.Read | lib/kino/input.rb:21-36 | Returns exactly the next min(n, remaining) bytes (all of them without a length, nil at EOF for a positive one, an error and no change for a negative one) and leaves exactly what follows, regardless of pull sizes; a raising pull loses nothing |
| Input.RackInput.Gets | lib/kino/input.rb:38-44 | The bytes up to and including the first newline, or all if there is none, and exactly what follows is left; nil at EOF |
| Input.RackInput.NextChunk | lib/kino/input.rb:46-50 | One step of `each`: exactly the next min(`CHUNK_SIZE`, remaining) bytes; nothing at EOF; a raising pull loses nothing |
| Input.RackInput.Each | lib/kino/input.rb:46-50 | Yields exactly the body's remaining chunks, full ones but for the last; if a pull raises, the first of them, with the others still to come |
| Input.RackInput.Fill | lib/kino/input.rb:58-67 | Pulls until n bytes are buffered or EOF, losing nothing |
| Input.CallsConserve | lib/kino/input.rb:21-75 | For every mix of `read(n)`, `read`, `gets` and `each`, the results concatenated with what is left are the body |
| Input.NilMeansAllRead | lib/kino/input.rb:21-75 | When a call answers nil the app has been given the whole body |
| Input.NullInputAgrees | lib/kino/null_input.rb:14-29 | On an empty body the two classes answer every call of `read`, `gets` and `each` alike if and only if it does not pass a negative length |
| Responder.StepKeepsInv | ext/kino/src/response.rs:76-131 | Every swap, sender take, publication, send and drop keeps the race invariant |
| Responder.RunKeepsInv | ext/kino/src/response.rs:76-131 | So does every interleaving |
| Responder.AtMostOneHead | ext/kino/src/response.rs:76-131 | In every interleaving at most one head is sent: the one that the caller which swapped first was started with, the canned 500 for a backstop, none for headers that do not build; a client answered from a head gets that one |
| Responder.AnswerIsRight | ext/kino/src/server.rs:622-682 | The client's answer is a timeout exactly if the deadline came first; otherwise the head that was sent, or a 500 if the sender was dropped without one |
| Responder.NoCallIsStuck | ext/kino/src/response.rs:76-131 | In every reachable state each call under way has a next step that gets it nearer its end, and a winner that is through has its head out unless its headers did not build |
| Responder.StreamOpenExactly | ext/kino/src/response.rs:94-131 | The stream is opened by the publication of a valid head and closed by the app's finish or an abort that lost the claim, and by nothing else |
| Responder.FinishClosesExactly | ext/kino/src/response.rs:115-121 | `finish_stream` on a claimed request closes the stream for good under the same condition as an abort |
| Responder.DropAnswersTheClient | ext/kino/src/request.rs:80-88 | Once the request was dropped the head sender is sent or dropped if and only if the first claimant is not still in the middle of its call, and then the intake has its answer or can take it at once; with no call under way that is always so |
| Responder.AnswerIsFinal | ext/kino/src/server.rs:622-682 | No later action changes the client's answer |
| Responder.AbortClosesExactly | ext/kino/src/response.rs:94-131 | In every reachable state, an abort that lost the claim closes the stream for good, whatever happens after it, if and only if the first claimant is not a streaming call that has yet to publish its frame sender |
| Responder.AbortBeforePublication | ext/kino/src/response.rs:94-108 | Such a state is reachable: there an abort closes nothing, and the stream is open behind it once the head is out |
| WorkerLoop.StreamedEnds | lib/kino/worker.rb:120-144 | Whatever a streamed body does, its request ends claimed with the stream closed; cut with an error frame exactly if an enumerable body raised |
| WorkerLoop.Worker.Take | ext/kino/src/queue.rs:186-226 | Checkout clears the in-flight list (recording as forgotten what was unanswered on it), then the next requests in queue order, up to `max`, are admitted and unclaimed; nil exactly if the queue is empty and closed |
| WorkerLoop.Worker.ServePlain | lib/kino/worker.rb:73-118 | Whatever the app does, exactly this request leaves the pending ones, claimed and closed, with the head it deserves, and cut with an error frame exactly for a started enumerable body that raised |
| WorkerLoop.Worker.ServeLast | lib/kino/worker.rb:73-118 | The fused path: answers the request and takes the next ones; what it took is handed on unless an Array body's `close` raises, and then stays in flight unserved |
| WorkerLoop.Worker.HandleOne | lib/kino/worker.rb:42-47 | One request is answered before the next is in hand, for every app outcome, and exactly the lost takes so far are forgotten |
| WorkerLoop.Worker.Process | lib/kino/worker.rb:51-65 | The same for a batch, its requests in order |
| WorkerLoop.Worker.RunSingly | lib/kino/worker.rb:27-29 | The loop of single takes: the whole queue in order, nothing pending at the end, exactly the lost takes forgotten |
| WorkerLoop.Worker.RunBatches | lib/kino/worker.rb:30-33 | The loop of batches: the same, for every way the queue falls into batches |
| WorkerLoop.Worker.LostExactly | lib/kino/worker.rb:99-117 | A take is lost when it rode on the answer of a served request whose Array body's `close` raised; some take is lost if and only if a batch other than the last ends in such a request |
| WorkerLoop.Worker.SinglesExactly | lib/kino/worker.rb:99-117 | One at a time: if and only if a request other than the last of the queue is such a request |
| WorkerLoop.Worker.Run | lib/kino/worker.rb:21-34 | For every app, queue and batch size: every request is taken, in order; in the end each is forgotten or claimed with its stream closed, with the app's own head exactly if the app made one that builds, else a 500 or none, and cut exactly if an enumerable body raised; forgotten are exactly the lost takes, and there are some if and only if a batch other than the last ends in a raising fused `close` |
| StreamOut.StepKeepsInv | ext/kino/src/request.rs:412-453 | Every step of writer, retries, client, finish and aborts keeps order and ownership of the stream |
| StreamOut.RunKeepsInv | ext/kino/src/request.rs:412-453 | So does every interleaving |
| StreamOut.ChunksInOrder | lib/kino/worker.rb:137-142 | What the client sees is the app's chunks in order, without loss or repetition across retries, up to an error frame if there is one |
| StreamOut.CleanEndIsComplete | lib/kino/worker.rb:137-142 | The client sees a clean end only if `each` finished without raising, and then it has every chunk |
| StreamOut.RaiseIsCut | lib/kino/worker.rb:108-117 | Once the rescue of a raise is through, a client that is still there has the error frame queued, or the supervisor is about to send one |
| StreamOut.AbortCuts | ext/kino/src/response.rs:123-131 | A stream that is open when the supervisor aborts never ends cleanly, whatever happens after it |
| StreamOut.OnlyItsOwnRaise | ext/kino/src/request.rs:412-441 | Without abort or interrupt `each` runs to where it returns or raises of its own accord, also when the client has left |
| StreamOut.Undisturbed | lib/kino/worker.rb:137-142 | Left to themselves, app and client get every chunk through, then a clean end if `each` returned and an error frame if it raised |
| StreamOut.StreamCanEnd | ext/kino/src/request.rs:412-453 | From every state with the client still there the stream can come to a clean end or to an error frame the client has seen, nobody giving up |
| SlotBanks.SlotBank.Claim | lib/kino/slot_bank.rb:19-25 | A slot nobody holds; registered anew only if none is free, so that the number registered is the most ever out at once |
| SlotBanks.SlotBank.Release | lib/kino/slot_bank.rb:27-29 | The slots are free again; registered ones are exactly free and out |
| SlotTables.OneHolder | lib/kino/threaded_pool.rb:127-145 | With the inverse table exact, no slot has two holders |
| ThreadedPools.ThreadedPool.AddThread | lib/kino/threaded_pool.rb:135-143 | A thread starts on a slot where no thread is running; tables stay inverse to each other and exact about the bank |
| ThreadedPools.ThreadedPool.SpawnGroup | lib/kino/threaded_pool.rb:127-145 | A new group with that many slots, none of them running before; all other groups unchanged |
| ThreadedPools.ThreadedPool.Reap | lib/kino/threaded_pool.rb:166-180 | Exactly the retiring groups with no thread alive, however their threads ended, leave; a slot becomes free exactly if its group left; the active groups are unchanged |
| ThreadedPools.ThreadedPool.Retirable | lib/kino/threaded_pool.rb:52-59 | Exactly the active groups that are not wedged, with their slots, after the finished ones were reaped |
| ThreadedPools.ThreadedPool.Grow | lib/kino/threaded_pool.rb:62-67 | Exactly one more active group, on slots where nothing runs, after the finished ones were reaped |
| ThreadedPools.ThreadedPool.Retire | lib/kino/threaded_pool.rb:72-83 | The group leaves the count at once; false, and nothing changes, if it is unknown or already retiring |
| ThreadedPools.ThreadedPool.Replace | lib/kino/threaded_pool.rb:87-95 | A stand-in of one thread that does not count; the wedged group goes on counting and is no longer offered |
| ThreadedPools.QuarantinedFreedExactly | lib/kino/threaded_pool.rb:166-178 | A quarantined slot that a group holds becomes free in a reap if and only if the group was retired and all its threads have ended |
| ThreadedPools.QuarantinedComesFree | ext/kino/src/registry.rs:292-296 | In every run of retire, replace, exit and reap of a group of one thread the quarantined slot ends up free to be handed out |
| ThreadedPools.QuarantinedIsFree | lib/kino/threaded_pool.rb:72-95 | The pool itself goes through such a run, table by table, from one running group |
| RactorSupervisors.RactorSupervisor.Spawn | lib/kino/ractor_supervisor.rb:203-224 | A ractor on claimed slots that no running ractor holds; slots out of the bank are exactly those run on and the abandoned ones |
| RactorSupervisors.RactorSupervisor.Grow | lib/kino/ractor_supervisor.rb:97-103 | Exactly one more counted worker, from the moment it is asked for |
| RactorSupervisors.RactorSupervisor.Retire | lib/kino/ractor_supervisor.rb:109-120 | Out of the count at once; its listed slots are told to stop; false also for a live worker without slots, which is marked all the same |
| RactorSupervisors.RactorSupervisor.Replace | lib/kino/ractor_supervisor.rb:127-155 | Once per worker; the new worker counts, the replaced one no longer does |
| RactorSupervisors.RactorSupervisor.ExitClean | lib/kino/ractor_supervisor.rb:230-238 | Not live any more; slots return to the bank exactly if the worker was retired, and are abandoned otherwise |
| RactorSupervisors.RactorSupervisor.Crash | lib/kino/ractor_supervisor.rb:173-196 | Slots abandoned; unless draining it stays live and, if it was retiring, counts again |
| PoolScalers.NothingInBetween | lib/kino/pool_scaler.rb:81-96 | Empty-handed at one sample and the same served total at a later one: empty-handed at every instant between, however many samples were skipped |
| PoolScalers.Tally | lib/kino/pool_scaler.rb:85-87 | The rows' sum is the number of requests the worker was given, and busy means it holds one |
| PoolScalers.PoolScaler.Observe | lib/kino/pool_scaler.rb:81-101 | After a sample exactly the workers idle now are listed, since when they first were, totals are noted for all sampled and forgotten for those that left the list unsampled; each listed worker that kept its slots held nothing from the time noted for it to now |
| PoolScalers.PoolScaler.Candidate | lib/kino/pool_scaler.rb:49-52 | The worker idle longest; if it kept its slots it held no request at any instant of the last `scale_down_after`; none only if no listed worker has been idle that long |
| PoolScalers.PoolScaler.NotePressure | lib/kino/pool_scaler.rb:40-41 | The pool is to grow if and only if the queue was not empty at this tick and the one before, over any history of ticks |
| PoolScalers.StreakIsPressure | lib/kino/pool_scaler.rb:40-41 | The counter kept is the number of ticks in a row that found requests waiting: at least n if and only if each of the last n did |
| PoolScalers.RespawnIdleExactly | lib/kino/pool_scaler.rb:86-88 | For a worker respawned on other slots that passes the idle test: it really held nothing if and only if the noted total was zero and the old slots admitted nothing more |
| PoolScalers.RespawnHidesWork | lib/kino/pool_scaler.rb:86-88 | A history in which such a worker passes the test right after working |
| ThreadedScaling.ElasticPool.Step | lib/kino/pool_scaler.rb:39-53 | Exactly one tick of the policy on the threaded pool: grow exactly if the queue was not empty on two ticks running and there is room; otherwise sample, and send home the worker idle longest exactly if one can be spared and has been idle long enough |
| ThreadedScaling.ShrinksExactly | lib/kino/pool_scaler.rb:45-52 | A tick without pressure sends a worker home if and only if the count is above the floor and some worker listed by the sample has been idle `scale_down_after`, and then the one idle longest |
| ThreadedScaling.ElasticPool.Run | lib/kino/pool_scaler.rb:39-76 | Over every run of ticks, thread exits and replacements: every tick is one of the policy; floor <= active count <= ceiling throughout, one event moves it by at most one, and every worker sent home had held no request for `scale_down_after` |
| RactorScaling.ElasticRactors.Step | lib/kino/pool_scaler.rb:39-53 | Exactly one tick of the policy on the ractor pool: grow, or sample and send home the worker idle longest if it has been idle long enough and the count is above the floor; the idle guarantee for workers that kept their slots |
| RactorScaling.ElasticRactors.Happens | lib/kino/ractor_supervisor.rb:159-238 | A spawn, return, crash or replacement changes exactly what the supervisor's tables say it does |
| RactorScaling.HappenedCounts | lib/kino/ractor_supervisor.rb:78-82 | What it does to the count, exactly: one more if and only if it is the crash of a worker on its way out or the replacement of one that no longer counts, one less if and only if a counted worker returns |
| RactorScaling.ElasticRactors.Drive | lib/kino/pool_scaler.rb:39-76 | For every event list the pool goes, moment by moment, through a run of the policy and the happenings |
| RactorScaling.EveryRun | lib/kino/ractor_supervisor.rb:78-120 | In every run the count is past the ceiling by no more than the surplus events so far and below the floor by no more than the losses, and moves by at most one at a time; so a run without either stays between floor and ceiling |
| RactorScaling.ExactlyThen | lib/kino/ractor_supervisor.rb:173-196 | From the ceiling an event leads past it if and only if it is a surplus; from the floor below it if and only if it is a loss |
| RactorScaling.OvershootsAlways | lib/kino/ractor_supervisor.rb:188-190 | Floor one, ceiling two, nine given events (ticks, two spawns, a crash): every run over them is at the ceiling before the crash and at three after it, however the slots fall |
| RactorScaling.Overshoots | lib/kino/ractor_supervisor.rb:188-190 | The pool, driven by these events, goes through such a run and ends with three counted workers |
| Shards.LeastLoaded | ext/kino/src/io_shards.rs:382-389 | Among the shards believed live the first with the smallest load; none exactly if none is believed live |
| Shards.ChoiceIsLeast | ext/kino/src/io_shards.rs:357-367 | In every run the shard chosen for the connection carried is one believed live with the least load, and only its load changes, by one |
| Shards.SendReachesExactly | ext/kino/src/io_shards.rs:367-376 | In every run the send puts the connection behind the chosen shard's queue if the shard still receives; otherwise it comes back and the shard is believed dead |
| Shards.ShardIsAQueue | ext/kino/src/io_shards.rs:231-258 | A shard that does not die picks up its connections in the order they were handed to it |
| Shards.StoppedExactly | ext/kino/src/io_shards.rs:325-378 | In every run the acceptor has stopped if and only if it was told to or gave up for want of shards; a failed accept or send never stops it |
| Shards.StopStops | ext/kino/src/io_shards.rs:327-338 | After shutdown the acceptor accepts and hands over nothing more, and a permit it held is back |
| Shards.Route | ext/kino/src/io_shards.rs:357-377 | The re-route loop ends; it delivers to a receiving shard of least load among those receiving, marks only dead shards dead, and gives up exactly if no shard believed live receives |
| Shards.StepKeepsInv | ext/kino/src/io_shards.rs:231-274 | Every permit, channel and counter action keeps permits and loads exact |
| Shards.EveryRun | ext/kino/src/io_shards.rs:313-389 | In every run: connections in transit, queued or open never exceed `max_connections`; a receiving shard's load is exactly its queued, open and just closed connections plus the one on its way; every accepted connection is in exactly one place; no more sends bounce than there are shards |
| Shards.NothingLeftBehind | ext/kino/src/io_shards.rs:231-295 | Once the acceptor stopped and the shards hold nothing, all permits are back and every connection is finished exactly once |
| Shards.GivesUpExactly | ext/kino/src/io_shards.rs:358-366 | The acceptor flips to draining exactly when it believes no shard live, and then none receives |
| Histograms.QueueHistogram.Record | ext/kino/src/registry.rs:227-234 | After any waits: the first i buckets hold exactly the waits within the i-th bound, buckets plus overflow = count = number of waits, and the sum is theirs |
| Histograms.Position | ext/kino/src/registry.rs:228 | The first bound at least as large as the wait |
| Histograms.Emit | ext/kino/src/control.rs:348-369 | On any snapshot the lines are nondecreasing and end in `_count` = `+Inf`; on a histogram's own, each `le` value is the number of waits within that bound |
| Histograms.TornSnapshot | ext/kino/src/registry.rs:236-243 | A snapshot read while waits are recorded yields lines that lie between the true counts at the start and at the end of the reading |
| Histograms.CountsServed | ext/kino/src/queue.rs:137-145 | In every run of the hand-off, recording its waits: buckets plus overflow = count = requests served = slots' totals + totals discarded by resets; enqueued = that + queued + drained |

## Left out

- Memory orderings: every step is atomic and seen by all; flags and counters are read as they are.
- Real time: `queue_timeout`, `request_timeout`, idle deadlines and the scaler's tick are steps that may happen; only the scaler's samples carry clock readings, and a sample is one instant.
- Widths: counters are unbounded, except the two cursors, which wrap at the word size.
- The shared queue without lanes (`block_take` on `req_rx`): a single channel, which adds nothing to the lane protocol.
- hyper, tokio, flume and lru internals: channels are bounded FIFO queues, the LRU a list in recency order, the semaphore a number.
- Ruby VM matters: lock release, interrupts into native code, garbage collection, ractor shareability, zero-copy bodies.
- TLS, listening sockets, the control plane's routing and JSON, access log, signal handling, CLI, configuration: plumbing and presentation.
- Wedge detection by clock: the replacement of a wedged worker is a pool step that may happen to any slot.
- Failures half-way through starting a group, a ractor or a replacement (`ThreadError`, the retry in `replace`).
- A hard crash of a threaded worker's thread: the thread just ends; in `Lanes.dfy` a crash is the ractor supervisor calling `abort_slot`.
- Pool methods run one at a time: the lock hand-overs inside `spawn_group` and `spawn_worker` are not interleaved with other pool calls.
- `PinSlab::insert` scans atomically where a scan is spoken of: an interleaved scan, which can miss a slot freed behind it, is only covered as a refused insert, which the cache model allows at any time.
- Host keys are text: a Host header that is not UTF-8, and the key made from the local address when there is neither authority nor Host, are not modelled; what `http::uri::Authority` does is taken from its documentation, for keys it accepts.
- `least_loaded` reads all loads at one instant.
- Transport errors are excluded from what nil means in `BodyPipe.EndOfBody`, which says how the upload ended; `BodyPipe.CutOffReadsAsEof` shows why.
- Dispatch.Hottest: whether a closed or retired slot is hottest is not asked, as in the code; dispatch then falls through to the scan.
- SlotBanks.SlotBank.Claim: does not say which free slot is recycled; the code takes the one returned last, and nothing depends on it.
- RactorScaling.ElasticRactors.Step: promises idleness only for workers that kept their slots while listed, because a respawned worker's served total restarts.
