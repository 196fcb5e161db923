# Remote Logger: a verified model

A model in Dafny of the server's core and proofs about it. Four parts of the server carry real
guarantees, and each is modelled in the form the source gives it:

- **The pipeline.** Ingest handlers take an id, publish to the broadcast ring and try to queue; one
  writer thread commits batches, sweeps and drains; SSE streams subscribe, replay, fix `high_water`
  and tail the ring; clients reconnect; the process restarts. `Protocol.dfy` is this as a step
  machine in which every atomic action is a step, so a theorem about reachable states is a theorem
  about every interleaving. `Invariants.dfy` proves what every step keeps; `Pipeline.dfy`,
  `Delivery.dfy` and `Reconnect.dfy` prove what follows. The code that performs these steps is
  modelled as it runs, with mutable objects and loops: the writer thread over its connection
  (`Storage.dfy`, `Writer.dfy`, `WriterRuns.dfy`), the stream handler over the ring
  (`Streaming.dfy`, `StreamRuns.dfy`), the ingest handlers over the shared state (`Ingest.dfy`).
- **The alert engine.** `AlertEngine.dfy` is the engine with its mutable windows; `AlertRuns.dfy`
  compares whole runs with a reference that keeps the full history.
- **The calendar and timestamps.** `Calendar.dfy`, `Timestamps.dfy` and `Decimal.dfy`.
- **The readers.** The full-text quoting printer (`FtsQuery.dfy`), the dynamic query builder
  (`Search.dfy`), paging and context (`Queries.dfy`), the chunked export (`Export.dfy`), and the SSE
  wire format with an EventSource parser (`SseWire.dfy`).

The device cache, an index that must equal a fresh load of its table, is `Devices.dfy`. `Basics.dfy`,
`Records.dfy`, `Text.dfy`, `Table.dfy` and `Retention.dfy` hold what the others share.

`dafny verify dfyconfig.toml` checks the whole project.

## What to read first

- `Protocol.Step`, `Protocol.Enabled` and `Protocol.Apply` define the step machine. A client's history
  (`origin`, `prior`, `ordered`, `clean`) and the process's (`History`, `Totals`) are part of the state, so that
  theorems can speak of them; no step depends on them.
- `Delivery.DeliveredIff`, `Delivery.MissedRecord`, `Reconnect.ReconnectAtMostOnce` and
  `Reconnect.ReconnectExactlyOnce` are the delivery guarantees; `Pipeline.FreshIds` and
  `Pipeline.IndexAgreement` those of the store.
- `WriterRuns.BatchIsSteps` and `StreamRuns.ConnectionIsSteps` say that the writer and the stream handler,
  as they run, are runs of the step machine.
- Failures, other threads and time enter as inputs. A `Writer.Tick` says what arrived before a poll,
  whether the draining flag was set, whether a sweep is due and which statement of the next
  transaction fails; a `Streaming.Wake` what was published before a stream was woken; an
  `Ingest.Meanwhile` what other handlers and the writer did before one operation of a request.

## Where the code and its comments differ

- `src/handlers/stream.rs:58-59` says nothing published between subscribing and the replay query is
  missed, the overlap being removed by `high_water`. That holds when acceptance follows id order
  (`Delivery.ReplayComplete`); ids are taken before the send, so two handlers can be accepted out of
  order, and then a line can be lost (`Delivery.RaceLosesLine`). `Delivery.DeliveredIff` says exactly
  which lines arrive.
- `src/store/mod.rs:99-101` says ids stay monotonic even as retention deletes. Within one process they
  do (`Pipeline.FreshIds`); a restart reseeds from MAX(id) and reissues ids exactly when the newest id
  is not stored (`Pipeline.ReissueIff`, `Pipeline.ReissueHappens`).
- `src/store/devices.rs:173-174` says a revoked token stops working on the next request. It does unless
  the digest read fails, an error the code discards, while the update succeeds (`Devices.CoherentIff`,
  `Devices.RevokeCanSlip`); a restart repairs it (`Devices.RestartDropsRevoked`).
- `src/handlers/stream.rs:9-11` says no line is lost across reconnects. Over all connections and restarts
  that is `Reconnect.ReconnectExactlyOnce`, on conditions: besides the order of ids, each gap must fit
  MAX_REPLAY with the writer caught up at the query, and a restart must not find the client ahead of the
  newest stored id. If it does, the reissued id is hidden by Last-Event-ID (`Reconnect.RestartHidesLine`);
  if the newest id taken is stored, it does not (`Reconnect.NewestStored`).
- The cooldown is computed in wrapping 64-bit arithmetic on client timestamps. `AlertRuns.SpacingIff` is the
  exact condition under which the alerts of a run are spaced, `AlertRuns.Spacing` a condition on the matches
  alone, and `AlertRuns.SpacingWraps` a run that breaks it. The window cutoff wraps too, but for timestamps
  in order that never changes an alert (`AlertRuns.WindowRefinement`); when it changes the deque is
  `AlertRuns.DequeIsWindowIff`.

## Model

| member | source | states |
|---|---|---|
| Invariants.StepKeeps | src/handlers/stream.rs:96-129 | Whatever atomic action comes next, the invariant holds after it: ids of everything in flight, published, queued and stored stay distinct and at most the counter; the queue is first in, first out; the index equals the table; every accepted record is accounted for; every stream is a page of one snapshot plus a filter of a contiguous stretch of publications |
| Invariants.ReachableOk | src/store/mod.rs:59-104 | That invariant holds in every state of every run from any database an earlier lifetime could have left, restarts included |
| Invariants.PublishKeeps | src/hub.rs:52-55 | A publication appends to the ring a record no one has published before, and it disturbs no stream's past |
| Invariants.EnqueueKeeps | src/store/mod.rs:136-147 | A send that succeeds appends exactly its record to the acceptance order; one that is refused changes nothing but the handler |
| Invariants.CommitKeeps | src/store/writer.rs:105-147 | A committed batch moves exactly its records from the writer's hand into the table and the index, replacing no row |
| Invariants.RollbackKeeps | src/store/writer.rs:105-147 | A rolled-back batch leaves table and index alone, and its records are counted as lost |
| Invariants.SweepKeeps | src/store/retention.rs:12-33 | A retention sweep withdraws exactly the postings of the rows it removes, and those rows are counted as pruned |
| Delivery.AtMostOnce | src/handlers/stream.rs:96-129 | For all interleavings, racing handlers included: a stream sends the ascending page above Last-Event-ID of one table snapshot and then exactly the frames above high_water of a contiguous stretch of the publications since it subscribed; no id twice, none at or below Last-Event-ID |
| Delivery.FreshClientSeesAll | src/handlers/stream.rs:67-111 | Without Last-Event-ID a stream sends every publication since it subscribed, up to where it has come |
| Delivery.OverrunIsFinal | src/handlers/stream.rs:113-121 | Once a stream is overrun, no run of further steps makes that connection send another frame: it can only close |
| Delivery.NothingSkipped | src/handlers/stream.rs:103-121 | No frame is skipped silently: when a stream has been overrun or has ended, the publications since its subscription above high_water split at the position it reached; those before were all sent, and those after are never sent on that connection in any later run |
| Delivery.DeliveredIff | src/handlers/stream.rs:67-111 | With no assumption on ordering: a received publication reaches the client if and only if its id is above high_water, or it is above Last-Event-ID and was already in the snapshot the replay read |
| Delivery.ReplayComplete | src/handlers/stream.rs:58-129 | When acceptance follows id order, every accepted record published after the subscription and received by the stream is delivered, unless its batch was rolled back or retention removed it |
| Delivery.MissedOnlyIf | src/handlers/stream.rs:67-79 | Once the replay has been read, on an open or closed stream, a published record or a row found at boot above Last-Event-ID is missed only if the writer had not attempted it by then, its batch failed, it was pruned, or it lies past the MAX_REPLAY cut |
| Delivery.MissedRecord | src/handlers/stream.rs:58-129 | Both halves as one: when acceptance follows id order, an accepted record or a row found at boot above the start is sent, or it is not received yet, or rolled back, or pruned, or it was published before the subscription and no replay was asked for, it was not attempted when the replay was read, or it lies past the cut |
| Delivery.RaceLosesLine | src/handlers/stream.rs:58-79 | Without id order completeness is false: a reachable state in which an accepted line, published after the subscription and received by the stream, is never delivered because a racing handler's later id raised high_water first |
| Delivery.HighWaterIs | src/handlers/stream.rs:67-79 | high_water is the start position or the id of some replayed row, and bounds both |
| Reconnect.ReconnectAtMostOnce | src/handlers/stream.rs:62-111 | Over all connections of a client, across restarts, no line arrives twice and ids only grow; this needs publication in id order and nothing else |
| Reconnect.ReconnectExactlyOnce | src/handlers/stream.rs:9-11 | A client that reconnects any number of times with the id of its last frame, restarts of the server included, has in ascending order every record ever accepted above its start and up to its last frame, but for those pruned, rolled back or queued when a process died; provided ids are published and accepted in order, the writer has caught up and the gap fits MAX_REPLAY at each replay, and no restart finds the client ahead of the newest stored id |
| Reconnect.DrainedHasAll | src/handlers/stream.rs:62-129 | Under the same hypotheses, with or without Last-Event-ID, once the stream has drained the channel the client has every accepted record it is owed, but for the pruned and the lost |
| Reconnect.StepSessions | src/handlers/stream.rs:62-129 | Every step, a restart included, keeps every client's session in order and, where replays leave no gap, complete so far: nothing owed up to its last frame is missing |
| Reconnect.NewestStored | src/store/schema.rs:258-261 | The condition on restarts holds whenever the newest id taken is stored at the restart, the condition of ReissueIff |
| Reconnect.RestartHidesLine | src/handlers/stream.rs:9-11 | It is needed: a client read a line that was not stored when the process ended, the next process gives the id to another line, and Last-Event-ID hides that line from the client although it was accepted in order and received by the stream |
| Pipeline.Conservation | src/store/writer.rs:38-147 | In every reachable state the accepted records are, as a multiset, the queued, in hand, stored, pruned and lost ones |
| Pipeline.IndexAgreement | src/store/schema.rs:71-84 | In every reachable state, restarts, prunes and rolled-back batches included, a posting is in the index if and only if its row is stored, with that message and that name |
| Pipeline.FreshIds | src/store/mod.rs:97-104 | Queued, in-hand, in-flight and stored ids are pairwise distinct, those of two handlers too, and all are at most the counter, so INSERT OR REPLACE never replaces a row |
| Pipeline.ReissueIff | src/store/mod.rs:97-104 | After a restart the counter is at most what it was, and an id already taken is issued again if and only if the newest id is no longer stored |
| Pipeline.ReissueHappens | src/store/schema.rs:258-261 | That does happen: a run in which two different lines are published under the same id, one before and one after a restart |
| Table.InsertAgreesIff | src/store/writer.rs:128-143 | INSERT OR REPLACE keeps an exact index exact if and only if it does not replace a row of another message or name, because a replaced row fires no delete trigger |
| Table.DeleteAgrees | src/store/schema.rs:75-78 | Deleting any set of rows keeps the index exact |
| Table.InsertAllFresh | src/store/writer.rs:125-147 | A batch of fresh distinct ids is stored whole, touches no other row, and keeps the index exact |
| Table.InsertAllHolds | src/store/writer.rs:125-147 | In any batch, replaced rows included, the last record under an id is the one stored |
| Table.InsertAllPosts | src/store/schema.rs:71-73 | A batch adds exactly the postings of its records, id, message and name, and withdraws none |
| Table.InsertAllConcat | src/store/writer.rs:125-147 | Inserting two batches one after the other is inserting their concatenation |
| Table.SinceIdPage | src/store/reader.rs:178-191 | The replay page is ascending, holds only stored rows above the cursor, and is complete up to its last row when the limit cuts it |
| Table.ScanLists | src/store/reader.rs:464-471 | The ordered scan lists every stored row once, ascending by id |
| Retention.PruneKeeps | src/store/retention.rs:12-27 | A row survives a sweep if and only if it is young enough and its id is within max_rows of every young enough row's |
| Retention.PruneCaps | src/store/retention.rs:20-27 | After a sweep with a row cap the ids span less than max_rows, so there are at most max_rows rows |
| Retention.PruneAgrees | src/store/retention.rs:12-33 | Both deletes of a sweep keep the index exact |
| Retention.CapKeepsTop | src/store/retention.rs:20-27 | The row cap alone never changes MAX(id) |
| Storage.Database.InsertOrReplace | src/store/writer.rs:128-143 | One statement of the batch: the row under its id, a posting of its message and name added, no posting withdrawn |
| Storage.Database.DeleteRows | src/store/schema.rs:75-78 | A delete removes the rows and exactly the postings of their messages and names |
| Storage.Database.Sweep | src/store/retention.rs:12-33 | The sweep in place: a row stays if and only if it is young enough and within max_rows ids of every young enough row; a failed delete is as if it were disabled |
| Storage.Database.TopId | src/store/schema.rs:258-261 | MAX(id), or 0 for an empty table |
| Storage.Database.ReadSince | src/store/reader.rs:180-191 | The replay query, walking up the key order from the cursor until the page is full, returns the page the other theorems speak of |
| Storage.Database.BuildFts | src/store/schema.rs:131-153 | Opening creates the index, of every row's message and name, if there was none and leaves an existing one alone; afterwards it is exact if and only if a pre-existing one was |
| Writer.InsertBatch | src/store/writer.rs:125-147 | All or nothing: the whole batch in order if every statement succeeds, the old table and index if any one fails, BEGIN and COMMIT included |
| Writer.Inbox.Poll | src/store/writer.rs:49-58 | The oldest of what was queued and has just arrived is received, and the rest stays in order |
| Writer.WriterThread.Fill | src/store/writer.rs:52-58 | The opportunistic drain stops at 256 items or an empty queue, and moves items from the queue to the batch in order |
| Writer.WriterThread.CommitBatch | src/store/writer.rs:105-123 | The whole batch is stored or the table is as before, by whether a statement failed; that outcome is noted and told to every caller that waits; the batch is emptied, an empty one does nothing |
| Writer.WriterThread.Notify | src/store/writer.rs:114-122 | Exactly the items with a waiting caller are answered, in order, all with the transaction's outcome |
| Writer.WriterThread.FinalDrain | src/store/writer.rs:77-89 | The drain at shutdown commits until the queue is empty |
| Writer.WriterThread.Retain | src/store/writer.rs:70-74 | A sweep that is due leaves exactly the young enough rows within max_rows ids of the newest of them, unchanged, and is noted with the limits whose delete succeeded; one that is not due does nothing |
| Writer.WriterThread.Run | src/store/writer.rs:38-96 | For every arrival pattern, failure and sweep: what is committed, rolled back and swept, and when the thread stops, is exactly what its polls call for; batches hold 1 to 256 items; everything that arrived by the last poll is attempted, in queue order; the table is what the journal replays to; the acknowledgements are those of the journal |
| WriterRuns.ReceivedOnce | src/store/writer.rs:48-89 | At every point of a run each received item is in exactly one batch, or in the thread's hand, in the order received; nothing is in hand between rounds or at the end |
| WriterRuns.StoredInOrder | src/store/writer.rs:48-89 | If no statement failed and no sweep fell due, a thread that has stopped has stored everything it received, inserted one at a time in order |
| WriterRuns.StopsWhenTold | src/store/writer.rs:61-67 | The thread leaves its serving loop only after an empty poll with the draining flag set or every sender gone |
| WriterRuns.RunIsRounds | src/store/writer.rs:38-95 | A finished run is idle polls and batches, each with the sweep due at its first poll, then the first empty poll that finds it told to stop, then batches, and an empty poll: a batch is closed as soon as it has 256 items or the queue is empty, it fails if and only if one of its statements does, and the journal is what those rounds lead to, in order |
| WriterRuns.SweepsMade | src/store/writer.rs:70-74 | The sweeps of a run are, in order, one for each round served whose first poll had one due, with its limits; the drain makes none |
| WriterRuns.BatchingRefines | src/store/writer.rs:48-89 | However the arrivals fell into batches, the table is the one that single inserts of the committed items, with the same sweeps between, would have made |
| WriterRuns.QueueOrder | src/store/writer.rs:48-89 | With no failure and no sweep the table is everything attempted, inserted in queue order |
| WriterRuns.AnsweredOnce | src/store/writer.rs:114-122 | Each waiting caller is answered exactly once for each of its attempted items |
| WriterRuns.AnswersTruly | src/store/writer.rs:105-123 | An acknowledgement says Ok if and only if a batch holding an item of that caller was committed, and an error if and only if one was rolled back |
| WriterRuns.BatchIsSteps | src/store/writer.rs:49-59 | A batch of the thread is a run of the step machine, its receives and one commit, with the same effect on the table |
| WriterRuns.SweepIsStep | src/store/writer.rs:70-74 | Between batches a sweep is a step of the step machine, with the effect on the table that the journal notes |
| Streaming.Receiver.Recv | src/handlers/stream.rs:103-121 | The next publication in order; or, when more than the capacity are waiting, Lagged with the number missed, the receiver jumping to the oldest frame still held |
| Streaming.Replayed | src/handlers/stream.rs:67-79 | The replay loop: high_water is the largest of the start and the rows' ids, and there is one frame per row after the retry hint |
| Streaming.HeaderMeans | src/handlers/stream.rs:62-65 | Last-Event-ID is read as n if and only if, with outer whitespace gone, it is an optional sign and at least one digit for a 64-bit n; anything else, and no header, counts as none |
| Decimal.ValueIs | src/handlers/stream.rs:62-65 | The number is read digit by digit, each one more multiplying by ten and adding its value |
| Text.TrimIs | src/handlers/stream.rs:62-65 | Trimming cuts off whitespace at both ends and nothing else |
| Text.WhiteSpace | src/store/reader.rs:36-44 | Whitespace is the 25 code points of the Unicode property White_Space |
| Streaming.Open | src/handlers/stream.rs:50-94 | Subscribes before the query, so the stream begins where the ring stood at the request; high_water and the replay are those of the table as the query finds it; refuses during shutdown or when the query fails; a missing or unreadable Last-Event-ID means no replay and start 0 |
| Streaming.StreamCtx.TakeTurn | src/handlers/stream.rs:96-129 | One turn of the loop: shutdown before frames before the keepalive; the next frame is yielded if it is above high_water and passed over if not; a shutdown or an overrun ends the stream |
| Streaming.StreamCtx.Next | src/handlers/stream.rs:96-129 | The next chunk of the live part: how far the stream has come is what the wake-ups used up call for, nothing received above high_water is left out, a keepalive is sent only on a tick with nothing waiting, and the end comes only with a shutdown, an overrun or no more wake-ups |
| Streaming.StreamCtx.Drive | src/handlers/stream.rs:96-129 | Over a whole connection the frames forwarded are exactly the receptions above high_water, in order, with nothing but keepalives between; how far it comes follows from the wake-ups, and it ends only with a shutdown, an overrun or no more wake-ups |
| Streaming.Stream | src/handlers/stream.rs:50-147 | One connection: the log frames sent are the replay page of the table followed by exactly the publications above high_water of the stretch the wake-ups let it receive; none at all if the request is refused; and it ends only with a shutdown, an overrun or no more wake-ups |
| StreamRuns.LoopIsSteps | src/handlers/stream.rs:96-129 | The loop is a run of the step machine: whatever the other handlers and the writer do in each turn, their steps with the stream's own Poll, Lag and Close moves in between are a run, and the machine's stream comes exactly as far as the loop does |
| StreamRuns.ConnectionIsSteps | src/handlers/stream.rs:50-147 | A whole connection, subscription, query and loop, is a run of the step machine around any run of everybody else, and leaves the client with a stream that has sent the very lines the handler sends |
| StreamRuns.ClientResumes | src/handlers/stream.rs:62-79 | Cut off after any number of characters, a client that has completed a frame comes back with its id, and on the next connection reads the rows above that very frame, in order and cut at 5000, and then what the stream receives above the last of them |
| StreamRuns.OthersCommute | src/hub.rs:51-59 | A stream never disturbs the rest of the server: any run of the others is a run, to the same end, whatever one client's stream is |
| Streaming.ClientSees | src/handlers/stream.rs:133-146 | An EventSource fed the bytes of a connection reports exactly the lines sent, in order, each under its own id, whatever hints and keepalives lie between |
| SseWire.NewFrame | src/hub.rs:24-38 | The frame built by successive appends is the id line, the data line and a blank line; a record that does not encode is sent as {} |
| SseWire.WireRoundTrip | src/hub.rs:24-38 | Parsing any concatenation of retry hints, keepalives and frames by sections 9.2.5 and 9.2.6 of the WHATWG HTML Standard yields exactly the (id, data) sequence sent, for JSON without CR or LF |
| SseWire.AnyCut | src/handlers/stream.rs:33-35 | Cut off after any number of characters, the events reported are a prefix of the frames sent and the last event ID is the last reported frame's |
| SseWire.IdComesBack | src/handlers/stream.rs:62-65 | Whenever the connection is cut, the Last-Event-ID the client sends next is read back as the id of the last frame it completed |
| AlertEngine.Compiled.Match | src/alerts/engine.rs:35-56 | Yes if and only if the level is at least the minimum, the device is the one asked for, the names are equal once outer whitespace is gone, and the lowered text occurs in the lowered message, each as far as the rule sets it |
| AlertEngine.Compiled.Tally | src/alerts/engine.rs:126-158 | The deque after the call is the hits not older than the window plus this one, or empty if the rule fired; it fires exactly when they reach the threshold and the cooldown, in 64-bit arithmetic, has passed |
| AlertEngine.Engine.Reload | src/alerts/engine.rs:74-89 | The slots are exactly the enabled rules, in order, each with an empty window and last firing 0 |
| AlertEngine.Engine.Observe | src/alerts/engine.rs:102-123 | Every matching rule is tallied once and no other rule changes; the events fired join the channel in rule order until it is full, and the rest are dropped |
| AlertRuns.EveryMatchOnce | src/alerts/engine.rs:126-158 | For timestamps in any order the matches of a run are, in order, those counted by an alert or expired, followed by those pending: none is counted twice, none disappears |
| AlertRuns.CountsAgree | src/alerts/engine.rs:126-158 | The count an alert reports is the number of matches whose fate was that alert |
| AlertRuns.WindowRefinement | src/alerts/engine.rs:126-158 | For all nondecreasing 64-bit timestamps the alerts, with their counts, are those of a reference that keeps the whole history since the last alert and filters it by the window |
| AlertRuns.FiresIff | src/alerts/engine.rs:126-158 | For ordered 64-bit timestamps the next match raises an alert if and only if at least a threshold of the matches since the last alert, itself included, are no older than the window and the cooldown since that alert is over; the alert counts them |
| AlertRuns.DequeIsWindowIff | src/alerts/engine.rs:126-158 | The deque itself is at every point the matches since the last alert within the window if and only if no two matches lie within a window's length of the bottom of the 64-bit range |
| AlertRuns.Spacing | src/alerts/engine.rs:126-158 | For 64-bit timestamps in any order in which no match lies more than half the range below an earlier one, any two alerts of a rule are at least the cooldown apart |
| AlertRuns.SpacingIff | src/alerts/engine.rs:126-158 | The exact condition over a run, for all 64-bit timestamps: the alerts are pairwise a cooldown apart if and only if none lies more than half the range below the one before it |
| AlertRuns.SpacedIff | src/alerts/engine.rs:140-146 | For any 64-bit values a firing respects the cooldown if and only if the gap to the last alert did not fall below the 64-bit range |
| AlertRuns.SpacingWraps | src/alerts/engine.rs:140-146 | Without the condition spacing fails: two matches, the second more than half the range below the first, raise two alerts out of order |
| AlertRuns.WrapIsModular | src/alerts/engine.rs:131-140 | The differences the engine takes are two's complement: for 64-bit operands the wrapped value is the one congruent modulo 2^64 in range |
| AlertRuns.GreedyOptimal | src/alerts/engine.rs:126-158 | For threshold 1 and all nondecreasing 64-bit timestamps the number of alerts is the largest number of matches, none inside the initial cooldown, that can be chosen pairwise a cooldown apart |
| AlertRuns.GreedyLargest | src/alerts/engine.rs:126-158 | If the first match is at or after the cooldown, no choice of matches pairwise a cooldown apart is larger than the number of alerts |
| AlertRuns.GreedyNeedsLateStart | src/alerts/engine.rs:18-23 | That hypothesis is needed: last_fired_at starts at 0, so an early match is swallowed |
| AlertRuns.SoloRun | src/alerts/engine.rs:102-123 | Rules do not interfere: each rule's window and alerts over a run are those of a run in which it is alone with the lines that match it |
| AlertRuns.MatchTimesAre | src/alerts/engine.rs:35-56 | The matches of a rule are the times of exactly the lines that pass each of its filters, in order |
| AlertRuns.Triggers | src/alerts/engine.rs:149-157 | Every event names its rule and a line of the run that passes each of the rule's filters, at that line's time |
| AlertRuns.OfferedByRule | src/alerts/engine.rs:110-122 | Of all that is offered to the channel over a run, what carries a rule's id is exactly that rule's alerts, in order |
| AlertRuns.RuleOrder | src/alerts/engine.rs:110-122 | One line's events are offered in the order of the rules |
| Calendar.CivilIsDate | src/alerts/delivery.rs:128-139 | Every integer day number is given a valid Gregorian date |
| Calendar.SuccessorDay | src/alerts/delivery.rs:128-139 | The next day number is given the calendar's next day |
| Calendar.CivilRoundTrip | src/alerts/delivery.rs:128-139 | Counting the days of the computed date by the calendar's rules gives the number back |
| Calendar.CountRoundTrip | src/alerts/delivery.rs:128-139 | Every valid date is the date of its own count, so the function is a bijection onto the valid dates |
| Calendar.CivilIncreases | src/alerts/delivery.rs:128-139 | Later days get later dates, and conversely |
| Calendar.Epoch | src/alerts/delivery.rs:126-139 | Day 0 is 1970-01-01 |
| Timestamps.RoundTrip | src/alerts/delivery.rs:112-124 | In years 0000 to 9999 the text reads back, by the grammar of section 5.6 of RFC 3339, as the very same millisecond |
| Timestamps.FormIff | src/alerts/delivery.rs:112-124 | The output has the 24-character form if and only if the year is in 0000 to 9999 |
| Timestamps.Looks | src/alerts/delivery.rs:112-124 | Character by character in those years: the date's year, month and day, a T, hours, minutes and seconds of UTC and the milliseconds, zero-filled, between -, -, T, :, :, . and Z |
| Timestamps.TextOrder | src/alerts/delivery.rs:112-124 | In those years the texts sort as strings exactly as the instants do (section 5.1 of RFC 3339) |
| FtsQuery.QuotingRoundTrip | src/store/reader.rs:35-62 | There is no query if and only if there is no text or it is blank; otherwise parsing the query by sections 3.1, 3.3 and 3.7 of the FTS5 documentation gives back exactly the whitespace tokens in order, the last a prefix and no other, whatever quotes or operators they contain |
| FtsQuery.WordsOf | src/store/reader.rs:40-44 | The tokens are solid words and hold exactly the text's non-blank characters, in order |
| FtsQuery.SplitAtSpace | src/store/reader.rs:40-44 | Whitespace separates words: the tokens of a text are those in front of any blank character and those behind it |
| FtsQuery.SplitSolid | src/store/reader.rs:40-44 | Nothing else separates them: a text without whitespace is one token |
| Search.Bind | src/store/reader.rs:216-225 | A clause is appended under the next number with its own value bound, or nothing changes |
| Search.Build | src/store/reader.rs:198-266 | The statement built is the present filters in a fixed order, numbered consecutively, with one bound value each and the limit last |
| Search.NumberedOnce | src/store/reader.rs:206-266 | For every combination of filters the placeholders are exactly ?1 to ?n, each used once, and n values are bound |
| Search.SearchMeaning | src/store/reader.rs:198-274 | Parsing that statement and evaluating it with its bound values on any table gives the rows that satisfy each filter present, newest first, cut to the limit |
| Queries.NewestPage | src/store/reader.rs:129-155 | A newest-first page is descending, holds only wanted rows, and misses a wanted row only by being full of newer ones |
| Queries.RecentPage | src/store/reader.rs:129-155 | recent returns the newest rows below before_id, or below the largest 64-bit id without one, of at least the level and of the device asked for |
| Queries.WalkDescends | src/store/reader.rs:129-155 | A walk by before_id never shows a row twice, whatever is committed or pruned between its pages |
| Queries.WalkShowsAll | src/store/reader.rs:129-155 | A finished walk has shown every row that passes the filters and was there throughout |
| Queries.WalkTerminates | src/store/reader.rs:129-155 | A walk ends within one page more than there are ids that ever lie below its cursor, whatever is committed above or pruned |
| Queries.LiveWalkTerminates | src/store/reader.rs:129-155 | From the top of a live table a walk ends within two pages more than the table then had rows, if later commits lie above its newest id |
| Queries.EnoughPages | src/store/reader.rs:129-155 | On a fixed table one page more than there are rows is enough |
| Queries.FixedTableWalk | src/store/reader.rs:129-155 | On a fixed table the pages concatenate to the whole filtered table, newest first |
| Queries.ContextIsSlice | src/store/reader.rs:277-317 | There is a context if and only if the line is stored, and it is a contiguous slice of the table in order with the line inside it, each side short only where the table ends |
| Export.StreamRows | src/store/reader.rs:459-526 | The chunks sent, and how the export ends, for every table, row failure and disconnect: 256 rows a chunk, the rest with the closing bracket last, nothing after a failure |
| Export.ChunksAreDocument | src/store/reader.rs:457-526 | The chunks concatenate to [ comma-joined records ] or to newline-terminated records |
| Export.AlwaysAPrefix | src/store/reader.rs:510-524 | However an export ends the client has a prefix of the document, and all of it if it finished |
| Export.HowItEnds | src/store/reader.rs:459-526 | An export left connected is done if and only if the cursor did not fail; a failure or a client that hangs up ends it at once, after as many chunks as were full or taken |
| Export.ArrayForm | src/store/reader.rs:498-512 | The array document grows by a comma and the next record inside its brackets; without records it is [] |
| Export.LineForm | src/store/reader.rs:498-500 | The NDJSON document grows by the next record and a newline; without records it is empty |
| Export.ChunkSizes | src/store/reader.rs:510-524 | No chunk is empty, and chunk k holds at most 256 rows, the ones from row 256k on, and nothing else but punctuation |
| Export.NdjsonRoundTrip | src/store/reader.rs:498-500 | Splitting a finished NDJSON export on newlines gives back the encodings, one per row, in order |
| Ingest.ToRecord | src/handlers/ingest.rs:31-88 | Accepted if and only if name or message is not empty and the context is absent, null or an object of at most 8192 bytes; then a text within its limit is kept whole and a longer one cut to exactly the limit, the timestamp is the client's or now, the level is the client's or 2 and at most 4, the context is kept, and the device is the caller's |
| Ingest.NormalIsFixed | src/handlers/ingest.rs:31-88 | Putting a stored record through again changes nothing, except when a limit of 0 has cut away its only text |
| Ingest.Server.NextId | src/store/mod.rs:97-104 | A fresh id above every id taken before, whatever other handlers took meanwhile |
| Ingest.Server.Send | src/store/mod.rs:136-147 | Refused if draining, if the writer is gone or if the queue is full, with the error of that case; otherwise the item is last in the queue |
| Ingest.Server.Dispatch | src/handlers/ingest.rs:90-105 | Publish, then observe, then send; ingested or shed grows by one according to the send |
| Ingest.Server.IngestOne | src/handlers/ingest.rs:107-137 | Both paths: what is done in what order, which counter grows, and that a synchronous reply is Ok if and only if the send and the commit both succeeded (a failed commit still counts as ingested) |
| Ingest.IngestBatch | src/handlers/ingest.rs:139-193 | Whatever other handlers and the writer do meanwhile: the accepted records are the normal forms of a prefix of the inputs under growing ids; an acknowledgement counts them, accepted + dropped is the total, first and last ids are theirs; and the counters grew by exactly those amounts; a malformed input ends the request with an error after the ones before it were accepted |
| Ingest.BatchMeans | src/handlers/ingest.rs:139-193 | The end of a batch spelled out: the accepted records are the normal forms of the first inputs under growing fresh ids, and for each in turn the request took the id, published, observed and sent |
| Ingest.EndMeans | src/handlers/ingest.rs:139-193 | The input that ended it: refused, with only its id taken and nothing shed, or met by a full queue, with all the rest counted as shed |
| Ingest.LengthAdds | src/handlers/ingest.rs:61-68 | The limit on the context counts UTF-8 bytes: lengths add up over the characters |
| Ingest.WidthIs | src/handlers/ingest.rs:61-68 | A character takes the fewest bytes UTF-8 has for it: one below 0x80, two below 0x800, three below 0x10000, else four |
| Devices.DeviceCache.Load | src/store/devices.rs:33-55 | The map holds exactly the unrevoked rows whose digest has 32 bytes |
| Devices.DeviceTable.Insert | src/store/devices.rs:131-136 | The unique index refuses a digest already stored; otherwise a new row under the next AUTOINCREMENT id |
| Devices.CreateDevice | src/store/devices.rs:112-158 | A device is created if and only if the trimmed name has 1 to 120 characters, no row has the digest and the database works; the new row, cache entry and reply, and otherwise the error with nothing changed |
| Devices.RevokeDevice | src/store/devices.rs:175-196 | Succeeds if and only if the update works and finds an active row of the id, which alone is stamped; the digest leaves the cache if and only if it could be read and has 32 bytes; the error otherwise, with nothing changed |
| Devices.CoherentIff | src/store/devices.rs:33-196 | An operation on a coherent cache leaves it equal to a fresh load if and only if it is not a revoke whose digest read fails while its update succeeds |
| Devices.RunCoherent | src/store/devices.rs:33-196 | Over any run of creates, revokes, failures and restarts without that slip the cache equals a fresh load |
| Devices.RevokeCanSlip | src/store/devices.rs:176-194 | The slip: a failed digest read and a successful update report success and leave the token accepted |
| Devices.AcceptsExactlyActive | src/store/devices.rs:57-60 | With a coherent cache a presented token is accepted if and only if its digest is 32 bytes long and belongs to an active row, and then as that row's device |
| Devices.RevokedForever | src/store/devices.rs:33-72 | A revoked digest once absent from the cache is absent in every later state of any run |
| Devices.RevokeTakesEffect | src/store/devices.rs:173-196 | A revoke that could read the digest removes it at once and for good |
| Devices.RestartDropsRevoked | src/store/devices.rs:33-55 | A restart removes every revoked digest for good, a slipped one too |

## Left out

- The HTTP layer (routing, extractors, headers other than Last-Event-ID, middleware, compression, static assets), configuration, metrics text and the MCP tools: plumbing without run-level properties. `write_log` of the MCP tools draws ids from the same counter and is one more handler of the step machine.
- Webhook delivery (`run`, `deliver`, payload shapes, signing, retries) and the rest of the alert delivery task: network I/O.
- SQLite itself: a connection is an atomic map with transactions and triggers, a failed COMMIT rolls back, statements either succeed or fail whole, and MATCH is an arbitrary predicate of expression and row. The full-text tokenizer is not part of this model.
- SQL text: `Search` works on statements cut into words, placeholders and holes; SELECT lists, joins and whitespace are single words. The join that reads a row's device name is left out of every query.
- Stored context is kept as its encoded text; that a row whose context no longer parses is shown without it (`parse_context`) is not modelled.
- JSON encoding and SHA-256: arbitrary functions; where a result needs it, encodings are assumed to hold no CR or LF, as the encoder escapes them.
- 64-bit width: wrap-around is modelled where client values can reach it, in the alert engine and in reading Last-Event-ID; ids, row caps, cutoffs and day numbers are unbounded. A debug build panics where a release build wraps.
- Time: clocks, retention intervals, keepalive and retry delays are inputs or are left out; pending `last_seen` writes of the device cache and the WAL checkpoint are left out, as they touch neither table nor map.
- Poisoned locks, failed thread creation and failed opens of the database.
- The reader pool (`with_conn`), the semaphores and the schema migration of added columns, the statistics and by-name queries: easy beside the queries modelled.
- Parsing the array form of the export: only the NDJSON form is read back.
- Platform, token prefix, creation and last-seen columns of a device row; token generation and constant-time comparison.
- In the EventSource parser: the event type field, the retry value and a leading byte order mark, which this server never sends.
- `Devices.RunCoherent`: assumes generated digests of 32 bytes, which is what SHA-256 returns.
