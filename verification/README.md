# Verification of the location server

This project models the telemetry path of the location server, from the datagram a tag sends to the columns a viewer
draws, and two exact kernels of the survey solver, and proves what they promise. `dafny verify dfyconfig.toml` checks
it.

A tag numbers its measuring cycles with 32-bit counters and sends them in datagrams (`Packet.dfy`; where each field
stands among the bytes is said in `PacketLayout.dfy`). The server counts what is missing (`SeqLedger.dfy`,
`SeqTracker.dfy`, `SeqHistory.dfy`), hands packets to a batching writer (`Writer.dfy`, `WriterRuns.dfy`) that stores
them (`TelemetryStore.dfy`, `TelemetryProofs.dfy`), and at the same time to the live hub, which keeps one session per
tag and feeds bounded queues (`LiveSession.dfy`, `Subscriber.dfy`, `SubscriberProofs.dfy`, `HubState.dfy`,
`HubSteps.dfy`, `HubTold.dfy`, `HubInvariant.dfy`, `HubRuns.dfy`, `HubTheorems.dfy`, `HubLimits.dfy`, `LiveHub.dfy`),
from which one sender per connection writes to a socket (`LiveSocket.dfy`). A stored session is read back by window
queries (`Query.dfy`, `RangesQuery.dfy`). The hub unrolls counters cycle by cycle and the query the whole session at
once; both must show the same columns (`Columns.dfy`), and exactly when they do is proved in `Agreement.dfy` and, for
every run of the hub, in `LiveReplay.dfy`. Readers fetch whole tracks from the decimating query (`FetchTrack.dfy`) or
merge live frames into columns of their own (`SessionData.dfy`). The survey kernels are elimination and the linear
solver (`SurveyLinear.dfy`), rank and critical pairs, with what the rank says of the motions distances allow
(`SurveyRank.dfy`, `SurveyMotions.dfy`, `SurveyRigidity.dfy`), and groups that fold over a line of anchors
(`SurveyFlip.dfy`).

Each stateful component is a value and step functions, one step for every stretch between two awaits; theorems are about
every sequence of steps. The classes beside them have the original's fields and loops, and every method is proved to do
exactly its step. Steps take clocks and outcomes as inputs: the time of a packet, whether a write succeeds, when a
sender runs. Limits are parameters. Fields called history in the comments record what happened for the sake of the
theorems and decide nothing.

Four promises hold only under a condition, and each condition is proved to be exact. Live and replayed columns agree if
and only if the session is on the side of 2^31 and 2^32 that the query takes it for (`Agreement.SameSide`); the comment
on `_seq_advances` in `live/hub.py` says the boundary case falls on the same side, and it does only when the counter
wrapped. A divided fetch brings all rows if and only if no single millisecond holds more rows than one answer may, and
brings them in order if and only if every division it makes keeps the order (`TrackFetching.SplitsInOrder`); when times
never go back the two conditions are the same. The comment on `LiveCycle` says unrolled times increase, but a raw time
may step back by up to 2^31 without counting as a wrap. A packet survives the codec if and only if it is one the decoder
can produce.

## Model

| member | source | states |
|---|---|---|
| `LiveSessions.AcceptAllSound` | `src/location_server/live/hub.py:373-395` | Accepting a packet's cycles keeps a session sound: buffer and pending list are tails of the accepted history, the history is the chain that unrolling one step at a time gives, and range count and cursor match it |
| `LiveSessions.ChainIncreases` | `src/location_server/live/hub.py:373-391` | Unrolled sequence numbers of a session strictly increase |
| `LiveSessions.PopOldestSound` | `src/location_server/live/hub.py:563-570` | Evicting the oldest cycle keeps a session sound; its position goes down as evicted unsent exactly when it was still pending |
| `LiveSessions.TrimSound` | `src/location_server/live/hub.py:532-542` | After trimming, cycles, ranges and the age of the oldest cycle are within their limits, and only cycles from the front have gone |
| `LiveSessions.TrimExactly` | `src/location_server/live/hub.py:532-542` | Trimming drops the least number of cycles after which all three limits hold, none when they hold already, and pending copies only of dropped cycles |
| `LiveSessions.AllWithinRetention` | `src/location_server/live/hub.py:539-542` | When unrolled times never went back, every buffered cycle is within retention of the newest, not only the oldest one |
| `LiveSessions.ExactlyOneFate` | `src/location_server/live/hub.py:338-350` | Of every accepted cycle exactly one is true: it is still pending, it is in just one sent stretch, or it was evicted while pending and is out of the buffer |
| `HubTheorems.FramesFormBlocks` | `src/location_server/live/hub.py:354-452` | In every run the frames broadcast for a tag are blocks of one start, appends and repeated starts of the same boot, then one end and infos, only the last block possibly open |
| `HubTheorems.AppendsAreTheSentStretches` | `src/location_server/live/hub.py:362-366` | In every run and for every session a tag has had, replaced ones too, the appends in its part of the log are exactly its sent stretches; a session is replaced only when flushed and ended |
| `HubTheorems.EveryCycleHasOneFate` | `src/location_server/live/hub.py:509-530` | In every run every cycle of every session stands in exactly one append, at its place, or was evicted while pending, or is pending in the tag's last session; never two of these |
| `HubTheorems.AppendsAreTheSessions` | `src/location_server/live/hub.py:522-530` | In every run the appends of a tag from any point of the log on are its sessions' shares, one session after the other, and nothing else |
| `HubTheorems.SnapshotThenAppends` | `src/location_server/live/hub.py:306-350` | For a connection that lost nothing, what it was given is its snapshot followed by every later frame of its tag, and of each session, current, replaced or begun later, snapshot and appended cycles together strictly increase, so nothing comes twice |
| `HubTheorems.SnapshotIsRecent` | `src/location_server/live/hub.py:338-340` | In every run a snapshot holds exactly the buffered cycles already sent and within the history asked for, in order and none of the pending ones, with the identity, revision and state of the session |
| `HubTheorems.NothingMissing` | `src/location_server/live/hub.py:309-323` | Of every session there when a connection joined or later, each cycle settled since is in an append the connection was given, unless it was evicted before it could be sent: no gap after the snapshot |
| `HubRuns.HandleOk` | `src/location_server/live/hub.py:298-452` | Each public operation keeps the invariant tying sessions, broadcast log and every subscriber queue together |
| `HubRuns.RunOk` | `src/location_server/live/hub.py:298-452` | The invariant holds after every run of publish, tick, hello, committed sessions, connect, subscribe, unsubscribe and sender pops |
| `HubLimits.RunStaysWithinLimits` | `src/location_server/live/hub.py:532-570` | After every run each session is within its cycle and range limits with an exact range count, within retention when times never went back, and all sessions together within the total limit |
| `HubLimits.EnforceLimits` | `src/location_server/live/hub.py:544-560` | The total-limit loop ends within the limit and keeps every session's own limits |
| `HubLimits.EndedSessionsGoFirst` | `src/location_server/live/hub.py:544-560` | If the total-limit loop takes from an active session, every ended session has been emptied |
| `HubLimits.LargestGoFirst` | `src/location_server/live/hub.py:544-560` | Of sessions alike in being active, one that lost cycles had, before its last loss, at least as many ranges as any other is left with |
| `HubLimits.EnforceTakesNoMore` | `src/location_server/live/hub.py:544-560` | The loop evicts nothing that fits: either nothing, or without its last eviction the total would exceed the limit |
| `HubLimits.WhatFitsStays` | `src/location_server/live/hub.py:544-560` | A packet whose cycles fit every limit evicts nothing |
| `HubLimits.EveryCycleCounted` | `src/location_server/live/hub.py:354-395` | Over every run, published, late and stale cycles add up to all cycles received |
| `LiveHubs.LiveHub.Publish` | `src/location_server/live/hub.py:354-401` | The method leaves the hub in the state the publish step describes |
| `LiveHubs.LiveHub.SessionFor` | `src/location_server/live/hub.py:362-371` | Starts, replaces or resumes the tag's session as the step describes |
| `LiveHubs.LiveHub.TakeCycles` | `src/location_server/live/hub.py:373-395` | The loop over a packet's cycles unrolls, accepts or counts each as late, as the step describes |
| `LiveHubs.LiveHub.EnforceTotalLimit` | `src/location_server/live/hub.py:544-560` | The nested eviction loops with a running total do what evicting the heaviest victim one by one does |
| `LiveHubs.LiveSession.Trim` | `src/location_server/live/hub.py:532-542` | Keeps the cycles from the least position on from which number, ranges and age of the first are all within limits (or one cycle is left), and what of them was pending; reports the least number the first two limits cost |
| `LiveHubs.LiveSession.PopOldest` | `src/location_server/live/hub.py:562-570` | Pops the oldest cycle, and from the pending list when it had not been sent |
| `LiveHubs.LiveHub.Flush` | `src/location_server/live/hub.py:522-530` | Broadcasts what is pending, if anything, and records the stretch sent |
| `LiveHubs.LiveHub.End` | `src/location_server/live/hub.py:509-520` | Flushes, remembers the boot unless it timed out, and announces the end once |
| `LiveHubs.LiveHub.Start` | `src/location_server/live/hub.py:500-507` | Registers a new session with what hello told about it and announces it |
| `LiveHubs.LiveHub.Tick` | `src/location_server/live/hub.py:446-452` | Broadcasts, session by session, exactly the pending cycles and the ends that are due; leaves nothing pending; a session stays active if and only if it was and has been silent for less than the timeout |
| `HubSteps.TickDoes` | `src/location_server/live/hub.py:446-452` | A tick extends the log by just the due frames in session order and changes nothing of a session but what was pending and whether it is active |
| `HubSteps.TickSendsEverything` | `src/location_server/live/hub.py:446-452` | In every run nothing is pending after a tick, and what was pending has gone out, each session's in one append |
| `HubSteps.PublishDoes` | `src/location_server/live/hub.py:354-401` | A packet that is not refused leaves its tag with a session of its boot, seen now, active unless it was the last; a session of that boot goes on, the others keep their standing |
| `HubSteps.PublishSends` | `src/location_server/live/hub.py:354-401` | Publishing sends only the starts and ends that finding the session calls for, so cycles wait for the tick; it counts as published just what the session accepted and as late the rest |
| `HubSteps.SilenceEnds` | `src/location_server/live/hub.py:446-452` | A session ends at a tick exactly when the time since its last packet has reached the timeout |
| `HubSteps.EndedBootIsRefused` | `src/location_server/live/hub.py:356-361` | After a boot's last packet, further packets of it change nothing but the stale count |
| `HubSteps.TimedOutResumes` | `src/location_server/live/hub.py:367-371` | A session ended by a timeout goes on where it was when its boot comes back |
| `HubSteps.ForgottenLast` | `src/location_server/live/hub.py:511-517` | An ended boot is forgotten only after eight further ends of its tag |
| `HubTold.ViewersAreTold` | `src/location_server/live/hub.py:403-442` | In every run the last revision a tag's viewers were told is its session's, and once it has ended the last identity told is its own, stored id included; a session has what the remembered hello of its boot said |
| `HubTold.HelloReachesViewers` | `src/location_server/live/hub.py:403-429` | After a hello the next packet of its boot shows a session with that id and revision, and viewers have been told the revision |
| `HubTold.HelloTellsOnlyNews` | `src/location_server/live/hub.py:403-429` | A hello sends one frame exactly when what viewers were last told no longer describes the session |
| `HubTold.HelloRemembered` | `src/location_server/live/hub.py:409-416` | A hello is remembered, keeping a revision known before when it tells none; others are forgotten only for lack of room |
| `HubTold.StoredIdsFillIn` | `src/location_server/live/hub.py:431-442` | Committed ids fill in a missing id, the first for a boot, and change nothing else of any session |
| `LiveHubs.LiveHub.NoteHello` | `src/location_server/live/hub.py:403-429` | Remembers id and layout of a boot within the memory limit and tells the tag's viewers what changed |
| `LiveHubs.LiveHub.NoteSessions` | `src/location_server/live/hub.py:431-442` | Fills in session ids the store has given, announcing them for ended sessions |
| `LiveHubs.LiveHub.Subscribe` | `src/location_server/live/hub.py:306-312` | Registers the connection and resets its queue to the snapshot, in one step |
| `LiveHubs.LiveHub.SnapshotFor` | `src/location_server/live/hub.py:318-350` | The snapshot holds the sent cycles within the history asked for, none of the pending ones |
| `LiveHubs.LiveHub.Resume` | `src/location_server/live/hub.py:367-371` | A session that timed out and came back is active again and announced |
| `LiveHubs.LiveHub.Connect` | `src/location_server/live/hub.py:298-301` | Adds an empty queue |
| `LiveHubs.LiveHub.Disconnect` | `src/location_server/live/hub.py:303-304` | Forgets the queue |
| `LiveHubs.LiveHub.Unsubscribe` | `src/location_server/live/hub.py:314-316` | Ends the subscription and empties the queue |
| `LiveHubs.LiveHub.Broadcast` | `src/location_server/live/hub.py:578-581` | Pushes the frame to every queue subscribed to the tag and to no other |
| `QueueHistory.EveryHistory` | `src/location_server/live/hub.py:194-258` | After every history of pushes, pops and resets a queue is bounded, in push order, with at most one error, and accounts for every frame |
| `QueueHistory.PushDropsOnlyToMakeRoom` | `src/location_server/live/hub.py:206-217` | A push gives the queue up exactly when the frames that may not be dropped, the new one included and replaced errors left out, exceed twice its size; otherwise it drops just as many appends as the size asks for, or all |
| `QueueHistory.NothingLost` | `src/location_server/live/hub.py:194-231` | A queue that has lost nothing has handed out or still holds every pushed frame but superseded errors, in order |
| `Subscribers.Subscriber.Push` | `src/location_server/live/hub.py:194-217` | The method leaves the queue as the push step describes |
| `Subscribers.Subscriber.MakeRoom` | `src/location_server/live/hub.py:209-211` | The loop drops the oldest appends until the queue fits or holds none |
| `Subscribers.Subscriber.Reset` | `src/location_server/live/hub.py:219-225` | Empties the queue, starts a new generation and queues the first frame |
| `Subscribers.Subscriber.PopNowait` | `src/location_server/live/hub.py:227-231` | Hands out the oldest frame, or clears the wakeup of an empty queue |
| `LiveSockets.EveryInterleaving` | `src/location_server/api/routes_live.py:76-138` | Under every interleaving of arrivals, subscription changes and sender steps, deliveries stay current, ordered, unrepeated and nothing popped is withheld |
| `LiveSockets.SentFramesAreCurrent` | `src/location_server/api/routes_live.py:119-138` | Every frame sent was pushed in the subscription current at that moment, in push order, each once |
| `LiveSockets.SleepsOnlyWhenIdle` | `src/location_server/live/hub.py:233-241` | A sender that stays asleep has an empty queue that has not overflowed: no wakeup is lost |
| `LiveSockets.LostIsWhatIsGone` | `src/location_server/api/routes_live.py:100-137` | Under every interleaving the loss count a message carries is the number of appends of its subscription neither sent nor queued; snapshots and errors carry none |
| `LiveSockets.AnchorsAreRead` | `src/location_server/api/routes_live.py:94-133` | Under every interleaving the frames sent after reading anchors are just the snapshots, starts and infos |
| `LiveConnections.Connection.Advance` | `src/location_server/api/routes_live.py:108-138` | One stretch of the sender between two awaits, as the step describes |
| `LiveConnections.Connection.Receive` | `src/location_server/api/routes_live.py:76-93` | One client message: subscribe, unsubscribe, or an error pushed back |
| `Columns.StoredPointIsLivePoint` | `src/location_server/columns.py:62-129` | A cycle stored and read back shows in all eighteen columns what showing it directly shows |
| `Columns.FixColumns.Add` | `src/location_server/columns.py:62-106` | Adds one entry to each column, leaving out positions of failed fixes and invalid filters |
| `Columns.ColumnsOf` | `src/location_server/live/hub.py:160-167` | Entry i of each of the eighteen columns in terms of the record: the position present exactly when bit 0 of the flags is set, the filter columns by bits 2 to 4, each from its own field; and each anchor's ranges, with a distance exactly when the status is zero |
| `Columns.LivePointShows` | `src/location_server/columns.py:62-129` | What a live point shows of a cycle, field by field and bit by bit |
| `Columns.StoredPointShows` | `src/location_server/store/telemetry.py:165-236` | What the stored row of a record shows in a track, field by field and bit by bit |
| `Columns.StoredRowKeeps` | `src/location_server/store/telemetry.py:165-236` | The stored row names the kind of fix by bit 1 exactly when bit 0 says there is one, and keeps both times |
| `Columns.LiveRangesShow` | `src/location_server/columns.py:197-230` | The live range table of an anchor is its ranges of every cycle in turn, with a distance exactly when the status is zero |
| `TelemetryFacts.BatchingIsInvisible` | `src/location_server/store/telemetry.py:104-130` | Writing two batches leaves the tables that writing them as one leaves, ids and times included |
| `TelemetryFacts.TimesSpanTheBatch` | `src/location_server/store/telemetry.py:134-163` | A session starts at the earliest and was last seen at the latest of what it had and what arrived |
| `TelemetryFacts.SpansAreEach` | `src/location_server/store/telemetry.py:112-121` | Touching each session once with its span is touching it for every packet |
| `TelemetryFacts.BatchIds` | `src/location_server/store/telemetry.py:134-163` | Session ids stay distinct and below the next id |
| `TelemetryFacts.HelloIds` | `src/location_server/store/telemetry.py:66-102` | A hello keeps ids, and erases nothing it does not mention |
| `TelemetryFacts.LastMentionStays` | `src/location_server/store/telemetry.py:66-163` | After any batches and hellos a session has the revision and the version that its last hello to mention one told, and what it had before when none did |
| `TelemetryFacts.FirstWriteWins` | `src/location_server/store/telemetry.py:165-236` | The first write of a (session, seq) decides its fix row and its range rows; later ones add nothing |
| `TelemetryFacts.InsertAllKeepsFixes` | `src/location_server/store/telemetry.py:165-236` | Every range row has a fix row with its key, and stored rows never change |
| `TelemetryFacts.RowsWithinAttempts` | `src/location_server/store/telemetry.py:122-130` | A batch stores between none and all of the rows attempted |
| `TelemetryFacts.CountsAdd` | `src/location_server/store/telemetry.py:128-130` | Rows and duplicates of a batch are those of its parts added up |
| `TelemetryStores.TelemetryStore.WriteBatch` | `src/location_server/store/telemetry.py:104-130` | The loops of a batch write do what the specification says to the tables and report it |
| `TelemetryStores.TelemetryStore.TouchSession` | `src/location_server/store/telemetry.py:134-163` | Creates a session or widens its span |
| `TelemetryStores.TelemetryStore.InsertCycle` | `src/location_server/store/telemetry.py:165-236` | Stores a cycle unless its number is taken, and counts the rows |
| `TelemetryStores.TelemetryStore.RecordHello` | `src/location_server/store/telemetry.py:66-102` | Creates or completes a session from a hello |
| `Queries.Track` | `src/location_server/store/query.py:246-293` | Total, stride and columns of a track: unrolled, filtered by time, decimated; each row written from a record shows that record's fields under its flag bits |
| `Queries.TrackShows` | `src/location_server/store/query.py:246-293` | Every row of a track that was written from a record shows that record's fields at the row's unrolled number and time |
| `Queries.DecimationFits` | `src/location_server/store/query.py:180-180` | At most the allowed number of rows comes back, first and last among them; stride one exactly when nothing was dropped |
| `Queries.GapsWithinStride` | `src/location_server/store/query.py:264-265` | Kept rows are at most the stride apart |
| `Queries.SqlStrideIsCeiling` | `src/location_server/store/query.py:129-138` | The integer formula in SQL is the ceiling the Python form computes |
| `Queries.BudgetHolds` | `src/location_server/store/query.py:141-145` | All anchors together stay within the total budget exactly when two points each would |
| `Queries.ShareIsLargest` | `src/location_server/store/query.py:141-145` | An anchor's share is the largest number of points that fits the budget, up to what was asked for and at least two |
| `RangeQueries.Ranges` | `src/location_server/store/query.py:295-364` | Every anchor with rows in the range gets them joined to the session's unrolled rows and decimated to its share |
| `RangeQueries.AnswerWithinBudget` | `src/location_server/store/query.py:306-326` | An answer over all anchors stays within the total budget as long as two points for each do |
| `RangeQueries.SameCyclesAsTrack` | `src/location_server/store/query.py:306-309` | An anchor ranged in every cycle is decimated at the very cycles of the track, total and stride included |
| `Agreement.SameNumbersIffSameSide` | `src/location_server/store/query.py:158-166` | The batch rule gives back every streamed number if and only if the session lies on the side of 2^31 and 2^32 the rule takes it for |
| `Agreement.ShortSessionsAreOnTheSameSide` | `src/location_server/live/hub.py:81-88` | A session spanning less than 2^31, or exactly that when the counter wrapped, satisfies the condition |
| `Agreement.HalfRangeWithoutWrapDisagrees` | `src/location_server/live/hub.py:81-88` | A fresh session accepts cycles 0 and 2^31 and shows them as such; their replay shows 2^31 and 2^32, the first behind the second |
| `Agreement.ReplayOrderIsLiveOrder` | `src/location_server/store/query.py:164-175` | Under the condition the stored rows come back in the order they were accepted |
| `Agreement.SameTimes` | `src/location_server/live/hub.py:91-98` | Unrolling time step by step and by the running sum of wraps give the same times |
| `Agreement.LiveAndReplayAgree` | `src/location_server/store/query.py:152-176` | With exactly the accepted cycles stored, the undecimated track equals the live columns in every entry if and only if the condition holds |
| `Agreement.UndecimatedTrackIsReplay` | `src/location_server/store/query.py:260-265` | A track that fits is the whole session with stride one |
| `LiveReplay.ReplayShowsWhatWasLive` | `src/location_server/live/hub.py:373-395` | For every run of the hub and every session of a tag: the track of everything stored for it, refused repeats included, shows the points that were shown live, under the condition |
| `LiveReplay.RefusedNumberShowsInReplay` | `src/location_server/live/hub.py:373-395` | A stored number the hub never accepted makes the replay longer than what was shown live |
| `LiveReplay.StoringAccepted` | `src/location_server/store/telemetry.py:165-236` | Writing all that was received of a new session stores one row for each accepted cycle, its own, and nothing else, as long as what was refused only repeats |
| `LiveReplay.RangesAgree` | `src/location_server/columns.py:219-230` | Stored ranges joined to the unrolled rows are the live range table of each anchor |
| `TrackFetching.FetchTrack` | `tools/filter_compare.py:211-224` | The recursive fetch over the decimating track; it ends, and is refused only if the outer range is |
| `TrackFetching.FetchIsComplete` | `tools/filter_compare.py:211-224` | Whatever the order of times, exactly the rows of the range arrive if and only if no single millisecond holds more than one answer may |
| `TrackFetching.FetchInOrderIff` | `tools/filter_compare.py:211-224` | For all rows, the fetch is the rows of the range in their order if and only if wherever it divides a range no row of the second half stands before one of the first, down to ranges that fit one answer |
| `TrackFetching.FetchIsExact` | `tools/filter_compare.py:211-224` | When times never go back the fetch is the rows of the range, row for row, if and only if no millisecond is crowded |
| `TrackFetching.TimesOrderedIff` | `src/location_server/store/query.py:167-176` | Unrolled times of a session never go back exactly when no raw time steps back by 2^31 or less |
| `TrackFetching.OutOfOrder` | `tools/filter_compare.py:222-224` | A stored session with times 0, 3 and 1 is fetched as its first, third and second row when two rows come at a time |
| `Codec.DecodePacket` | `src/location_server/ingest/packet.py:178-269` | Decodes a datagram or names its first fault, with every unpack inside the buffer |
| `Codec.EncodePacket` | `src/location_server/ingest/packet.py:272-325` | Encodes a packet or names its first fault |
| `Codec.EncodeOfDecode` | `src/location_server/ingest/packet.py:178-269` | Every accepted datagram is the encoding of the packet it decodes to, and that packet is legal |
| `Codec.DecodeOfEncode` | `src/location_server/ingest/packet.py:272-325` | Every legal packet encodes, and decodes to itself |
| `Codec.RoundTripIffLegal` | `src/location_server/ingest/packet.py:178-325` | A packet survives encoding and decoding if and only if it is legal |
| `Layout.WireLayout` | `src/location_server/ingest/packet.py:23-62` | Every field of an accepted datagram, cycle by cycle and range by range, is the little-endian number at its byte offset |
| `Layout.AcceptedIff` | `src/location_server/ingest/packet.py:178-269` | Byte by byte: a datagram is accepted if and only if header, length, flags, anchors and filter marks are in order; a bad header is refused for its first fault |
| `Codec.PacketSizeClosed` | `src/location_server/ingest/packet.py:173-175` | The size summed cycle by cycle is the closed formula |
| `Struct.UnpackPack` | `src/location_server/ingest/packet.py:183-185` | Unpacking packed fields gives them back |
| `Struct.PackUnpack` | `src/location_server/ingest/packet.py:183-185` | Packing unpacked bytes gives them back |
| `SeqLedgers.AccountMeans` | `src/location_server/ingest/udp.py:60-99` | For every history of a session: received and late count cycles, lost is the number of sequence numbers no packet carried on time, and together they are the unrolled advance of the expected number |
| `SeqLedgers.PlacedWhereSent` | `src/location_server/ingest/udp.py:80-86` | A packet whose true number is within 2^31 of the expected one is placed where it was sent, and is late exactly when behind |
| `SeqTrackers.ObservedKeepsInv` | `src/location_server/ingest/udp.py:60-99` | Each packet keeps the tracker's invariant: limit, totals, order of last reception |
| `SeqHistory.CountersMeanWhatTheySay` | `src/location_server/ingest/udp.py:60-99` | In every run the counters of each tracked session are what its packets since it was taken up mean |
| `SeqHistory.EverySessionIsTraced` | `src/location_server/ingest/udp.py:62-98` | A tracked session's history is the tail of what it sent, all of it unless it was forgotten or ended, and its last packet is where the order says |
| `SeqHistory.TotalsAddUp` | `src/location_server/ingest/udp.py:44-58` | In every run the totals are the sums over tracked, forgotten and ended sessions, and no more than the limit are tracked |
| `SeqHistory.ForgetsTheLongestSilent` | `src/location_server/ingest/udp.py:66-71` | A new session that finds the tracker full costs exactly the session not heard of for longest |
| `SeqHistory.RoomForgetsNothing` | `src/location_server/ingest/udp.py:69-71` | Nothing is forgotten while there is room |
| `SeqTracking.SeqTracker.Observe` | `src/location_server/ingest/udp.py:60-99` | The method does the step and returns how many numbers are newly missing |
| `SeqTracking.SeqTracker.MakeRoom` | `src/location_server/ingest/udp.py:69-72` | The forgetting loop takes sessions from the front until the limit is met |
| `WriterRuns.EveryRowIsCounted` | `src/location_server/ingest/writer.py:77-139` | Under every interleaving, rows submitted are those written, duplicate, failed, dropped, pending and in flight |
| `WriterRuns.StoredInOrder` | `src/location_server/ingest/writer.py:116-135` | The tables are those that writing the stored packets in the order submitted leaves; the queue is the newest packets, within the cap or a single packet |
| `WriterRuns.SubmitDropsFewest` | `src/location_server/ingest/writer.py:77-94` | In every run a submitted packet joins the queue behind the others, and as few of the oldest go as the cap asks for; the wakeup is set exactly when it was or enough rows are left |
| `WriterRuns.WakeWritesAll` | `src/location_server/ingest/writer.py:101-135` | In every run a wait that ends with something pending starts writing all of it, and the commit leaves the tables that writing all of it leaves |
| `WriterRuns.StopDrains` | `src/location_server/ingest/writer.py:96-114` | From the stop request on, with nothing submitted any more, run returns after at most two more moves and then nothing is pending or in flight |
| `WriterRuns.NoLostWakeup` | `src/location_server/ingest/writer.py:94-111` | While run waits, a stop or a full queue has set the wakeup |
| `WriterRuns.StepKeepsInv` | `src/location_server/ingest/writer.py:77-139` | Every step keeps queue, batch in flight, counters and tables consistent |
| `WriterRuns.DecodedRowsAgree` | `src/location_server/ingest/packet.py:167-170` | A decoded packet carries exactly the rows it announces |
| `WriterTheorems.ResultRows` | `src/location_server/store/telemetry.py:122-130` | Written and duplicate rows of a batch are all its rows |
| `TelemetryWriters.TelemetryWriter.Submit` | `src/location_server/ingest/writer.py:77-94` | Queues a packet and drops the oldest down to the limit, as the step describes |
| `TelemetryWriters.TelemetryWriter.RequestStop` | `src/location_server/ingest/writer.py:96-99` | Raises the stop flag and the wakeup |
| `TelemetryWriters.TelemetryWriter.Start` | `src/location_server/ingest/writer.py:101-114` | The stretch of run from its beginning to its first await |
| `TelemetryWriters.TelemetryWriter.WakeUp` | `src/location_server/ingest/writer.py:108-126` | The stretch of run after a wait: flush what is pending, or go round the loop |
| `TelemetryWriters.TelemetryWriter.StoreDone` | `src/location_server/ingest/writer.py:126-135` | The stretch after the store has committed the batch or failed |
| `LinearSolver.SolveLinear` | `tools/survey_solve.py:260-276` | In exact arithmetic the result solves the system, and the system is refused if and only if it is singular |
| `Rows.SubtractKeepsKernel` | `tools/survey_solve.py:269-272` | Subtracting a multiple of a row keeps the kernel |
| `ColumnRank.PivotsAreRank` | `tools/survey_solve.py:436-454` | The pivots of a complete echelon form number the largest independent sets of columns |
| `ColumnRank.PivotRowDecides` | `tools/survey_solve.py:459-462` | A pivot column is in no dependency exactly when its row is zero on every free column |
| `ColumnRank.FreeIsDispensable` | `tools/survey_solve.py:459-462` | A free column always is in a dependency |
| `Elimination.PivotStep` | `tools/survey_solve.py:441-452` | A pivot step adds its column to the echelon form |
| `Elimination.PivotedKeepsKernel` | `tools/survey_solve.py:441-450` | A pivot step keeps the kernel, the set of self-stresses |
| `Elimination.RankDrops` | `tools/survey_solve.py:416-418` | For every matrix, removing a column lowers the rank exactly when no dependency involves it |
| `Elimination.GaussJordan` | `tools/survey_solve.py:436-454` | The loop ends in a complete echelon form with the same kernel |
| `Elimination.Pivot` | `tools/survey_solve.py:441-450` | Swaps, divides and clears, row by row, as the step does |
| `Rigidity.BuildBalance` | `tools/survey_solve.py:427-435` | The matrix filled pair by pair is the force balance of every anchor, with the bias row when asked for |
| `Rigidity.CriticalEdges` | `tools/survey_solve.py:405-462` | Lists, in order, exactly the pairs whose loss leaves the shape free to change while all measured pairs fix it; none for fewer than four anchors or a shape not fixed (positions not all at one place); and these are the pairs no self-stress uses |
| `Rigidity.CriticalIsLoss` | `tools/survey_solve.py:405-462` | A pair is critical in the elimination if and only if without it the shape is no longer fixed |
| `Frameworks.ColumnProduct` | `tools/survey_solve.py:427-435` | The product of a pair's column with velocities is how fast they stretch the pair, with the bias taken off |
| `Frameworks.RankTestMeansRigid` | `tools/survey_solve.py:456-458` | For anchors not all at one place the rank test passes if and only if every motion that stretches no measured pair beyond the common bias is a shift plus a turn with zero bias |
| `RowRank.RankIsPivots` | `tools/survey_solve.py:436-458` | The rank of a set of columns is the number of pivots of the elimination on the equations those columns are: row rank is column rank |
| `Rigidity.CriticalMembers` | `tools/survey_solve.py:462-462` | Which pairs the returned list names |
| `Rigidity.CriticalLowersRank` | `tools/survey_solve.py:416-418` | A pair is critical if and only if removing it lowers the rank |
| `Flipping.FlippableGroups` | `tools/survey_solve.py:351-402` | For every separator all components it leaves are reported but one, and that one has at least as many anchors as each reported; shorter separators come first, longer groups first, equal lengths in ascending order of ids |
| `Flipping.ReportInPlainTerms` | `tools/survey_solve.py:383-402` | Whatever is reported names parts, keeps a largest part of each remainder and stands in order, by lengths and ids alone |
| `Flipping.FindComponents` | `tools/survey_solve.py:384-400` | The search partitions the remaining anchors into connected components |
| `Flipping.Search` | `tools/survey_solve.py:387-398` | One search with its stack finds the whole component of an unseen anchor and nothing else, and ends |
| `Flipping.CollectSeparators` | `tools/survey_solve.py:369-382` | The separators are all pairs, and all sets of three or more within tolerance of a line through two distant anchors |
| `Flipping.NearLineMeans` | `tools/survey_solve.py:369-382` | An anchor counts as in line exactly when some point of the line is within the tolerance of it |
| `Flipping.ComponentsDisjoint` | `tools/survey_solve.py:384-400` | Different components share no anchor |
| `Flipping.GroupsDetermined` | `tools/survey_solve.py:383-402` | The order in which sets are popped does not show: only one list of groups can be reported |
| `Flipping.ReportNames` | `tools/survey_solve.py:400-402` | A group is reported exactly when it is a component other than the first of what some separator leaves |
| `Flipping.ReportedGroupsFold` | `tools/survey_solve.py:354-358` | Every group reported folds over every line through its separator without changing a measured distance |
| `Flipping.SealedOff` | `tools/survey_solve.py:386-398` | No measured pair leaves a component except into the separator |
| `Flipping.FoldKeepsMeasurements` | `tools/survey_solve.py:354-358` | Mirroring a group in any line through its separator keeps every measured squared distance |
| `Flipping.PairsFold` | `tools/survey_solve.py:360-361` | Two separating anchors at different places always span such a line |
| `Flipping.FoldIsAnotherShape` | `tools/survey_solve.py:356-358` | The mirrored form differs: a distance to an anchor left behind changes exactly when both ends are off the line |
| `ViewerSessions.SessionData.Append` | `src/location_server/static/js/model.js:84-115` | Merging a frame keeps every column aligned, fix numbers increasing and range numbers in order, and appends exactly what is newer |
| `ViewerSessions.SessionData.TrimBefore` | `src/location_server/static/js/model.js:118-123` | Drops the front of every column object by binary search |
| `ViewerSessions.SessionData.RangesAtIndex` | `src/location_server/static/js/model.js:158-171` | Exactly the anchors with an entry of that cycle's number, each with its last such entry |
| `ViewerColumns.LastIndexAtOrBefore` | `src/location_server/static/js/model.js:33-47` | The binary search loop stays within the array |
| `ViewerColumns.LastAtOrBeforeFinds` | `src/location_server/static/js/model.js:33-47` | In ascending values it finds the last position at or below the value |
| `ViewerColumns.MergeIsIdempotent` | `src/location_server/static/js/model.js:84-98` | Merging the same frame again changes nothing |
| `ViewerColumns.MergeComposes` | `src/location_server/static/js/model.js:84-98` | Merging two frames in turn is merging the frame they make together |
| `ViewerColumns.CuttingDoesNotMatter` | `src/location_server/static/js/model.js:84-98` | However a stream is cut into frames between two cycles, merging them shows its newer part once |
| `ViewerColumns.IncreasingInTurn` | `src/location_server/static/js/model.js:84-98` | A stream of increasing numbers may be cut anywhere |
| `ViewerColumns.SnapshotOverlaps` | `src/location_server/static/js/model.js:84-98` | A snapshot overlapping what is held adds exactly what it has beyond it |
| `ViewerColumns.MergedIncreases` | `src/location_server/static/js/model.js:84-98` | Merged sequence numbers strictly increase |
| `ViewerColumns.TrimKeeps` | `src/location_server/static/js/model.js:118-123` | Trimming keeps columns aligned and, when times do not go back, exactly what is from the time on |
| `ViewerSessions.RangesIdempotent` | `src/location_server/static/js/model.js:99-114` | Merging the ranges of a frame again changes nothing |
| `ViewerSessions.RangesCompose` | `src/location_server/static/js/model.js:99-114` | Merging the ranges of two frames in turn is merging those of the frame they make together, anchor by anchor |

## Left out

- Sockets, asyncio, threads and SQLite: only their step boundaries, atomic transactions and table contents are modelled; a wait may end at any time, and events reach a component in any order.
- The JSON form of frames, the conversion to metres, logging, HTTP routing and authentication.
- The counters `dropped_frames` and `overflow_disconnects` that all queues share, and statistics logging.
- The set of subscribers is a map from connection numbers to queues, and queue entries carry the number of their push, so that equal frames can be told apart.
- `list_sessions`, `get_session` and `summary`: aggregates over the same unrolled rows.
- Ranges of a cycle that repeats an anchor id: the store keeps the first, a live frame shows both.
- Rows written before the filter columns existed, whose filter columns are empty.
- `LiveReplay.ReplayShowsWhatWasLive`: for a session the store held nothing of; a number refused first and accepted only a full turn of the counter later is in neither of the two cases proved.
- `LinearSolver.SolveLinear`: real numbers instead of floating point, and zero for the tolerance on a pivot.
- `Rigidity.CriticalEdges`: real numbers, zero for both tolerances, and the random positions as a parameter; that random positions are general is not modelled.
- `Flipping.FlippableGroups`: distances are compared as squares, the tolerance is a parameter; a separator of three or more is within tolerance of a line, while the folding theorem is about separators exactly on it.
- Multidimensional scaling, eigenvectors, the least-squares iteration and the alignment of the survey: they rest on floating point, square roots and trigonometry.
- `SeqTracking.SeqTracker.Observe`: for a limit of at least one session; with a limit of zero the source deletes the session it is about to count and fails with a missing key. Session states are values in the dictionary.
- `TelemetryWriters.TelemetryWriter.StoreDone`: the store fails without a trace, as a rolled-back transaction does; the callback after a commit is not modelled, and hellos that reach the store between two batches, and a flush called from outside `run`, are not part of the writer's runs.
- `WriterRuns.NoLostWakeup`: for a flush threshold above zero, which all settings are.
- `TrackFetching.FetchTrack`: the session does not grow while it is being fetched.
- `ViewerSessions.SessionData.Append`: column objects are values, and frames have aligned columns, fix numbers that increase and range numbers that never go back, as the server makes them; a range number repeats when a packet names an anchor twice in a cycle. Session information, anchors and the readers that only look up a position are left out.
- Metrics and tables of the filter comparison, unit conversion, anchor storage and command-line tools: short per-operation arguments.
