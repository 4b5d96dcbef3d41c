# Verified model of the Omarchy hardware plugin's protocol and state machines

This project models, in Dafny, the parts of the plugin through which device and broker bytes pass
or on which its safety rules rest, and proves what they promise over every input, every run or every
interleaving. Each module follows one source file; algorithms that update variables are methods
with loops or classes with fields, proved against functions whose own properties are then lemmas.

| module | what it models |
|---|---|
| `SerialSession`, `SerialRuns` | the ring buffer, `read`, `expect` and the clear handshake as an object; then every interleaving of the reader thread with any number of callers |
| `SessionRegistry` | `SessionManager`: open, close and close_port racing for a port |
| `TopicFilters` | MQTT topic filters and the narrowing test |
| `Net`, `MqttWire`, `MqttReading` | a scripted socket, MQTT packets, and reading them from a stream with stalls in it |
| `MqttConn`, `MqttClient` | what subscribing, collecting and publishing do; the client that does it |
| `MqttOutgoing`, `MqttDelivery` | the bytes it writes, read by the standard; what its caller is given of what the broker sent, and what it writes meanwhile |
| `AuditChain` | the hash-chained audit log, written by several processes with cached heads |
| `LineProtocol`, `LinePoints`, `FluxString` | the InfluxDB line printer with a reference parser, and Flux string literals |
| `WebSocketWire`, `WebSocketClient` | frames, masking, reassembly, and `recv_text` |
| `WebSocketReading`, `WebSocketRuns` | what the client reads from a stream with stalls in it; what its caller is given over any number of calls |
| `UploadRun` | a firmware upload in which any step may raise |
| `RollingBudget` | the rolling caps, with limits edited mid-run and differences of times rounded |
| `Bridge` | the serial-to-MQTT bridge thread |
| `Wiring`, `WiringFindings`, `WiringSums` (with `Sequences`) | the wiring checker; which findings it raises; its total added up in rounded doubles |
| `Arrivals` | board keys and arrival tracking in the widget |
| `FilePut` (with `Base64`) | writing a file to a MicroPython board in chunks |
| `Doubles` | rounding to 53 bits, as IEEE 754 doubles do |
| `Bytes`, `Wrappers` | bytes, big-endian integers, sequence algebra, `Option` and `Result` |

Time is a number that only moves forward unless a statement says otherwise. What the environment
does (how the network cuts a stream, which step raises, when another thread stops a bridge) is a
script or an oracle fixed in advance and otherwise arbitrary, so a statement about a method holds
for every environment. A region the source runs under a lock is one step. The hash of the audit log
is any function; lemmas that need it assume it injective and never equal to the genesis value.
Dafny's automatic induction is off for every lemma: an induction is always written out.

## Where the code does not do what is expected of it

Each of these is a lemma with the input that fails, and the exact condition under which the code
does meet the property.

* `filter_covers` refuses `#` inside `+/#` although both match the same topics
  (`TopicFilters.ExceptionIsRefused`); over MQTT's non-empty topic names it also refuses `/#` inside
  `/+/#` and inside `+/+/#` (`TopicFilters.NamedExceptionsNarrow`). These are the only refusals that
  are too strict.
* `collect` loses nothing if every stall falls between two packets (`MqttDelivery.ListenDelivers`). A
  stall after t bytes of a packet loses exactly those t bytes (`MqttDelivery.StallInside`); the client
  keeps the connection, and the next read is at a packet boundary if and only if t is 0
  (`MqttDelivery.StallKeepsBoundaryOnlyBetweenPackets`). In between, a second `collect` on the same
  client can return a message nobody sent (`MqttDelivery.StallCanForgeAMessage`). The repository's own
  callers collect once per connection (`ming.py:184-186`, `weintek.py:75-77`), so they only lose bytes.
* `SessionManager.open` checks the rate in its first locked region and not in its second. Over any
  interleaving it returns a session on the port asked for, and at the rate asked for if and only if it
  did not lose the port to a newer open session at another rate
  (`SessionRegistry.OpenReturnsTheRateUnlessItLost`); two threads opening one free port at different
  rates get there (`SessionRegistry.RacingOpenReturnsAnotherRate`).
* The audit log verifies after an append if and only if no torn write came before and the caller's
  fields do not replace `hash` or `prev` (`AuditChain.AppendVerifiesIff`). After a torn write the
  writer and everybody else chain onto different heads (`AuditChain.TornWriteForksTheChain`). A write
  that fails on one log can leave its head cached under the key of another, whose next record then
  verifies if and only if both logs hold the same records
  (`AuditChain.FailureElsewherePoisonsTheCache`; from two empty logs, `AuditChain.PoisonedRunBreaks`).
  The caches agree with the disk all along a run if and only if no write fails in a process whose cache
  is keyed to the current end of another log with other records (`AuditChain.RunAgreesIff`).
* A rolling budget reads its clock before it takes its lock. Two callers can therefore charge with
  times out of order, and then a window can hold more than the limit
  (`RollingBudget.LateReadingOvershoots`). A charge is decided as the full history would decide it,
  whatever the limit, if and only if nothing still live has been pruned
  (`RollingBudget.ChargeDecidedAsFullIff`); every window around it stays capped, whatever the limit, if
  and only if no window lost more than is stored outside it (`RollingBudget.WindowsCappedIff`).
* Even with times in order, the difference of two doubles is rounded, and an event less than a minute
  old can be pruned (`RollingBudget.EdgeReadingOvershoots`). An interval is capped as long as its length
  is covered by the rounded test (`RollingBudget.EveryWindowIsCapped`); for a minute that holds exactly
  up to 2^-48 seconds less than a minute (`RollingBudget.MinuteCoversIff`).
* `scanKeys` can give two boards on different ports one key, if a port is empty, ends with `|`, or
  ends with `||` and another port (counting two bars put in front of both). On ports without these
  clashes keys are always distinct (`Arrivals.CleanPortsHaveDistinctKeys`); any two ports that do
  clash collide in some scan (`Arrivals.ClashingPortsCollide`). Device paths, which are not empty and
  hold no `|`, never clash (`Arrivals.OrdinaryPortsAreClean`).
* After an upload the caller learns the id of the reopened session, or why there is none, exactly
  when nothing but ToolErrors came out of the upload, the reopening and the journal
  (`UploadRun.Upload.Run`); any other exception drops it, as when everything works but the journal
  (`UploadRun.JournalDropsTheSession`).
* The wiring checker adds the currents up in the order of the connections, in doubles. Reordering a
  plan keeps verdict and counts if and only if both rounded sums are on the same side of the limit
  (`Wiring.ReportKeepsOrderIff`), as they always are for whole milliamperes
  (`Wiring.WholeCurrentsIgnoreOrder`). Six LEDs on a Pico pass in one order and fail in another
  (`WiringSums.OrderCanDecideTheVerdict`).

Two documented intentions are modelled as the code has them: a frame of the WebSocket client may
expire before `FRAME_TIMEOUT` because the caller's own deadline also applies (it is then an error,
never a lost frame), and the wiring checker accepts a power wire on a ground pin and the reverse,
since it only asks that the pin be some supply.

## Model

| member | source | states |
|---|---|---|
| SerialSession.Find | mcp/omarchy_hardware/serial_session.py:136 | The first occurrence and no other: an index is returned exactly when the needle occurs, and nothing occurs before it. |
| SerialSession.ReadsExactly | mcp/omarchy_hardware/serial_session.py:129-147 | A pass hands out the shortest beginning of the buffer that ends in the terminator, or that beginning cut at the room (1 to 262144 bytes); without a terminator, or expired, all there is up to the room; timed out exactly when there was nothing to return but time was up, waiting exactly when there was time left. |
| SerialSession.ThroughIsStable | mcp/omarchy_hardware/serial_session.py:136-139 | The end of the first terminator does not move when more bytes arrive. |
| SerialSession.FirstLineIs | mcp/omarchy_hardware/serial_session.py:166-168 | The next line is 1 to 4096 bytes with a newline at its end and nowhere before, or 4096 bytes without one; there is none exactly while fewer have arrived and no newline is among them. |
| SerialSession.ScanIsIff | mcp/omarchy_hardware/serial_session.py:163-184 | A scan is whole lines up to the first that matches, or all there are, and what is left; nothing else has these properties, so the batch split is determined by them. |
| SerialSession.DrainedIs | mcp/omarchy_hardware/serial_session.py:77-99 | Under a pending clear all bytes are discarded, counted and acknowledged; otherwise exactly the newest 262144 stay, in order, and the rest are counted as dropped. |
| SerialSession.LineEndIsStable | mcp/omarchy_hardware/serial_session.py:166-170 | The end of a line already there does not move when more bytes arrive. |
| SerialSession.ScanIsBatchPrefix | mcp/omarchy_hardware/serial_session.py:164-184 | One locked scan takes the first lines of the batch split of everything that will ever arrive, and leaves exactly its remainder. |
| SerialSession.ScanKeepsBytes | mcp/omarchy_hardware/serial_session.py:169-184 | Lines consumed and buffer left, put together, are the buffer before: nothing lost, nothing invented. |
| SerialSession.UnmatchedScanLeavesNoLine | mcp/omarchy_hardware/serial_session.py:152-154 | After a scan without a match the buffer has no newline and is shorter than MAX_LINE. |
| SerialSession.ExpectIgnoresChunking | mcp/omarchy_hardware/serial_session.py:149-197 | Over any number of calls and any chunking of the arrivals, the lines consumed are a prefix of the batch split of the whole stream, which `ScanIsIff` determines. |
| SerialSession.TimedOutExpectIsExact | mcp/omarchy_hardware/serial_session.py:186-194 | After a timeout the lines consumed are the whole batch split, and what stays buffered is its newline-free remainder. |
| SerialSession.Session.Drain | mcp/omarchy_hardware/serial_session.py:77-99 | The reader's region: a pending clear is acknowledged and everything discarded, otherwise the chunk is appended and the oldest excess dropped and counted. |
| SerialSession.Session.Take | mcp/omarchy_hardware/serial_session.py:199-207 | The bytes handed out and the buffer left are the old buffer, in order. |
| SerialSession.Session.TryRead | mcp/omarchy_hardware/serial_session.py:129-147 | One pass of a read: raised, waiting or data, and the data handed out, as `ReadsExactly` has it; the rest stays buffered. |
| SerialSession.Session.ScanBuffer | mcp/omarchy_hardware/serial_session.py:163-184 | The scanning loop consumes whole lines up to the first that matches, and leaves exactly the rest buffered. |
| SerialSession.Session.RequestClear | mcp/omarchy_hardware/serial_session.py:230-233 | A clear is requested only while the session is open, and changes nothing else. |
| SerialSession.Session.PollClear | mcp/omarchy_hardware/serial_session.py:234-243 | A clear returns exactly once it is acknowledged; only the two-second timeout fails the session. |
| SerialRuns.EveryByteIsAccountedFor | mcp/omarchy_hardware/serial_session.py:77-207 | In every interleaving the buffer is what follows the consumed bytes in the receive history and never over the limit; consumed segments tile that history; received bytes are delivered, dropped, discarded or still held, and the drop counter is exact. |
| SerialRuns.QueriesAreFresh | mcp/omarchy_hardware/serial_session.py:115-127 | In every interleaving a query writes only after its own clear was acknowledged, its reply holds only later bytes, nobody else consumes any of them, and at most one clear is outstanding. |
| SerialRuns.ReadsHandOut | mcp/omarchy_hardware/serial_session.py:129-147 | At any point of any run a pass hands out exactly that, as an event of its thread (a query's reply of at most 4096 bytes), off the front of the buffer. |
| SerialRuns.ReadsFollowTheHistory | mcp/omarchy_hardware/serial_session.py:136-139 | A read that finds its terminator ends where the whole receive history says: through the first terminator among the bytes not yet consumed, or cut at the room. |
| SerialRuns.LinesAreHandedOut | mcp/omarchy_hardware/serial_session.py:166-170 | At any point of any run the next line consumed is the first line of everything received and not yet consumed. |
| SerialRuns.ClearsDiscardEverything | mcp/omarchy_hardware/serial_session.py:81-90 | A clear discards every byte received by then and reports all but those that came while it was at it. |
| SerialRuns.SegmentsAreDisjointAndInOrder | mcp/omarchy_hardware/serial_session.py:199-207 | Any two segments handed out, dropped or cleared are disjoint and in the order they arrived. |
| SerialRuns.TilesAccount | mcp/omarchy_hardware/serial_session.py:86-98 | Delivered, dropped and discarded bytes add up to everything consumed. |
| SerialRuns.InvHolds | mcp/omarchy_hardware/serial_session.py:222-243 | Every step of every thread keeps the invariant on bytes, log, lock and clear handshake. |
| SessionRegistry.LiveSessionsAreNeverOrphaned | mcp/omarchy_hardware/serial_session.py:278-299 | In every interleaving a session that open returned, that is still open and that nobody chose to close, is the one registered under its port. |
| SessionRegistry.RegistryMoves | mcp/omarchy_hardware/serial_session.py:278-332 | In every interleaving an entry appears or is replaced only by an opener that finds the port free or its session closed; is removed only by the close of that very session, closed by then, or by close_port. |
| SessionRegistry.OpenSessionsKeepTheirEntry | mcp/omarchy_hardware/serial_session.py:293-332 | Once registered, a session that is still open has kept its entry through any later steps, unless close_port popped its port. |
| SessionRegistry.OpenReturnsTheRateUnlessItLost | mcp/omarchy_hardware/serial_session.py:278-299 | In every interleaving open returns a session on the port asked for; at the rate asked for if and only if it did not lose the port to a newer open session at another rate. |
| SessionRegistry.RacingOpenReturnsAnotherRate | mcp/omarchy_hardware/serial_session.py:293-297 | Two threads open one free port at different rates, and the second gets the session of the first. |
| SessionRegistry.FirstLookAnswers | mcp/omarchy_hardware/serial_session.py:278-289 | At its first look an open hands out an open session at its own rate, refuses one at another, and touches nothing else; otherwise it goes on with what it found. |
| SessionRegistry.StaleIsClosedFirst | mcp/omarchy_hardware/serial_session.py:289-292 | A session is constructed only after the one found under the port has been closed. |
| SessionRegistry.LosersAreClosed | mcp/omarchy_hardware/serial_session.py:293-297 | An open that finds a newer open session closes the one it made. |
| SessionRegistry.PickedSessionsAreClosed | mcp/omarchy_hardware/serial_session.py:289-332 | In every interleaving a session that a close, close_port, stale clean-up or lost open picked is closed, unless a thread is still about to close it. |
| SessionRegistry.ClosesFinishClosed | mcp/omarchy_hardware/serial_session.py:316-332 | A close or close_port gets no further while its session is open. |
| SessionRegistry.InvStep | mcp/omarchy_hardware/serial_session.py:278-332 | Every locked region of open, close and close_port keeps the registry's invariant: what is live is registered, and what is under construction is private. |
| SessionRegistry.Sessions.InstallOrLose | mcp/omarchy_hardware/serial_session.py:293-299 | The constructed session takes the port unless a newer open one holds it, which is then returned instead. |
| SessionRegistry.Sessions.Forget | mcp/omarchy_hardware/serial_session.py:319-324 | The port's entry goes only if it is still this very session. |
| SessionRegistry.Sessions.Pop | mcp/omarchy_hardware/serial_session.py:326-330 | The port's entry is removed and returned. |
| TopicFilters.SplitJoin | mcp/omarchy_hardware/mqtt_lite.py:60-61 | Joining levels without slashes and splitting again gives those levels back. |
| TopicFilters.JoinSplit | mcp/omarchy_hardware/mqtt_lite.py:60-61 | Splitting any text on slashes and joining again gives it back. |
| TopicFilters.TopicMatchesLoop | mcp/omarchy_hardware/mqtt_lite.py:56-69 | The level loop decides the match relation, the rule for `$` topics included. |
| TopicFilters.MatchingIsSection47 | mcp/omarchy_hardware/mqtt_lite.py:56-69 | On valid filters that relation is section 4.7 of MQTT 3.1.1: a level for each level, named or `+`, unless a final `#` stands for its parent and any levels below. |
| TopicFilters.FilterCoversLoop | mcp/omarchy_hardware/mqtt_lite.py:72-95 | The level loop decides the specified cover relation. |
| TopicFilters.FilterCoversIsExact | mcp/omarchy_hardware/mqtt_lite.py:72-95 | For valid filters it is true if and only if every topic the requested filter matches is matched by the allowed one, with the single exception of `#` in `+/#`. |
| TopicFilters.RefusalHasWitness | mcp/omarchy_hardware/mqtt_lite.py:79-94 | Every other refusal comes with a constructed topic that the request matches and the allowed filter does not. |
| TopicFilters.ExceptionIsRefused | mcp/omarchy_hardware/mqtt_lite.py:89-90 | The exception is real: both filters match the same topics and the request is refused. |
| TopicFilters.NamedExceptionsNarrow | mcp/omarchy_hardware/mqtt_lite.py:89-90 | Two more requests are refused although they narrow, when the empty topic is left out. |
| TopicFilters.FilterCoversIsExactOnNames | mcp/omarchy_hardware/mqtt_lite.py:72-95 | Over non-empty topic names the exceptions are exactly these three. |
| TopicFilters.CoversReflexive | mcp/omarchy_hardware/mqtt_lite.py:72-95 | Every valid filter covers itself. |
| TopicFilters.CoversTransitive | mcp/omarchy_hardware/mqtt_lite.py:72-95 | Narrowing twice is narrowing once. |
| TopicFilters.SubscribeNeverWidens | mcp/omarchy_hardware/policy.py:346-349 | Whatever an accepted subscription receives, some configured filter already allowed. |
| TopicFilters.SubscribeAcceptsIff | mcp/omarchy_hardware/policy.py:346-349 | With valid filters a request is accepted if and only if it narrows a configured one, `#` under `+/#` excepted. |
| TopicFilters.ValidFilterIff | mcp/omarchy_hardware/config.py:542-550 | A filter is valid if and only if each wildcard begins a level, `+` ends it and `#` ends the filter, character by character. |
| TopicFilters.ValidTopicFilter | mcp/omarchy_hardware/config.py:542-550 | The level loop decides exactly that. |
| TopicFilters.WitnessSeparates | mcp/omarchy_hardware/config.py:542-550 | For valid filters the level-wise witness is matched by the request and missed by the allowed filter. |
| Net.Socket.Recv | mcp/omarchy_hardware/mqtt_lite.py:243 | A receive gives at most the bytes asked for and leaves the rest pending, in order. |
| Net.BytesInScript | mcp/omarchy_hardware/mqtt_lite.py:234-251 | However the bytes of a script are cut, its items hold exactly them, in order. |
| MqttWire.EncodeLengthLoop | mcp/omarchy_hardware/mqtt_lite.py:98-106 | The encoding loop computes the remaining-length encoding, and refuses exactly the lengths outside 0 to 268435455. |
| MqttWire.EncodedLengthIs | mcp/omarchy_hardware/mqtt_lite.py:98-106 | The encoding has the value of its length in base 128, least digit first, the top bit set on all but the last byte, in as few bytes as can be. |
| MqttWire.LengthRoundTrip | mcp/omarchy_hardware/mqtt_lite.py:98-106 | A remaining length is decoded to itself and to exactly its own bytes. |
| MqttWire.PacketRoundTrip | mcp/omarchy_hardware/mqtt_lite.py:116-117 | One packet is recovered from the front of any stream; the rest is untouched. |
| MqttWire.StreamRoundTrip | mcp/omarchy_hardware/mqtt_lite.py:253-268 | A concatenation of packets decodes to exactly those packets and then to whatever follows. |
| MqttWire.PublishRoundTrip | mcp/omarchy_hardware/mqtt_lite.py:346-377 | Topic, payload, QoS 0 or 1 and retain survive, and QoS 1 is acknowledged by its own id. |
| MqttReading.WholeIsRead | mcp/omarchy_hardware/mqtt_lite.py:253-268 | A packet that arrives whole, in any chunks, is read, and what follows is left alone. |
| MqttReading.StopInside | mcp/omarchy_hardware/mqtt_lite.py:253-268 | A stall after the first t bytes of a packet ends the reading with exactly those t bytes gone; a cut there is an error. |
| MqttReading.ReadAgrees | mcp/omarchy_hardware/mqtt_lite.py:253-268 | Whatever stalls and cuts there are, a packet read is the one the bytes encode, and a timeout loses only bytes from the front. |
| MqttReading.OverlongIsRefused | mcp/omarchy_hardware/mqtt_lite.py:264-267 | A packet longer than the client's limit is refused as soon as its length is read, its body unread. |
| MqttReading.EndlessLengthIsRefused | mcp/omarchy_hardware/mqtt_lite.py:256-263 | So is a length of more than four bytes. |
| MqttClient.Client.RecvExact | mcp/omarchy_hardware/mqtt_lite.py:234-251 | Exactly the bytes asked for, in order, across chunks; a timeout forgets those already taken. |
| MqttClient.Client.ReadLength | mcp/omarchy_hardware/mqtt_lite.py:256-263 | The shift loop reads the specified remaining length, in at most four bytes. |
| MqttClient.Client.ReadPacket | mcp/omarchy_hardware/mqtt_lite.py:253-268 | One packet is read from the socket as specified, the packet limit included. |
| MqttClient.Client.TakeId | mcp/omarchy_hardware/mqtt_lite.py:272-275 | Ids stay in 1 to 65535 and advance cyclically. |
| MqttClient.Client.Subscribe | mcp/omarchy_hardware/mqtt_lite.py:277-298 | The waiting loop leaves result, stream, early queue and sent bytes as the specified subscription does, whose request `MqttOutgoing.SubscribeAsks` reads. |
| MqttClient.Client.Collect | mcp/omarchy_hardware/mqtt_lite.py:300-331 | The loop returns the specified messages, reason and lost bytes, and leaves the connection as specified. |
| MqttClient.Client.Listen | mcp/omarchy_hardware/mqtt_lite.py:277-331 | The same for subscribing and then collecting any number of times. |
| MqttClient.Client.Publish | mcp/omarchy_hardware/mqtt_lite.py:367-387 | The waiting loop leaves result, stream and sent bytes as the specified publish does. |
| MqttOutgoing.SubscribeAsks | mcp/omarchy_hardware/mqtt_lite.py:277-282 | A subscription sends one packet that reads back as 0x82, the id, the filter's length, the filter and a zero, and then waits; a filter over 65535 bytes is refused with nothing sent, and a failed send ends it. |
| MqttOutgoing.PublishAsks | mcp/omarchy_hardware/mqtt_lite.py:367-380 | A publish sends one packet that reads back as its kind, QoS and retain bits, the topic with its length, the id at QoS 1 and the payload; what does not fit is refused with nothing sent. |
| MqttOutgoing.AcceptedIsAcknowledged | mcp/omarchy_hardware/mqtt_lite.py:360-364 | Accepting a QoS 1 PUBLISH sends exactly 0x40, 2 and its own id; nothing is sent for any other. |
| MqttOutgoing.ParsedIsWhole | mcp/omarchy_hardware/mqtt_lite.py:346-365 | For any bytes: accepted are QoS 0 to 2 with topic, id and UTF-8 in place, and then length, topic, id and payload are the whole body. |
| MqttDelivery.ListenDelivers | mcp/omarchy_hardware/mqtt_lite.py:277-331 | If every stall falls between two of the packets the broker sent, the batches are, one after another, the front of their messages: in order, none lost or repeated, the rest still owed while no error ends it. On a stream that does not fail only the subscription can. What was written is one SUBSCRIBE for this filter and then, pings apart, one PUBACK for each QoS 1 message taken, in order. |
| MqttDelivery.CollectInStep | mcp/omarchy_hardware/mqtt_lite.py:300-331 | One collect on such a stream loses no byte and returns the front of what is owed, early messages first; the rest is still owed, and exactly what was taken has been acknowledged. |
| MqttDelivery.SubscribeInStep | mcp/omarchy_hardware/mqtt_lite.py:277-298 | A subscription succeeds only on its own granting SUBACK, the first that came, and keeps and acknowledges every message before it. |
| MqttDelivery.SubackArrives | mcp/omarchy_hardware/mqtt_lite.py:282-298 | It does succeed when that SUBACK is on its way with room in the early queue for the messages before it. |
| MqttDelivery.TooManyEarlyMessages | mcp/omarchy_hardware/mqtt_lite.py:295-298 | With 32 early messages one more before the SUBACK ends the subscription. |
| MqttDelivery.CollectProgress | mcp/omarchy_hardware/mqtt_lite.py:300-331 | With the packets there in any chunks and a readable turn for each, a collect returns all that is owed or as many messages as asked for. |
| MqttDelivery.TimeIsUp | mcp/omarchy_hardware/mqtt_lite.py:307-313 | Once time is up nothing is read or written, and the early messages are returned. |
| MqttDelivery.StallBetweenPackets | mcp/omarchy_hardware/mqtt_lite.py:234-251 | Whole packets in any chunks, then a stall, then such a stream again: every stall falls between packets. |
| MqttDelivery.PacketsAreReadBack | mcp/omarchy_hardware/mqtt_lite.py:253-268 | Any number of packets, in any chunks, are read back exactly as sent. |
| MqttDelivery.PublishSucceedsIff | mcp/omarchy_hardware/mqtt_lite.py:367-387 | A publish succeeds if and only if its arguments fit, the send goes through and, at QoS 1, a PUBACK with its own id is read; exactly that PUBLISH went out. |
| MqttDelivery.StallInside | mcp/omarchy_hardware/mqtt_lite.py:323-328 | Whole packets, then a stall after t bytes of the next: all that is owed is returned, exactly those t bytes are lost and the rest is still to come. |
| MqttDelivery.StallKeepsBoundaryOnlyBetweenPackets | mcp/omarchy_hardware/mqtt_lite.py:323-328 | What such a stall leaves is at a packet boundary if and only if t is 0. |
| MqttDelivery.StallCanForgeAMessage | mcp/omarchy_hardware/mqtt_lite.py:323-328 | One message is sent; a stall after five of its bytes makes a first collect return nothing and a second one a message nobody sent. |
| AuditChain.ReadHead | mcp/omarchy_hardware/audit.py:85-103 | The loop finds the last hash on disk, skipping damaged lines. |
| AuditChain.VerifyLoop | mcp/omarchy_hardware/audit.py:161-194 | The loop computes the specified verdict. |
| AuditChain.VerifyFindsFirstBreak | mcp/omarchy_hardware/audit.py:161-194 | The line reported is the first that does not follow the hash before it, with the reason why and the number of records before it; intact means every line follows. |
| AuditChain.SameHeadSameRecords | mcp/omarchy_hardware/audit.py:81-103 | Two logs that verify and end in the same hash are identical record for record. |
| AuditChain.SameHeadIffSameRecords | mcp/omarchy_hardware/audit.py:81-103 | Two logs that verify have one head if and only if they hold the same records. |
| AuditChain.ChainedFollowsIffHarmless | mcp/omarchy_hardware/audit.py:120-124 | A new record follows its predecessor if and only if the caller's fields leave `hash` and `prev` alone. |
| AuditChain.LandedRecord | mcp/omarchy_hardware/audit.py:106-129 | The last line after an append that landed is the record: the caller's fields, the base where the caller has no field of that name, the head it follows and the hash of all that, and nothing else; the new head is its hash. A write that fails before it lands changes nothing. |
| AuditChain.Chain.TailOf | mcp/omarchy_hardware/audit.py:58-62 | The cached head is used only for this file at this size, else the head on disk. |
| AuditChain.Chain.RecordInto | mcp/omarchy_hardware/audit.py:106-129 | One append: the file, the cache and the outcome, however the write ends. |
| AuditChain.CachesAgreeWithDisk | mcp/omarchy_hardware/audit.py:46-71 | Any number of processes, logs, restarts and failed writes, no failure as described below: every log verifies with exactly the records that landed, and every process chains onto the head on disk. |
| AuditChain.ActKeepsAgreementIff | mcp/omarchy_hardware/audit.py:58-71 | One append or restart keeps every cache in agreement with the disk if and only if it is not a failed write of a process whose cache is keyed to the current end of another log with other records. |
| AuditChain.RunAgreesIff | mcp/omarchy_hardware/audit.py:46-71 | Over any run the caches agree with the disk after every step if and only if no step is such a failure. |
| AuditChain.OneLogIsAlwaysSteady | mcp/omarchy_hardware/audit.py:58-66 | With one log the condition of that theorem on failed writes always holds. |
| AuditChain.FailureElsewherePoisonsTheCache | mcp/omarchy_hardware/audit.py:60-62 | With two logs it is needed: after a failed write on one, the next record on the other verifies if and only if both held the same records. |
| AuditChain.PoisonedRunBreaks | mcp/omarchy_hardware/audit.py:106-129 | From empty logs, recording in one, failing in another and recording in the first again leaves it broken at its second line. |
| AuditChain.AppendVerifiesIff | mcp/omarchy_hardware/audit.py:120-126 | An append keeps an intact log intact if and only if nothing was torn and the fields are harmless. |
| AuditChain.TornWriteForksTheChain | mcp/omarchy_hardware/audit.py:96-100 | After a torn write and one more record, its writer chains onto a hash that is not on disk, everybody else onto the head before the tear, and the two differ. |
| AuditChain.BreaksAreNeverRepaired | mcp/omarchy_hardware/audit.py:96-100 | No append, however it ends, repairs or moves a reported break. |
| LineProtocol.Lp | mcp/omarchy_hardware/ming.py:449-454 | The replacing loop gives the escaped text, or refuses exactly what the text check refuses. |
| LineProtocol.ChainIsEscape | mcp/omarchy_hardware/ming.py:451-454 | Successive whole-string replaces equal one character-wise escape. |
| LineProtocol.TokenRoundTrip | mcp/omarchy_hardware/ming.py:449-454 | An escaped token is read back whole: no value can end it early. |
| LineProtocol.ValueRoundTrip | mcp/omarchy_hardware/ming.py:457-472 | Every printable field value is read back, and its text ends where it should. |
| LineProtocol.SortSorts | mcp/omarchy_hardware/ming.py:494-499 | Sorting a dict's items puts their keys in strictly increasing order. |
| LineProtocol.SortKeepsMap | mcp/omarchy_hardware/ming.py:494-499 | Sorting neither adds, drops nor changes an item. |
| LinePoints.AddTags | mcp/omarchy_hardware/ming.py:494-497 | The tag loop appends the specified text or refuses with the first fault. |
| LinePoints.AddFields | mcp/omarchy_hardware/ming.py:498-503 | The field loop and join give the specified text or the first fault. |
| LinePoints.BuildLine | mcp/omarchy_hardware/ming.py:475-508 | The whole function gives the specified line or refusal. |
| LinePoints.AcceptedIff | mcp/omarchy_hardware/ming.py:475-508 | A point is accepted if and only if names and texts are plain and not reserved, counts and timestamp in range and every value one that the format carries; a refusal names a fault the point has. |
| LinePoints.ParserUndoesPrinter | mcp/omarchy_hardware/ming.py:475-508 | A reference parser applied to the line returns exactly the point: measurement, tags, fields and timestamp. |
| LinePoints.LinesAreInjective | mcp/omarchy_hardware/ming.py:475-508 | Two accepted points with the same line are the same point. |
| LinePoints.OnePointOneLine | mcp/omarchy_hardware/ming.py:457-508 | An accepted point is one line: nothing in it can start another. |
| LinePoints.DictOrderIsIrrelevant | mcp/omarchy_hardware/ming.py:494-499 | The order in which dicts were filled changes neither line nor refusal. |
| FluxString.FluxChainIsEscape | mcp/omarchy_hardware/ming.py:226-229 | The three replaces equal one character-wise escape. |
| FluxString.FluxStringIsSafe | mcp/omarchy_hardware/ming.py:226-229 | The literal unescapes to its input, ends only at its own quote and holds no live quote or interpolation. |
| WebSocketWire.LengthRoundTrip | mcp/omarchy_hardware/ws_lite.py:143-148 | All three length forms are read back, with the mask bit. |
| WebSocketWire.UnmaskingUndoesMasking | mcp/omarchy_hardware/ws_lite.py:149-150 | Masking twice with one mask gives the payload back. |
| WebSocketWire.PeerRecovers | mcp/omarchy_hardware/ws_lite.py:140-154 | A peer of RFC 6455 recovers opcode and payload from every frame the client writes, and stops at its end. |
| WebSocketWire.FrameRoundTrip | mcp/omarchy_hardware/ws_lite.py:156-182 | An acceptable server frame in any length form is read back and the rest left alone. |
| WebSocketWire.LegalMessageIsReceived | mcp/omarchy_hardware/ws_lite.py:189-223 | Any legal frame sequence gives its concatenated fragments, with its pings answered in order. |
| WebSocketWire.FrameRefusedIff | mcp/omarchy_hardware/ws_lite.py:167-182 | A frame is refused if and only if it has reserved bits, a mask, more than 1048576 bytes, or is a control frame not final or over 125 bytes. |
| WebSocketWire.MisplacedFrameIsRefused | mcp/omarchy_hardware/ws_lite.py:189-223 | An unknown opcode, a message inside another, a continuation of nothing and a message over the limit end the reading as an error, the pings before answered. |
| WebSocketWire.CloseIsAnswered | mcp/omarchy_hardware/ws_lite.py:204-209 | A close at any point ends it, answered with its own status code. |
| WebSocketClient.Client.RecvExact | mcp/omarchy_hardware/ws_lite.py:94-107 | Bytes leave the buffer only when all of them are there. |
| WebSocketClient.Client.ReadRest | mcp/omarchy_hardware/ws_lite.py:167-182 | The rest of a frame, or an error: never a silent timeout. |
| WebSocketClient.Client.ReadOne | mcp/omarchy_hardware/ws_lite.py:156-165 | A frame returned is the one at the front; only a timeout before its header is harmless, and then nothing was consumed. |
| WebSocketClient.Client.SendFrame | mcp/omarchy_hardware/ws_lite.py:140-154 | The bytes on the wire stay exactly the frames sent whole, and what got out of those whose send failed. |
| WebSocketClient.Client.RecvText | mcp/omarchy_hardware/ws_lite.py:189-227 | A message is the one the stream holds, its answers sent in order; a `None` leaves the unread bytes at a frame boundary with no fragment open and nothing lost; on a flowing stream with time left a whole message is always returned. |
| WebSocketClient.PeerReadsEveryFrame | mcp/omarchy_hardware/ws_lite.py:140-154 | While sends succeed the peer reads back, in order, exactly the frames the client meant to send. |
| WebSocketClient.PeerReadsUpToFailure | mcp/omarchy_hardware/ws_lite.py:151-154 | Whatever fails later, and however much of it got out, the peer still reads every frame before it. |
| WebSocketRuns.WholeFrameIsRead | mcp/omarchy_hardware/ws_lite.py:156-182 | A frame that is all there is read from the stream, and what follows is left alone. |
| WebSocketRuns.StallInFrame | mcp/omarchy_hardware/ws_lite.py:156-182 | A stall after t bytes of a frame loses nothing if t is below 2, and is an error otherwise. |
| WebSocketRuns.RunDelivers | mcp/omarchy_hardware/ws_lite.py:189-227 | Over any number of calls, with stalls before or inside frame headers while no message has begun, the texts returned are the front of the messages sent, each once and in order, with `None` in between; as many calls as messages and stalls return all of them if no deadline passes. |
| WebSocketRuns.DeadlineEndsTheCall | mcp/omarchy_hardware/ws_lite.py:189-227 | A deadline that passes between frames returns `None` if no message has begun and is an error otherwise; what follows is not touched. |
| WebSocketRuns.FrameEndsTheCall | mcp/omarchy_hardware/ws_lite.py:189-227 | A close makes the call raise as closed, a misplaced frame as an error. |
| UploadRun.Upload.BeforeWrite | mcp/omarchy_hardware/server.py:1100-1112 | Port and budget in their order: a chip that must be asked is asked with the port let go, then the charge; otherwise the charge first and the port let go only when it is admitted. |
| UploadRun.Upload.UseSnapshot | mcp/omarchy_hardware/flash.py:483-496 | A write is tried exactly when the start was recorded. |
| UploadRun.Upload.WithSnapshot | mcp/omarchy_hardware/flash.py:233-249 | The private copy is removed, once, whatever happened, without disturbing that order; what comes out is the last exception let out. |
| UploadRun.Upload.NoteFinished | mcp/omarchy_hardware/flash.py:418-428 | The finishing record is attempted once, and an unwritable log becomes an error. |
| UploadRun.Upload.Finish | mcp/omarchy_hardware/flash.py:497-515 | What the caller is told agrees with the finishing record, after the copy is gone. |
| UploadRun.Upload.Flash | mcp/omarchy_hardware/flash.py:450-515 | Whatever raises, the steps follow the plan, what the caller is told agrees with the finishing record, and the result is the last exception let out or, without one, the uploader's return code. |
| UploadRun.Upload.Run | mcp/omarchy_hardware/server.py:1087-1165 | A session let go, and only such a one, is reopened exactly once and last; its id or the reason is in the reply if and only if only ToolErrors came out; the upload is journaled exactly if it worked and no foreign exception came out. |
| UploadRun.WritesAreGuarded | mcp/omarchy_hardware/flash.py:469-495 | No device write happens before the token check, the digest match, the admitted charge and the started record, in that order. |
| UploadRun.StartedIsFinishedOnce | mcp/omarchy_hardware/flash.py:497-515 | Every upload_started is followed by exactly one attempt at upload_finished. |
| UploadRun.ChargesComeLast | mcp/omarchy_hardware/server.py:1090-1112 | The budget is charged at most once and after every check passed: a refusal before spends nothing. |
| UploadRun.PortWaitsForTheCharge | mcp/omarchy_hardware/server.py:1087-1112 | With no chip to ask, nothing touches the port before the budget has admitted the upload. |
| UploadRun.RefusedChargeTouchesNothing | mcp/omarchy_hardware/server.py:1087-1112 | A refused charge then leaves port and session alone, and unless something raised after it exactly that refusal comes out. |
| UploadRun.ProbesAskFreePorts | mcp/omarchy_hardware/server.py:1103-1110 | A chip is asked only if it must be, and with a held session let go. |
| UploadRun.ChargesAskFirst | mcp/omarchy_hardware/server.py:1103-1111 | If it must be, it has been asked before anything is charged, whether or not it answered. |
| UploadRun.WriteHoldsNoSession | mcp/omarchy_hardware/server.py:1094-1137 | A held session is released before the write and reopened after it. |
| UploadRun.CopyIsRemovedOnce | mcp/omarchy_hardware/flash.py:233-249 | A copy that was tried is removed exactly once, after anything written or kept from it; the ELF is kept exactly after a write that worked, if it is to be. |
| UploadRun.JournalDropsTheSession | mcp/omarchy_hardware/server.py:1155-1165 | When only the journal raises, the write and the reopening worked and the caller gets the journal's exception instead of the session id. |
| RollingBudget.RollingBudget.Charge | mcp/omarchy_hardware/policy.py:442-457 | A charge is admitted if and only if what its window holds and it come to at most the limit; it is then stored behind the live events, and a refusal stores nothing; other targets keep theirs. |
| RollingBudget.KeepBudget | mcp/omarchy_hardware/server.py:84-94 | A new limit changes the running budget in place and forgets nothing. |
| RollingBudget.RunStoresAdmitted | mcp/omarchy_hardware/policy.py:442-457 | For any clock readings, what a budget remembers of a target is what pruning left of everything it admitted. |
| RollingBudget.PrunedDecidesAsFull | mcp/omarchy_hardware/policy.py:442-457 | With readings in order, limits edited at will and a difference that never shrinks as time goes on, every charge is decided as the full history of admissions would. |
| RollingBudget.OrderlyRunsKeepTheBook | mcp/omarchy_hardware/policy.py:442-457 | Such a run admits the very charges, under the very limits, of a budget that never forgets. |
| RollingBudget.ChargeDecidedAsFullIff | mcp/omarchy_hardware/policy.py:445-446 | For any readings, the run decides a charge as the full history of its admissions would, whatever the limit, if and only if nothing live has been pruned; it never refuses more. |
| RollingBudget.WindowsCappedIff | mcp/omarchy_hardware/policy.py:448-457 | For any readings and any rounding of their differences, every window around a charge stays within the limit, whatever it is, if and only if no window lost more than is counted outside it. |
| RollingBudget.EveryWindowIsBounded | mcp/omarchy_hardware/policy.py:448-457 | For any readings and any rounding, an interval holds at most the limit at its last admitted charge plus what that charge did not count of it. |
| RollingBudget.LateReadingOvershoots | mcp/omarchy_hardware/policy.py:443-444 | Readings out of order do let a run admit three units into a window limited to two, by a charge the full history refuses. |
| RollingBudget.EveryWindowIsCapped | mcp/omarchy_hardware/policy.py:448-457 | With readings in order, every interval whose length the rounded test covers admits at most the limit in force at its last admitted charge. |
| RollingBudget.MinuteIsSteady | mcp/omarchy_hardware/policy.py:445 | With doubles an event that has left the minute stays out of it as time goes on. |
| RollingBudget.MinuteCoversIff | mcp/omarchy_hardware/policy.py:445 | The minute of doubles covers exactly the lengths up to 2^-48 short of it. |
| RollingBudget.EdgeReadingOvershoots | mcp/omarchy_hardware/policy.py:445-456 | Two charges in order and less than a minute apart, each of the whole limit, are both admitted. |
| RollingBudget.TargetsAreIndependent | mcp/omarchy_hardware/policy.py:445-457 | A target fares as if it were alone. |
| RollingBudget.MemoryIsBounded | mcp/omarchy_hardware/policy.py:456-457 | With positive charges a stored list is never longer than the largest limit used. |
| Bridge.Bridge.Send | mcp/omarchy_hardware/bridge.py:118-133 | One send: ignored once stopped, dropped by the budget, or exactly one publish whose end is remembered, a failure's message behind the last four. |
| Bridge.Bridge.Offer | mcp/omarchy_hardware/bridge.py:135-152 | One reading: sized, sent if the interval is over, else it replaces the pending one, which is counted as dropped. |
| Bridge.NewestWaits | mcp/omarchy_hardware/bridge.py:148-152 | The newest reading waits and the one it replaces is dropped and counted. |
| Bridge.Bridge.Turn | mcp/omarchy_hardware/bridge.py:156-172 | One turn ends the bridge if and only if it meets a stop, the deadline or a closed session. Meeting neither stop nor deadline it settles the pending reading if the clock is an interval past the last attempt, leaves it alone if not, and then listens once, a match being offered. It keeps the accounting invariant and never changes a settled fate. |
| Bridge.Bridge.Run | mcp/omarchy_hardware/bridge.py:154-174 | So does every run; every turn but one that ends it listens once, and one that ends by itself has stopped. |
| Bridge.SendHolds | mcp/omarchy_hardware/bridge.py:118-133 | A send keeps the invariant: counters, fates, deliveries and spacing. |
| Bridge.OfferHolds | mcp/omarchy_hardware/bridge.py:135-152 | So does an offer. |
| Bridge.EveryReadingIsAccountedFor | mcp/omarchy_hardware/bridge.py:118-152 | Readings offered are published, failed, dropped for rate, budget or size, ignored (only while stopping), or the one pending. |
| Bridge.DeliveriesAreReadings | mcp/omarchy_hardware/bridge.py:126-128 | The broker is handed only texts that were read, and no reading twice. |
| Bridge.AttemptsAreSpaced | mcp/omarchy_hardware/bridge.py:118-133 | Any two publish attempts are at least the interval apart. |
| Bridge.NoAttemptAfterStop | mcp/omarchy_hardware/bridge.py:118-121 | No attempt, be it the only one, comes from a send entered after a stop. |
| Wiring.PinLookup | mcp/omarchy_hardware/wiring.py:109-121 | The loops build the specified name table. |
| Wiring.FirstClaimWins | mcp/omarchy_hardware/wiring.py:110-121 | A name means the first pin that claims it. |
| WiringFindings.KnownNamesAre | mcp/omarchy_hardware/wiring.py:109-121 | A name is known, whatever its case, if and only if it is a pin's own, its place, the chip's name for it, a supply or the ground. |
| Wiring.WireErrors | mcp/omarchy_hardware/wiring.py:137-212 | A wire draws an error if and only if it is not safe: pin, reservation, supply, capability, voltage, load and current. |
| Wiring.PinErrors | mcp/omarchy_hardware/wiring.py:217-222 | A pin draws an error if and only if two of its wires do not go together. |
| Wiring.SharingErrors | mcp/omarchy_hardware/wiring.py:217-222 | Some pin draws an error if and only if two wires of the plan share a pin in different or unshareable roles. |
| Wiring.LineErrors | mcp/omarchy_hardware/wiring.py:224-229 | The bus draws an error if and only if it has one I2C line and not the other. |
| Wiring.AddressErrors | mcp/omarchy_hardware/wiring.py:233-240 | An address draws an error if and only if two parts on the bus have it. |
| Wiring.Check | mcp/omarchy_hardware/wiring.py:124-247 | The loops over wires, pins and addresses produce the specified report, the total added up in the order of the connections. |
| Wiring.VerdictIsExact | mcp/omarchy_hardware/wiring.py:242-245 | The verdict is not `fail` if and only if the plan is safe, its rounded total included. |
| WiringFindings.WireFindingsAre | mcp/omarchy_hardware/wiring.py:137-212 | A wire draws a finding, error, warning or note, if and only if the condition of exactly that finding holds of wire, pin and board. |
| WiringFindings.WarningsAndNotesAre | mcp/omarchy_hardware/wiring.py:137-232 | The warnings and notes of a plan are those its wires draw, and one about pull-ups if and only if the bus has wires and none says it has them. |
| WiringFindings.VerdictAndCounts | mcp/omarchy_hardware/wiring.py:242-246 | The counts are those of the findings returned; `pass` is a safe plan without a warning, `fail` an unsafe one, `check` the rest. |
| Wiring.ReportKeepsOrderIff | mcp/omarchy_hardware/wiring.py:214-247 | Reordering the connections keeps verdict and counts if and only if both totals are on the same side of the limit, and the findings if and only if totals over it are besides equal. |
| Wiring.WholeCurrentsIgnoreOrder | mcp/omarchy_hardware/wiring.py:206-215 | With whole milliamperes, at most 80 connections of at most 5000, and an addition exact on whole numbers, the order changes nothing. |
| WiringSums.DoublesAddWhole | mcp/omarchy_hardware/wiring.py:206 | Addition rounded to 53 bits is exact on those whole numbers. |
| WiringSums.OrderCanDecideTheVerdict | mcp/omarchy_hardware/wiring.py:206-215 | The same six connections on a Pico pass in one order, adding up to exactly 50 mA, and fail in another. |
| Wiring.SortIsStable | mcp/omarchy_hardware/wiring.py:242-243 | The findings returned are a permutation of those raised, most severe first and otherwise in the order raised. |
| Arrivals.ScanKeysLoop | BoardsModel.js:183-204 | The loops compute the specified keys. |
| Arrivals.SameKeyIff | BoardsModel.js:174-177 | Without bars in them, two boards have one plain key if and only if kind and serial number agree and, without a serial number, the port. |
| Arrivals.CleanPortsHaveDistinctKeys | BoardsModel.js:179-204 | On clean ports every board of a scan has a key of its own, for any known set. |
| Arrivals.ClashingPortsCollide | BoardsModel.js:174-204 | Any two ports that clash get one key in some scan of boards on distinct ports. |
| Arrivals.OrdinaryPortsAreClean | BoardsModel.js:160-162 | Distinct non-empty ports without a bar are clean. |
| Arrivals.OneTwinIsPlain | BoardsModel.js:179-182 | Unless every twin is tracked under its port, one of them keeps the plain key. |
| Arrivals.TrackLoop | BoardsModel.js:212-232 | The loops over the map and the scan compute the specified map and arrivals. |
| Arrivals.Panel.TrackArrivals | Panel.qml:103-112 | The panel carries map, primed flag and time of the last good scan from scan to scan. |
| Arrivals.MapIsWindow | BoardsModel.js:215-218 | In any run the pruned map holds exactly the keys seen within the window. |
| Arrivals.AnnouncedIffKeyNew | BoardsModel.js:206-232 | On clean ports, twins included, a board is announced if and only if the scan is primed, its port and type pass and no scan within the window used its key. |
| Arrivals.AnnouncedIffNew | BoardsModel.js:206-232 | With unique identities: if and only if, besides, no scan within the window saw the board. |
| Arrivals.PortPatternIff | BoardsModel.js:160-162 | The ports announced are `/dev/ttyACM` or `/dev/ttyUSB` and one to three figures. |
| Base64.EncodeRoundTrip | mcp/omarchy_hardware/micropython.py:154 | Decoding undoes encoding. |
| Base64.DecodeRoundTrip | mcp/omarchy_hardware/micropython.py:159 | Encoding undoes decoding: no two texts decode alike. |
| Base64.EncodingIsPlain | mcp/omarchy_hardware/micropython.py:154 | Only digits of the alphabet and padding come out. |
| Base64.EncodingIsStandard | mcp/omarchy_hardware/micropython.py:154 | Three bytes at a time as one number of 24 bits give four digits of table 1 of RFC 4648; one or two left over are filled with zero bits and padded. |
| FilePut.PutPrograms | mcp/omarchy_hardware/micropython.py:146-163 | One program per chunk, or a refusal, naming which, exactly for a file too large or a path not plain. |
| FilePut.ReadUndoesText | mcp/omarchy_hardware/micropython.py:156-162 | The board reads back the very path, mode and bytes: no content ends its literal early. |
| FilePut.ProgramsAreSendable | mcp/omarchy_hardware/micropython.py:40-43 | No program for a checked path holds a character the raw REPL would take as a command. |
| FilePut.CheckedPathIsPlain | mcp/omarchy_hardware/micropython.py:39-51 | An accepted path has only path characters, and no quote. |
| FilePut.CheckPathIff | mcp/omarchy_hardware/micropython.py:46-51 | A path is accepted if and only if it is the root or at most 128 path characters with single slashes between names, perhaps one in front, no name being two dots. |
| FilePut.FirstProgramsWritePrefix | mcp/omarchy_hardware/micropython.py:151-162 | After k programs the file holds exactly the first min(k * PUT_CHUNK, length) bytes, and no other file has changed. |
| FilePut.ProgramsWriteContent | mcp/omarchy_hardware/micropython.py:146-163 | All programs leave exactly the content, down to the empty file. |
| FilePut.SizeIsExpected | mcp/omarchy_hardware/server.py:922-925 | The size each program prints is the one the caller expects. |
| FilePut.Board.WriteOne | mcp/omarchy_hardware/server.py:922-928 | The size printed is the expected one only if the whole chunk is in the file, even on a board that writes short and says nothing. |
| FilePut.Board.WriteAll | mcp/omarchy_hardware/server.py:920-928 | Success means the content is on the board, whatever it drops silently; when it stops after k chunks the file is a prefix of the content with at least those; a working board never stops it. |
| FilePut.Board.Put | mcp/omarchy_hardware/server.py:906-932 | The same for the whole call, refusals included: they change nothing. |

## Left out

- Sockets, TLS, the HTTP upgrade of the WebSocket client, subprocesses, USB scans, the file system: an oracle or a script stands for each.
- JSON, UTF-8 and float formatting: tokens. A float field value is any non-empty text over the characters of a float's repr; a topic is its bytes with a predicate for valid UTF-8; an audit record is its map of fields.
- `str.isprintable` is a parameter of the line printer, of which only the treatment of line breaks is assumed; upper-casing of pin names and the path pattern are modelled on ASCII.
- `read` and `expect` that do not get the query lock in time: they return nothing and touch no byte.
- `expect` hands its matcher the line decoded and stripped, and returns the last lines as context; both are left out.
- `expect` with a matcher that raises: the line it was given is consumed and the exception leaves the loop, which the run theorem does not describe.
- `transaction`: nested acquisition of the query lock by one thread is modelled only inside `query`.
- Bytes still in the reader's hand when it fails are accounted for as held, never as delivered.
- The audit file is a sequence of classified lines, with at most one unterminated fragment at its end; bytes inside a line and `fsync` are not modelled, and the time, event and pid of a record are its base, given.
- MqttDelivery.PublishSucceedsIff: says nothing about messages read while it waits for the acknowledgement, because the code drops them.
- MqttDelivery.ListenDelivers: is about streams whose stalls fall between packets; after a stall inside one the code goes on in the middle of it.
- Keepalive timing of `collect`: a ping may be due or not at any turn.
- QoS 2 of MQTT beyond the parsing of a PUBLISH, CONNECT and DISCONNECT.
- WebSocketClient.Client.RecvText: an error leaves the connection unusable, and nothing is said about it afterwards; text decoding is left out.
- WebSocketRuns.RunDelivers: is about sends that succeed and stalls that `recv_text` survives; a stall later in a frame or between the frames of a message ends the connection with an error.
- UploadRun.Upload.Run: starts where the port can first be released; the checks before (confirmation, board identity, fingerprint) are left out, and so are exceptions that Python does not count as `Exception`.
- UploadRun.StartedIsFinishedOnce: a start whose line reached the disk although recording it failed is not counted as started.
- RollingBudget.EveryWindowIsCapped: needs clock readings in order per target and an interval the rounded test covers, because the code is wrong without; for any readings and intervals see `EveryWindowIsBounded`. Clock readings are exact values of doubles; only their difference is rounded.
- Bridge.Bridge.Run: covers any number of turns of the loop, not its termination; the order of publications is not claimed, since a newer reading may overtake the pending one; the tail of last lines is left out.
- The bridge registry, and at most one bridge per port.
- WiringFindings.WarningsAndNotesAre: leaves the errors of a plan to `Wiring.VerdictIsExact` and its parts, which say when there is one, not which parts or roles its message lists.
- Wiring: numbers are the exact values of doubles and the machine's addition is a function of the profile; the text of a message, where a total is printed to six digits, is left out, and so are parsing and range checks of the connection list.
- WiringSums.DoublesAddWhole: the rounding of `Doubles` leaves results below 1 as they are; no sum in the wiring lemmas is that small, and no such difference of times rounds up to a minute.
- Arrivals.AnnouncedIffNew: assumes a clock that never runs back and a fixed grace window; the number of milliseconds is unbounded.
- FilePut: the raw REPL's own exchange is a run that works, breaks off or raises; the byte budget and the audit records around the write are left out.
- Modbus addressing, profile tables, configuration validation and the journal: table look-ups, or covered by proofs the repository already has.
