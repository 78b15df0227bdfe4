# VLYNESS: a model of its stateful cores and proofs about them

VLYNESS is a tunnelling proxy. Between its sockets it has several state machines whose logic needs
no I/O, and its safety rests on them:

* the **session**: events of a multiplexer are cut to sampled lengths, padded, sealed under a nonce
  counter and written as records, with the outgoing key replaced in band; the other side parses,
  opens and follows (`Address`, `Frame`, `Noise`, `Session`, `SessionWire`, `SessionRuns`);
* **admission**: any number of HTTP/2 connections share one bounded anti-replay cache and start
  sessions in three modes, two of them paired by an identifier in the path (`Auth`, `ReplayGuard`,
  `Admission`, `AdmissionRuns`, `Pairing`, `Segments`);
* the **packet-up pipe**: writes become numbered POSTs, each verified again on arrival among all other
  requests, and are put back in order (`PacketPipe`, `PacketPosts`) to carry a session
  (`SessionOverPipe`);
* the **relay**: tasks, queues and a registry of streams (`Relay`, `RelaySinks`, `RelayRuns`,
  `RelayScripts`), and the same on the session and the datagram channel themselves (`Stack`);
* the **datagram channel** and its 64-bit sliding window (`ReplayWindow`, `DatagramChannel`);
* the **connection discipline**: backoff, budget, blackhole detector and freeze controller under one
  manager (`Discipline`, `DisciplineRuns`, `DisciplineAnswers`);
* the **carrier pool** (`Pool`), the **DNS-over-HTTPS codec** (`Doh`, `DohMessage`) and the
  **Kolmogorov-Smirnov merge** (`KsStatistic`).

`Prelude` holds what they share.

## How it is modelled

Objects the program updates in place are classes; their methods follow the program's branches and
are tied by their contracts to functions on values of the state. The laws are lemmas about those
functions; the table has a row for a method where its contract says more than which function it is.
Whole-run laws are about transition systems: a run is a list of steps from the start, `Reachable`
says which states runs lead to, one lemma says that each step keeps an invariant, and the theorem
draws the consequence for every run. Where a run keeps a log, what the object does next is stated as an
exact law on the log alone, so the functions the methods are tied to have to agree with it.

Cryptography is ideal. A sealed record or datagram names the key, the nonce and the plaintext, and
opens under exactly those; records travel on a stream of symbols that are either plain bytes or
pieces of such a ciphertext. A MAC tag names the key, epoch, salt and nonce it was computed for.

What the program gets from outside is a parameter or an arbitrary choice: readings of the clock,
random numbers (any number within the range asked for), the sampler's target lengths (any sequence),
what the network loses, repeats, reorders or invents, whether a socket connects, how much it writes,
and whether an HTTP response can be sent.

## What turned out conditional

* The bounded replay cache equals one that never forgets, and a token starts at most one session,
  under two hypotheses about the clock, which is a wall clock: it does not go back, and no reading
  passes between a request's verification and its turn at the guard, whose lock is taken only after
  the epoch was read. Both are one number here, the lag: how many epochs a request's reading may be
  behind the highest reading before it. A guard that keeps `keep` epochs is right on all runs if and
  only if `keep` is at least `ReplayGuard.Needed`: 3 plus the lag for a clock that starts at epoch 1
  or later, one more from epoch 0, and less only where the clock runs out
  (`ReplayGuard.BoundedEqualsUnboundedIff`, `AdmissionRuns.OneSessionIff`). For the three epochs the
  code keeps that is: the clock starts at epoch 1 or later and the lag is 0, or it starts at the
  last epoch there is (`AdmissionRuns.OneSessionOfThreeIff`). One late reading is enough to start a second session
  (`AdmissionRuns.LateReadingReplays`); so is a clock at epoch 0, where verification casts -1 to the
  largest 64-bit number, which then keeps a slot for good.
* Nothing flushed into the packet-up pipe is missing if and only if every chunk had a POST that was
  verified within an hour of the token's own epoch while the session was open
  (`PacketPosts.CompleteIffTimely`). It is open until its connection ends or, before its first POST is
  accepted, a verified packet of another token or a second half of its own under the same identifier
  takes the waiting download away (`PacketPosts.OpenUntilTaken`). A late POST is answered like a stranger's,
  the client takes the answer for success, and once the token has expired its chunk is lost for good
  (`PacketPosts.LostForGood`; `PacketPosts.LatePostLosesItsChunk` is such a run).
* Streams of a relay are isolated exactly as long as at most 32768 were opened; the next one reuses
  an id (`RelayRuns.IsolationIffDistinctIds`).
* The backoff ceiling is min(cap, base * 2^n) for every n exactly when the base is not 1 ms or the
  cap is at most 2^63 (`Discipline.CeilingExactIff`). The pool's cooldown is min(1 h, base * 2^(n-1))
  exactly when the base is 0 or at least 55 ms (`Pool.CooldownExactIff`).
* A SOCKS UDP header parses back exactly when its domain is at most 255 bytes long
  (`Address.UdpHeaderRoundTrip`).
* A datagram reaches its UDP target unless it comes out of the native channel before the stream's Open is
  dispatched, or never does (`RelayRuns.DatagramsAccounted`).
* A shaped record of target t whose headers and data are l bytes long meets its target if and only if
  l <= t where t is at most 65519, and l = t where it is more; so always for targets from 8 to 65519
  (`Session.ShapedLengthsMeetTargets`).

Where comments and code disagree the code is modelled. The comment on the KS statistic says that 1
means samples that do not intersect; it is 1 if and only if one sample lies wholly below the other
(`KsStatistic.DistanceOne`). The comment on the replay cache says that three epochs cover the window
of acceptance; they cover it for readings that arrive in order. The DNS name skipper is described as
reading labels or a pointer; it also takes the reserved lengths 64 to 191 for labels
(`DohMessage.SkipsAnyLabel`). The scripted
jitter beside the clock in `crates/vlyness-discipline/src/clock.rs` can answer its bound itself,
which the trait's comment rules out; the comment is the contract here.

## Model

| member | source | states |
|---|---|---|
| SessionRuns.EndToEnd | crates/vlyness-transport/src/session.rs:233-375 | for every list of events, every plan, padding and interval, every refusal of a packet too long, every break of the byte stream, and every interleaving of the two writers and two readers on the shared transports: no reader fails, what is received begins a split of what was submitted and is a whole split once nothing is queued or in flight, each stream's bytes and all other events keep their order, and both chains agree at every record boundary of an unbroken stream; a refused event, and one at which the stream broke, counts as the part of it that was sealed |
| SessionRuns.EveryRunInStep | crates/vlyness-transport/src/session.rs:267-282 | in every run each direction's key generation and nonce are those of the boundary its side has reached, less a replacement still owed after a Rekey record; a sender whose stream broke seals no more |
| SessionRuns.SplitsKeepStreams | crates/vlyness-transport/src/session.rs:346-357 | splitting changes neither the bytes of any stream nor the sequence of events that are not Data |
| SessionRuns.DirectionDelivers | crates/vlyness-transport/src/session.rs:267-282 | the invariant of a direction implies delivery: a prefix always, everything when drained, equal chains, and whatever is in flight opens |
| SessionRuns.DropKeeps | crates/vlyness-transport/src/session.rs:337-339 | giving up an event at a packet that cannot be sealed or written leaves a split of what was sealed, and the chain where the log is |
| SessionRuns.WriterStepsSendPadded | crates/vlyness-transport/src/session.rs:316-328 | the interleaved writer steps leave the log, chain and count that one padded send leaves |
| SessionRuns.ReaderStepsReceive | crates/vlyness-transport/src/session.rs:267-282 | the interleaved reader steps are one turn of the receiving loop |
| SessionRuns.NeverStuck | crates/vlyness-transport/src/session.rs:267-282 | whatever is in flight can be opened and whatever is owed done, and on an unbroken stream whatever is queued sealed or, if too long, refused |
| SessionRuns.RekeysOnTime | crates/vlyness-transport/src/session.rs:322-328 | in every run a record of either side is a Rekey if and only if the interval's number of others was sealed since the last one, so no key seals more |
| SessionWire.ReceivesNextFrame | crates/vlyness-transport/src/session.rs:267-282 | from any record boundary of a sender's log the receiver returns exactly the next frame that is not a Rekey and ends at the boundary after it with the sender's key and nonce |
| SessionWire.NextRecordOpens | crates/vlyness-transport/src/session.rs:316-322 | the next record opens to the frame sealed under the chain of its boundary and breaks under every other chain |
| SessionWire.SessionWriter.SendEvent | crates/vlyness-transport/src/session.rs:330-344 | what was sealed is the event's split, or begins one when refused; accepted if and only if every record planned for it can be sealed, so always with targets that fit or Data that fits whole |
| SessionWire.SessionWriter.SendStreamData | crates/vlyness-transport/src/session.rs:349-357 | a block of any size is always accepted and arrives as a split of itself; without a sampler every piece but the last is a whole chunk |
| SessionWire.SessionWriter.SendPadded | crates/vlyness-transport/src/session.rs:316-328 | seals one packet, and when the interval is reached a Rekey record under the old key before the key is replaced; an oversized packet sends nothing |
| SessionWire.SessionWriter.SendPlan | crates/vlyness-transport/src/session.rs:337-339 | sends a plan's packets in order up to the first that cannot be sealed |
| SessionWire.SessionWriter.RekeyOutgoing | crates/vlyness-transport/src/session.rs:369-374 | adds one Rekey record, changes no event sent, starts the count again |
| SessionWire.SessionWriter.SealAndWrite | crates/vlyness-transport/src/session.rs:359-367 | the stream written stays the wire image of the log, the chain steps once per record, refusal exactly for plaintexts over the limit |
| SessionWire.SessionReader.RecvFrame | crates/vlyness-transport/src/session.rs:267-282 | the loop over records computes the receive function: rekeys followed, never returned |
| SessionWire.ShapedIsPlan | crates/vlyness-transport/src/session.rs:65-89 | the shaper's records carry exactly the pieces of one Data event |
| Session.PlanShapedRecords | crates/vlyness-transport/src/session.rs:65-89 | terminates for every data and target sequence with the one plan whose records but the last are full; the records' data concatenate to the input, at least one record, exactly one for no data, each padded to its target within one record's limit |
| Session.PlannedIsFull | crates/vlyness-transport/src/session.rs:65-89 | every record but the last carries exactly as many bytes as its target has room for after the headers, one at least |
| Session.ShapedLengthsMeetTargets | crates/vlyness-transport/src/session.rs:75-82 | each plaintext is its target long if and only if its headers and data are at most the target, or exactly the target where that is over one record's limit; so whenever the target is 8 to 65519. It is sealable if and only if the data fit one record, so whenever the target does |
| Session.ChoosePad | crates/vlyness-transport/src/session.rs:48-56 | pads to the drawn target but never past one record, and not at all without a sampler |
| Noise.OpensExactlySealed | crates/vlyness-core/src/noise.rs:169-196 | a ciphertext opens under the key and nonce it was sealed with and no other |
| Noise.Transport.Seal | crates/vlyness-core/src/noise.rs:169-177 | seals under the outgoing chain and advances its nonce; refuses plaintexts over 65519 bytes without advancing |
| Noise.Transport.Open | crates/vlyness-core/src/noise.rs:180-187 | advances the incoming nonce exactly when the ciphertext opens |
| Noise.Transport.RekeyOutgoing | crates/vlyness-core/src/noise.rs:189-191 | replaces the outgoing key and keeps its nonce |
| Noise.Transport.RekeyIncoming | crates/vlyness-core/src/noise.rs:194-196 | replaces the incoming key and keeps its nonce |
| Noise.WriteRecord | crates/vlyness-transport/src/record.rs:17-30 | appends the length and the body, or nothing when the body does not fit 16 bits |
| Noise.RecordRoundTrip | crates/vlyness-transport/src/record.rs:17-43 | a record is read back with exactly what follows it, and no proper prefix of it is read as one |
| Frame.Encode | crates/vlyness-core/src/frame.rs:105-119 | header, payload and zero padding, or an error exactly for payloads over 65535 bytes |
| Frame.DecodesExactlyImages | crates/vlyness-core/src/frame.rs:105-136 | a buffer decodes to a frame if and only if it is an image of it for some padding |
| Frame.WrongLengthIsTold | crates/vlyness-core/src/frame.rs:121-136 | an image cut short anywhere, or with bytes after it, is an error that tells both lengths, or the one it has when it holds no header |
| Frame.EventRoundTrip | crates/vlyness-transport/src/mux.rs:43-97 | every event survives its frame, and none travels as a Rekey |
| Frame.ReadsExactlyEvents | crates/vlyness-transport/src/mux.rs:71-97 | a frame is read as an event if and only if it is the event's own, but for bytes after a Close's id or in a KeepAlive, which are not looked at |
| Address.Encode | crates/vlyness-core/src/address.rs:88-113 | the wire form, or the error exactly for domains over 255 bytes |
| Address.Decode | crates/vlyness-core/src/address.rs:117-147 | the cursor-driven decoder computes the parse function, errors included |
| Address.DecodeAddr | crates/vlyness-core/src/address.rs:128-143 | the address alone: each kind's length and error, and no bytes after it |
| Address.Cursor.Take | crates/vlyness-core/src/address.rs:157-164 | the next bytes, or an error naming the field exactly when too few are left |
| Address.AddressBijection | crates/vlyness-core/src/address.rs:88-147 | a buffer parses to a frame if and only if the frame is encodable and the buffer is its wire form |
| Address.CutNamesItsField | crates/vlyness-core/src/address.rs:117-164 | a frame cut short at any byte is an error that names the field the byte belongs to |
| Address.ExtraIsTrailing | crates/vlyness-core/src/address.rs:144-147 | bytes after a frame are an error that counts them |
| Address.BadFieldIsNamed | crates/vlyness-core/src/address.rs:119-139 | a wrong command, address type or domain text is told as such if and only if it is one |
| Address.UdpHeaderRoundTrip | crates/vlyness-node/src/socks.rs:120-175 | a built header parses back with the offset exactly at the data if and only if the domain is at most 255 bytes |
| Address.UdpHeaderExact | crates/vlyness-node/src/socks.rs:120-157 | a datagram parses to a target, a port and an offset if and only if it begins with the header built for them and the offset is its length; reserved bytes or a fragment number never parse |
| AdmissionRuns.AtMostOneSession | crates/vlyness-carrier/src/http.rs:449-575 | in every run of any number of connections on one guard that keeps enough epochs for the lag of their readings, each token starts at most one session, each session is backed by exactly one fresh observation, and an assembler only gets packets with its own token |
| AdmissionRuns.EveryRunIsSafe | crates/vlyness-carrier/src/http.rs:449-575 | every waiting half and session holds a token answered fresh and held nowhere else; the guard remembers all that some reading still to come may accept |
| AdmissionRuns.TriedKeeps | crates/vlyness-carrier/src/http.rs:605-609 | a key that does not let its request through keeps the invariant as a step of its own, so other requests may take the guard's lock between two keys |
| AdmissionRuns.OneSessionIff | crates/vlyness-carrier/src/http.rs:582-611 | one session per token holds in all runs from a first reading with a given lag if and only if the guard keeps as many epochs as can be acceptable at once |
| AdmissionRuns.OneSessionOfThreeIff | crates/vlyness-core/src/replay.rs:43-48 | with the code's three epochs: if and only if the clock starts at epoch 1 or later and no reading is behind, or the clock cannot advance |
| AdmissionRuns.LateReadingReplays | crates/vlyness-carrier/src/http.rs:588-591 | a run from epoch 2 in which one reading an epoch late lets a token start a second session |
| AdmissionRuns.FloodReplays | crates/vlyness-core/src/auth.rs:196-207 | for every setting with fewer epochs kept, epoch 0 included, a run in which one token starts two sessions |
| Admission.Connection.Handle | crates/vlyness-carrier/src/http.rs:464-572 | one request's effect on the halves, the assemblers and the guard, and its outcome, in all three modes; a response that cannot be sent ends the connection, after the session a first packet starts |
| Admission.Connection.HandleStreamOne | crates/vlyness-carrier/src/http.rs:470-480 | a session on a fresh token whose response goes out, the honest site for anyone else |
| Admission.Connection.HandlePacket | crates/vlyness-carrier/src/http.rs:494-544 | a numbered packet joins the session of its token or starts it on a waiting download; a foreign token never does, and a packet whose response cannot be sent is not delivered |
| Admission.Connection.HandleSecond | crates/vlyness-carrier/src/http.rs:546-556 | a second half pairs only with the same token, the other direction and a response that goes out |
| Admission.Authorize | crates/vlyness-carrier/src/http.rs:582-597 | answers the token exactly when it verifies and the guard has not seen it |
| Admission.AuthorizeAny | crates/vlyness-carrier/src/http.rs:600-611 | trying every key at its own reading asks about the one epoch of the first key and reading that verify, and once refused no later key or reading lets the token through, with the guard undisturbed in between; AdmissionRuns lets other requests in between the keys |
| Admission.ReplayChangesNothing | crates/vlyness-core/src/replay.rs:31-48 | observing a pair again leaves a pruned guard as it was |
| Admission.Connection.ServeFallback | crates/vlyness-carrier/src/http.rs:383-392 | the honest site, or the end of the connection with all its halves when the response cannot be sent |
| Pairing.SessionStartsIff | crates/vlyness-carrier/src/http.rs:464-572 | a request starts a session, its own token's, if and only if it is a fresh stream-one request, the opposite half of a waiting one of its token, or the first packet on a waiting download of its token; the first two only if the response goes out |
| Pairing.PairStartsIff | crates/vlyness-carrier/src/http.rs:331-340 | a verified second half of a waiting half's token starts the session if and only if the two point opposite ways and the response goes out; two of one way are discarded |
| Pairing.WaitsIff | crates/vlyness-carrier/src/http.rs:546-571 | a half waits after a request if and only if the response went out and it waited before and was not taken, or it is the request's own fresh first half, in its own direction |
| Pairing.PacketsIff | crates/vlyness-carrier/src/http.rs:494-544 | a packet is brought to a session if and only if it verifies, is the session's own and its response goes out |
| Pairing.OnlyItsConnection | crates/vlyness-carrier/src/http.rs:430-436 | a request changes no other connection, and a response that cannot be sent ends its own |
| Pairing.StrangersFallBack | crates/vlyness-carrier/src/http.rs:464-493 | a request that does not verify, or is for the site, gets the honest site and changes nothing, or ends its connection |
| Pairing.FallbackIff | crates/vlyness-carrier/src/http.rs:464-572 | the honest site is served if and only if the response goes out and the request is no part of a session |
| Segments.ParsesExactlySpellings | crates/vlyness-carrier/src/http.rs:344-361 | a path parses to an identifier and a direction if and only if it is the base, a non-empty identifier without a slash and a spelling of the direction, under the direction's method |
| Segments.ClientPathsParse | crates/vlyness-carrier/src/http.rs:218-226 | the paths the client builds, packet numbers included, parse to what it meant |
| Auth.Verify | crates/vlyness-core/src/auth.rs:196-207 | answers an accepted epoch for which the token was built under the key, or none when there is none |
| Auth.WindowIsThreeHours | crates/vlyness-core/src/auth.rs:196-203 | the accepted epochs are now - 1 to now + 1, except at epoch 0, where the largest 64-bit number takes the place of -1 |
| Auth.VerifiesForOneKeyAndEpoch | crates/vlyness-core/src/auth.rs:185-207 | a token verifies under at most one key and one epoch, whenever it is tried |
| ReplayGuard.ReplayGuard.Observe | crates/vlyness-core/src/replay.rs:31-36 | fresh exactly when the pair is not in the window; the window gains it and keeps its newest three epochs |
| ReplayGuard.ReplayGuard.Prune | crates/vlyness-core/src/replay.rs:43-48 | keeps the newest three epochs with all their nonces and drops only older ones |
| ReplayGuard.BoundedEqualsUnbounded | crates/vlyness-core/src/replay.rs:31-48 | a guard that keeps as many epochs as can be acceptable at once answers every verified request as a guard that never forgets |
| ReplayGuard.BoundedEqualsUnboundedIff | crates/vlyness-core/src/replay.rs:31-48 | for every first reading, lag and number of epochs kept: that equality holds on all runs if and only if 3 plus the lag are kept, from epoch 0 one more, capped where the clock ends |
| ReplayGuard.ThreeEpochsIff | crates/vlyness-core/src/replay.rs:15-17 | three are enough if and only if the clock starts at epoch 1 or later and no reading is behind, or it cannot advance |
| ReplayGuard.DropsOnlyExpired | crates/vlyness-core/src/replay.rs:43-48 | what pruning drops no reading still to come accepts |
| ReplayGuard.AcceptedOnce | crates/vlyness-core/src/replay.rs:31-48 | accepted pairs of epoch and nonce are then pairwise distinct over the whole run |
| ReplayGuard.FewerForget | crates/vlyness-core/src/replay.rs:43-48 | for every setting with fewer epochs kept, a run in which a pair is forgotten while still acceptable |
| ReplayGuard.LateReadingForgets | crates/vlyness-carrier/src/http.rs:588-591 | the readings 2, 2, 2, 3, 2 with the epochs 1, 2, 3, 4, 1 make three epochs forget |
| PacketPipe.ReadsWhatWasFlushed | crates/vlyness-carrier/src/http.rs:218-245 | for all writes, flushes, completion orders, losses, repetitions and read sizes the bytes read are a prefix of the bytes flushed, and nothing is missing if and only if every POST has arrived |
| PacketPosts.CompleteIffTimely | crates/vlyness-carrier/src/http.rs:477-545 | among any other requests on its own and other connections, with every POST verified again on arrival: the bytes read end before the first chunk that had no timely POST, and with all accepted bodies read nothing is missing if and only if every chunk had one |
| PacketPosts.AcceptedIffTimely | crates/vlyness-carrier/src/http.rs:477-535 | a POST of the session is accepted if and only if the session is open, its response goes out and its token verifies at one of its readings |
| PacketPosts.OpenUntilTaken | crates/vlyness-carrier/src/http.rs:494-556 | any request leaves the session open unless it ends the connection or, before the first POST is accepted, is a verified packet of another token or a second half under its identifier; nothing opens it again |
| PacketPosts.TimelyWithinAnHour | crates/vlyness-core/src/auth.rs:196-207 | for a POST of an open session that is: if the token's own key is tried at most one epoch before or after the token's |
| PacketPosts.LostForGood | crates/vlyness-carrier/src/http.rs:477-535 | once no reading still to come accepts the token, a chunk without a timely POST is served in no continuation, and the bytes read end before it for ever |
| PacketPosts.LatePostLosesItsChunk | crates/vlyness-carrier/src/http.rs:477-535 | a run in which the one chunk's POST comes two epochs after the token's and is lost with the session still open |
| SessionOverPipe.EndToEnd | crates/vlyness-carrier/src/h2bridge.rs:87-219 | a session carried by the packet-up pipe, for every interleaving of both and every order and loss of POSTs: what the server received begins a split of what the client submitted, and is a whole one once everything is sealed, flushed, arrived and read; the other direction delivers as before |
| SessionOverPipe.EveryRunInStep | crates/vlyness-carrier/src/h2bridge.rs:87-219 | what the session has in flight is at all times what was written into the pipe and not read from it, and both keep their own invariants |
| SessionOverPipe.OpensAlike | crates/vlyness-transport/src/record.rs:33-43 | the beginning of a stream that has arrived either lacks the rest of its first record or opens to the same frame as the whole stream |
| PacketPipe.NoEarlyEnd | crates/vlyness-carrier/src/h2bridge.rs:115-126 | a read with room sees the end if and only if the connection is gone and everything reassembled was read |
| PacketPipe.EveryRunIsGood | crates/vlyness-carrier/src/http.rs:300-313 | every run keeps conservation from the write buffer through the chunks, the reorder buffer and the reader, with no empty chunk |
| PacketPipe.UploadAssembler.Deliver | crates/vlyness-carrier/src/http.rs:300-313 | hands over exactly the packets that have become consecutive, ignores old numbers, and stops at a closed session |
| PacketPipe.DrainedGood | crates/vlyness-carrier/src/http.rs:307-312 | draining hands over the next chunks in number order and stops at the first number that has not arrived |
| PacketPipe.NothingToTheDead | crates/vlyness-carrier/src/http.rs:307-312 | a session that is gone is handed nothing and no number is passed |
| PacketPipe.PacketReader.PollRead | crates/vlyness-carrier/src/h2bridge.rs:115-126 | waits only while nothing is there and the connection lives; otherwise gives exactly as much of the buffered chunk, or else the next one, as there is room for, and keeps the rest |
| PacketPipe.PollsFill | crates/vlyness-carrier/src/h2bridge.rs:115-126 | in every run a poll gives as many of the next unread bytes as its chunk has and fit in the room, and waits if and only if everything handed over was read and the connection lives |
| PacketPipe.PacketWriter.PollWrite | crates/vlyness-carrier/src/h2bridge.rs:133-172 | every byte is taken into the buffer |
| PacketPipe.PacketWriter.PollFlush | crates/vlyness-carrier/src/h2bridge.rs:175-197 | done means the buffer became one chunk, none when it was empty; otherwise nothing is lost |
| PacketPipe.PacketWriter.PollShutdown | crates/vlyness-carrier/src/h2bridge.rs:200-219 | closes only after everything buffered was handed over |
| RelayRuns.EveryRunIsIsolated | crates/vlyness-node/src/relay.rs:188-207 | in every run with at most 32768 opens a TCP target has been written a prefix of what its own local socket read, a UDP target each datagram at most as often as it was sent on its stream, and no two targets serve one stream |
| RelayRuns.IsolationIffDistinctIds | crates/vlyness-node/src/relay.rs:188-222 | isolation of all runs with at most n opens holds if and only if n is at most 32768 |
| RelayRuns.OneOpenTooMany | crates/vlyness-node/src/relay.rs:192-192 | a run with 32769 opens in which one stream's bytes reach another's target |
| RelayRuns.DrainedIsComplete | crates/vlyness-node/src/relay.rs:400-406 | with nothing left on the way, a healthy registered target has been written everything its socket read |
| RelayRuns.EveryRunKeeps | crates/vlyness-node/src/relay.rs:293-466 | the relay's invariant: ids, one Open before all else of a stream, conservation from socket to sink, and sinks found under an id belong to its stream |
| RelayScripts.EveryRunIsScripted | crates/vlyness-node/src/relay.rs:188-466 | in every run, while the writer lives, a stream that was opened has exactly one Open between its socket and the server, one Close if and only if its socket has ended, and nothing after it |
| RelayRuns.StepKeeps | crates/vlyness-node/src/relay.rs:293-324 | every step keeps the invariant: opens, reads, pushes, ends, splits, native datagrams, a stopped writer, dispatch, refused connections, failed writes |
| RelayRuns.DeliverKeeps | crates/vlyness-node/src/relay.rs:400-406 | a payload reaches the sink of the stream it was pushed for or nobody |
| RelayRuns.PickedPayloads | crates/vlyness-node/src/relay.rs:326-348 | what comes out of the native channel, each datagram once, and what does not carry together exactly the payloads given to it |
| RelayRuns.EverySinkIsGiven | crates/vlyness-node/src/relay.rs:365-413 | in every run, with however many opens: one sink for each Open that connected, given exactly and in order the payloads of both transports that came under its id while nothing had freed the id, and found under it exactly that long; one Close sent back for each refused Open and nothing else |
| RelayRuns.DatagramsAccounted | crates/vlyness-node/src/relay.rs:326-348 | with nothing left on the way, each datagram sent on the stream of a registered and healthy UDP target was written once, came before its Open, or never came out of the native channel |
| RelayRuns.WritesNextChunk | crates/vlyness-node/src/relay.rs:431-440 | a write takes the next chunk, whole and the target stays healthy, or in part and it ends; a datagram whole or not at all |
| RelayRuns.NativesFit | crates/vlyness-node/src/relay.rs:303-304 | only datagrams that fit the native channel with their stream id go by it |
| Stack.EveryRunIsIsolated | crates/vlyness-node/src/relay.rs:293-414 | the same isolation with the session and the datagram channel themselves in place of queues: the writer submits to the session's writer, the server dispatches what its reader received and what the opener opened, under every run of both, a writer that stops at a refusal or a broken stream while the other tasks go on, and a hostile datagram network |
| Stack.FailKeeps | crates/vlyness-node/src/relay.rs:319-321 | a session writer that fails ends the writer loop alone; what it had sealed is still dispatched to the streams it was pushed for |
| Stack.DrainedIsComplete | crates/vlyness-node/src/relay.rs:293-414 | once queue, session and reader are through, a healthy registered target has written everything its socket read |
| Stack.EverySinkIsGiven | crates/vlyness-node/src/relay.rs:326-413 | the same law of the sinks over the session and the datagram channel themselves |
| Stack.DatagramsAccounted | crates/vlyness-node/src/relay.rs:326-413 | the same account of every datagram, with what the hostile network loses as the part that never came |
| Stack.NextIsAwaited | crates/vlyness-transport/src/session.rs:284-287 | the next event the session receives is the next one the writer's events were cut into, of the stream it was pushed for |
| Stack.OpensAwaited | crates/vlyness-node/src/relay.rs:335-345 | what the opener opens is the datagram sealed under that number |
| Relay.TunnelClient.Open | crates/vlyness-node/src/relay.rs:188-207 | spends the next id with wrap-around, announces the stream and wires its socket to a new sink, or fails when the writer is gone |
| RelaySinks.ServerRelay.OnEvent | crates/vlyness-node/src/relay.rs:365-411 | a payload is given to the sink found under its id and to no other; an Open that connects makes a sink, one that does not is closed back and nothing else is; the registry and sinks stay what the events seen so far say |
| RelaySinks.ServerRelay.Hand | crates/vlyness-node/src/relay.rs:400-406 | a payload goes to the sink registered under its id, or to nobody |
| RelaySinks.ServerRelay.OnSocketEnd | crates/vlyness-node/src/relay.rs:464-464 | the end of a socket's tasks frees its id |
| RelaySinks.ServerRelay.OnHalt | crates/vlyness-node/src/relay.rs:413-413 | the end of the reader frees all ids |
| DatagramChannel.EveryRunIsSafe | crates/vlyness-core/src/datagram.rs:83-139 | under loss, repetition, reordering and forgery every datagram opened was sealed by the peer and opened once, and no key and nonce are used twice |
| DatagramChannel.FirstArrivalOpens | crates/vlyness-core/src/datagram.rs:153-178 | a first arrival less than 64 behind the highest always opens |
| DatagramChannel.DirectionsPair | crates/vlyness-core/src/datagram.rs:83-94 | each side seals with the key the other opens with, and the two directions have different keys |
| DatagramChannel.DatagramSealer.Seal | crates/vlyness-core/src/datagram.rs:102-117 | seals under the next number, which is never used again |
| DatagramChannel.DatagramOpener.Open | crates/vlyness-core/src/datagram.rs:125-139 | opens exactly the authentic frames the window admits; an unauthentic frame leaves the window unchanged |
| DatagramChannel.DatagramSealer.constructor | crates/vlyness-core/src/datagram.rs:83-94 | a side starts from number 0 under its own direction's key |
| DatagramChannel.DatagramOpener.constructor | crates/vlyness-core/src/datagram.rs:83-94 | a side opens under its peer's direction's key and has accepted nothing |
| ReplayWindow.ReplayWindow.CheckAndSet | crates/vlyness-core/src/datagram.rs:151-179 | true exactly for a number never accepted and less than 64 behind the highest; the bitmap mirrors the set of accepted numbers before and after |
| ReplayWindow.SlidMirrors | crates/vlyness-core/src/datagram.rs:160-166 | shifting the bitmap, by 64 and more too, is moving the window over the set |
| ReplayWindow.MarkedMirrors | crates/vlyness-core/src/datagram.rs:167-177 | setting one bit is adding one number to the set |
| DisciplineRuns.SilenceIsNeverCutShort | crates/vlyness-discipline/src/lib.rs:71-109 | once a poll answered Frozen until some time, no poll before it answers Connect under any notes, receptions included |
| DisciplineRuns.StrikesNeedSends | crates/vlyness-discipline/src/blackhole.rs:63-117 | over any stretch of any run strikes added are at most sends noted, plus one for a send unanswered at its start |
| DisciplineRuns.FreezeLeavesNoneUnanswered | crates/vlyness-discipline/src/lib.rs:81-90 | a poll that freezes adds one strike and leaves no unanswered send |
| DisciplineRuns.StrikesCounted | crates/vlyness-discipline/src/blackhole.rs:165-191 | the controller's count never exceeds the strikes ever added, nor those the sends noted |
| DisciplineRuns.FreezesEscalate | crates/vlyness-discipline/src/blackhole.rs:165-191 | a blackhole found in any run freezes for the first window if none was found since the last reception, else for the repeated one, with the advice to switch from the third on |
| DisciplineRuns.FreezesOnEvidence | crates/vlyness-discipline/src/blackhole.rs:63-117 | a poll freezes only with a send at least the threshold ago and no reception since, and a good reference fresh enough |
| DisciplineAnswers.BlackholeIff | crates/vlyness-discipline/src/blackhole.rs:63-117 | in every run a poll finds a blackhole if and only if no announced silence is on, some send at least the threshold ago has had no reception and no found blackhole since, and the reference was noted reachable recently enough |
| DisciplineAnswers.NetworkDownIff | crates/vlyness-discipline/src/blackhole.rs:91-109 | a poll takes the network to be down if and only if there is such a send, no recent good reference and a recent bad one, outside a silence |
| DisciplineAnswers.AnswersByHistory | crates/vlyness-discipline/src/lib.rs:71-115 | every answer of every run from the answers and notes before it: otherwise it connects if and only if there is room and the pause after every attempt, close, failure, drop and freeze is over, and a wait lasts exactly until the last of them is |
| DisciplineAnswers.SilenceIsRepeated | crates/vlyness-discipline/src/lib.rs:74-77 | in a silence a poll repeats the announced end |
| DisciplineAnswers.DelaysEscalate | crates/vlyness-discipline/src/budget.rs:73-84 | the delay after a failure or drop is within the ceiling for the number of failures and drops since the last success |
| DisciplineRuns.PauseOnlyGrows | crates/vlyness-discipline/src/budget.rs:95-118 | no poll and no note shortens the budget's pause |
| DisciplineRuns.ProgressByBound | crates/vlyness-discipline/src/lib.rs:71-109 | from any state with no further events at most one more freeze occurs, and every poll from an explicit time on answers Connect, or AtCapacity exactly when the budget is full |
| DisciplineRuns.AttemptRate | crates/vlyness-discipline/src/budget.rs:50-118 | for an obedient caller any two attempts are the interval apart, a span T sees at most T / interval + 1 of them, and active connections never exceed the budget |
| DisciplineRuns.AttemptsArePaced | crates/vlyness-discipline/src/budget.rs:50-118 | the invariant behind it: the pause covers the last attempt, and room stays reserved from grant to outcome |
| Discipline.CeilingExactIff | crates/vlyness-discipline/src/backoff.rs:23-27 | the ceiling is min(cap, base * 2^n) for every n if and only if the base is not 1 or the cap is at most 2^63 |
| Discipline.ShiftIsExact | crates/vlyness-discipline/src/backoff.rs:25-26 | the 128-bit shift loses no bits |
| Discipline.CeilingMonotone | crates/vlyness-discipline/src/backoff.rs:23-27 | more attempts never shorten the ceiling, which stays within the cap |
| Discipline.Backoff.NextDelay | crates/vlyness-discipline/src/backoff.rs:30-36 | every jittered delay is at most its ceiling, drawn from the whole range up to it, and the attempt is counted, saturating |
| Discipline.Jitter.Below | crates/vlyness-discipline/src/clock.rs:62-69 | any number below the bound |
| Discipline.ConnectionManager.Poll | crates/vlyness-discipline/src/lib.rs:71-115 | the action by freeze, health and budget in order; only a poll that trips changes state, and then the pause, the connections and the pending sends together |
| Pool.EveryRunKeepsPolicy | crates/vlyness-profile/src/pool.rs:64-129 | in every run the entries stay the one stable sort by cost of the profiles, the carrier in use is the last one chosen until it fails, and a carrier is available at a time if and only if every failure since it was last found healthy, the k-th at time t, has t + min(1 h, cooldown * 2^min(k-1, 16)), within 64 bits, behind it |
| Pool.ChoosesByHistory | crates/vlyness-profile/src/pool.rs:94-101 | a selection takes the cheapest carrier all of whose cooldowns are over, and none if and only if no carrier's are |
| Pool.NeverChosenWhileCooling | crates/vlyness-profile/src/pool.rs:94-121 | no carrier is chosen between a failure and the end of its cooldown unless found healthy in between |
| Pool.FirstProblemIs | crates/vlyness-profile/src/pool.rs:68-75 | the error is that of the first profile in the given order that is incoherent or has no endpoint, incoherence first |
| Pool.StableSortIsUnique | crates/vlyness-profile/src/pool.rs:80-81 | sorted by cost with each cost's profiles in their given order determines the result |
| Pool.SortedIsStable | crates/vlyness-profile/src/pool.rs:80-81 | the pool's order is such a sort |
| Pool.CooldownExactIff | crates/vlyness-profile/src/pool.rs:115-120 | the cooldown is min(1 h, base * 2^(strikes-1)) for every number of strikes if and only if the base is 0 or at least 55 ms |
| Pool.CarrierPool.Build | crates/vlyness-profile/src/pool.rs:64-83 | an error exactly for an empty list or the first unfit profile, with its errors, else the sorted pool with nothing cooling down |
| Pool.CarrierPool.Select | crates/vlyness-profile/src/pool.rs:94-101 | the first entry not cooling down becomes current, or none is and nothing changes |
| Pool.CarrierPool.MarkFailed | crates/vlyness-profile/src/pool.rs:110-121 | only the current entry cools down, by its strikes, and is no longer current |
| Pool.CarrierPool.MarkHealthy | crates/vlyness-profile/src/pool.rs:124-129 | only the current entry is unblocked and its strikes cleared |
| Pool.CarrierPool.Available | crates/vlyness-profile/src/pool.rs:132-134 | the number of entries not cooling down |
| Pool.CarrierPool.NextAvailable | crates/vlyness-profile/src/pool.rs:137-142 | none exactly while a selection would succeed; otherwise a later moment before which every selection fails and from which on one succeeds |
| Pool.SelectsOne | crates/vlyness-profile/src/pool.rs:94-101 | there is exactly one right answer to a selection |
| DohMessage.ExtractInvertsWire | crates/vlyness-carrier/src/doh.rs:128-187 | on every well-formed response, with any questions, record types and full or compressed names, the parser finds the ECH value of the first ServiceMode HTTPS record that has one, or none; a response code is an error |
| DohMessage.FirstRecord | crates/vlyness-carrier/src/doh.rs:145-158 | the value found is that of a record before which no record has one, and none means that no record has |
| DohMessage.FirstParam | crates/vlyness-carrier/src/doh.rs:176-187 | within a record it is the first ECH parameter's |
| DohMessage.CutIsAnError | crates/vlyness-carrier/src/doh.rs:128-159 | a well-formed response without the value, cut short anywhere before the end of its answers, is an error and never reads as one without it; within the header the error names the field |
| DohMessage.AnswersScanned | crates/vlyness-carrier/src/doh.rs:145-158 | scanning the serialized answers finds the first value and skips all other records |
| DohMessage.NameSkipped | crates/vlyness-carrier/src/doh.rs:109-121 | the skipper consumes a serialized name exactly, whether it ends in the root or in a pointer |
| DohMessage.SkipInvertsEncode | crates/vlyness-carrier/src/doh.rs:52-62 | the skipper consumes exactly what the name encoder wrote |
| DohMessage.SkipsAnyLabel | crates/vlyness-carrier/src/doh.rs:109-121 | every length from 1 to 191 is skipped as a label's, in a target name every length |
| DohMessage.LabelsAreTheLabels | crates/vlyness-carrier/src/doh.rs:53-53 | the labels are the only pieces without a dot that join to the domain without its trailing dots |
| DohMessage.TrimsDots | crates/vlyness-carrier/src/doh.rs:53-53 | the trimmed name is the only one without a dot at its end that dots alone complete to the domain |
| DohMessage.EncodeName | crates/vlyness-carrier/src/doh.rs:52-62 | appends the labels and the root, or fails exactly when a label is empty or over 63 bytes |
| DohMessage.BuildHttpsQuery | crates/vlyness-carrier/src/doh.rs:67-79 | the query is the well-formed message with the one HTTPS question and nothing else, or fails exactly for bad labels |
| Doh.ExtractEch | crates/vlyness-carrier/src/doh.rs:128-159 | on every byte string terminates within bounds and answers what the parse function says, each truncation with its own error |
| Doh.EchFromHttpsRdata | crates/vlyness-carrier/src/doh.rs:162-187 | the first ECH parameter of a ServiceMode record, none when it is cut short |
| Doh.Cur.SkipName | crates/vlyness-carrier/src/doh.rs:109-121 | on every byte string terminates within bounds, at the end of the name or failing when it is cut short |
| Doh.Cur.Take | crates/vlyness-carrier/src/doh.rs:102-107 | the next bytes exactly when that many are left, and the cursor right after them |
| Doh.Cur.U16 | crates/vlyness-carrier/src/doh.rs:93-97 | the next two bytes, high first, exactly when two are left |
| Doh.Cur.Skip | crates/vlyness-carrier/src/doh.rs:98-101 | skips exactly when that many bytes are left, and does not move otherwise |
| Doh.SkipQuestions | crates/vlyness-carrier/src/doh.rs:140-143 | leaves the cursor after the last question or says which field is cut short |
| Doh.FindInAnswers | crates/vlyness-carrier/src/doh.rs:145-158 | the first ECH value of an HTTPS record, none, or which field is cut short |
| Doh.ReadAnswer | crates/vlyness-carrier/src/doh.rs:147-150 | one record's type and data, with the cursor after it |
| KsStatistic.KsTwoSample | crates/vlyness-metrics/src/distance.rs:13-40 | the merge with its early exit returns the supremum over every x of the distance between the two empirical distributions |
| KsStatistic.StopLosesNothing | crates/vlyness-metrics/src/distance.rs:22-38 | once one sample is exhausted no later x has a larger distance |
| KsStatistic.DistanceIsUnique | crates/vlyness-metrics/src/distance.rs:13-40 | there is one such distance |
| KsStatistic.DistanceIsSymmetric | crates/vlyness-metrics/src/distance.rs:13-40 | it does not depend on the order of the samples |
| KsStatistic.DistanceRange | crates/vlyness-metrics/src/distance.rs:10-12 | it lies between 0 and 1 |
| KsStatistic.DistanceZero | crates/vlyness-metrics/src/distance.rs:10-12 | it is 0 if and only if the empirical distributions coincide |
| KsStatistic.DistanceOne | crates/vlyness-metrics/src/distance.rs:10-12 | it is 1 if and only if one sample lies wholly below the other |

## Left out

- TLS, ECH negotiation, QUIC endpoints, HTTP/2 framing and flow control, the Noise handshake, BLAKE2s, ChaCha20-Poly1305 and base64: foreign code, present only as the ideal contracts above.
- `H2Stream` over plain HTTP/2 streams, and the bodies of the GET half: flow control belongs to the foreign library.
- The relay from target to client: the client registers its sink after sending Open, so the code gives no completeness there. Ids reused after wrap-around: shown to break isolation.
- SessionRuns.EndToEnd: nonces are unbounded, so nonce exhaustion after 2^64 records of one direction does not occur; a record arrives whole (in `SessionOverPipe` also in parts, towards the server); sealing a record and writing it are one step, since a side has one writer, and of a record at which the stream breaks nothing is written: a part of one would be the last thing on it and never open.
- AdmissionRuns.EveryRunIsSafe: readings are in whole epochs and behind by at most a given lag; which lag a given machine and load have is not part of this model.
- SessionRuns.RekeysOnTime: a side's rekey interval is the one it was built with.
- DisciplineRuns.AttemptsArePaced: times and the number of active connections are unbounded, so clock readings within one interval of 2^64 ms and 2^32 simultaneous connections are not covered.
- DisciplineRuns.AttemptRate: is about one manager. A client that rotates carriers builds a new manager and carries neither its pause nor its freeze over.
- Pool.CarrierPool.Build: the errors of a profile are a field; the checks that find them are not part of this model. The library's sort is a function with the property a stable sort has.
- KsStatistic.KsTwoSample: samples and distances are exact reals; the rounding of the divisions, infinities and NaN are not covered. The code panics where its sort compares a NaN, so in a sample of two or more values, and its loop does not end on two samples of one NaN each. The library's sort is a function.
- RelaySinks.ServerRelay.Hand: sinks are unbounded; a full sink makes the reader wait, which delays steps and loses nothing.
- The interleaved systems `SessionRuns`, `RelayRuns`, `Stack`, `AdmissionRuns`, `PacketPipe.Pipe`, `PacketPosts` and `SessionOverPipe` are on values, one step at a time; aliasing between objects of different components does not occur in them.
- `LenSampler`'s Markov chain over length classes: any sequence of targets is allowed instead.
- `class_fractions` and `hist_l1`, `Symmetrizer`, `Cadence`, `Flow`, the keyring, server metrics and log rings: only easy members.
- The command-line client's outer loop, the graphical interface, the admin panel, installers and the parsing of configuration files.
