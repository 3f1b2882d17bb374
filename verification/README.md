# Verified model of a SIP user agent

A Dafny model of the signalling engine and the negotiation code of the `wavekat-sip`
crate, with proofs about it. `dafny verify dfyconfig.toml` checks all of it. The source
files named below are relative to the repository's root.

Code that updates state in place is modelled by classes, or by methods with loops, and each
such member is proved to take exactly the step of a function on values. What is claimed
about runs, streams, texts and protocols is then proved about those functions:

- **Transactions and the engine** (section 17 of RFC 3261; `Transaction`, the four machine
  files, `EngineModel`, `Engine`, `EngineRuns`). The four state machines and the table that
  owns them. Over every run: timers by generation counters refine timers that are really
  cancelled (`TimerRefinement`); every wait has a live timer to its end, and ends in bounded
  time (`TransactionExit`); the events of each key come in the promised order
  (`EventTraces`), and through the router to the flow that waits for them (`FlowEvents`);
  retransmissions come at exact times (`Retransmission`); an owner's own counters never let
  an old arming through (`Generations`); finished transactions soak for their full time
  (`SoakTimes`). What each machine sends over its whole life is read off what happened to
  it (`ClientInviteReplay`, `ServerInviteReplay`, `ClientNonInviteReplay`,
  `NonInviteReplay`), and reaches the wire (`EngineWire`).
- **The INVITE protocol** (`InviteProtocol`). The two INVITE machines against each other
  over a network that loses, duplicates, delays and reorders.
- **Framing** (`Framing`, `FramingLaws`, `FramingRoundTrip`, `FramingErrors`). The
  incremental framer and its read loop against one function of the whole stream, whatever
  the chunking, and why it stops.
- **DTMF** (RFC 4733; `Rtp`, `Dtmf`, `DtmfReceiver`, `DtmfEndToEnd`, `DtmfDisorder`). Bursts
  of RTP packets, bit by bit, from sender to receiver under loss, and the receiver under
  arbitrary disorder.
- **SRV order** (RFC 2782; `Resolve`). The weighted order with its exact odds.
- **SDP** (RFC 3264; `Sdp`, `SdpRoundTrip`, `SdpScan`, `SdpChoice`, `SdpAgreement`).
  Printing, parsing and selecting at the level of text, and the agreement of offer, answer
  and later re-offers.
- **Session timers** (RFC 4028; `SessionTimer`), **dialogs and responses** (section 12 of
  RFC 3261; `Dialog`), **REGISTER sequencing** (section 10.2; `Registrar`), **CANCEL races**
  (section 9; `Cancel`) and **the event router** (`Router`), also behind the engine
  (`EndpointRequests`).

## How to read it

A message is a record of method or status, request URI, a list of headers and a body. A
header is typed, or malformed text of its kind: typed accessors find nothing in it, and it is
copied as it stands where the source copies headers unread.
Durations are whole nanoseconds. A run of the engine is a list of inputs: messages from
anywhere, commands, elapsed time, and the firing of any sleeper that was spawned, at any
moment from its due time on and in any order, because the source puts each fire in a queue.
A wait of T may thus end late but never early; `Punctual` runs are those in which no fire
that is due is kept waiting while time passes.

## Where the code falls short of what one might expect

The model keeps the code as it is. Each of these has a lemma that exhibits it, or a theorem
that gives the exact condition under which the stronger statement holds, or both.

- Generations start again at 1 when a key is opened anew, so a queued fire of an earlier
  owner can be taken for the new owner's: `OldTimerIsHeard`. `HeardExactly` says which fires
  are heard; keys that are never opened twice exclude it (`FreshKeysAreGenuine`).
- A server INVITE transaction is gone after a 2xx, or after Timer H or I, and a late copy
  of the INVITE opens another, whose final may differ: `LateAckConfirmsAnother`. One final is in
  flight exactly if the instances' users committed to one: `FinalsAgreeIff`.
- Whether an over-long header block is refused depends on how the stream was cut:
  `ChunkingIsInvisible` says exactly when it does not matter.
- PCMU or PCMA offered on a dynamic number is answered on 0 or 8, which the offer did not
  list, or bound to another codec: `DynamicPcmuIsAnsweredElsewhere` and
  `ReboundPcmuIsAnsweredElsewhere`, with the exact condition in `AnswerAgreesIff`.
- A body that pins its DTMF events to the codec's own number does not read back to them:
  the condition is part of `PinnedReadsBack`.
- A refresher adopts a longer interval from a re-grant, the watchdog keeps its own, and may
  expire: `LongerGrantExpires`. `PlayRounds` says exactly when, and `GrantsDecide` by the
  grants alone.
- The o= version of re-offers wraps: `VersionsRiseIff`. So does an announced Content-Length:
  `LengthIsRightIff`.
- When accept and CANCEL race, both believe they answered; the transaction keeps the first
  final it is handed: `FirstFinalWins`.
- A burst whose length or clock rate makes a cast to 16 bits lose its value may not advance
  the timestamp, and then the next press is missed: `NextPressIsHeardIff`.

## Model

| member | source | states |
|---|---|---|
| Sip.BuildNon2xxAck | crates/wavekat-sip/src/stack/transaction/mod.rs:384-418 | the header list it grows is exactly the ACK of section 17.1.1.3 of RFC 3261: Via, From, To and Call-ID copied as they stand, parsable or not; none when one is missing or the CSeq cannot be read |
| Sip.AckMatchesInvite | crates/wavekat-sip/src/stack/transaction/mod.rs:384-418 | an ACK exists if and only if those headers are present and the CSeq is readable; it has the INVITE's transaction key, number, From, Call-ID, Via, target and routes, and the response's To |
| ClientInviteTransaction.ClientInvite.Begin | crates/wavekat-sip/src/stack/transaction/client_invite.rs:53-77 | the INVITE goes out, B is armed, A only on an unreliable transport |
| ClientInviteTransaction.ClientInvite.OnResponse | crates/wavekat-sip/src/stack/transaction/client_invite.rs:84-109 | the new machine and its actions are those of the specification step; ClientInviteReplay.EveryRefusalIsAcknowledged says what all those steps put on the wire |
| ClientInviteTransaction.ClientInvite.OnTimer | crates/wavekat-sip/src/stack/transaction/client_invite.rs:111-136 | as above, for Timers A, B and D and for stale ones |
| ClientInviteTransaction.ClientInvite.OnProvisional | crates/wavekat-sip/src/stack/transaction/client_invite.rs:138-151 | as above, for a 1xx; only the first one stops A and B |
| ClientInviteTransaction.ClientInvite.OnFinalFailure | crates/wavekat-sip/src/stack/transaction/client_invite.rs:153-173 | as above, for a non-2xx final; without an ACK to send nothing changes; A and B are not stopped |
| ServerInviteTransaction.ServerInvite.Begin | crates/wavekat-sip/src/stack/transaction/server_invite.rs:56-70 | the request is delivered, no timer runs |
| ServerInviteTransaction.ServerInvite.SendResponse | crates/wavekat-sip/src/stack/transaction/server_invite.rs:77-110 | as the specification step; only a final sent in Proceeding counts, a 2xx ends the transaction |
| ServerInviteTransaction.ServerInvite.OnRequest | crates/wavekat-sip/src/stack/transaction/server_invite.rs:112-143 | as the specification step; ServerInviteReplay.EveryCopyIsAnswered says what copies of the INVITE and ACKs come to over a whole run |
| ServerInviteTransaction.ServerInvite.OnTimer | crates/wavekat-sip/src/stack/transaction/server_invite.rs:145-167 | as the specification step, for Timers G, H and I and for stale ones |
| ClientNonInviteTransaction.ClientNonInvite.Begin | crates/wavekat-sip/src/stack/transaction/client_non_invite.rs:51-75 | the request goes out, F is armed, E only on an unreliable transport |
| ClientNonInviteTransaction.ClientNonInvite.OnResponse | crates/wavekat-sip/src/stack/transaction/client_non_invite.rs:82-98 | as the specification step |
| ClientNonInviteTransaction.ClientNonInvite.OnTimer | crates/wavekat-sip/src/stack/transaction/client_non_invite.rs:100-132 | as the specification step; E doubles up to T2 while Trying and is T2 in Proceeding |
| ClientNonInviteTransaction.ClientNonInvite.EnterCompleted | crates/wavekat-sip/src/stack/transaction/client_non_invite.rs:134-153 | as the specification step; K is armed on an unreliable transport, else the transaction ends at once |
| ServerNonInviteTransaction.ServerNonInvite.Begin | crates/wavekat-sip/src/stack/transaction/server_non_invite.rs:47-59 | the request is delivered, nothing has been sent |
| ServerNonInviteTransaction.ServerNonInvite.SendResponse | crates/wavekat-sip/src/stack/transaction/server_non_invite.rs:66-93 | as the specification step; nothing is sent after a final |
| ServerNonInviteTransaction.ServerNonInvite.OnRequest | crates/wavekat-sip/src/stack/transaction/server_non_invite.rs:95-106 | as the specification step; a copy of the request gets the last response |
| ServerNonInviteTransaction.ServerNonInvite.OnTimer | crates/wavekat-sip/src/stack/transaction/server_non_invite.rs:108-116 | as the specification step; Timer J ends a completed transaction |
| NonInviteReplay.LastResponseIsReplayed | crates/wavekat-sip/src/stack/transaction/server_non_invite.rs:66-116 | over every run, what is sent for a copy of the request is the response sent last, and after a final only that final is ever sent |
| NonInviteReplay.CopyIsAnswered | crates/wavekat-sip/src/stack/transaction/server_non_invite.rs:95-106 | over every run, a copy of the request puts the response sent last on the wire again, exactly once; nothing before the first response, which is exactly the phase Trying, and nothing when the transaction is over |
| ClientInviteReplay.EveryRefusalIsAcknowledged | crates/wavekat-sip/src/stack/transaction/client_invite.rs:84-173 | over every run: each arrival of a refusal with the headers an ACK copies, the first or a copy, adds exactly one ACK to what is sent, with the INVITE's key, number, caller, target and routes and that refusal's To, until a 2xx, timer B without an answer or timer D (without D, the refusal) has ended the transaction; timer A adds the INVITE until something answers it; nothing else adds anything |
| ClientInviteReplay.StandsAlways | crates/wavekat-sip/src/stack/transaction/client_invite.rs:84-173 | over every run, the phase is what the history says: ended by those events, else completed by a refusal, else proceeding after a provisional, else calling |
| ServerInviteReplay.EveryCopyIsAnswered | crates/wavekat-sip/src/stack/transaction/server_invite.rs:77-167 | over every run: while the transaction proceeds or waits for its ACK, a copy of the INVITE adds exactly one repeat of the response sent last, if there is one, and after a refusal so does timer G; the user's responses go out up to the first final; after a 2xx, the ACK or timer H nothing is sent |
| ClientNonInviteReplay.RequestIsRepeated | crates/wavekat-sip/src/stack/transaction/client_non_invite.rs:51-153 | over every run: each firing of timer E before a final response or timer F sends the request again, and then waits T2 if a provisional response is in, else min(2^k*T1, T2) after the k-th firing; nothing else sends anything |
| TransactionEngine.Engine.constructor | crates/wavekat-sip/src/stack/engine.rs:196-203 | an engine with no transaction, nothing armed, published or sent |
| TransactionEngine.Engine.OnInbound | crates/wavekat-sip/src/stack/engine.rs:231-236 | refines the state-to-state engine: requests and responses go to their handlers |
| TransactionEngine.Engine.OnResponse | crates/wavekat-sip/src/stack/engine.rs:238-253 | refines it: a response moves the client transaction of its key, and is dropped if there is none |
| TransactionEngine.Engine.OnRequest | crates/wavekat-sip/src/stack/engine.rs:255-299 | refines it: a request moves the server transaction of its key or opens one; an unmatched ACK is published |
| TransactionEngine.Engine.OnTimerFire | crates/wavekat-sip/src/stack/engine.rs:301-317 | refines it: a fire moves its machine only if its generation is the current one |
| TransactionEngine.Engine.OnCommand | crates/wavekat-sip/src/stack/engine.rs:319-357 | refines it: start a client transaction, answer a server transaction, send outside any |
| TransactionEngine.Engine.Apply | crates/wavekat-sip/src/stack/engine.rs:360-408 | refines it: the actions take effect in order, the entry is gone after Terminated |
| TransactionEngine.Engine.Arm | crates/wavekat-sip/src/stack/engine.rs:410-431 | refines it: the generation goes up by one and a sleeper tagged with it is spawned |
| TransactionEngine.Engine.Stop | crates/wavekat-sip/src/stack/engine.rs:433-441 | refines it: the generation of a timer that was ever armed goes up by one |
| TransactionEngine.Entry.Rearm | crates/wavekat-sip/src/stack/engine.rs:410-431 | the new generation is one above the last, 1 if there was none, and no other timer's changes |
| EngineRuns.StepByEffect | crates/wavekat-sip/src/stack/engine.rs:231-357 | every input moves one live machine, opens one transaction, or leaves the table and the timers alone |
| EngineRuns.ApplyExtends | crates/wavekat-sip/src/stack/engine.rs:360-408 | actions for one key touch no other entry, change no machine or peer, and remove the entry exactly if they hold Terminated |
| EngineRuns.TidyStep | crates/wavekat-sip/src/stack/engine.rs:231-441 | every step keeps one due time for each sleeper, only spawned sleepers fired, and each live key's opening and clock in the past |
| Generations.StepNumbered | crates/wavekat-sip/src/stack/engine.rs:231-441 | every step keeps the counter of each timer at or above the generations of its present owner's sleepers, and later armings above earlier ones |
| Generations.OnlyTheLatestIsHeard | crates/wavekat-sip/src/stack/engine.rs:301-317 | so in every run, whoever owned the key before, of an owner's own sleepers for one timer none but the latest arming is ever heard |
| Generations.AnsweredTimersAreDeaf | crates/wavekat-sip/src/stack/engine.rs:433-441 | whatever had been armed: once a provisional response moves a client INVITE on, a final response a client non-INVITE, or an ACK a server INVITE, no sleeper of that owner for A and B, E and F, or G and H is heard |
| TimerRefinement.HeardExactly | crates/wavekat-sip/src/stack/engine.rs:301-317 | a queued fire is heard if and only if it is the ideal engine's live arming of its timer, or it is an impostor: a sleeper of an earlier owner of the key whose generation happens to match |
| TimerRefinement.GenerationsRefineCancellation | crates/wavekat-sip/src/stack/engine.rs:301-317 | as long as no impostor fires, the generation engine stays in step with an ideal engine whose stop and re-arm remove a timer at once, even when its fire is already queued |
| TimerRefinement.EngineRefinesIdeal | crates/wavekat-sip/src/stack/engine.rs:410-441 | from the empty engine: same packets, same events, same live transactions in the same states |
| TimerRefinement.FreshKeysAreGenuine | crates/wavekat-sip/src/stack/engine.rs:290-297 | if no key is opened a second time there are no impostors |
| TimerRefinement.OldTimerIsHeard | crates/wavekat-sip/src/stack/engine.rs:399-418 | an actual run in which a key is opened again and a fire of its first owner ends its second owner early, long before that owner's own timer is due |
| TransactionExit.EveryWaitHasAWayOut | crates/wavekat-sip/src/stack/engine.rs:360-441 | in every reachable state each transaction has a live timer to its end, except the client INVITE in Proceeding and the servers that wait for their user |
| TransactionExit.TheWayOutEnds | crates/wavekat-sip/src/stack/engine.rs:301-408 | that timer's firing removes the transaction and publishes its termination last |
| TransactionExit.TransactionsEndInTime | crates/wavekat-sip/src/stack/transaction/client_non_invite.rs:51-153 | when timers fire on time, a client non-INVITE transaction lives at most 64*T1+T4, a server INVITE that long after its non-2xx final, and the other timed phases within their own timers |
| SoakTimes.SoaksItsTime | crates/wavekat-sip/src/stack/transaction/mod.rs:115-154 | in any run, a transaction that a step leaves soaking is in the table until 32 s (client INVITE), T4 (client non-INVITE, confirmed server INVITE) or 64*T1 (server non-INVITE) have passed, unless a user starts another under its key; no fire of an earlier owner of its key may be due |
| SoakTimes.NoSoakWhenReliable | crates/wavekat-sip/src/stack/transaction/mod.rs:115-154 | over a reliable transport no transaction ever soaks |
| EngineWire.StepSends | crates/wavekat-sip/src/stack/engine.rs:231-408 | every step adds to the wire exactly what the machine it moves or opens sends, to that transaction's peer, or the one message sent outside any transaction |
| EngineWire.RefusalIsAcknowledgedOnTheWire | crates/wavekat-sip/src/stack/engine.rs:238-253 | in any state of the engine, a refusal with the key of a live client INVITE transaction and the headers an ACK copies adds exactly one packet: its ACK, to the transaction's peer |
| EngineWire.CopyIsAnsweredOnTheWire | crates/wavekat-sip/src/stack/engine.rs:255-299 | a copy of the INVITE adds exactly the packet with the response held for the phase, or none if none is held |
| TransactionExit.WaitsAlways | crates/wavekat-sip/src/stack/engine.rs:231-441 | the invariant behind both, kept by every run |
| EventTraces.EventsInOrder | crates/wavekat-sip/src/stack/engine.rs:231-408 | over every run, the events of each key are, incarnation by incarnation, a prefix of 1xx* (one final or TimedOut) Terminated for a client, of IncomingRequest TimedOut? Terminated for a server, and the key is live exactly while such a prefix is open |
| EventTraces.AlwaysInTune | crates/wavekat-sip/src/stack/engine.rs:360-408 | each live machine stands where its events so far leave it; kept by every run |
| Retransmission.Rhythm | crates/wavekat-sip/src/stack/engine.rs:301-441 | while nothing but time and the engine's own timers touch a transaction, it retransmits at exactly the offsets its waits add up to, and ends when its last timer is due |
| Retransmission.RetryStep | crates/wavekat-sip/src/stack/transaction/client_non_invite.rs:100-132 | the n-th firing of A, E or G sends the message again and arms the (n+1)-th wait |
| Retransmission.StartBeats | crates/wavekat-sip/src/stack/transaction/client_invite.rs:53-77 | a client request on UDP goes out at once and its two timers are armed for that instant |
| Retransmission.RefuseBeats | crates/wavekat-sip/src/stack/transaction/server_invite.rs:92-110 | a non-2xx final on UDP goes out at once and its two timers are armed for that instant |
| Retransmission.InviteOffsets | crates/wavekat-sip/src/stack/transaction/client_invite.rs:111-136 | the k-th retransmission offset of an INVITE is T1*(2^k-1) |
| Retransmission.CappedWaits | crates/wavekat-sip/src/stack/transaction/server_invite.rs:145-167 | for T1 <= T2 the k-th wait of Timers E (while Trying) and G is min(2^k*T1, T2), so waits never shrink and never pass T2 |
| Retransmission.SevenTransmissions | crates/wavekat-sip/src/stack/transaction/client_invite.rs:53-136 | an INVITE nobody answers, on UDP and for any T1 > 0, is sent at T1*(2^k-1) for k = 0..6 and at no other time, times out at 64*T1, and its stored interval never passes 64*T1 |
| Retransmission.SilentPeerNonInvite | crates/wavekat-sip/src/stack/transaction/client_non_invite.rs:51-132 | a non-INVITE request nobody answers is sent again after waits min(2^k*T1, T2), and times out at 64*T1 |
| Retransmission.SilentPeerRefusal | crates/wavekat-sip/src/stack/transaction/server_invite.rs:92-167 | a non-2xx final nobody acknowledges is sent again after the same waits, and times out at 64*T1 |
| InviteProtocol.FinalsAreCommitted | crates/wavekat-sip/src/stack/transaction/client_invite.rs:84-173 | client and server over a network that loses, copies, delays and reorders: every final ever in flight is one a server instance committed to, the client delivers at most one, and an instance acknowledged is one that refused, to a client that took a refusal |
| InviteProtocol.OneServerOneFinal | crates/wavekat-sip/src/stack/transaction/server_invite.rs:77-167 | with one server instance: every final in flight and the one delivered are the committed one, and the server is Confirmed only if the client already took that same refusal |
| InviteProtocol.FinalsAgreeIff | crates/wavekat-sip/src/stack/transaction/server_invite.rs:77-167 | over every run, with any number of server instances: all finals ever in flight are one if and only if all finals committed to are; then it is the one the client took and the one every confirmed instance sent |
| InviteProtocol.LateAckConfirmsAnother | crates/wavekat-sip/src/stack/transaction/server_invite.rs:112-143 | a run in which an old INVITE copy opens a second server instance, which is confirmed by an ACK for another final; so the theorem above needs its premise |
| Framing.FindHeaderEnd | crates/wavekat-sip/src/stack/framing.rs:104-106 | the first CRLFCRLF, or none |
| Framing.ContentLength | crates/wavekat-sip/src/stack/framing.rs:110-124 | the value of the first Content-Length or l line, or none if the block is no UTF-8 or has no readable one |
| Framing.Framer.Push | crates/wavekat-sip/src/stack/framing.rs:57-59 | the bytes are appended |
| Framing.Framer.NextMessage | crates/wavekat-sip/src/stack/framing.rs:65-93 | leading CRLFs are counted and dropped; then the first message and the rest of the buffer, or more bytes are needed, or the error |
| Framing.Framer.TakeKeepalives | crates/wavekat-sip/src/stack/framing.rs:98-100 | the count is returned and reset |
| Framing.Framer.DrainMessages | crates/wavekat-sip/src/stack/stream.rs:314-337 | the inner loop yields the messages, leftover and first error of one pure function of the buffer, or the messages a receiver took before it went away |
| Framing.ReadTask | crates/wavekat-sip/src/stack/stream.rs:290-338 | the outer loop yields what reading chunk by chunk yields, until reading ends, the stream breaks or the receiver is gone |
| FramingErrors.FirstLengthCounts | crates/wavekat-sip/src/stack/framing.rs:110-124 | the first line that gives a length counts, whether it can be read or not; without one there is none |
| FramingErrors.DrainStops | crates/wavekat-sip/src/stack/framing.rs:65-93 | what is left of the buffer says why framing stopped: a header block without a readable length, no end of the headers in more than 65536 bytes, a whole message that does not parse, or else more bytes are needed |
| FramingErrors.OneReason | crates/wavekat-sip/src/stack/framing.rs:65-93 | those reasons exclude one another, so the error is determined by what is left |
| FramingErrors.ReadStops | crates/wavekat-sip/src/stack/stream.rs:290-338 | the read task stops for the same reasons, whatever the chunks |
| FramingLaws.DrainThen | crates/wavekat-sip/src/stack/framing.rs:65-124 | draining a buffer and then more bytes is draining them together, when every header block fits |
| FramingLaws.ReadAllIsDrain | crates/wavekat-sip/src/stack/stream.rs:290-338 | reading in chunks gives the messages, first error, leftover and keepalives of the whole stream |
| FramingLaws.ChunkingIsInvisible | crates/wavekat-sip/src/stack/framing.rs:65-124 | every way to cut a stream into reads gives what the whole stream gives if and only if every terminated header block met fits the header limit |
| FramingRoundTrip.LengthLinesAnnounce | crates/wavekat-sip/src/stack/framing.rs:110-124 | a printed length line is read back as that number |
| FramingRoundTrip.PrintedIsWhole | crates/wavekat-sip/src/stack/framing.rs:65-93 | a printed message followed by anything is framed as exactly that message, its body arbitrary bytes |
| FramingRoundTrip.StreamDrains | crates/wavekat-sip/src/stack/framing.rs:65-124 | a stream of printed messages with CRLFs between them drains to those messages in order and that number of CRLFs, with nothing left |
| FramingRoundTrip.StreamRoundTrip | crates/wavekat-sip/src/stack/stream.rs:290-338 | so does every way to cut it into reads |
| Rtp.ParseHeader | crates/wavekat-sip/src/rtp/mod.rs:41-71 | a header is read if and only if there are 12 bytes of version 2 |
| Rtp.PacketParses | crates/wavekat-sip/src/rtp/dtmf.rs:278-298 | a packet as the sender builds it parses to its own fields, and the payload follows byte 12 |
| Rtp.SendLoop | crates/wavekat-sip/src/rtp/mod.rs:178-234 | the k-th packet parses to sequence number and timestamp advanced k times with wrap-around, no marker, and carries the k-th payload; it stops exactly at the first send that fails |
| Dtmf.EventCode | crates/wavekat-sip/src/rtp/dtmf.rs:176-196 | codes are below 16 and name their digit |
| Dtmf.FromEventCode | crates/wavekat-sip/src/rtp/dtmf.rs:153-173 | exactly the codes below 16 name a digit |
| Dtmf.CodesAreDigits | crates/wavekat-sip/src/rtp/dtmf.rs:153-196 | the two maps are inverse |
| Dtmf.CodesArePlaces | crates/wavekat-sip/src/rtp/dtmf.rs:105-196 | the code of a digit is the place of its character in 0123456789*#ABCD, for both maps; the reader of characters knows these and a to d |
| Dtmf.EventPayloadParses | crates/wavekat-sip/src/rtp/dtmf_recv.rs:73-84 | the payload the sender packs is read back, its volume modulo 64 |
| Dtmf.SendCopies | crates/wavekat-sip/src/rtp/dtmf.rs:342-394 | three copies with the next sequence numbers, the marker on the first packet of the burst only, until a send fails |
| Dtmf.SendContinuations | crates/wavekat-sip/src/rtp/dtmf.rs:364-378 | the continuation packets with growing saturated durations, until a send fails |
| Dtmf.SendDtmfBurst | crates/wavekat-sip/src/rtp/dtmf.rs:313-400 | the packet list in closed form: the k-th packet's number, marker, end bit and saturated duration, up to the first send that fails; the counters to chain the next burst with exactly if none does |
| DtmfReception.DtmfReceiver.Push | crates/wavekat-sip/src/rtp/dtmf_recv.rs:162-206 | refines the pure step on the tracked event |
| DtmfEndToEnd.PushAll | crates/wavekat-sip/src/rtp/dtmf_recv.rs:162-206 | the same for a list of packets |
| DtmfEndToEnd.PacketReads | crates/wavekat-sip/src/rtp/dtmf.rs:219-298 | every packet of a burst is read as the sender's digit, end bit and duration |
| DtmfEndToEnd.BurstIsHeard | crates/wavekat-sip/src/rtp/dtmf_recv.rs:162-206 | a burst of which any one packet arrives is reported as one Pressed, and one Released exactly if an end packet other than the first survivor arrives, with the total duration |
| DtmfEndToEnd.ChainIsHeard | crates/wavekat-sip/src/rtp/dtmf.rs:313-400 | any number of chained bursts, each losing any packets but one: exactly one Pressed a digit in order, and those Released, across wrap-around of numbers and timestamps |
| DtmfEndToEnd.RangesAdvance | crates/wavekat-sip/src/rtp/dtmf.rs:320-337 | for clock rates 50 to 3,276,799 Hz and holds up to 1,310,700 ms the casts keep their values and every burst advances the timestamp |
| DtmfEndToEnd.DialledStringIsHeard | crates/wavekat-sip/src/rtp/dtmf.rs:313-400 | the two together: in those ranges, however many digits are dialled and whatever is lost but one packet of each, the presses reported are the digits dialled in order, and each release carries min(packets * ticks, 65535) |
| DtmfEndToEnd.NextPressIsHeardIff | crates/wavekat-sip/src/rtp/dtmf_recv.rs:162-206 | a following burst is reported if and only if the burst before it advanced the timestamp |
| DtmfDisorder.ReportsAreEvents | crates/wavekat-sip/src/rtp/dtmf_recv.rs:162-206 | reports with timestamps are the receiver's events |
| DtmfDisorder.NewerIsLater | crates/wavekat-sip/src/rtp/dtmf_recv.rs:212-215 | inside half the timestamp circle, newer means later |
| DtmfDisorder.DisorderIsHarmless | crates/wavekat-sip/src/rtp/dtmf_recv.rs:162-215 | any packets in any order in such a window: presses at strictly later timestamps, each Released right after its own Pressed |
| DtmfDisorder.OncePerTimestamp | crates/wavekat-sip/src/rtp/dtmf_recv.rs:162-215 | two reports with one timestamp are a Pressed and the Released after it |
| Resolve.Pick | crates/wavekat-sip/src/resolve.rs:70-87 | the running-sum walk finds the index of the specification, and always finds one |
| Resolve.FindClassEnd | crates/wavekat-sip/src/resolve.rs:57-62 | the end of the records with one priority |
| Resolve.DrawPool | crates/wavekat-sip/src/resolve.rs:64-89 | draws the pool empty as the specification does |
| Resolve.OrderCandidates | crates/wavekat-sip/src/resolve.rs:47-93 | the loops compute the specified order, for every list of draws |
| Resolve.OrderKeepsPriority | crates/wavekat-sip/src/resolve.rs:47-93 | the order is a permutation of the records with priorities never decreasing |
| Resolve.SortIsStable | crates/wavekat-sip/src/resolve.rs:48-67 | sorting keeps the records with one key in their order |
| Resolve.OddsAreWeights | crates/wavekat-sip/src/resolve.rs:75-87 | of the total+1 rolls, record k is chosen by exactly weight(k), plus one if it stands first |
| Resolve.EveryRollPicks | crates/wavekat-sip/src/resolve.rs:75-87 | every roll chooses some record |
| Resolve.ClassZerosLead | crates/wavekat-sip/src/resolve.rs:64-67 | records without weight are put first |
| Resolve.ZerosStillLead | crates/wavekat-sip/src/resolve.rs:67-89 | and stay first as records are drawn |
| Resolve.OnlyTheFirstWithoutWeight | crates/wavekat-sip/src/resolve.rs:75-87 | while positive weights remain only the leading record without weight can be drawn, by roll 0 alone |
| Resolve.ResolveWith | crates/wavekat-sip/src/resolve.rs:211-267 | a literal or explicit port is looked up directly; otherwise the first candidate in order that resolves, none if none does, and the plain lookup if there are no records |
| Resolve.WhatIsAskedFor | crates/wavekat-sip/src/resolve.rs:138-157 | an explicit port or an IP literal is taken as it is; any other name is asked for under the service of its transport, and falls back on 5061 for TLS and 5060 otherwise |
| Sdp.MenuLines | crates/wavekat-sip/src/sdp.rs:195-261 | the payload types and attributes of a menu |
| Sdp.BuildSdpWith | crates/wavekat-sip/src/sdp.rs:195-261 | the printed text, line by line |
| Sdp.ParseSdp | crates/wavekat-sip/src/sdp.rs:335-444 | the scan of the text's lines and what is concluded from it; bytes that are no UTF-8 are an error |
| SdpRoundTrip.BodyReadsBack | crates/wavekat-sip/src/sdp.rs:195-444 | every body of this form reads back to its address, port, payload types and mappings |
| SdpScan.LinesRead | crates/wavekat-sip/src/sdp.rs:335-384 | for any lines: the last connection line of three words decides the address and the last m= line of two the port, even by being unreadable; the payload types of all m= lines and the readable rtpmaps count, in order |
| SdpScan.WordsCountAlone | crates/wavekat-sip/src/sdp.rs:363-367 | a word of the m= line that is no number is skipped, and the words after it still count |
| SdpChoice.NumberMeans | crates/wavekat-sip/src/sdp.rs:386-409 | a number means what its first rtpmap says: Opus at 48000, PCMU and PCMA at 8000, telephone events at any clock; without an rtpmap 0 is PCMU and 8 PCMA |
| SdpChoice.SelectsChosen | crates/wavekat-sip/src/sdp.rs:309-318 | read off the lines of the offer: Opus at the first number that means it, else what the first number with a codec means, else nothing |
| SdpChoice.SelectsEvents | crates/wavekat-sip/src/sdp.rs:320-331 | read off the lines of the offer: the first telephone events at the codec's clock, else the first at any, else none |
| SdpChoice.RefusedFor | crates/wavekat-sip/src/sdp.rs:335-444 | a body is refused for the first thing it lacks: UTF-8, an address, a port, a payload type |
| SdpAgreement.PinnedReadsBack | crates/wavekat-sip/src/sdp.rs:195-444 | a pinned body parses to its own address, port and codec (Opus on 0 or 8 too), and to its own DTMF entry if and only if the two numbers differ |
| SdpAgreement.SelectedEventIsOffered | crates/wavekat-sip/src/sdp.rs:301-333 | the selected DTMF entry was offered, on the m= line, on a number that is no codec's |
| SdpAgreement.OpusIsAtItsNumber | crates/wavekat-sip/src/sdp.rs:386-444 | a selected Opus stands at the number the offer gave it |
| SdpAgreement.AnswerAgreesIff | crates/wavekat-sip/src/callee.rs:132-225 | every number of the answer was on the offer's m= line and means there what it means in the answer (section 6 of RFC 3264), and the answer reads back to the selected codec and DTMF entry, if and only if the offer listed the number the codec is answered on and meant that codec by it |
| SdpAgreement.AnswerAgrees | crates/wavekat-sip/src/callee.rs:132-225 | so it does for Opus always, and for G.711 offered at its static number |
| SdpAgreement.DynamicPcmuIsAnsweredElsewhere | crates/wavekat-sip/src/sdp.rs:393-396 | an offer of PCMU on number 96 that is answered on 0, which was not offered |
| SdpAgreement.ReboundPcmuIsAnsweredElsewhere | crates/wavekat-sip/src/sdp.rs:393-396 | an offer that lists 0 but binds it to another codec, and is answered with PCMU on 0 |
| SdpAgreement.AcceptOffer | crates/wavekat-sip/src/callee.rs:132-225 | whatever lines the offer was read from: Opus is answered at the first listed number that means Opus, else the codec of the first number that means one, and the offer is refused exactly if none does; with it go the telephone events first listed at 48000 or 8000, the codec's clock, else the first listed; later re-offers are pinned to the same |
| SdpAgreement.Call.SetHold | crates/wavekat-sip/src/caller.rs:119-160 | the version goes up by one with wrap-around, the re-offer ends in a=sendonly or a=sendrecv as asked, and the hold state changes only when the peer accepts |
| SdpAgreement.Call.SetHolds | crates/wavekat-sip/src/caller.rs:119-160 | any sequence: the i-th re-offer has version i above the first, modulo 2^32, and the direction asked for; the call is held as the last accepted one asked |
| SdpAgreement.VersionsRiseIff | crates/wavekat-sip/src/caller.rs:119-145 | the versions of n re-offers strictly increase if and only if they stay below 2^32 |
| SdpAgreement.ReoffersStayPinned | crates/wavekat-sip/src/caller.rs:119-160 | every re-offer parses to the answered codec, and to its DTMF entry if and only if that has another number, which it has wherever the answer agreed |
| SdpAgreement.FullOfferAgrees | crates/wavekat-sip/src/sdp.rs:195-261 | against this program's own full offer, of any direction and version, the answer agrees on Opus and 48 kHz events |
| SessionTimers.ParseSessionExpires | crates/wavekat-sip/src/session_timer.rs:134-152 | the loop reads the interval and the last readable refresher as specified |
| SessionTimers.HeaderValueReadsBack | crates/wavekat-sip/src/session_timer.rs:155-161 | a printed value parses to itself |
| SessionTimers.SidesAgree | crates/wavekat-sip/src/session_timer.rs:279-338 | the caller that reads the callee's echo has the same interval, the largest of 90, the asked and Min-SE; exactly one is the refresher, the callee exactly if it was named or the caller has no timer support |
| SessionTimers.Headroom | crates/wavekat-sip/src/session_timer.rs:251-264 | the watchdog waits at least a sixth of the interval longer than the refresher |
| SessionTimers.SessionTimerLoop | crates/wavekat-sip/src/session_timer.rs:393-478 | the loop on a clock: it takes exactly the run of the refresher or of the watchdog, with the interval floored at 90 |
| SessionTimers.Refreshes | crates/wavekat-sip/src/session_timer.rs:401-452 | the refresher wakes half its interval after each answer, unless cancelled before; its sends and outcome are those of the specified run; RefreshesAt gives the times in nanoseconds |
| SessionTimers.Watches | crates/wavekat-sip/src/session_timer.rs:454-477 | the watchdog lapses when its patience has passed since the last ping, unless pinged or cancelled before; WatchdogByeAt gives the patience in nanoseconds |
| SessionTimers.WatchdogByeAt | crates/wavekat-sip/src/session_timer.rs:258-264 | the watchdog's one BYE comes, in nanoseconds, (i - 32) * 10^9 after the peer's last refresh (or the start) for an interval i of 96 seconds or more, (i - i/3) * 10^9 for a shorter one, with i floored at 90 |
| SessionTimers.RefreshesAt | crates/wavekat-sip/src/session_timer.rs:251-256 | the first refresh goes out i/2 * 10^9 nanoseconds after the start, each next one half the interval then in force after the answer, a BYE at once after a refused or failed one; an uncancelled run leaves nothing out |
| SessionTimers.RefresherSends | crates/wavekat-sip/src/session_timer.rs:401-452 | over every run: each refresh asks for the interval the last answer left and goes out half of it after that answer; one BYE, last, exactly if a refresh failed |
| SessionTimers.WatchdogSends | crates/wavekat-sip/src/session_timer.rs:454-477 | over every run: one BYE, exactly on expiry, and no refresh |
| SessionTimers.WatchdogExpiresIff | crates/wavekat-sip/src/session_timer.rs:454-477 | uncancelled, the watchdog expires if and only if somewhere between the reset, the pings and the end its whole patience passes |
| SessionTimers.PlayRounds | crates/wavekat-sip/src/session_timer.rs:393-478 | the two loops on one clock, each refresh of the one pinging the other: the watchdog expires if and only if in some round the refresher's sleep and what is on its way take the watchdog's whole patience |
| SessionTimers.GrantsDecide | crates/wavekat-sip/src/session_timer.rs:251-264 | with exchanges shorter than half a second it never expires if and only if every interval that another refresh follows is refreshed before that patience ends |
| SessionTimers.NoFalseExpiry | crates/wavekat-sip/src/session_timer.rs:393-478 | over any number of rounds whose exchanges are shorter than half the headroom and which grant no longer interval, the watchdog never expires |
| SessionTimers.LongerGrantExpires | crates/wavekat-sip/src/session_timer.rs:424-432 | 1800 seconds granted against 90 make it expire |
| SessionTimers.LongerGrantInTime | crates/wavekat-sip/src/session_timer.rs:424-432 | 3000 against 1800 do not |
| Dialogs.BuildResponse | crates/wavekat-sip/src/stack/response.rs:26-94 | a response exists exactly if the To can be read, and then has the status asked for, the body given, and of each header kind exactly these: every Via, From, Call-ID, CSeq and Record-Route of the request as it stood, the To with the tag added if it had none, the Contact and Content-Type given, and one Content-Length |
| Dialogs.ResponseCarries | crates/wavekat-sip/src/stack/response.rs:26-94 | the same of the specified response |
| Dialogs.LengthIsRightIff | crates/wavekat-sip/src/stack/response.rs:84-86 | the announced length is that of the body exactly if the body is shorter than 2^32 bytes |
| Dialogs.ResponseReads | crates/wavekat-sip/src/stack/response.rs:26-94 | the built response has the request's Via, CSeq and route set, and the given To and Contact |
| Dialogs.ResponseFindsRequest | crates/wavekat-sip/src/stack/response.rs:26-94 | a response has the transaction key of its request, whenever the CSeq names the request's own method |
| Dialogs.Dialog.Confirm | crates/wavekat-sip/src/stack/dialog.rs:161-163 | only the flag changes |
| Dialogs.Dialog.NewRequestWith | crates/wavekat-sip/src/stack/dialog.rs:174-192 | the local number goes up by one and the request bears it |
| Dialogs.Dialog.Ack2xx | crates/wavekat-sip/src/stack/dialog.rs:199-201 | an ACK with the INVITE's number; the dialog does not change |
| Dialogs.Dialog.ComposeRequest | crates/wavekat-sip/src/stack/dialog.rs:206-273 | the header list grown is the specified one |
| Dialogs.DialogsMirror | crates/wavekat-sip/src/stack/dialog.rs:87-145 | caller and callee dialogs from one INVITE and its response have swapped tags and targets and reversed route sets; the caller goes on from the INVITE's number, the callee from 0 |
| Dialogs.ComposedReads | crates/wavekat-sip/src/stack/dialog.rs:206-273 | a composed request bears the dialog's identity, number, target, Contact and route set |
| Dialogs.ComposedCarries | crates/wavekat-sip/src/stack/dialog.rs:206-273 | of a composed request: verb, target and body as given, and of each header kind the dialog's own header, then the caller's, then the length of the body modulo 2^32 |
| Dialogs.RequestStaysMirrored | crates/wavekat-sip/src/stack/dialog.rs:174-273 | the i-th request of any run resolves to the other side's dialog, bears the set-up route set, or no Route of the dialog's if that is empty, and is numbered one above the number of requests other than ACKs before it; verb and body are those given |
| Dialogs.RunsStayMirrored | crates/wavekat-sip/src/stack/dialog.rs:51-59 | over every run, each request resolves to the other side's dialog, carries the route set of set-up, and its number is one above the last; ACKs take none |
| Registration.RequestedExpires | crates/wavekat-sip/src/registrar.rs:64-69 | the larger of the configured lifetime and the floor |
| Registration.RetryExpires | crates/wavekat-sip/src/registrar.rs:80-85 | a retry exactly if none was made, the request was no unregister and the minimum is larger |
| Registration.Registrar.UaRegister | crates/wavekat-sip/src/stack/ua.rs:133-187 | the requests sent and the outcome for any server: one more request, at the next number, exactly after an answerable first challenge |
| Registration.GrantIsKept | crates/wavekat-sip/src/stack/ua.rs:133-187 | registering succeeds exactly if its very last answer is a 2xx, and what is kept is the lifetime granted there, or the one the last request asked for |
| Registration.Registrar.Attempt | crates/wavekat-sip/src/registrar.rs:162-187 | the same from the stored number, which ends at the last number on the wire; a REGISTER that cannot be built uses one up and sends nothing |
| Registration.Registrar.RegisterWith | crates/wavekat-sip/src/registrar.rs:193-256 | everything sent, the outcome, the minima learned and the counters, for any server and account: a second exchange exactly after a 423 that names more than was asked |
| Registration.AllTriedAsks | crates/wavekat-sip/src/registrar.rs:193-256 | at most four requests, each for the requested lifetime or the one longer one, none longer for an unregister |
| Registration.Registrar.Register | crates/wavekat-sip/src/registrar.rs:153-159 | every request asks for at least the configured lifetime and the minimum named last; none is sent exactly if none can be built or the engine is gone; it succeeds exactly if the last answer is a 2xx, and then holds the lifetime granted there, or else the one asked for last |
| Registration.Registrar.Unregister | crates/wavekat-sip/src/registrar.rs:299-303 | every request asks for 0 |
| Registration.Registrar.ProbeServer | crates/wavekat-sip/src/registrar.rs:271-283 | one query at the next number, challenges not answered |
| Registration.UseRegistrar | crates/wavekat-sip/src/registrar.rs:153-303 | over any sequential use against any server the numbers on the wire strictly increase |
| CancelRaces.CancelAimsAtInvite | crates/wavekat-sip/src/stack/call.rs:136-176 | the CANCEL's target key is the INVITE's key, its own differs, and it copies what section 9.1 of RFC 3261 asks for; its number is the INVITE's, or 1 if that cannot be read |
| CancelRaces.AwaitFinalCancellable | crates/wavekat-sip/src/stack/ua.rs:436-485 | one CANCEL exactly if a provisional and the token were both processed before the end and the INVITE has the headers a CANCEL copies, sent when the second was; the final returned is the first one heard |
| CancelRaces.OneFinalOnTheWire | crates/wavekat-sip/src/callee.rs:83-247 | any interleaving of ring, accept, reject and CANCEL puts at most one distinct final on the wire |
| CancelRaces.CopyIsAnsweredMeanwhile | crates/wavekat-sip/src/stack/transaction/server_invite.rs:112-143 | in every interleaving of user, CANCEL and timers, a copy of the INVITE puts the response sent last on the wire again while the transaction proceeds or waits for its ACK, and has no other effect |
| CancelRaces.LateCancelIsIgnored | crates/wavekat-sip/src/endpoint.rs:402-423 | once the call is unregistered a CANCEL changes nothing, in every later state |
| CancelRaces.OneCancelAtMost | crates/wavekat-sip/src/endpoint.rs:402-423 | a CANCEL that found the call used its registration up; no second one is acted on |
| CancelRaces.FirstFinalWins | crates/wavekat-sip/src/callee.rs:132-247 | in every interleaving the first final handed to the transaction is the one accepted, it is on the wire, and nothing that happens later changes it |
| Routing.Router.Handle | crates/wavekat-sip/src/stack/ua.rs:490-529 | refines the pure router step |
| Routing.EachFlowItsShare | crates/wavekat-sip/src/stack/ua.rs:490-529 | a subscribed flow is handed exactly its own key's events, in order, up to the termination, whatever else is handled |
| Routing.NothingWithoutSubscription | crates/wavekat-sip/src/stack/ua.rs:490-529 | a flow without a subscription is handed nothing |
| Routing.RequestsReachTheEndpoint | crates/wavekat-sip/src/stack/ua.rs:506-513 | over every run of the router the endpoint is handed exactly the inbound requests, with key and sender, in order, whatever subscriptions come and go |
| EndpointRequests.EndpointIsHandedTheUnclaimed | crates/wavekat-sip/src/stack/ua.rs:506-513 | engine and router together, over every run: the endpoint is handed exactly the requests that matched no transaction when they arrived, the ACK of a 2xx among them, each once and in order |
| Routing.TerminationUnsubscribes | crates/wavekat-sip/src/stack/ua.rs:490-529 | a termination removes its key's subscription and no other |
| FlowEvents.FlowHearsItsClient | crates/wavekat-sip/src/stack/ua.rs:373-394 | engine and router together: a flow subscribed for a key when its client starts is handed a prefix of 1xx* (one final or TimedOut) Terminated and nothing after, over every run and however far behind the router is |

## Left out

- Sockets, tasks, channels and the wall clock: they are steps, queues in any order and an abstract clock; sends never fail and no channel is dropped unless the member says so.
- TLS, transport set-up, connection pooling and the writing side of streams: plumbing around libraries.
- Parsing and serializing of SIP messages and digest arithmetic: another library's. The framer takes the parser as a parameter, the REGISTER flow takes whether a challenge can be answered as part of the answer.
- Randomness: branches, tags, Call-IDs and sequence seeds are parameters; the SRV order is proved for every list of draws, so nothing is said about the generator that produces them.
- Strict routing, forking, PRACK and retransmission of a 2xx by the user: the repository does not implement them.
- Accounts, DTMF by INFO, REFER, the builders of REGISTER and INVITE bodies, keepalive scheduling, the User-Agent header, diagnostics and their timestamps, in-dialog routing other than CANCEL's, and the RTP receive loop: small code of one branch or mere formatting.
- Overflow of CSeq numbers and of sizes in memory: they are unbounded numbers. Wrap-around and saturation of RTP counters, DTMF durations, payload types, announced lengths and parsed numbers are modelled.
- Text of IP addresses: a printer and a reader given as parameters, of which the round trips assume that the reader reads what the printer prints and that an address has no blank in it.
- TimerRefinement.EngineRefinesIdeal: holds for runs in which no fire of an earlier owner of a key is heard, since the code does not refine cancellation without that (OldTimerIsHeard).
- InviteProtocol.OneServerOneFinal: speaks of runs with one server transaction, since a late copy of the INVITE opens a second (LateAckConfirmsAnother); FinalsAgreeIff has no such premise.
- InviteProtocol.FinalsAreCommitted: timers may fire at any moment, not only when due, so it holds of more runs than there are; the real times are in TransactionExit and Retransmission.
- Retransmission.SilentPeerNonInvite: gives the instants of Timer E while Trying; ClientNonInviteReplay.RequestIsRepeated gives the waits in Proceeding too, but not as instants of an engine run.
- SdpAgreement.Call.SetHold: the version wraps at 2^32 as in a release build; a debug build panics there instead.
- SdpAgreement.AnswerAgrees: for an offer whose selected codec is Opus or stands at its static number; AnswerAgreesIff gives the exact condition for all.
- SessionTimers.NoFalseExpiry: assumes that no answer grants a longer interval than agreed at the start, since the watchdog would not learn of it; PlayRounds and GrantsDecide give the exact conditions for all grants.
- SessionTimers.PlayRounds: the peer answers every refresh with a 2xx; the other replies are in Refreshes.
- Registration.UseRegistrar: one call at a time; two at once may read the same number, because the lock is released during the exchange.
- Dtmf.SendDtmfBurst: leaves out the 20 ms pauses between packets.
- Dialogs.RunsStayMirrored: about the requests of one side in the order they are composed; delivery in order, which UDP does not give, is not claimed.
- CancelRaces.OneFinalOnTheWire: about one server transaction of the INVITE.
- SoakTimes.SoaksItsTime: assumes that no fire of an earlier owner of the key is still to come for the same timer, since the engine could take it for the new owner's (OldTimerIsHeard).
- Framing.ReadTask: why reading ends (end of stream, failure, cancellation) is not distinguished; the chunks are those read until then.
