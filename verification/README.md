# LangStream core, modelled and proved

LangStream translates a phone or browser call live: speech is recognized, translated,
synthesized and played to the other side. This project models the parts of that service
that hold state or do arithmetic, and proves what they keep over all inputs, runs and
interleavings.

| file | what it models |
|---|---|
| JitterBuffer.dfy, JitterRuns.dfy | the jitter buffer over wrapping 16-bit sequence numbers, and the unbounded queue it refines |
| Feed.dfy, Pipeline.dfy | re-framing of synthesized audio, and the producer and ticking consumer interleaved |
| Fallback.dfy | the raw-audio ring, the degradation state and the passthrough chunks of one leg |
| Leg.dfy, LegSpeech.dfy, LegAudio.dfy, LegHealth.dfy | one leg's goroutine and its replacement as atomic steps, and what every step keeps |
| Session.dfy | both legs, the wait group, the context and any number of Close calls |
| Wer.dfy | the edit-distance table |
| Bleu.dfy | clipped n-gram counting |
| Collections.dfy | choosing from sets, adding to and removing from them, joining sequences, and the type of a byte string, for the other modules |
| Octets.dfy, WebSocket.dfy, WebSocketMessages.dfy, WebSocketRules.dfy | RFC 6455 frames and messages, and what is let pass that the RFC forbids |
| Rooms.dfy, RoomRuns.dfy, RoomPeers.dfy | join, leave and idle expiry of rooms, interleaved at every lock section |
| Breaker.dfy, Translate.dfy, AsrSession.dfy, AsrRuns.dfy, AsrConnections.dfy | the circuit breaker, a retry loop that settles with it, and a recognizer session that does |
| Percentile.dfy, ALaw.dfy | interpolated percentiles, A-law companding and outbound framing |

Objects used by one goroutine at a time, or under one lock per method, are classes whose
methods are proved against functions on their state. Code whose point is its
interleaving is a transition system: a value for the whole state, a predicate saying which
step is enabled, a function giving the state after it, and runs as sequences of states. A
`select` is a choice among enabled steps. Time, translator, synthesizer, recognizer and
network answers are inputs of the steps.

## Model

| member | source | states |
|---|---|---|
| Seq16.DeltaIsUnique | pkg/rtp/jitter.go:277-279 | the signed 16-bit distance is the one number in [-32768, 32768) that leads from b to a modulo 65536 |
| Seq16.DeltaOfSlots | pkg/rtp/jitter.go:271-279 | the distance of two wrapped slots is their true difference exactly if that lies in the half circle, and negative exactly if it lies in the far half |
| Jitter.Config.WithDefaults | pkg/rtp/jitter.go:122-133 | the result is usable, and a usable configuration is unchanged |
| Jitter.FurthestUnique | pkg/rtp/jitter.go:325-330 | the key evicted does not depend on the order the map is visited in |
| Jitter.JitterBuffer.constructor | pkg/rtp/jitter.go:264-269 | a new buffer is empty, unprimed and within its invariant |
| Jitter.JitterBuffer.FurthestSeq | pkg/rtp/jitter.go:325-330 | the loop finds the furthest of the buffered keys and the incoming one |
| Jitter.JitterBuffer.MakeRoom | pkg/rtp/jitter.go:320-337 | evicts the furthest of the buffered keys and the incoming one, and there is room exactly unless that is the incoming one |
| Jitter.JitterBuffer.Push | pkg/rtp/jitter.go:295-342 | the status and the whole new state, keeping the invariant |
| Jitter.JitterBuffer.Pull | pkg/rtp/jitter.go:349-373 | the result and the whole new state, keeping the invariant |
| Jitter.PushKeepsValid | pkg/rtp/jitter.go:295-342 | after any push every buffered key is 0 to 32767 ahead of nextSeq and the size is within the cap |
| Jitter.PullKeepsValid | pkg/rtp/jitter.go:349-373 | after any pull the same holds |
| JitterRuns.SlotOfWrap | pkg/rtp/jitter.go:277-279 | a sequence number stands for exactly one slot within 32768 of the next |
| JitterRuns.PushMatches | pkg/rtp/jitter.go:295-342 | one push is answered as the unbounded queue answers it, and the buffer goes on representing the queue |
| JitterRuns.PullMatches | pkg/rtp/jitter.go:349-373 | the same for one pull |
| JitterRuns.BufferRefinesQueue | pkg/rtp/jitter.go:277-382 | over any run with any sequence numbers the buffer gives the replies of a queue over unbounded slots; packets leave at strictly increasing slots, and Received is delivered plus evicted from the buffer plus still buffered |
| JitterRuns.HorizonIsExact | pkg/rtp/jitter.go:284-287 | the computed deadline is the nominal one for slots 0 to 32767 and for no later slot |
| JitterRuns.LossWithinHorizon | pkg/rtp/jitter.go:349-373 | after any run, within that horizon Pull says lost exactly if nothing is stored for the slot and its deadline has come, and waiting exactly if it has not |
| JitterRuns.EarlyLossPastHorizon | pkg/rtp/jitter.go:284-287 | at every slot past the horizon a missing packet is called lost before its nominal deadline |
| JitterRuns.HorizonIsReached | pkg/rtp/jitter.go:284-287 | under every configuration a run reaches that: one packet and 32768 pulls, after which the next slot is called lost one moment early |
| JitterRuns.FullBufferKeepsMostImminent | pkg/rtp/jitter.go:320-341 | a push at capacity keeps exactly the keys due first |
| Framing.FramesAppend | pkg/rtp/duplex.go:558-583 | framing a whole number of frames and then more is framing them together |
| Framing.CutIsInaudible | pkg/rtp/duplex.go:558-583 | pieces that are whole frames but for the last are played as their concatenation is |
| Feed.FeedIsFaithful | pkg/rtp/duplex.go:614-694 | for any chunks the payloads so far and the carry are exactly the input, the carry is shorter than 320 bytes, and every payload but the last of an utterance is a positive multiple of 320 |
| Feed.ClosedFeedPlaysUtterances | pkg/rtp/duplex.go:614-694 | once the channel closes, the payloads are exactly the input PCM and play as the utterances do, each padded only at its own end |
| Feed.SpokenBytes | pkg/rtp/duplex.go:614-694 | the utterances together are the chunks' PCM, nothing added or dropped |
| Feed.ChunkingIsInaudible | pkg/rtp/duplex.go:558-583 | two ways of chunking the same utterances play the same frames |
| Feed.TTSPacer.Push | pkg/rtp/duplex.go:618-637 | an empty payload changes nothing, any other is pushed under the next wrapped number and counted |
| Feed.ReceiveChunk | pkg/rtp/duplex.go:640-694 | one iteration of the producer loop does what the specification of one chunk says |
| Feed.FeedTTSPacer | pkg/rtp/duplex.go:614-694 | the loop pushes exactly the specified payloads, flushing the carry only when the channel closes |
| Feed.OnTick | pkg/rtp/duplex.go:730-761 | a tick skips lost slots, plays at most one payload and never pulls past what was pushed |
| Pipeline.EveryPayloadResolvedInOrder | pkg/rtp/duplex.go:614-761 | in every interleaving, over any number of wraps and with the backlog at each push below 32768, each payload is resolved once and in order, injected exactly if its own push was accepted and otherwise dropped after a capacity refusal |
| Pipeline.SmallBacklogInjectsPrefix | pkg/rtp/duplex.go:614-761 | with the backlog within MaxPacketsBuffered what was injected is a prefix of what was pushed |
| Pipeline.LateExactlyInFarHalf | pkg/rtp/jitter.go:295-342 | a push b slots ahead is refused as late exactly if b falls in the far half of the number circle, first at 32768 |
| Pipeline.PlaybackIsTheSpeech | pkg/rtp/duplex.go:614-761 | from chunks to playback: with everything resolved the frames played are those of the utterances |
| Ring.AudioRingBuffer.Push | pkg/langstream/fallback.go:374-392 | an empty frame is ignored, otherwise the newest frames up to the cap remain, and only the first stamps the utterance |
| Ring.AudioRingBuffer.UtteranceStart | pkg/langstream/fallback.go:397-401 | reads the stamp, zero exactly if the ring is empty |
| Ring.AudioRingBuffer.Drain | pkg/langstream/fallback.go:407-414 | returns everything and leaves the ring empty |
| Ring.EveryFrameInOnePlace | pkg/langstream/fallback.go:374-414 | over any run each non-empty frame is in exactly one place, and a batch is the last min(cap, k) of the k frames pushed since the drain before |
| Passthrough.BuildPassthroughChunks | pkg/langstream/fallback.go:646-667 | the loops build the specified chunks |
| Passthrough.BuildCarriesTheBatch | pkg/langstream/fallback.go:646-667 | an optional tone, then exactly the frames of the batch in order |
| Passthrough.EmptyBatch | pkg/langstream/fallback.go:646-667 | an empty batch makes one final chunk, the tone or silence |
| Passthrough.OnlyLastIsFinal | pkg/langstream/fallback.go:646-667 | IsFinal is on the last chunk and on no other |
| Health.LegState.RecordFailure | pkg/langstream/fallback.go:442-457 | the new count and degradation, and whether it is new |
| Health.LegState.RecordSuccess | pkg/langstream/fallback.go:460-462 | the count is zero and nothing else changes |
| Health.CountIsStreak | pkg/langstream/fallback.go:442-462 | consecutiveFailures is the number of non-fatal failures since the last success |
| Health.DegradedIffTripped | pkg/langstream/fallback.go:442-466 | a leg is degraded exactly if some failure was fatal or brought that number to the threshold |
| Health.ReportedExactlyAtFirstTrip | pkg/langstream/fallback.go:442-457 | degradation is reported at the first such failure and never again |
| Health.ReportedOnce | pkg/langstream/fallback.go:442-457 | over any calls the leg is degraded exactly if some call reports it, and no two do |
| LegSpeech.StepTakes | pkg/langstream/session.go:576-701 | every step of a leg leaves what was taken off the transcript queue in hand or logged, never lost and never doubled, and only receiving a final transcript adds to it |
| LegSpeech.StepOrderly | pkg/langstream/session.go:520-942 | every step of a leg keeps: one speaker at a time; what went out is the utterances one after the other, each a prefix of its plan and whole unless cancelled; final transcripts answered once, in order; nothing cut short except by cancellation |
| LegAudio.MarkAdded | pkg/langstream/session.go:591-606 | a drain belongs to one utterance, later than all before, or found nothing |
| LegAudio.StepPlaced | pkg/langstream/session.go:556-606 | every step keeps each pushed frame in one place: dropped by the cap, in the ring, or in the batch of exactly one utterance |
| LegHealth.StepHealthy | pkg/langstream/session.go:553-700 | every step keeps the health equal to what the utterances' outcomes make it and each decision fitting the health before it, and never undoes degradation |
| LegHealth.DegradedLegIsIdle | pkg/langstream/session.go:608-622 | a degraded leg is neither translating nor synthesizing |
| LegHealth.StepRecords | pkg/langstream/session.go:625-700 | every step of a leg keeps the calls recorded so far the ones its utterances' outcomes dictate |
| LegHealth.HealthIsItsVerdicts | pkg/langstream/session.go:625-700 | the health that any log of outcomes makes is the streak of the calls those outcomes dictate, and degraded exactly if one of them trips |
| LegHealth.SynthTroubleAlone | pkg/langstream/session.go:640-700 | over any log without other failures, non-fatal synthesizer failures degrade a leg exactly if there is one and the threshold is one |
| LegHealth.SynthTroubleSoFar | pkg/langstream/session.go:640-700 | the same at any point, with an utterance still in flight: degraded exactly if such a failure has occurred and the threshold is one |
| Session.StepCounts | pkg/langstream/session.go:521-571 | the wait group moves exactly with the goroutines alive, and only a counted goroutine acts |
| Session.RunsAreSound | pkg/langstream/session.go:379-424 | every state of every run of both legs, their replacements, cancellation and any Close calls keeps all of the above |
| Session.NothingSentAfterClose | pkg/langstream/session.go:379-424 | no outbound channel is closed twice, and nothing is sent on one once it is closed |
| Session.CloseReturnsAfterAll | pkg/langstream/session.go:360-370 | once any Close has returned no leg goroutine is alive, none acts again, and both channels were closed once |
| Session.EveryFinalHandledBeforeClose | pkg/langstream/session.go:379-424 | unless the context was cancelled while a leg was alive, when the channel closes every final transcript has had its one outcome, in order and each of its own, and what went out is exactly what those outcomes planned |
| Session.EveryFrameAccounted | pkg/langstream/session.go:591-606 | in every state the frames pushed are in order those dropped, drained and in the ring, each utterance holds the batch of a drain of its own, and that batch is the last cap frames before it |
| Session.NothingStartsAfterDegradation | pkg/langstream/session.go:608-622 | from degradation on a leg stays degraded and neither translates nor synthesizes |
| Session.ReplacedOnlyIfDiedUnprompted | pkg/langstream/session.go:528-571 | a leg gets a replacement only if its transcripts ended before Close had begun |
| Session.ReplacedLegIsDegraded | pkg/langstream/session.go:553-571 | a leg that is being replaced is degraded |
| Session.HealthIsTheStreak | pkg/langstream/session.go:625-700 | in every state of every run the failure count of a leg is the streak of the calls made so far, and it is degraded exactly if one of them trips |
| Session.DegradationReportedOnce | pkg/langstream/session.go:625-700 | over every run of a leg exactly one recordFailure call reports the degradation if the leg is degraded, and none if it is not |
| Session.SynthTroubleNeverAddsUp | pkg/langstream/session.go:640-700 | in every state of every run a leg with only non-fatal synthesizer failures so far is degraded exactly if there was one and the threshold is one |
| EditDistance.Neighbours | pkg/qa/wer.go:62-87 | neighbouring cells of the table differ by at most one, which justifies the shortcut on equal words |
| EditDistance.CheapestExists | pkg/qa/wer.go:62-87 | some edit script has the cost in the cell |
| EditDistance.NoScriptIsCheaper | pkg/qa/wer.go:62-87 | no edit script is cheaper |
| EditDistance.LevIsDistance | pkg/qa/wer.go:51-87 | the recurrence is the minimal cost over all scripts |
| EditDistance.Symmetric | pkg/qa/wer.go:51-87 | the distance is symmetric |
| EditDistance.Triangle | pkg/qa/wer.go:51-87 | the triangle inequality |
| EditDistance.Subadditive | pkg/qa/wer.go:51-87 | concatenation is subadditive |
| EditDistance.ZeroAndBounds | pkg/qa/wer.go:51-87 | zero exactly for equal sequences, and between the difference and the maximum of the lengths |
| Wer.FillRow | pkg/qa/wer.go:72-85 | the inner loop fills its row and touches no other |
| Wer.WordErrorRate | pkg/qa/wer.go:51-88 | the table method returns the distance over the reference length, and 0 or 1 for an empty reference |
| Wer.RateBounds | pkg/qa/wer.go:51-88 | the rate is zero exactly for equal texts, and lies within the bounds of the distance |
| Bleu.NGramCounts | pkg/qa/bleu.go:172-183 | the map holds each joined n-gram with its multiplicity |
| Bleu.ClippedNGramMatches | pkg/qa/bleu.go:189-206 | in any map order the sum is the size of the intersection of the two key bags |
| Bleu.JoinIsInjective | pkg/qa/bleu.go:172-183 | joining tokens without spaces loses nothing |
| Bleu.ClippedCountIsShared | pkg/qa/bleu.go:185-206 | the clipped count is the size of the intersection of the n-gram multisets |
| Bleu.SharedIsSymmetric | pkg/qa/bleu.go:185-206 | it is symmetric and at most either total |
| Bleu.SharedShrinksWithOrder | pkg/qa/bleu.go:121-154 | it never grows from order n to n+1 |
| Bleu.PieceMatchesInFull | pkg/qa/bleu.go:121-154 | a contiguous piece of the reference matches in full at every order |
| Bleu.Precisions | pkg/qa/bleu.go:126-148 | the loop computes the smoothed precision of every order up to min(4, candidate length) |
| Bleu.PrecisionRange | pkg/qa/bleu.go:126-148 | a precision is in (0, 1], and 1 exactly if every candidate n-gram is credited |
| Bleu.PieceScoresOne | pkg/qa/bleu.go:126-148 | a contiguous piece of the reference has precision 1 |
| WebSocket.MaskTwice | pkg/tts/cartesia_ws.go:216-280 | masking twice with the same key restores the payload |
| WebSocket.FrameRoundTrip | pkg/tts/cartesia_ws.go:186-281 | reading undoes writing for all three length encodings, masked or not, and leaves the bytes that follow |
| WebSocket.Conn.WriteWSFrame | pkg/tts/cartesia_ws.go:186-224 | the bytes written and the result, with a failing write at either point |
| WebSocket.WrittenFrame | pkg/tts/cartesia_ws.go:186-224 | a successful write puts exactly one encoded frame on the wire |
| WebSocket.Reader.ReadWSFrame | pkg/tts/cartesia_ws.go:232-281 | the reader returns what the parser specifies and consumes exactly that |
| WebSocketMessages.ReadWSMessage | pkg/tts/cartesia_ws.go:289-333 | the loop does what the recursive specification says, on the reader and on the wire |
| WebSocketMessages.StreamHolds | pkg/tts/cartesia_ws.go:232-281 | any frames under any masks parse back one by one, leaving the bytes that follow |
| WebSocketMessages.FramesAreRead | pkg/tts/cartesia_ws.go:289-333 | reading on from any point of an accepted sequence of frames delivers the rest of its data under its last start, answering its pings |
| WebSocketMessages.MessageHasFrames | pkg/tts/cartesia_ws.go:289-333 | conversely, from any point a delivered message comes from an accepted sequence of frames at the head of the input, of which it is the data |
| WebSocketMessages.MessageExactly | pkg/tts/cartesia_ws.go:289-333 | while writes succeed, a message is returned exactly if the input begins with an accepted sequence of frames whose data and last start it is |
| WebSocketMessages.FramesUnique | pkg/tts/cartesia_ws.go:289-333 | no input begins with two different accepted sequences |
| WebSocketMessages.ConformsExactly | pkg/tts/cartesia_ws.go:289-333 | of the accepted sequences exactly those conform to section 5.4 of RFC 6455 in which no start frame follows the first and no control frame is fragmented |
| WebSocketMessages.OneStart | pkg/tts/cartesia_ws.go:316-331 | a conforming message is delivered under the opcode it was begun with |
| WebSocketMessages.DeliveredAgainstRules | pkg/tts/cartesia_ws.go:289-333 | every message returned comes from frames that break section 5.4 exactly if they start again or fragment a control frame |
| WebSocketMessages.MessageRoundTrip | pkg/tts/cartesia_ws.go:282-333 | any message conforming to section 5.4, in any fragments under any masks with pings and pongs in between, is delivered whole under its own opcode, exactly its bytes consumed, one pong per ping in order |
| WebSocketMessages.PongsCarryPings | pkg/tts/cartesia_ws.go:305-312 | all the pongs on the wire parse back, in order, to final pong frames with the ping payloads, and nothing follows |
| WebSocketMessages.SecondStartIsSpliced | pkg/tts/cartesia_ws.go:313-331 | any sequence that starts again, however fragmented and masked, breaks section 5.4 and is delivered in one piece under its last start |
| WebSocketMessages.TextThenBinary | pkg/tts/cartesia_ws.go:313-331 | an instance: a text frame and a final binary frame come back as one binary message |
| WebSocketMessages.SplitPingIsAccepted | pkg/tts/cartesia_ws.go:305-312 | an instance of the other rule: a ping marked as a fragment is accepted |
| WebSocketRules.ReadIsEncodedExactly | pkg/tts/cartesia_ws.go:229-281 | the converse of FrameRoundTrip: what is read as a frame is an encoding of that frame under some mask exactly if its reserved bits are zero and its length is in the shortest form |
| WebSocketRules.WrittenClearExactly | pkg/tts/cartesia_ws.go:229-281 | a sequence of frames read was written by an unmasked encoder exactly if every header is so and no mask bit is set |
| WebSocketRules.MaySendExactly | pkg/tts/cartesia_ws.go:229-333 | what is read as a message is what a server keeping to sections 5.1, 5.2, 5.4 and 5.5 may send exactly if none of six rules is broken: no second start, no control frame fragmented or over 125 bytes, reserved bits zero, shortest lengths, no masks |
| WebSocketRules.LongPingIsAnswered | pkg/tts/cartesia_ws.go:305-312 | a ping of any length over 125 is accepted and answered by a pong of that length |
| Rooms.StepSound | pkg/webrtcgw/room.go:134-368 | every lock section keeps: open rooms are the ones stored, only the closing thread tears a room down, a session is closed at most once, the room limit holds, and no room reopens |
| RoomRuns.OneOpenRoomPerId | pkg/webrtcgw/room.go:210-368 | in every run an open room is the one stored under its id, so no late leave or expiry deletes an open room |
| RoomRuns.RoomsWithinLimit | pkg/webrtcgw/room.go:230-233 | a positive maxRooms is never exceeded |
| RoomRuns.ClosedForGood | pkg/webrtcgw/room.go:276-368 | a closed room stays closed and its session is closed at most once |
| RoomRuns.HauntedIffAddedLate | pkg/webrtcgw/room.go:139-156 | in every run a given room is closed and has a peer exactly if some join added one to that room after it was closed |
| RoomRuns.JoinIntoClosedRoom | pkg/webrtcgw/room.go:139-166 | a run in which a join adds a peer to an expired room |
| RoomRuns.LeaveReaches | pkg/webrtcgw/room.go:315-322 | a leave works on whatever is stored at its lookup, which is the peer's own room while that is open |
| RoomRuns.LateLeaveExactly | pkg/webrtcgw/room.go:315-345 | in every run a leave called for a peer of one room closes a room, that one or a newer one, exactly if its lookup found it stored and by its removal it is still open with the other slot empty; a newer one only if its own had been closed before |
| RoomRuns.ClosesExactly | pkg/webrtcgw/room.go:276-345 | of all steps of all threads exactly two close an open room: a leave that empties it and an expiry that finds it not full |
| RoomRuns.FullRoomStaysOpen | pkg/webrtcgw/room.go:276-345 | in every run a room with both peers survives every next step |
| RoomRuns.JoinTakesFreeSlot | pkg/webrtcgw/room.go:144-205 | a join takes a free slot, never displaces a peer, and stops the timer when it fills the room |
| RoomRuns.LeaveCloses | pkg/webrtcgw/room.go:324-345 | the removal of a leave closes its room exactly if that is open and its other slot is empty, and touches no other |
| RoomRuns.LateLeaveClosesNewerRoom | pkg/webrtcgw/room.go:315-368 | a run in which the second leave of an earlier peer closes and deletes the next call's room |
| RoomPeers.WrongPeerExactly | pkg/webrtcgw/room.go:315-345 | in every run the peer a leave takes out is another than the one it was called for exactly if it works on a newer room, or an earlier leave had already taken out its own; a peer loses its slot in an open room in no other way and never gets it back |
| RoomPeers.SecondNoticeTakesNextCaller | pkg/webrtcgw/room.go:315-345 | a run in which the second notice of a caller takes the next caller out of the same open room |
| RoomPeers.FilledRoomExpiresExactly | pkg/webrtcgw/room.go:276-300 | in every run an expiry that comes to an open room that has been full closes it exactly if a leave has taken a peer out since it was last filled |
| RoomPeers.ExpiryPastFilling | pkg/webrtcgw/room.go:190-256 | every such expiry stems from a timer that fired before the filling join took the lock, or that was armed only after it |
| RoomPeers.FilledRoomExpires | pkg/webrtcgw/room.go:276-300 | a run in which such an expiry closes a room after a call, with the caller still in it |
| Breaker.CircuitBreaker.Allow | pkg/asr/circuitbreaker.go:101-115 | admits exactly if closed, or cooled down with no probe outstanding |
| Breaker.CircuitBreaker.RecordFailure | pkg/asr/circuitbreaker.go:137-146 | the new state, opening or restarting the cooldown |
| Breaker.OpenIffStreakReaches | pkg/asr/circuitbreaker.go:101-164 | the breaker is open exactly when the failures since the last success reach the threshold |
| Breaker.MarkerExactly | pkg/asr/circuitbreaker.go:101-164 | the probe marker is set exactly while no call has settled since some admission to the open breaker |
| Breaker.AdmittedExactly | pkg/asr/circuitbreaker.go:101-115 | an allow is answered yes exactly if the breaker is closed, or it has cooled down and after every earlier probe some call has settled |
| Breaker.OneProbeAtATime | pkg/asr/circuitbreaker.go:101-164 | between two admissions to an open breaker some call settles |
| Breaker.LetInByEarlierCall | pkg/asr/circuitbreaker.go:101-164 | what is admitted while a probe is still out was let in by the settlement of a call admitted before that probe |
| Breaker.SecondProbeExactly | pkg/asr/circuitbreaker.go:101-164 | while the latest probe is still out, an allow to the open, cooled-down breaker puts a second probe beside it exactly if a call other than that probe has settled meanwhile |
| Breaker.TwoProbesOutstanding | pkg/asr/circuitbreaker.go:122-164 | a run, with the caller of every settlement, in which two probes are outstanding because a call admitted earlier cleared the marker |
| Breaker.CoolsDown | pkg/asr/circuitbreaker.go:101-115 | while open nothing is admitted before the cooldown after the last failure |
| Translate.Translate | pkg/translate/gpt4o.go:309-376 | an admitted call settles exactly once however it returns: success if some attempt got through, failure if all were used up, abort otherwise |
| AsrRuns.StepTold | pkg/asr/deepgram.go:430-531 | every lock section keeps: the breaker is told at most once and, once settled, by one goroutine |
| AsrRuns.StepSafe | pkg/asr/deepgram.go:607-774 | every lock section keeps: one teardown, and no send under way or to come when the channel is closed |
| AsrRuns.SettledOnce | pkg/asr/deepgram.go:430-531 | in every run a session that connected or was torn down has told the breaker once, or is just about to, and of a success exactly if it connected first |
| AsrRuns.NothingSentAfterClose | pkg/asr/deepgram.go:607-774 | the transcript channel is closed at most once and never sent to afterwards |
| AsrRuns.HoldsConnIffConnectedLate | pkg/asr/deepgram.go:471-498 | a closed session has a connection in s.conn exactly if a dial came back after it was closed |
| AsrConnections.NeverClosedExactly | pkg/asr/deepgram.go:471-774 | in every run, once the teardown has closed what it took, a connection is left unclosed exactly if it was installed after the close, or overwritten by another install, or put aside after a failed read |
| AsrConnections.OutlivesExactly | pkg/asr/deepgram.go:471-774 | a connection whose reading has not failed outlives the teardown exactly if it was installed after the close or overwritten by another install |
| AsrConnections.OneWriterOutlives | pkg/asr/interface.go:34-36 | with one PushAudio at a time no install overwrites a connection, and only one installed after the close outlives the teardown |
| AsrConnections.OverwrittenConnectionIsLeft | pkg/asr/deepgram.go:471-774 | a run in which two pushes both dial, and Close then waits for the reader of the overwritten connection, which nothing has closed |
| AsrRuns.FailedDialIsFatal | pkg/asr/deepgram.go:373-381 | after a failed dial the session is closed, or its failing goroutine is just about to close it |
| AsrRuns.OneRefusalEndsTheSession | pkg/asr/deepgram.go:373-381 | a run in which one refused dial of three allowed ends the session |
| AsrRuns.BackoffExactly | pkg/asr/deepgram.go:430-469 | in every run a goroutine goes into the backoff of another attempt exactly if it finds the session open, unconnected and with attempts counted below the maximum, which happens only between the counting and the closing |
| AsrRuns.SecondAttemptInTheGap | pkg/asr/deepgram.go:430-469 | a run in which a second push slips into that gap |
| AsrRuns.ClosedWithLiveConnection | pkg/asr/deepgram.go:471-498 | a run that ends closed with a connection in s.conn |
| Percentile.Percentile | pkg/observability/metrics.go:142-170 | sorts in place and returns the specified percentile |
| Percentile.PercentileMonotone | pkg/observability/metrics.go:140-170 | it never decreases in p, lies between the least and the greatest sample and reaches both at 0 and 100 |
| Percentile.EndsAreExtremes | pkg/observability/metrics.go:142-170 | the ends of the sorted list are the extremes of the samples |
| Percentile.OrderIsIrrelevant | pkg/observability/metrics.go:142-170 | it does not depend on the order of the samples |
| ALaw.AlawEncodeSample | pkg/webrtcgw/alaw.go:79-109 | the walking mask finds the segment, and the byte is the specified one |
| ALaw.DecodeEncode | pkg/webrtcgw/alaw.go:59-109 | encoding a decoded byte gives it back |
| ALaw.EncodeDecode | pkg/webrtcgw/alaw.go:59-109 | decoding an encoded sample is off by at most 8 if it is below 256, and otherwise by at most a 32nd of it |
| ALaw.AlawToPCM16 | pkg/webrtcgw/alaw.go:117-125 | the buffer loop decodes byte by byte |
| ALaw.Pcm16ToALaw | pkg/webrtcgw/alaw.go:134-142 | the buffer loop encodes every whole sample and ignores an odd trailing byte |
| ALaw.BufferRoundTrip | pkg/webrtcgw/alaw.go:117-142 | encoding a decoded buffer gives it back |
| ALaw.BufferError | pkg/webrtcgw/alaw.go:117-142 | decoding an encoded buffer keeps every sample within its error |
| ALaw.FramesCarryTheChunk | pkg/webrtcgw/peer.go:189-216 | the 320-byte pieces encode to the same bytes as the whole chunk |
| ALaw.SendChunk | pkg/webrtcgw/peer.go:200-213 | the loop writes those frames, stopping at the first failing write |

Where the code and its own comments differ, the code is followed:

- Every successful Translate resets the failure counter (pkg/langstream/session.go:644), so
  failures of the synthesizer never add up to the threshold although "repeated MT/TTS
  failures" are said to degrade a leg (LegHealth.SynthTroubleAlone).
- The deadline comment holds for 32768 slots only (JitterRuns.HorizonIsExact), and a buffer
  can get past them (JitterRuns.HorizonIsReached).
- roomFor promises never to add a peer to a closed room, but Join does not look at the flag
  again (RoomRuns.HauntedIffAddedLate), and leave finds a room by its id and not by the peer,
  so a late one can close the next call's room or take another peer out of the same one
  (RoomRuns.LateLeaveExactly, RoomPeers.WrongPeerExactly).
- The idle timeout is for rooms that never reach two peers, but one that has been full can
  still expire (RoomPeers.FilledRoomExpiresExactly, RoomPeers.ExpiryPastFilling).
- The breaker speaks of exactly one probe; a call admitted earlier can clear the marker, and
  exactly then a second probe goes out beside the first (Breaker.SecondProbeExactly,
  Breaker.TwoProbesOutstanding).
- Teardown closes only the connection in s.conn. One that a dial installs after the close is
  left open, and so is one that a second dial overwrites, which takes two concurrent pushes
  where StreamSession asks for one writer (AsrConnections.OutlivesExactly,
  AsrConnections.OneWriterOutlives).
- The reconnect backoff promises several dial attempts, but the first failed dial closes the
  session (AsrRuns.FailedDialIsFatal, AsrRuns.OneRefusalEndsTheSession); another attempt needs
  a second push in a narrow gap (AsrRuns.BackoffExactly, AsrRuns.SecondAttemptInTheGap).
- The WebSocket reader enforces section 5.4 of RFC 6455 but for two rules: a start frame inside
  a message is spliced into it, and a fragmented control frame is taken as a whole one
  (WebSocketMessages.ConformsExactly, WebSocketMessages.SecondStartIsSpliced). Nor does it
  look at reserved bits, the form of lengths, masks or the size of control frames
  (WebSocketRules.MaySendExactly).

## Left out

- Session, room and recognizer concurrency is modelled on values, lock section by lock section; memory order below the level of locks, channels and atomics, and channel capacities, are not captured.
- Progress: that Close, a leg or a session eventually finishes is not stated, only what holds whenever they do.
- Latency samples, and the utterance start time read just before a drain, which serve nothing else.
- The waiting of one breaker call for the other inside a session and the sharing of a breaker between sessions: the breaker is proved for any sequence of calls, a session for the one call it makes.
- Start and Stop of the RTP duplex session, and the voice-activity bridge.
- Width of time: durations are unbounded integers, so overflow of 64-bit nanoseconds is not modelled; nor is a wrap of the 32-bit failure counter.
- Packet timestamps of the jitter buffer, which it never looks at.
- BLEU beyond the precisions: logarithm, exponential and brevity penalty.
- Floating-point rounding and NaN in percentiles, error rates and precisions, which use exact reals.
- Splitting text into tokens; tokens are given.
- WebSocket dialing and handshake, and the random source of masking keys, which are given as a function of how many were drawn.
- Vendor HTTP, SSE and JSON: an attempt, a dial or a message is an answer given to the step.
- Whether an error is fatal, and the defaulting of the fallback configuration: the verdict and the numbers are inputs.
- The waveform of the warning tone, which is a parameter.
- Peer connections, signaling and media engines; a peer is known by the join that added it.
- The second recognizer, the second translator and the other two copies of the breaker, which repeat code modelled here.
- Metrics counters, cost accounting, logging, dashboards, personas, voices, corpora and command lines: easy members.
