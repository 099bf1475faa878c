# A verified model of the Kalshi client's protocol code

The Kalshi Python client carries a FIX engine written by hand and a REST transport. This
project models the parts of both whose correctness no single branch shows, and proves what
they promise over all inputs, whole runs and every order of events.

- **Codec** (`Bytes`, `Codec`, `RoundTrip`, `RoundTripExact`, `AcceptedFrames`, `FieldLoop`,
  `NegativeLengths`): `encode`, the field loop with its length-prefixed data fields, and `decode`.
  Integers are read with Python's `int` (signs, spaces, single underscores) and slices follow
  Python's rules for negative positions. It is said exactly which field lists survive the round trip,
  which bytes `decode` accepts and when the field loop ends; one changed byte before the checksum is
  always caught.
- **Parser and transport** (`Parser`, `ParserStream`, `ParserDecisions`, `ParserSlices`, `Chunking`,
  `Connection`): `FixParser` as the class it is, editing its buffer in place. Frames between arbitrary
  junk come out exactly, for every way of cutting the stream into chunks. On arbitrary bytes what is
  returned decodes from disjoint slices of the stream, in order, no header is lost unless it was
  judged, and the only thing that depends on timing is one guard.
- **Session** (`Session`, `FixSession`, `SessionSafety`, `FatalNumbers`, `Logons`, `Replies`,
  `ResendDiscipline`, `OutboundNumbers`, `ArrivalOrder`, `GapRecovery`, `GapLosses`, `ResumeStall`):
  sequence numbers in both directions, the out-of-order buffer, gap recovery, resets, logon and reconnect.
  `Session` gives each step as a function on the state, `FixSession` is the class that performs
  the steps and is proved to follow them, and the other modules prove: deliveries at most once and
  in order over whole runs, no outbound number used twice, resend requests only for new gaps,
  independence of arrival order, gap recovery between two sessions and what it loses.
- **Liveness and backoff** (`Liveness`, `Backoff`): what a silent peer meets and when, how long we
  can be silent ourselves, and how long reconnecting can sleep.
- **Replicas** (`BookLog`, `BookView`, `OrderBook`, `BookHistory`, `BookMessages`, `Settlement`): the
  order book against the log of single level writes and the messages' own entries, and settlement
  reassembly against per-symbol concatenation, both for arbitrarily interleaved histories.
- **REST** (`Transport`, `TransportOutcomes`, `Pagination`, `Headers`): the retry loop, the
  cursor-cycle guard and the case-insensitive header merge.

Properties of the code that a reader may not expect are proved as such, with an input that shows
each and the condition for it:

- The round trip is promised for well-framed lists and holds for exactly the lists that
  `RoundTripExact.RoundTripIff` describes. With negative lengths it fails for a family of lists
  (`NegativeLengths.RoundTripFails`), though one counted from the end of the frame can be right.
- A negative declared data length can move the field cursor backwards: fields are read twice or the
  loop never ends (`NegativeLengths.FrameNeverDecoded`). It never ends exactly if two turns are sent
  back to one place, and ends on all bytes without a minus sign (`FieldLoop`).
- A BodyLength text longer than the guard allows is an error or not depending on how the stream is
  cut (`ParserStream.LateSohMatters`); `Chunking` says exactly when cutting shows.
- A logon reply in order can leave a held message at or below the watermark
  (`SessionSafety.LogonReplyKeepsAbove` says exactly when), and the session then stalls (`ResumeStall`).
- The resend flag can outlive the gap it was set for, and the next gap is then not asked for
  (`SessionSafety.FlagOutlivesReconnect`, `SessionSafety.GapAskedIff`).
- Application messages written before the gap-fill are lost, on any connection that starts behind;
  `GapLosses` says exactly which.
- After 1024 cursors a cycle of two goes unnoticed (`Pagination.LongCycleUnnoticed`).
- The signed headers may be laid over the merged ones by a plain dict update exactly as long as no
  key differs from one of them in case only (`Headers.PlainUpdateIff`), which the checks on the other
  layers ensure (`Headers.SignedUpdateIsMerge`).

Checking: `dafny verify dfyconfig.toml`.

## Model

| member | source | states |
|---|---|---|
| Bytes.PyIntText | kalshi/fix/codec.py:93-98 | `int` reads back every integer that `str` writes, and the text holds neither delimiter |
| Codec.ParseFields | kalshi/fix/codec.py:104-160 | the cursor loop computes the recursive parse of the whole input, errors and re-read fields included; it is stopped where it would go round forever |
| FieldLoop.LoopsIff | kalshi/fix/codec.py:116-160 | that outcome is given if and only if the bare loop takes turn after turn without end |
| FieldLoop.LoopsIffSentBackTwice | kalshi/fix/codec.py:116-160 | for all bytes the field loop never ends if and only if two of its turns use a negative length that points back, to the same place |
| FieldLoop.EndsUnlessPointedBack | kalshi/fix/codec.py:116-160 | on all bytes on which no turn uses a negative length that points back, the field loop ends |
| FieldLoop.EndsWithoutMinus | kalshi/fix/codec.py:116-160 | on all bytes without a minus sign the field loop ends |
| NegativeLengths.FrameNeverDecoded | kalshi/fix/codec.py:61-209 | inputs on which it does not: for any message type and data, `encode` makes a frame with a length of -11 on which `decode`, and the parser that is fed it, never return |
| NegativeLengths.RoundTripFails | kalshi/fix/codec.py:61-209 | inputs on which the round trip fails: with a length of -4 `encode` accepts the list, `decode` accepts the frame, and what it reports has the data field twice, once as empty |
| RoundTrip.EncodeAccepts | kalshi/fix/codec.py:74-91 | `encode` accepts exactly the non-empty lists that start with MsgType, have no computed tag, and hold SOH only in data values |
| RoundTrip.EncodeRefuses | kalshi/fix/codec.py:74-91 | a refused list gets the objection to its first offending field, computed tag before embedded SOH, and only then the one to a missing MsgType |
| RoundTrip.DataSurvives | kalshi/fix/tags.py:207-210 | raw data and signatures of any bytes, SOH included, come back as they were |
| RoundTrip.DecodeEncode | kalshi/fix/codec.py:61-209 | for every well-framed list that `encode` accepts, decoding gives BeginString, BodyLength, the very same fields (also data values with SOH in them), CheckSum |
| RoundTripExact.RoundTripIff | kalshi/fix/codec.py:61-209 | for every list that `encode` accepts, whatever its lengths: `decode` gives it back if and only if each value is free of SOH, or is a data value whose length field, right before it, gives its size, counted from the front or, if more follows, from the end of the frame |
| RoundTripExact.RoundTripIffNotNegative | kalshi/fix/codec.py:61-209 | among accepted lists without a used negative length exactly the well-framed ones come back |
| RoundTripExact.NegativeLengthRoundTrips | kalshi/fix/codec.py:135-142 | the two differ: a list with a length of -37 that is not well framed and comes back unchanged |
| RoundTrip.EncodeInjective | kalshi/fix/codec.py:61-101 | two well-framed lists with the same frame are the same list |
| RoundTrip.BodyParses | kalshi/fix/codec.py:104-160 | the field loop recovers every well-framed list from its bytes, from any position |
| RoundTrip.SealedFrameChecks | kalshi/fix/codec.py:171-205 | the framing checks pass on every sealed frame, whatever bytes its body holds |
| RoundTrip.CursorAdvancesIff | kalshi/fix/codec.py:116-159 | a turn leaves the loop at or before its place if and only if it uses a negative length that points there, counted from the front or, past the front, from the end; otherwise it moves on within the data |
| RoundTrip.DecodedIsWellFramedIff | kalshi/fix/codec.py:163-209 | whatever bytes `decode` accepts, the fields it reports are well framed (data fields of the declared size, no SOH in other values) if and only if no length that something follows is negative |
| AcceptedFrames.CheckedIff | kalshi/fix/codec.py:171-205 | the checks of `decode` pass on exactly the frames: "8=", "9=" with the length of the body, the body, "10=" with the sum of all before it, each ended by SOH |
| AcceptedFrames.ParsedIff | kalshi/fix/codec.py:104-160 | for any bytes: without used negative lengths the field loop gives a list if and only if it is well framed and the bytes spell it, tags in any spelling `int` reads, with nothing left over |
| AcceptedFrames.AcceptedIff | kalshi/fix/codec.py:163-209 | so `decode` accepts exactly the frames that spell a well-framed list, and reports that list |
| RoundTrip.ByteSumUpdate | kalshi/fix/codec.py:99-101 | changing one byte changes the byte sum by the difference, for any length |
| RoundTrip.SingleByteChangeDetected | kalshi/fix/codec.py:171-188 | changing any one byte before the CheckSum field of an accepted frame makes `decode` raise, for its BeginString or its checksum |
| Parser.FindMarker | kalshi/fix/codec.py:302-308 | the first occurrence of the marker, and there is none if it reports none |
| Parser.IterateShrinks | kalshi/fix/codec.py:298-369 | every `continue`, raise and returned frame takes bytes off the buffer, so calling again after errors terminates |
| Parser.NextMessageRest | kalshi/fix/codec.py:288-369 | a call leaves a suffix of the buffer, strictly shorter if it raised or returned |
| Parser.FixParser.Append | kalshi/fix/codec.py:284-286 | the buffer grows by the chunk and stays a suffix of all that was appended |
| Parser.FixParser.SeekMarker | kalshi/fix/codec.py:302-310 | bytes before the first marker are dropped, or all but the last byte when there is none |
| Parser.FixParser.ReadAtMarker | kalshi/fix/codec.py:312-369 | from a marker on: wait, skip, raise or hand over, and exactly those bytes dropped from the front |
| Parser.FixParser.GetMessage | kalshi/fix/codec.py:288-369 | the in-place loop returns what the functional step says, keeps the suffix invariant, and its buffer is what that step leaves |
| Parser.FixParser.Messages | kalshi/fix/codec.py:371-378 | all frames up to the first call that waits; if a call raises, the frames collected before it are lost |
| ParserStream.FirstLiveHeader | kalshi/fix/codec.py:298-369 | a call is decided by the first header whose span does not fail to decode, whatever markers and headers come before it |
| ParserStream.NoLiveHeader | kalshi/fix/codec.py:298-369 | without such a header a call waits |
| ParserStream.FrameIsSlice | kalshi/fix/codec.py:298-369 | on arbitrary bytes a returned message decodes from a slice of the buffer, what is kept is what follows the slice, and every header lost before it was passed over |
| ParserStream.WaitKeepsOpenHeader | kalshi/fix/codec.py:298-369 | when a call waits, the first header not passed over is the front of what is kept |
| ParserStream.RaiseDropsOneMarker | kalshi/fix/codec.py:328-351 | when a call raises it does so on a header before which all were passed over, and drops up to that header's marker and no more |
| ParserDecisions.RaisesIff | kalshi/fix/codec.py:325-351 | a call raises an error if and only if the first header not passed over is in it: no "9=", ten bytes of a length without an end, a length that is no integer, or one outside 0 to 1,000,000 |
| ParserDecisions.PassedIff | kalshi/fix/codec.py:353-367 | a header is passed over if and only if its length is plausible, its whole span is there and `decode` refuses it |
| ParserDecisions.WaitingMeans | kalshi/fix/codec.py:349-355 | a header kept while waiting, once its length is complete, has one from 0 to 1,000,000 and its span is not all there |
| ParserDecisions.WaitingShort | kalshi/fix/codec.py:302-341 | otherwise what is kept is at most a byte, an unfinished header, or a length of fewer than ten bytes without an end |
| ParserStream.NextMessageExtends | kalshi/fix/codec.py:288-369 | bytes that come later do not change a call that has been decided, and do not need what a waiting call dropped |
| Chunking.ChunkingIrrelevantIff | kalshi/fix/codec.py:284-369 | for arbitrary bytes and any chunking, draining after each chunk gives the messages and errors of the uncut stream if and only if the guard on an unfinished BodyLength never fires with a delimiter still to come; what is left in the buffer is then the same too |
| Chunking.AnyChunkingIff | kalshi/fix/codec.py:284-369 | a stream is read the same under every chunking if and only if the guard fires on none of its front parts that a delimiter comes after |
| Chunking.InTimeIsEnough | kalshi/fix/codec.py:334-341 | it is so for every stream in which each header's BodyLength ends within ten bytes, a condition on the bytes alone |
| ParserStream.LateSohMatters | kalshi/fix/codec.py:334-341 | why that exception: for every over-long but plausible length text, cutting the stream inside it raises and not cutting it does not |
| ParserStream.NoStraddle | kalshi/fix/codec.py:302-323 | no occurrence of the header starts in header-free junk and ends in what follows: the header cannot overlap itself |
| ParserStream.FrameTurn | kalshi/fix/codec.py:312-369 | a frame at the front of the buffer is returned as its decoding and exactly its bytes are taken |
| ParserStream.CutFrameTurn | kalshi/fix/codec.py:312-355 | a frame cut anywhere past its header is waited for and nothing is dropped |
| ParserStream.FramesComeOut | kalshi/fix/codec.py:284-378 | junk and frames in any chunks: after every chunk the messages so far are the decodings of the frames complete by then, in order, and no error |
| ParserStream.AllComplete | kalshi/fix/codec.py:284-378 | at the end of the stream every frame has come out, each as its own decoding |
| ParserSlices.FeedSlices | kalshi/fix/codec.py:284-369 | any bytes in any chunks, past all errors: each returned message decodes from its own slice of the stream, the slices are disjoint and in order, and the buffer is the end of the stream behind them |
| ParserSlices.CollectIsDrain | kalshi/fix/codec.py:371-378 | `messages` returns what draining gives up to the first error and raises that error; without one it returns all and leaves the same bytes |
| Connection.FixConnection.ReadMessage | kalshi/fix/connection.py:86-105 | the refill loop returns the next message, framing error, end of stream or read failure of buffer and socket, and leaves the rest for the next call |
| Connection.ReadingIsFeeding | kalshi/fix/connection.py:86-105 | reading until the peer closes or the socket fails gives exactly the events of feeding the parser chunk by chunk, and says which it was |
| Connection.FramesAreRead | kalshi/fix/connection.py:86-105 | end to end: successive reads return the decodings of the frames sent, in order, and then the end of the stream |
| FixSession.FixSession.SendMessage | kalshi/fix/session.py:266-300 | a number is taken before the write and stays taken if the write fails; a closed connection takes none |
| FixSession.FixSession.SendGapFillFrom | kalshi/fix/session.py:302-332 | the gap-fill goes out under the number asked for, takes no number, and its NewSeqNo is above that number |
| FixSession.FixSession.AskResend | kalshi/fix/session.py:660-665 | one ResendRequest from the watermark per raised flag; the flag stays up if the write fails |
| FixSession.FixSession.ProcessMessage | kalshi/fix/session.py:588-658 | what each kind of in-order message does, with a Reject for a malformed one |
| FixSession.FixSession.ApplyResetForward | kalshi/fix/session.py:554-565 | the watermark moves forward only, buffered messages below it go, an empty buffer clears the flag |
| FixSession.FixSession.DrainPending | kalshi/fix/session.py:567-586 | the loop does the recursive drain; its measure is the size of the buffer |
| FixSession.FixSession.HandleSequenceReset | kalshi/fix/session.py:520-552 | resets apply or are held; a gap-fill ahead of the watermark is fatal without retransmission |
| FixSession.FixSession.HandleInbound | kalshi/fix/session.py:479-518 | in order, behind, ahead, unnumbered: new state and failure of each case |
| FixSession.FixSession.RenumberIfDue | kalshi/fix/session.py:353-362 | a non-retransmission session, or one that has never logged on, starts a new numbering with an empty buffer and the flag down; any other keeps all of it |
| FixSession.FixSession.ConnectAndLogon | kalshi/fix/session.py:341-423 | the reset policy, the logon and its reply |
| FixSession.FixSession.ReadLogonReply | kalshi/fix/session.py:382-423 | which replies are refused, which advance the watermark and which reveal a gap |
| FixSession.FixSession.ReconnectWith | kalshi/fix/session.py:704-737 | the attempts are tried in turn until one logs on, the session is no longer wanted, or none is left |
| FixSession.FixSession.ReceiveMessage | kalshi/fix/session.py:429-477 | a sequence error closes the session, a failed reply reconnects, anything else goes on |
| FixSession.FixSession.StartWith | kalshi/fix/session.py:212-226 | a started session is left alone; a failed logon leaves the session closed |
| FixSession.FixSession.Close | kalshi/fix/session.py:228-243 | a Logout is tried from ACTIVE only; the session ends closed whether or not it goes out |
| Session.DrainOneShrinks | kalshi/fix/session.py:567-584 | every turn of the drain loop, failing or not, makes the buffer smaller |
| Session.ProcessKeeps | kalshi/fix/session.py:588-658 | processing a message touches neither numbering, buffer nor flag |
| SessionSafety.StepSafe | kalshi/fix/session.py:212-737 | every step of a session keeps: deliveries strictly increasing and below the watermark, and a non-empty buffer on RT/PT has a resend request behind it |
| SessionSafety.RunSafe | kalshi/fix/session.py:212-737 | over any run with reconnects and failed writes: each number of an epoch is handed to `on_message` at most once, in increasing order |
| SessionSafety.RunAdvances | kalshi/fix/session.py:357-416 | between any two moments of a run the watermark does not fall within an epoch, the delivery log only grows, and an RT/PT session keeps its epoch once it has logged on |
| FatalNumbers.FatalMessageCloses | kalshi/fix/session.py:453-457 | a gap without retransmission (a gap-fill ahead included), or a lower number not marked as a repeat on any session, ends a running session: closed, not running, the socket shut, nothing delivered, written or moved |
| FatalNumbers.MarkedRepeatIgnored | kalshi/fix/session.py:495-498 | a lower number marked as a repeat changes nothing |
| FatalNumbers.RunHoldsNothing | kalshi/fix/session.py:507-518 | over any run a session without retransmission that is running holds nothing back |
| FatalNumbers.GapEndsRun | kalshi/fix/session.py:507-518 | and a gap ends it, at whatever moment of whatever run it comes |
| Logons.RunLogons | kalshi/fix/session.py:353-378 | over every run each logon written asks for a reset if and only if it is number 1, a session that cannot resume writes no other kind, and each gap-fill's NewSeqNo is past its own number |
| Logons.RunResumes | kalshi/fix/session.py:353-362 | once a session resumes, none of its later logons asks for a reset |
| Logons.AttemptIff | kalshi/fix/session.py:341-423 | a logon gets through if and only if the socket opens and the reply is a Logon in order or without a number, or ahead where messages can be sent again; and exactly what it leaves in either case |
| Logons.StartIff | kalshi/fix/session.py:212-226 | a session runs after `start` if and only if it did before or its logon gets through; otherwise it is closed |
| Logons.ReconnectIff | kalshi/fix/session.py:704-737 | after losing its link a running session runs on, active on an open socket, if and only if a wanted attempt gets through before an unwanted one; it is closed when all have failed |
| Replies.InOrderEffect | kalshi/fix/session.py:588-658 | what each kind of message in order brings about: watermark, delivery, the exact answer written, and a Logout closing the session |
| Replies.UnreadableIgnored | kalshi/fix/session.py:487-490 | a message without a readable number, and a reset that cannot be read, change nothing |
| Replies.ResetEffect | kalshi/fix/session.py:551-565 | a reset, whatever its number, and a gap-fill that is not ahead move the watermark forward at once and never back |
| Replies.HeldIsInOrder | kalshi/fix/session.py:492-586 | messages of any kind held until they are next have the effect of arriving in order: same deliveries, same answers under the same numbers, same failure at the same place |
| Replies.FailedAnswerReconnects | kalshi/fix/session.py:457-472 | an answer that fails takes its number and leads to the reconnect that losing the link does |
| Replies.CloseEffect | kalshi/fix/session.py:228-243 | closing ends closed, with a Logout written exactly from an active session on an open link |
| SessionSafety.HandleKeepsAbove | kalshi/fix/session.py:479-586 | every handled message, also one that fails, keeps the whole buffer above the watermark |
| SessionSafety.LogonReplyKeepsAbove | kalshi/fix/session.py:389-416 | a logon reply keeps it exactly unless it is in order and the number after it is held |
| SessionSafety.HandleAsks | kalshi/fix/session.py:507-586 | a ResendRequest is written only when the buffer turns from empty to non-empty, on RT/PT, and from the current watermark |
| SessionSafety.LogonReplyAsks | kalshi/fix/session.py:392-423 | the same for a logon reply |
| SessionSafety.GapAskedIff | kalshi/fix/session.py:507-511 | a message ahead of the watermark is asked for if and only if the flag is down and the write goes through |
| SessionSafety.FlagOutlivesReconnect | kalshi/fix/session.py:357-362 | a run in which the flag survives a resuming reconnect with nothing buffered, so the next gap is held and not asked for |
| ResumeStall.StallIsReached | kalshi/fix/session.py:389-395 | a run in which a logon reply in order leaves the next message held at the watermark with the flag up |
| ResumeStall.StallPersists | kalshi/fix/session.py:479-518 | from there any sequence of messages ahead is only held: nothing is delivered, nothing asked for, the watermark stays |
| ResumeStall.ResentLeavesTwin | kalshi/fix/session.py:492-586 | the awaited message sent again leaves its held copy behind, below the watermark |
| ResumeStall.StaleAsksNothing | kalshi/fix/session.py:507-586 | and with such a copy the flag stays up and no gap is asked for, whatever is handled short of a reset |
| ResendDiscipline.StepAsksOnce | kalshi/fix/session.py:420-477 | every step, through failures and all attempts of a reconnect, writes at most one ResendRequest, last, from the watermark, with something held, and within an epoch only when nothing was held or asked for before |
| ResendDiscipline.RunAsksOnce | kalshi/fix/session.py:660-665 | so does each step of every run |
| OutboundNumbers.RunNumbered | kalshi/fix/session.py:266-300 | at every moment of every run the numbers written in the present epoch strictly increase and are below the next one, and each number below it has been either written or lost with a failed write, never both; gap-fills apart |
| OutboundNumbers.FailedNumberNotReused | kalshi/fix/session.py:271-275 | a number taken by any write that failed stays lost as long as the epoch lasts, and nothing is written under it, before or after |
| ArrivalOrder.ArrivalStep | kalshi/fix/session.py:479-586 | one arrival in any order, repeated or not, leaves the session settled on the first missing piece; it fails only for a late unmarked application message |
| ArrivalOrder.SettledThroughout | kalshi/fix/session.py:479-586 | after every arrival the watermark is the first missing piece, exactly the pieces past it are held, and exactly those before it are delivered |
| ArrivalOrder.AnyOrder | kalshi/fix/session.py:479-586 | once every piece of the range has come, in any order with any repetitions, the watermark is at its end, nothing is held and each application message has been delivered once |
| ArrivalOrder.HandedIsAscending | kalshi/fix/session.py:492-511 | what is delivered are the application messages' numbers, ascending, each once |
| ArrivalOrder.WatermarkIsFirstUncovered | kalshi/fix/session.py:479-586 | the watermark of a settled session is the first number no arrived message accounts for |
| GapRecovery.PlayHealthy | kalshi/fix/session.py:302-332 | no interleaving of sends and receives between two sessions makes either fail, and the recovery invariant holds throughout |
| GapRecovery.GapCloses | kalshi/fix/session.py:520-586 | once all in flight is received and the answering side has spoken, the requester expects exactly its next number, holds nothing and has no request outstanding |
| GapRecovery.ResumedHealthy | kalshi/fix/session.py:392-423 | a resuming logon whose reply is ahead enters recovery with one request for its gap |
| GapLosses.DeliveredExactly | kalshi/fix/session.py:479-586 | from any logon, resumed with a held reply or not, over any interleaving: once all is received the requester's log has grown by exactly the answering side's application messages numbered from the gap-fill's NewSeqNo on, or by all of them if there was no gap |
| GapLosses.NothingLostIff | kalshi/fix/session.py:302-332 | of the messages written since the start, nothing is lost if and only if there was no gap or no application message is written before the gap-fill; those numbered inside the gap were written before it and are not counted |
| GapLosses.GapNeverDelivered | kalshi/fix/session.py:302-332 | nothing numbered inside the gap is ever delivered on the connection |
| GapLosses.ResumedBegins | kalshi/fix/session.py:392-423 | the resuming logon whose reply is ahead is such a start, with its gap asked for |
| GapLosses.LossIsReached | kalshi/fix/session.py:554-565 | from any logon behind with nothing held, one application message and the recovery: it is never delivered, nothing is held and the watermark is past it |
| GapLosses.CrossingLoss | kalshi/fix/session.py:554-565 | the same from any start whose gap is already asked for: a message that crosses the request is lost |
| Liveness.HeartbeatTask.TakeSample | kalshi/fix/session.py:671-698 | one turn of the heartbeat loop, with the heartbeat, the probe and the drop |
| Liveness.HeartbeatTask.Watch | kalshi/fix/session.py:671-698 | the loop over the times its sleeps end is the fold of single samples |
| Liveness.SampleEffect | kalshi/fix/session.py:72-88 | by the peer's silence: what a sample sends, drops and remembers; afterwards our last message is less than an interval old |
| Liveness.SilentPeer | kalshi/fix/session.py:671-698 | a silent peer gets exactly one TestRequest, at a silence in [h, 1.5h), and loses the socket at one in [2h, 2.5h), whatever else is sent in between |
| Liveness.SilentAgain | kalshi/fix/session.py:449-450 | after any history every receipt starts this anew: the next silence is probed again |
| Liveness.SampleActs | kalshi/fix/session.py:679-695 | all that a sample does on an open socket, in order: a heartbeat exactly at an interval without a send, a drop exactly from two of silence, a probe exactly from one if none is out |
| Liveness.NeverSilent | kalshi/fix/session.py:671-698 | while the socket is open the gap between outbound messages stays below 1.5h, whatever else is sent and received |
| Backoff.TotalSleep | kalshi/_base_client.py:158-168 | n full-jitter delays sum to at most n times the cap and at most base times (2^n - 1) |
| Backoff.CeilingGrows | kalshi/_base_client.py:167 | the window starts at the base and doubles until it reaches the cap |
| Backoff.JitterSpans | kalshi/_base_client.py:168 | every delay from 0 to the window can be drawn |
| Backoff.Reconnect | kalshi/fix/session.py:704-737 | at most `max_retries` attempts, each after its own draw; how it ends says what its attempts met; the total sleep is within both bounds |
| BookLog.HasBookIff | kalshi/fix/orderbook.py:189-204 | a market has a book exactly if its log has a snapshot with no drop or clear after it |
| BookLog.LevelIff | kalshi/fix/orderbook.py:99-176 | a book shows a size at a price exactly if that is the last write to the level and nothing that decides on the level comes after it |
| BookLog.OthersDoNotMatter | kalshi/fix/orderbook.py:126-176 | a market's book is the same with all steps of other markets left out |
| BookLog.SnapshotForgets | kalshi/fix/orderbook.py:99-124 | from a snapshot on, a market's book does not depend on any earlier state |
| BookLog.LevelAfter | kalshi/fix/orderbook.py:126-176 | playing writes leaves each level at the last size written to it, or as it was, and seeds no market |
| OrderBook.FixOrderBook.ApplySnapshot | kalshi/fix/orderbook.py:99-124 | the market's book is replaced by the seed and valid writes of the message; without a symbol nothing happens; a non-positive size writes nothing |
| OrderBook.FixOrderBook.ApplyIncremental | kalshi/fix/orderbook.py:126-176 | all books afterwards are those of playing the message's writes in order, and the count is that of the entries applied to seeded markets |
| OrderBook.FixOrderBook.Get | kalshi/fix/orderbook.py:189-192 | the sorted view of the market's book, or none |
| OrderBook.FixOrderBook.Remove | kalshi/fix/orderbook.py:198-200 | drops this market's book and no other |
| OrderBook.FixOrderBook.Clear | kalshi/fix/orderbook.py:202-204 | drops all books |
| OrderBook.SnapshotReplaces | kalshi/fix/orderbook.py:112-124 | playing a snapshot's steps over any books replaces that market's book and no other |
| BookMessages.IncrementalLevel | kalshi/fix/orderbook.py:136-175 | after an incremental each level of a market with a book is as the last Change or Delete of it says: gone after a Delete or a Change to no positive size, else of the Change's size; and as it was if there is none |
| BookMessages.CountIs | kalshi/fix/orderbook.py:135-176 | the count is that of the entries for markets with a book that have a known type, a price and a known action |
| BookMessages.SnapshotLevel | kalshi/fix/orderbook.py:108-124 | after a snapshot its market has the levels its entries with known type, price and positive size set last, no others, and no other market has changed |
| BookMessages.BookShowsLevels | kalshi/fix/orderbook.py:99-204 | over any history a market that has a book shows at every price what the messages since its last snapshot say last |
| BookView.ViewSorted | kalshi/fix/orderbook.py:76-83 | the view lists exactly the levels, bids strictly descending, offers strictly ascending |
| BookHistory.AfterIsLog | kalshi/fix/orderbook.py:178-204 | after any history of messages, removals and clears the books are those of its log |
| BookHistory.BookIffSnapshot | kalshi/fix/orderbook.py:189-204 | `get` finds a book exactly if there has been a snapshot since the last remove or clear |
| BookHistory.AlwaysPositive | kalshi/fix/orderbook.py:119-168 | whatever is received, every stored size is positive |
| BookHistory.SplitIncremental | kalshi/fix/orderbook.py:126-176 | an incremental cut into two messages leaves the same books, and the counts add up |
| BookHistory.RepeatedIncremental | kalshi/fix/orderbook.py:126-176 | an incremental applied twice leaves the books of applying it once, and counts the same |
| BookHistory.ViewReplays | kalshi/fix/orderbook.py:76-124 | a view fed back as a snapshot into a fresh set of books gives the same book |
| Settlement.SettlementReassembler.Add | kalshi/fix/settlement.py:56-82 | new buffers and returned report for every fragment, and with them the run's history extended by one |
| Settlement.SettlementReassembler.PendingSymbols | kalshi/fix/settlement.py:84-86 | exactly the symbols whose history has an open batch |
| Settlement.SettlementReassembler.Clear | kalshi/fix/settlement.py:88-99 | nothing stays buffered |
| Settlement.HistoryDecides | kalshi/fix/settlement.py:56-99 | what is buffered for a symbol are the parties since its last terminal fragment or clear, read backwards off the history |
| Settlement.ReturnsOwnBatch | kalshi/fix/settlement.py:69-82 | a terminal fragment returns itself with its own open batch in front, other fields unchanged; a fragment that announces more returns nothing |
| Settlement.FlagDecides | kalshi/fix/settlement.py:69-82 | by the flag on the wire: `N` returns nothing, and is dropped without a symbol; `Y` or none returns the report, unchanged if its symbol has no batch open |
| Settlement.Conservation | kalshi/fix/settlement.py:56-82 | per symbol, parties returned and then parties buffered are all parties fed, in order |
| Settlement.Isolation | kalshi/fix/settlement.py:56-99 | the output for one symbol is that of its own fragments alone |
| Settlement.InterleavedBatches | kalshi/fix/settlement.py:56-82 | any batches of a symbol, interleaved in any way with other reports, come out one report each with exactly its own parties |
| Transport.Request | kalshi/_base_client.py:302-440 | every attempt but the last was one to retry, with its own delay and within budget; the last was not, and decides the outcome |
| Transport.OnlyLastMayCommit | kalshi/_base_client.py:318-400 | for a verb outside GET, HEAD and OPTIONS every attempt but the last ended in PoolTimeout or ConnectError |
| TransportOutcomes.SuccessReached | kalshi/_base_client.py:302-400 | without a budget the first success, among as many replies as there are attempts, after failures that may be gone on from is what a request returns: for GET, HEAD and OPTIONS any timeout, transport error, pool timeout or listed status, for other verbs those that never reached the wire |
| TransportOutcomes.AllAttemptsMade | kalshi/_base_client.py:302-435 | where all fail so, every attempt is made and the last failure raised |
| TransportOutcomes.StopsIff | kalshi/_base_client.py:334-424 | a request stops at an attempt if and only if it is the last it may make, its reply is none to go on from, or the sleep would go past the budget; and the sleep otherwise |
| TransportOutcomes.OthersRaised | kalshi/_base_client.py:388-404 | any other failure is raised at once |
| TransportOutcomes.HintHonoured | kalshi/_base_client.py:416-424 | the sleep after a 408, 429, 504 or other 5xx is at least the Retry-After it carries, as far as the cap allows |
| Transport.FallsThroughIff | kalshi/_base_client.py:437-440 | the code after the loop is reached if and only if the retry count is negative |
| Transport.ReturnsIff | kalshi/_base_client.py:302-400 | a request returns if and only if some attempt succeeded |
| Transport.SleepsWithinBudget | kalshi/_base_client.py:171-175 | no sleep ends after the total timeout |
| Transport.SleepBounds | kalshi/_base_client.py:406-424 | each sleep is at most the cap and at least the server's hint as far as the cap allows |
| Transport.TotalSleepWithoutHints | kalshi/_base_client.py:158-168 | without hints a request's sleeps sum to at most n times the cap and base times (2^n - 1) |
| Pagination.ListAll | kalshi/resources/_base.py:400-456 | items yielded, cursors sent and the ending are those of the page-by-page definition, for any server |
| Pagination.ListingShape | kalshi/resources/_base.py:430-456 | a listing yields the items of every page received, also of the one whose cursor repeats, sends the cursor of the page before each time, and ends as the last page says |
| Pagination.RepeatsIff | kalshi/resources/_base.py:446-455 | the guard objects exactly to a cursor among the first 1024 issued or equal to the one before |
| Pagination.NoCursorTwice | kalshi/resources/_base.py:430-456 | no cursor among the first 1024 is sent twice and none is sent twice in a row |
| Pagination.StopsInTime | kalshi/resources/_base.py:430-456 | a server with K at most 1025 cursors, deterministic or not, is asked for at most K + 1 pages; `LongCycleUnnoticed` shows it fails for 1026 |
| Pagination.LongCycleUnnoticed | kalshi/resources/_base.py:453-455 | past 1024 cursors an alternation of two others is never caught, for as long as the server replies |
| Pagination.ChainListed | kalshi/resources/_base.py:434-456 | on a repeat-free chain the items are those of all pages, or of the first `max_pages` |
| Headers.CiMerge | kalshi/_base_client.py:196-216 | the result holds exactly the last entry of every class of keys equal but for case, as it is spelt there |
| Headers.OneSpellingEach | kalshi/_base_client.py:196-216 | no two keys of a merge are equal but for case, and every key of every layer is represented |
| Headers.OneMerge | kalshi/_base_client.py:196-216 | the layers determine the merge |
| Headers.PlainUpdateIff | kalshi/_base_client.py:296-307 | updating the merge with the signed headers is merging them as the last layer if and only if no key differs from one of them in case only |
| Headers.SignedUpdateIsMerge | kalshi/_base_client.py:179-193 | for layers without reserved keys, as the checks ensure, laying the signed headers over the merge is always the full merge, and every signed header is kept |

## Left out

- ParseFields: a loop of the source that never ends is an outcome, `Loops`, given at the first repetition; the list the source keeps extending meanwhile is not.
- GapCloses: the gap is in one direction, what the two sides send of their own are application messages and heartbeats, and the connection stays up; test requests, gaps in both directions at once and losses during recovery are not covered.
- DeliveredExactly: from the start of a connection, with the limits named at `GapCloses`; what happens to messages when the connection is lost during recovery is not covered.
- Request: takes the headers, the signature and the body as given; only the verb, the replies and the clock decide what it does.
- Text beyond latin-1: values are the byte strings that latin-1 makes of them, and the encoding error for other text is not modelled; nor is Python's limit on the number of digits `int` accepts.
- The `begin_string` parameters of `encode` and `FixParser` are fixed at FIXT.1.1.
- `RawMessage` lookups and its redacted text form; parsing of typed message classes. A field the session cannot parse is a value of its own (`None`, `Garbled`).
- Sockets, TLS, timeouts and task scheduling: every write has an outcome taken from a parameter, every read and logon reply comes from one, and the steps of the tasks are interleaved one whole step at a time.
- Clocks and random draws: exact reals given as parameters; a sleep takes exactly as long as asked.
- Logon signatures and key loading: foreign cryptography.
- Callbacks: `on_message` is the log of deliveries, its exceptions are swallowed as in the source; `on_state_change` is supposed not to raise; `on_decode_error` is not modelled.
- The heartbeat task while the session is not ACTIVE, where it does nothing.
- Prices and sizes are exact reals; NaN and the spelling a dict keeps for equal decimals are not modelled, nor is the order of keys in a merged header dict.
- Reading a Retry-After header and error bodies: a hint is a number of seconds or absent.
- The async transport and async resources: the same logic as the synchronous ones.
- Resource wrappers, configuration checks, Pydantic models, the WebSocket client and logging: members that would be easy.
