# libcaffeine: a verified model

libcaffeine broadcasts an application's video and audio to Caffeine.tv. This project models the
parts of it that carry state, loops and arithmetic of their own, and proves what they promise:
`dafny verify dfyconfig.toml` checks everything.

| file | models |
|---|---|
| `Lifecycle.dfy` | one broadcast as a protocol between the owner calling `start`/`stop`, the broadcast thread, the media threads and the websocket thread |
| `LifecycleRuns.dfy` | what a whole run of that protocol did: the thread's script, why it ends, what it logs and reports |
| `FailureDispatch.dfy` | how an `Instance` starts and ends broadcasts: application threads, the mutex, the serial queue of failure tasks |
| `Subscription.dfy` | the stage subscription: message handler, ended handler, reconnects |
| `Heartbeat.dfy` | the heartbeat loop of a live broadcast |
| `Session.dfy` | sign-in data of an `Instance` over sequential API calls |
| `AnnexB.dfy` | the byte-stream format of Annex B of ITU-T H.264, with its decoding process (section B.2) |
| `Fragmenter.dfy` | `rtpFragmentize`: the two-pass copy of NAL units and the fragment table |
| `Encoder.dfy` | the x264 encoder wrapper: handle, buffer, pts counter, target frame rate |
| `VideoCapturer.dfy` | frame-rate limiter and size arithmetic of the video capturer |
| `Targets.dfy` | the limits `start` derives from the service's encoder settings |
| `AudioDevice.dfy` | the 10 ms audio re-chunker |
| `RestApi.dfy` | request retries and backoff |
| `Policy.dfy` | aspect-ratio check and title normalisation |
| `Common.dfy` | shared value types |

How to read it:

- Objects the source updates in place are classes (`X264Encoder`, `EncodedImage`, `AudioDevice`,
  `VideoCapturer`, `StageSubscriber`, `Instance`), loops are loops, and every method is proved
  against a specification function of the old state. The laws over whole sequences of calls are
  lemmas about those functions.
- What several threads do to one broadcast or one instance is a state machine: a step is what one
  thread does between two points where others can run, `Enabled` says when it can be taken,
  `Apply` what it does, and the theorems quantify over every sequence of enabled steps.
- `{:induction false}` marks the lemmas on which Dafny would start an induction of its own; their
  bodies are the proofs.
- Foreign calls (HTTP, WebRTC, x264, libyuv, the JPEG writer, user callbacks) are choices: their
  answers are parameters of a step, a call or a method.

What the proofs say about the code where it is less than obvious:

- The check before the last `StopBroadcast` (src/Broadcast.cpp:557) can never see `Offline`,
  because `stop()` joins before it stores `Offline`; this is what makes the request reliable.
- Being live does not mean that `StartBroadcast` was accepted: a refused one is reported and the
  broadcast goes on (`Lifecycle.RefusedStartGoesLive`). What was refused stays refused
  (`Lifecycle.LiveAndAcceptedExactly`), and whether it goes live depends on `stop()` alone
  (`Lifecycle.GoesLiveExactly`).
- The failure task checks and ends in two critical sections, so the failure of one broadcast can
  end another one, whose user is told nothing (`FailureDispatch.FailureCanEndAnother`). It ends its
  own exactly if the application does not call `endBroadcast` in between, and another exactly if
  it does and has started that one since (`FailureDispatch.EndsOwnExactly`).
- The caps are not kept by every delivered picture, because rescaling is decided on the height
  alone and both sides are rounded up. Under all caps `start` can set, the width cap is exceeded by
  at most 3 columns and the height cap by at most 1 row, and only if it is odd
  (`VideoCapturer.DeliveredNearCaps`); caps of 2163x721 reach both
  (`VideoCapturer.OddCapsExceeded`). From 360 columns up,
  `VideoCapturer.WiderThanCapExactly` gives the sizes delivered wider than the cap rounded up to
  even. The default cap of 1280 is exceeded by at most 2 (`VideoCapturer.DeliveredBounds`).
- After a throw out of the fragmenter the next frame reuses its pts (`Encoder.ThrowRepeatsPts`);
  the pts values count up from 0 exactly as long as no frame follows a throw
  (`Encoder.PtsCountUp`).
- The limiter, set for 30 frames per second, lets through at most 32 in less than a second, and 63
  when set for 60; `VideoCapturer.FramesPerSecond` and `VideoCapturer.BurstPasses` give this maximum
  for every rate up to 998. A stream paced at the rate loses nothing
  (`VideoCapturer.PacedLosesNothing`).
- `stop()` drops the subscription before it joins, so one can be set up behind it: by the broadcast
  thread's first statement or by an ended handler behind its last check. This is possible exactly if
  one of these was pending when `stop()` was called (`Lifecycle.HeldBehindStopExactly`).
- Annotating a title is idempotent exactly when the trimmed title is not cut right behind a space
  (`Policy.AnnotateSettles`).

## Model

| member | source | states |
|---|---|---|
| Lifecycle.Protocol | src/Broadcast.cpp:439-569 | over every interleaving: the started callback, StartBroadcast and StopBroadcast happen at most once each and in that order; StopBroadcast only after stop() was called; a started broadcast whose thread returns other than through its failure exits sends exactly one StopBroadcast; the final check never sees Offline; both promises are fulfilled at most once; no frame is taken before Streaming; Live implies a sent screenshot, an open subscription and a sent StartBroadcast; a thread that returns before stop() was called has reported a failure |
| Lifecycle.RunKeepsInv | src/Broadcast.cpp:157-569 | every run of the owner's, the broadcast thread's, the media threads' and the websocket thread's steps keeps the protocol's invariant |
| Lifecycle.StateMoves | src/Broadcast.cpp:85-95 | over every run the state only moves Offline to Starting to Streaming to Live, from any of the last three to Stopping, and from Stopping to Offline |
| Lifecycle.NeverOnlineAgain | src/Broadcast.cpp:562-569 | once Stopping is stored the broadcast is never online again, whatever is scheduled |
| Lifecycle.NothingAfterStop | src/Broadcast.cpp:562-569 | after stop() has returned the thread has finished and no startedCallback, request or state change follows; other threads may still report failures |
| Lifecycle.ThreadWindsDown | src/Broadcast.cpp:383-569 | once Stopping is stored the broadcast thread takes at most 17 more steps in any schedule |
| Lifecycle.ThreadNeverStuck | src/Broadcast.cpp:565-567 | the broadcast thread can always take a step until it has finished, and then the join completes |
| Lifecycle.GoesLiveExactly | src/Broadcast.cpp:484-498 | in every reachable state behind StartBroadcast the next step goes live exactly if stop() has not been called, whatever StartBroadcast answered |
| Lifecycle.LiveAndAcceptedExactly | src/Broadcast.cpp:484-498 | over every interleaving a run that ends live contains exactly one StartBroadcast, which was accepted or refused as the state then says, and a refused one has been reported |
| Lifecycle.RefusedStartGoesLive | src/Broadcast.cpp:484-498 | a run from the start whose StartBroadcast is refused, reported once, and which is live |
| Lifecycle.SetUpsBehindStop | src/Broadcast.cpp:562-570 | over every interleaving behind the store of Stopping, the subscriptions set up and those still pending are together those pending when it was stored |
| Lifecycle.HeldSince | src/Broadcast.cpp:562-570 | once stop() has dropped the subscription, one is held exactly if it has been set up since |
| Lifecycle.HeldBehindStopExactly | src/Broadcast.cpp:562-570 | some schedule of stop() returns with a subscription held exactly if, when it was called, the broadcast thread had not made its first set-up or an ended handler had passed its last check and not yet reconnected |
| Lifecycle.ScreenshotLatch | src/Broadcast.cpp:584-606 | over every interleaving of concurrent sendVideo calls at most one thread wins the screenshot, and the promise is set at most once |
| LifecycleRuns.ThreadFollowsScript | src/Broadcast.cpp:188-498 | over every interleaving, what an unfinished broadcast thread has done is the twelve-step script up to where it is, each foreign call but StartBroadcast having succeeded; a live broadcast's thread has done all of it |
| LifecycleRuns.EndsOnlyForAReason | src/Broadcast.cpp:188-555 | over every interleaving without stop() and without a failing call or wait the thread does not return: a heartbeat that goes well goes round the loop |
| LifecycleRuns.FailureEndsThread | src/Broadcast.cpp:188-555 | once a step of the thread has failed, the thread returns with the exit that belongs to it, after too many failed heartbeats by way of the final check |
| LifecycleRuns.ChecksSeeStop | src/Broadcast.cpp:85-95 | in every state of the invariant each of the five checks of the state goes by whether stop() was called and by nothing else |
| LifecycleRuns.OthersCanAct | src/Broadcast.cpp:571-590 | in every state of the invariant frames are looked at exactly between Streaming and stop(), and a retry passes its check exactly between the first set-up and stop() |
| LifecycleRuns.LogIsActions | src/Broadcast.cpp:484-558 | over every run the callback, StartBroadcasts and StopBroadcasts seen are those of the steps taken, in order |
| LifecycleRuns.FailuresCounted | src/Broadcast.cpp:188-555 | over every run every failing step is reported, none twice, and nothing else but a missing promise, a state that moved on or a takeover is |
| LifecycleRuns.MediaIs | src/Broadcast.cpp:584-606 | over every run the latch is taken exactly if a frame was claimed for, every frame is claimed for at most once, and the promise holds what its winner set |
| LifecycleRuns.RetriesConserved | src/Broadcast.cpp:767-812 | over every run each retry that passed its last check has set up one subscription or is about to |
| LifecycleRuns.NoFrameBehindStop | src/Broadcast.cpp:571-590 | behind the store of Stopping no frame is taken and none rejected |
| LifecycleRuns.FeedIsSubscription | src/Broadcast.cpp:716-737 | over every run the subscription state and its promise are those module Subscription gives for the messages received |
| FailureDispatch.Dispatch | src/Instance.cpp:179-224 | over every interleaving: stop() is called and returns at most once per broadcast, the failed callback runs at most once per broadcast and only after that broadcast was detached, stopped and joined; every broadcast but the current one is gone |
| FailureDispatch.RunKeepsInv | src/Instance.cpp:179-224 | the invariant of mutex, worker and broadcasts that carries the theorem is kept by every run |
| FailureDispatch.FailureReachesUser | src/Instance.cpp:194-206 | in every schedule without an endBroadcast of the application, a failed broadcast whose task has been taken is gone and its user has been told exactly once after five steps of handling it; before that the user has not been told and the next such step can be taken |
| FailureDispatch.PassedIsTold | src/Instance.cpp:194-206 | in every schedule whatever, a failure that passed the check is not dropped: its user has been told once, or not yet and the worker is still at it |
| FailureDispatch.EndsOwnExactly | src/Instance.cpp:196-204 | over every run, a failure that passed the check ends its own broadcast exactly if the application called no endBroadcast between the two critical sections, and another exactly if it did and a broadcast was started since the last one was detached; that one is later |
| FailureDispatch.StaleFailurePassed | src/Instance.cpp:196-203 | a reachable state between the two critical sections in which the checked broadcast is gone and another one runs |
| FailureDispatch.FailureCanEndAnother | src/Instance.cpp:196-204 | from there the failure ends the other broadcast, which reported nothing and whose user is not called |
| FailureDispatch.NeverStuck | src/Instance.cpp:194-224 | while failures wait or a broadcast is being ended, the worker or the holder of the mutex can go on |
| FailureDispatch.HandledInOrder | src/Instance.cpp:194-206 | over every run the tasks taken and those still queued are the failures reported, in order |
| FailureDispatch.WorkerFinishes | src/Instance.cpp:194-206 | over every run the worker takes at most three steps of its own for a task, passed or dropped |
| FailureDispatch.Exclusive | src/Instance.cpp:194-224 | while a broadcast is being ended nobody else starts, checks or ends one |
| Subscription.StageSubscriber.constructor | src/Broadcast.hpp:107-109 | nothing seen, promise unfulfilled, first connection with try number 1 |
| Subscription.StageSubscriber.SetupSubscription | src/Broadcast.cpp:703-828 | a new connection with the given try number; the subscription state is not touched |
| Subscription.StageSubscriber.MessageHandler | src/Broadcast.cpp:708-765 | the handler's effect on the fields and the failures it reports are those of the specification Step |
| Subscription.StageSubscriber.EndedHandler | src/Broadcast.cpp:767-812 | the handler's sleeps and reconnects are those of the specification Step |
| Subscription.Find | src/Broadcast.cpp:724-726 | found exactly if our feed is among the feeds |
| Subscription.StateIsWhatWasSeen | src/Broadcast.cpp:716-737 | after any history of messages and reconnects the state says exactly which of payload, our feed, our feed on a live stage has been seen, and the promise was fulfilled once if any payload was |
| Subscription.NeverBackwards | src/Broadcast.cpp:716-737 | the state never goes back along a history, reconnects included, and the promise is fulfilled at most once |
| Subscription.TakeoverExactly | src/Broadcast.cpp:738-756 | a takeover is reported exactly if our feed is missing though an earlier message had it and we are online, or the stage is not live though an earlier message had our feed on it live and we are live; errors are reported as a failed broadcast, and nothing else is reported |
| Subscription.RetriesCount | src/Broadcast.cpp:767-812 | the try number is one more than the failures since the last fresh set-up; over the messages and ends of connections, one exists exactly if every end so far found the broadcast active at all its checks |
| Subscription.SleepOfFailure | src/Broadcast.cpp:792-794 | the k-th consecutive failure of an active broadcast sleeps min(1 + k, 20) seconds, and nothing else sleeps |
| Subscription.SleepsOfFailureRun | src/Broadcast.cpp:792-802 | the sleeps of the current run of failures are exactly the backoff delays 1 to k |
| Heartbeat.Run | src/Broadcast.cpp:498-555 | heartbeats happen exactly in the turns divisible by 50; quality is that of the last successful reply; updates are the changes along Unknown and the successful replies; a failure is reported at the first heartbeat with a reason, and which one |
| Heartbeat.Beat | src/Broadcast.cpp:521-554 | one heartbeat extends these summaries by its reply and reports Disconnected or BroadcastFailed exactly when they call for it |
| Heartbeat.DisconnectsExactly | src/Broadcast.cpp:503-553 | a heartbeat disconnects exactly if it and the five before it failed |
| Heartbeat.TrailingFailuresMeaning | src/Broadcast.cpp:526-549 | the failure counter is at least n exactly if the last n heartbeats failed |
| Heartbeat.LastQualityIs | src/Broadcast.cpp:525-533 | the quality is that of the last heartbeat that was answered |
| Heartbeat.UnknownAtFirst | src/Broadcast.hpp:102 | and Unknown before there is one |
| Heartbeat.ChangesExactly | src/Broadcast.cpp:530-545 | the feed is updated exactly for an answer other than the last one before it, or other than Unknown if it is the first, and a failed update is reported exactly then |
| Heartbeat.UpdatesAreDifferences | src/Broadcast.cpp:530-538 | the number of updates is that of such answers |
| Session.Instance.constructor | src/Instance.cpp:47-76 | a new instance is signed out |
| Session.Instance.Authenticate | src/Instance.cpp:104-122 | new state and result are those of Step, and sign-in data stays all set or all unset |
| Session.Instance.StartBroadcast | src/Instance.cpp:157-210 | new state and result are those of Step; a broadcast refers to the credentials that are set |
| Session.Instance.EndBroadcast | src/Instance.cpp:217-224 | the broadcast is gone, nothing else changes |
| Session.Instance.FailureTask | src/Instance.cpp:195-205 | ends the broadcast only if it is the one that failed |
| Session.Instance.SignOut | src/Instance.cpp:124-129 | no broadcast and no sign-in data is left |
| Session.RunKeepsInv | src/Instance.cpp:104-224 | over every run refresh token, credentials and user info are all set or all unset, and a broadcast uses the very credentials that are set |
| Session.SignedInExactly | src/Instance.cpp:104-131 | everything is set exactly if the last deciding call was a sign-in with user info, otherwise everything is unset and no broadcast exists |
| Session.BroadcastsKeepCredentials | src/Instance.cpp:104-210 | client ids are never reused and the credentials under a running broadcast are never replaced |
| Session.KnownFromSignIn | src/Instance.cpp:104-178 | over every run the refresh token is that of the last accepted sign-in, and the user info too unless it did not allow broadcasting and a later startBroadcast fetched one that does |
| Session.BroadcastExactly | src/Instance.cpp:124-224 | over every run a broadcast is there exactly if a startBroadcast succeeded and no endBroadcast, sign-out or failure task of its own came since |
| Session.StartExactly | src/Instance.cpp:157-210 | after any calls, when startBroadcast answers what; a success leaves a broadcast with a client id no other had and the credentials that are set, and only a user who may broadcast gets that far |
| Session.AuthenticateExactly | src/Instance.cpp:104-122 | after any calls, when signing in answers what; a success replaces the credentials by new ones |
| Session.FailureTaskExactly | src/Instance.cpp:194-206 | after any calls, a failure task goes through exactly if the broadcast that is there is the one that failed, and otherwise changes nothing |
| AnnexB.DecodeSerialize | src/X264Encoder.cpp:101-132 | units written with any mix of start codes decode to exactly their bodies in order if and only if the bodies are non-empty, contain no 00 00 00 or 00 00 01, and none but the last ends in 00 |
| AnnexB.InsertZero | src/X264Encoder.cpp:72-78 | a zero byte inserted in front of a start code never changes what is decoded, for all bytes around it |
| AnnexB.LengthenPreservesDecode | src/X264Encoder.cpp:103-108 | rewriting every start code to four bytes preserves the decoding of every stream, well formed or not |
| AnnexB.UnitLengthOf | src/X264Encoder.cpp:101-132 | a unit in front of other units is read back whole exactly if it is clean and does not end in a zero, and never too long |
| AnnexB.DelimitersAre | src/X264Encoder.cpp:101-108 | what ends a unit is 00 00 00 or 00 00 01, what starts one 00 00 01 (section B.2) |
| Fragmenter.RequiredSize | src/X264Encoder.cpp:63-79 | the first pass fails exactly on a non-positive payload and otherwise returns the padded sum, which fits size_t; its overflow check never fires and its unchecked increment never wraps |
| Fragmenter.RequiredFits | src/X264Encoder.cpp:69-78 | the padded sum of at most 2^32 - 1 int payloads is below 2^64 |
| Fragmenter.Reserve | src/X264Encoder.cpp:81-99 | the buffer keeps exactly the announced size, at least the required one, and is only replaced when it has to grow |
| Fragmenter.Grown | src/X264Encoder.cpp:81-99 | a sufficient buffer keeps its size, any other gets the larger of the required and the unencoded size |
| Fragmenter.CopyNal | src/X264Encoder.cpp:116-125 | appends 00 00 00 01 and the body to the bytes written before, within bounds |
| Fragmenter.CopyStep | src/X264Encoder.cpp:113-132 | one turn of the copy pass extends the written stream and the fragment table by one unit |
| Fragmenter.RtpFragmentize | src/X264Encoder.cpp:56-133 | succeeds exactly if every payload has at least 4 bytes; then the image holds exactly the rewritten stream of exactly the required length and the full table; a throw in the first pass changes nothing, one in the second leaves everything before the short payload written in bounds; the buffer always has the announced size |
| Fragmenter.FragmentsTile | src/X264Encoder.cpp:119-131 | every table entry selects its NAL's body, right behind 00 00 00 01, and the fragments tile the image: next offset = offset + length + 4 |
| Fragmenter.RewritePreservesMeaning | src/X264Encoder.cpp:101-132 | the image decodes to whatever x264's own output decodes to, for every list of NAL units and mix of start codes |
| Fragmenter.ImageRoundTrip | src/X264Encoder.cpp:101-132 | the image decodes to exactly the given bodies in order if and only if they are separable, which section 7.4.1 of ITU-T H.264 guarantees |
| Fragmenter.BodyIs | src/X264Encoder.cpp:116-125 | whatever follows the announced start code in a payload is the body, all of it and nothing else |
| Fragmenter.ProducedRoundTrip | src/X264Encoder.cpp:101-132 | of units written with the start codes they announce, the image decodes to exactly their bodies if and only if they are separable |
| Encoder.X264Encoder.constructor | src/X264Encoder.hpp:46-71 | no encoder, no buffer, 30 frames per second |
| Encoder.X264Encoder.InitEncode | src/X264Encoder.cpp:168-291 | new state and return value are those of Step and the invariant holds on every exit |
| Encoder.X264Encoder.Release | src/X264Encoder.cpp:293-304 | closes the encoder and drops the buffer; the stale size is harmless |
| Encoder.X264Encoder.RegisterEncodeCompleteCallback | src/X264Encoder.cpp:306-309 | only the callback changes |
| Encoder.X264Encoder.SetRateAllocation | src/X264Encoder.cpp:311-351 | new target rate, reconfiguration and return value are those of Step |
| Encoder.X264Encoder.Encode | src/X264Encoder.cpp:353-454 | new state, return value and pts are those of Step, throws included; a delivered image is what the buffer holds, complete and with its full table |
| Encoder.X264Encoder.EncodeFrame | src/X264Encoder.cpp:402-454 | the part of it from handing the frame to x264 on, with the effect of StepFrame |
| Encoder.RunKeepsInv | src/X264Encoder.cpp:168-454 | over every sequence of calls an open encoder has a buffer of exactly the announced size, and the target is 30 or 60 |
| Encoder.FailedEncodeIsSticky | src/X264Encoder.cpp:357-420 | after a failed encode every later Encode is refused as uninitialized, whatever else is called, until an InitEncode succeeds |
| Encoder.PtsCountUp | src/X264Encoder.cpp:407-451 | over every sequence of calls, the pts values handed to x264 since the last successful InitEncode are 0, 1, 2, ... exactly if since then no frame was handed over behind one whose payloads made the fragmenter throw |
| Encoder.FramesAndThrows | src/X264Encoder.cpp:407-451 | over every sequence of calls, the frame counter of an open encoder and the throws since the last successful InitEncode add up to the frames handed over |
| Encoder.ThrowRepeatsPts | src/X264Encoder.cpp:407-451 | a run in which a payload below four bytes throws and the next frame, whatever it yields, has pts 0 again |
| Encoder.FpsHysteresis | src/X264Encoder.cpp:319-341 | over every sequence of calls the target rate is that of the last effective sample outside [35, 50], or 30, and x264 is reconfigured once per alternation |
| Encoder.ImageIsSerialized | src/X264Encoder.cpp:438-450 | an image is delivered exactly for a frame encoded into at least one NAL unit, and it is the rewritten stream of those units |
| Encoder.SessionDecodes | src/X264Encoder.cpp:353-454 | over any sequence of calls the delivered images, back to back, decode to exactly the bodies of all encoded frames in order if and only if those are separable |
| Encoder.OpenExactly | src/X264Encoder.cpp:168-420 | over every sequence of calls the encoder is open exactly if an InitEncode succeeded and no release, failing InitEncode or failed frame came since; a callback is set exactly if the last registration set one |
| Encoder.AnswersExactly | src/X264Encoder.cpp:168-454 | after any calls, when each call answers what: InitEncode, SetRateAllocation, and Encode by whether the frame was taken and what became of it |
| Encoder.BufferKept | src/X264Encoder.cpp:81-99 | the buffer InitEncode made is kept as long as no frame needs more |
| Encoder.ReleasedHoldsNothing | src/X264Encoder.cpp:293-304 | an encoder released, by Release or by an InitEncode that then failed, holds no buffer and counts from 0 until an InitEncode succeeds |
| VideoCapturer.VideoCapturer.constructor | src/VideoCapturer.cpp:65-69 | default caps and an interval of 31250 microseconds |
| VideoCapturer.VideoCapturer.SetFramerateLimit | src/VideoCapturer.cpp:192-197 | two more than the requested number of intervals make up a second, short of it by less than a microsecond each; for rates below -2 it is not positive |
| VideoCapturer.VideoCapturer.SetFrameSizeLimit | src/VideoCapturer.cpp:199-202 | both caps are replaced |
| VideoCapturer.VideoCapturer.SendVideo | src/VideoCapturer.cpp:77-175 | the last timestamp moves exactly when the limiter accepts, a picture is handed on exactly if nothing failed, and its size is the delivered size; no product overflows |
| VideoCapturer.AcceptedSnoc | src/VideoCapturer.cpp:84-94 | the test SendVideo makes against the remembered timestamp decides about the next frame of the stream |
| VideoCapturer.AcceptedIsSpaced | src/VideoCapturer.cpp:84-94 | the accepted timestamps are a selection of the stream that keeps the distance |
| VideoCapturer.SpacedSpans | src/VideoCapturer.cpp:84-94 | accepted timestamps increase strictly, and any two of them are at least as many intervals apart as places |
| VideoCapturer.LosesNothing | src/VideoCapturer.cpp:84-94 | nothing is dropped exactly if the stream itself keeps the distance |
| VideoCapturer.FramerateKept | src/VideoCapturer.cpp:84-94 | at the interval for a frame rate nothing is dropped exactly if, in whole microseconds, no frame comes earlier than it would at two frames per second more |
| VideoCapturer.PacedLosesNothing | src/VideoCapturer.cpp:192-197 | a stream paced at the requested rate loses nothing |
| VideoCapturer.FramesPerSecond | src/VideoCapturer.cpp:192-197 | of any stream, accepted frames less than a second apart are at most the requested number plus three up to 998 frames per second, and plus two if a second divides evenly |
| VideoCapturer.BurstPasses | src/VideoCapturer.cpp:192-197 | two more than the requested frames per second get through in less than a second, and three more if a second does not divide evenly |
| VideoCapturer.AcceptedIsLargest | src/VideoCapturer.cpp:84-94 | for non-decreasing timestamps no selection that keeps the distance is larger than the accepted one |
| VideoCapturer.ScaledNear | src/VideoCapturer.cpp:123-140 | under all caps start() can set, the sides before rounding stay within the caps and off the input's aspect ratio by less than one column one way and one row the other, two rows if the width cap is below 360 |
| VideoCapturer.TwoStep | src/VideoCapturer.cpp:123-140 | two truncating rescales in a row are off by less than one unit of the larger side |
| VideoCapturer.AspectPreserved | src/VideoCapturer.cpp:123-145 | for every accepted size and all caps start() can set, the computed sides are even, within the caps rounded up to even, and off the aspect ratio by less than one row and one column together, one row more if the width cap is below 360 |
| VideoCapturer.DeliveredKeepsAspect | src/VideoCapturer.cpp:123-168 | the picture handed on is off the aspect ratio by no more than the computed sides, and even if it was rescaled |
| VideoCapturer.DeliveredAsLarge | src/VideoCapturer.cpp:123-168 | the picture handed on is as large as it can be: not rescaled but for rounding within the caps from 360 up, and otherwise reaching a cap, or 360 on the short side if it had less |
| VideoCapturer.DeliveredBounds | src/VideoCapturer.cpp:123-175 | under the default caps the delivered picture has 360 to 720 rows, an even number, and 240 to 1282 columns, more than 1280 only if it was not rescaled |
| VideoCapturer.WiderThanCapExactly | src/VideoCapturer.cpp:136-168 | under all caps from 360x720 up, the exact sizes whose delivered picture is wider than the cap rounded up to even |
| VideoCapturer.DeliveredNearCaps | src/VideoCapturer.cpp:123-175 | under all caps start() can set, the delivered picture is at most 3 columns wider than the cap and no higher than the cap rounded up to even |
| VideoCapturer.ExtremesReached | src/VideoCapturer.cpp:123-168 | 1282x428 and 240x720 are delivered as they are |
| VideoCapturer.OddCapsExceeded | src/VideoCapturer.cpp:123-168 | under caps of 2163x721, which the aspect check accepts, 2166x722 is delivered as it is |
| VideoCapturer.ProductsFitExactly | src/VideoCapturer.cpp:123-140 | under any caps no int32 product overflows exactly if those of the two cap rescales, where they happen, do not: width times height cap, and the capped height times width cap |
| VideoCapturer.ProductsFitByDefault | src/VideoCapturer.cpp:123-140 | under the default caps that is as long as an accepted width is at most 2982616 |
| Targets.SelectLimits | src/Broadcast.cpp:161-186 | frame rate and size are only raised along with the bit rate, the size only to an accepted ratio, the minimum is three quarters rounded down, and nothing falls below the defaults but the width of a raised size; the laws of the capturer are proved for all caps this allows |
| AudioDevice.AudioDevice.constructor | src/AudioDevice.cpp:13 | nothing delivered, nothing pending, room for one chunk |
| AudioDevice.AudioDevice.SendAudio | src/AudioDevice.cpp:15-35 | delivered chunks and buffer become those of feeding the data to the old ones; the loop terminates |
| AudioDevice.SplitIsExact | src/AudioDevice.cpp:20-34 | chunks and remainder put together are the input |
| AudioDevice.SplitCounts | src/AudioDevice.cpp:10-34 | every chunk has 1920 bytes, there are total / 1920 of them and total mod 1920 bytes stay in the buffer |
| AudioDevice.SplitIsUnique | src/AudioDevice.cpp:10-34 | it is the only way to split the input into such chunks and a shorter rest |
| AudioDevice.FeedTwice | src/AudioDevice.cpp:15-35 | two calls have the effect of one call with both pieces |
| AudioDevice.CallsDoNotMatter | src/AudioDevice.cpp:15-35 | over any sequence of calls the outcome is the split of the concatenated input |
| RestApi.RetryRequest | src/RestApi.cpp:144-163 | asks until the first Complete or the third answer and returns the last one, sleeping 2 and 3 seconds in between |
| RestApi.DelaysNeverDecrease | src/RestApi.cpp:138-140 | delay k is min(1 + k, 20) and delays never decrease |
| RestApi.DelaysSum | src/RestApi.cpp:138-140 | n delays add up to n(n + 3) / 2 seconds up to 19 and 20 more for each further one |
| Policy.CheckAspectRatio | src/Policy.cpp:7-23 | accepts exactly the ratios from 1:3 to 3:1, both included |
| Policy.Ltrim | src/Utils.hpp:15-17 | drops the longest run of spaces at the front |
| Policy.Rtrim | src/Utils.hpp:20-22 | drops the longest run of spaces at the back |
| Policy.Trim | src/Utils.hpp:25-28 | the trimmed string |
| Policy.TrimSplits | src/Utils.hpp:13-28 | every string is spaces, the trimmed string, spaces, and the trimmed string is empty or has no space at its ends |
| Policy.TrimIsTheCore | src/Utils.hpp:13-28 | there is no other core |
| Policy.AnnotateTitle | src/Policy.cpp:25-39 | a non-empty title of at most 255 characters, with the tag intact and something behind it when rated |
| Policy.AnnotatedIs | src/Policy.cpp:25-39 | for every split of the title into spaces, core and spaces, the result is the first 255 characters of the tag, if rated, and the core, or the default title in place of an empty one |
| Policy.SpacesAre | src/Utils.hpp:13-22 | the six space characters of the "C" locale |
| Policy.AnnotatedEnds | src/Policy.cpp:25-39 | an unrated title starts without a space and ends in one exactly if it was cut behind it |
| Policy.AnnotateSettles | src/Policy.cpp:25-39 | annotating an unrated title twice is a fixed point, and once is one exactly if it was not cut right behind a space |

## Left out

- HTTP, curl, TLS, websocketpp, the WebRTC peer connection and SDP exchange: their outcomes are choices of the model; the negotiation steps of the broadcast thread are merged into four that succeed or fail.
- x264, libyuv and JPEG: x264 answers with any list of NAL units or an error; pixels are not modelled. Width, height, rate-control and CRF parameters of the encoder have no effect on the modelled state, and the re-reading of encoder parameters at src/X264Encoder.cpp:370-384 is taken to change nothing.
- Fragmenter.RtpFragmentize: the payload-type and time-difference columns of the fragment header, which are always 0, are not part of the table.
- Encoder.PtsCountUp: the frame counter is unbounded here and 64 bits wide in the source.
- Lifecycle.Protocol: stop() is called at most once, after start(), as FailureDispatch.Dispatch shows of its only caller; user callbacks return and do not call back into the library; exceptions of foreign calls on the broadcast thread are not modelled.
- Lifecycle.ThreadNeverStuck: foreign calls are taken to return; sleeps and timed waits are single steps.
- FailureDispatch.Dispatch: the asynchronous destruction of a detached broadcast and the sign-in data read before the mutex is taken.
- Session.RunKeepsInv: sequential calls only; races between authenticate and the other calls on the unlocked fields are not modelled.
- VideoCapturer.VideoCapturer.SendVideo: the adapter is disabled by start() and leaves sizes alone; the overflowing initial value of the last timestamp is read as "no frame yet"; sizes whose products overflow int32 are outside its contract.
- VideoCapturer.WiderThanCapExactly: width caps of 241 to 359 columns, for which only the bound of DeliveredNearCaps is stated.
- Lifecycle.HeldBehindStopExactly: setting up and dropping the subscription are single steps, although the source assigns the shared pointer without a lock; which connection an ended handler belongs to is not tracked.
- Targets.SelectLimits: bit rates whose triple leaves int32 are outside its contract; the product is undefined in the source.
- Lifecycle.LiveAndAcceptedExactly: when the answer to StartBroadcast has no error and says that the stage is not live, src/Broadcast.cpp:488-491 dereferences an empty optional before it reports; that cause of a refusal is not covered, only a missing answer and one with an error are.
- RestApi.DelaysNeverDecrease: try numbers whose successor wraps around in size_t are excluded.
- AudioDevice.AudioDevice.SendAudio: a transport is registered before audio is sent.
- Policy.Trim: titles are bytes and spaces are those of the "C" locale.
- Subscription.RetriesCount: stop(), which drops the connection, is not an event of these histories but a step of Lifecycle; histories are shorter than the range of the retry counter; subscriptions restarted to refresh credentials are not modelled.
- setTitle, setRating, setGameId, statistics, game lists, serialization, the C interface and logging: no state worth a law.
