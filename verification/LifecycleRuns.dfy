// What a whole run of the lifecycle did: the order of the thread's steps, why it ends, what it
// logs and reports, and what the media threads and the subscription make of their steps.
module LifecycleRuns {
  import opened Common
  import opened Lifecycle
  import Subscription

  // What the thread does on the way to live, one step after the other.
  function Script(accepted: bool): (r: seq<Step>)
    ensures |r| == 12
  {
    [BySetup(Subscribe), BySetup(Negotiate(true)), BySetup(CreateFeed(true)), BySetup(Connect(true)),
     BySetup(EnterStreaming), BySetup(CallStarted), BySetup(CheckStreaming),
     ByGoLive(AwaitScreenshot(false)), ByGoLive(SendScreenshot(true)), ByGoLive(AwaitSubscription(false)),
     ByGoLive(SendStart(accepted)), ByGoLive(EnterLive)]
  }

  // The thread's steps of a run before its loop.
  function Taken(steps: seq<Step>): seq<Step> {
    if steps == [] then [] else TakenBy(steps[0]) + Taken(steps[1..])
  }

  function TakenBy(step: Step): seq<Step> {
    if step.BySetup? || step.ByGoLive? then [step] else []
  }

  function ScriptPosition(t: Thread): nat {
    if Progress(t) == 0 then 0 else Min(Progress(t) - 1, 12)
  }

  predicate FollowsScript(w: World, done: seq<Step>) {
    !w.thread.Finished? || Progress(w.thread) >= Progress(LoopCheck) ==>
      && done == Script(!w.startRefused)[..ScriptPosition(w.thread)]
      && (ScriptPosition(w.thread) <= 10 ==> !w.startRefused)
  }

  lemma SetupFollows(w: World, s: SetupStep, done: seq<Step>)
    requires SetupEnabled(w, s) && FollowsScript(w, done)
    ensures FollowsScript(ApplySetup(w, s), done + [BySetup(s)])
  {
    var k := ScriptPosition(w.thread);
    ScriptGrows(!w.startRefused, k, done);
  }

  lemma GoLiveFollows(w: World, g: GoLiveStep, done: seq<Step>)
    requires ScreenshotInv(w) && GoLiveEnabled(w, g) && FollowsScript(w, done)
    ensures FollowsScript(ApplyGoLive(w, g), done + [ByGoLive(g)])
  {
    match g
    case SendStart(ok) => StartFollows(w, ok, done);
    case EnterLive => EnterFollows(w, g, done);
    case StopEarly => EnterFollows(w, g, done);
    case _ => WaitFollows(w, g, done);
  }

  lemma WaitFollows(w: World, g: GoLiveStep, done: seq<Step>)
    requires g.AwaitScreenshot? || g.SendScreenshot? || g.AwaitSubscription?
    requires ScreenshotInv(w) && GoLiveEnabled(w, g) && FollowsScript(w, done)
    ensures FollowsScript(ApplyGoLive(w, g), done + [ByGoLive(g)])
  {
    var k := ScriptPosition(w.thread);
    if ByGoLive(g) == Script(true)[k] {
      ScriptGrows(true, k, done);
    }
  }

  lemma EnterFollows(w: World, g: GoLiveStep, done: seq<Step>)
    requires (g.EnterLive? || g.StopEarly?) && GoLiveEnabled(w, g) && FollowsScript(w, done)
    ensures FollowsScript(ApplyGoLive(w, g), done + [ByGoLive(g)])
  {
    if g.EnterLive? {
      ScriptGrows(!w.startRefused, 11, done);
    }
  }

  lemma ScriptGrows(accepted: bool, k: nat, done: seq<Step>)
    requires k < 12 && done == Script(accepted)[..k]
    ensures done + [Script(accepted)[k]] == Script(accepted)[..k + 1]
  {
  }

  lemma StartFollows(w: World, ok: bool, done: seq<Step>)
    requires w.thread.StartingBroadcast? && FollowsScript(w, done)
    ensures FollowsScript(ApplyGoLive(w, SendStart(ok)), done + [ByGoLive(SendStart(ok))])
  {
    assert done == Script(ok)[..10];
    assert done + [ByGoLive(SendStart(ok))] == Script(ok)[..11];
  }

  lemma LoopFollows(w: World, l: LoopStep, done: seq<Step>)
    requires LoopEnabled(w, l) && FollowsScript(w, done)
    ensures FollowsScript(ApplyLoop(w, l), done)
  {
  }

  lemma OwnerFollows(w: World, o: OwnerStep, done: seq<Step>)
    requires OwnerInv(w) && OwnerEnabled(w, o) && FollowsScript(w, done)
    ensures FollowsScript(ApplyOwner(w, o), done)
  {
  }

  lemma {:induction false} RunFollows(w: World, steps: seq<Step>, done: seq<Step>)
    requires Inv(w) && Valid(w, steps) && FollowsScript(w, done)
    ensures FollowsScript(Run(w, steps), done + Taken(steps))
    decreases |steps|
  {
    if steps == [] {
      assert done + [] == done;
    } else {
      StepFollows(w, steps[0], done);
      StepKeepsInv(w, steps[0]);
      RunFollows(Apply(w, steps[0]), steps[1..], done + TakenBy(steps[0]));
      TakenCons(steps, done);
    }
  }

  lemma TakenCons(steps: seq<Step>, done: seq<Step>)
    requires steps != []
    ensures done + TakenBy(steps[0]) + Taken(steps[1..]) == done + Taken(steps)
  {
    Assoc(done, TakenBy(steps[0]), Taken(steps[1..]));
  }

  lemma Assoc<T>(a: seq<T>, b: seq<T>, c: seq<T>)
    ensures a + b + c == a + (b + c)
  {
  }

  lemma StepFollows(w: World, step: Step, done: seq<Step>)
    requires Inv(w) && Enabled(w, step) && FollowsScript(w, done)
    ensures FollowsScript(Apply(w, step), done + TakenBy(step))
  {
    assert done + [] == done;
    match step
    case ByOwner(o) => OwnerFollows(w, o, done);
    case BySetup(s) => SetupFollows(w, s, done);
    case ByGoLive(g) => GoLiveFollows(w, g, done);
    case ByLoop(l) => LoopFollows(w, l, done);
    case ByOther(e) => OtherFollows(w, e, done);
  }

  lemma OtherFollows(w: World, e: OtherStep, done: seq<Step>)
    requires OtherEnabled(w, e) && FollowsScript(w, done)
    ensures FollowsScript(ApplyOther(w, e), done)
  {
  }

  // Over every interleaving: as long as the thread has not returned, what it has done so far is
  // the script up to where it is, every foreign call having succeeded but the StartBroadcast;
  // and a live broadcast's thread has done all of it.
  lemma ThreadFollowsScript(steps: seq<Step>, w: World)
    requires Valid(INITIAL, steps) && w == Run(INITIAL, steps)
    ensures !w.thread.Finished? ==> Taken(steps) == Script(!w.startRefused)[..ScriptPosition(w.thread)]
    ensures w.state.Live? ==> Taken(steps) == Script(StartAccepted(w))
  {
    StartsScript(INITIAL);
    FollowedTo(INITIAL, steps, w);
  }

  lemma FollowedTo(w0: World, steps: seq<Step>, w: World)
    requires Inv(w0) && FollowsScript(w0, []) && Valid(w0, steps) && w == Run(w0, steps)
    ensures !w.thread.Finished? ==> Taken(steps) == Script(!w.startRefused)[..ScriptPosition(w.thread)]
    ensures w.state.Live? ==> Taken(steps) == Script(StartAccepted(w))
  {
    RunKeepsInv(w0, steps);
    RunFollows(w0, steps, []);
    FollowedSoFar(w, Taken(steps));
  }

  lemma FollowedSoFar(w: World, done: seq<Step>)
    requires Inv(w) && FollowsScript(w, [] + done)
    ensures !w.thread.Finished? ==> done == Script(!w.startRefused)[..ScriptPosition(w.thread)]
    ensures w.state.Live? ==> done == Script(StartAccepted(w))
  {
    assert [] + done == done;
    assert Script(!w.startRefused)[..12] == Script(!w.startRefused);
    if w.state.Live? {
      assert Progress(w.thread) >= Progress(LoopCheck) && StartBroadcast in w.log;
    }
  }

  // The steps that can end a broadcast: stop(), and a foreign call or a wait that fails.
  predicate CanEnd(step: Step) {
    || step == ByOwner(StoreStopping)
    || EndsThread(step)
    || step == ByOther(SetScreenshot(false))
  }

  predicate EndsThread(step: Step) {
    step in {
      BySetup(Negotiate(false)), BySetup(CreateFeed(false)), BySetup(Connect(false)),
      ByGoLive(AwaitScreenshot(true)), ByGoLive(SendScreenshot(false)), ByGoLive(AwaitSubscription(true)),
      ByLoop(Beat(UpdateFails)), ByLoop(Beat(TooManyFailures))}
  }

  // Nothing has happened that the thread could end for.
  predicate Undisturbed(w: World) {
    && !StopCalled(w) && !w.media.promise.Broken?
    && !w.thread.Finished? && !w.thread.FinalCheck? && !w.thread.SendingStop? && !w.thread.StoppingEarly?
  }

  lemma SetupGoesOn(w: World, s: SetupStep)
    requires OwnerInv(w) && Undisturbed(w) && SetupEnabled(w, s) && !CanEnd(BySetup(s))
    ensures Undisturbed(ApplySetup(w, s))
  {
  }

  lemma GoLiveGoesOn(w: World, g: GoLiveStep)
    requires OwnerInv(w) && Undisturbed(w) && GoLiveEnabled(w, g) && !CanEnd(ByGoLive(g))
    ensures Undisturbed(ApplyGoLive(w, g))
  {
  }

  lemma LoopGoesOn(w: World, l: LoopStep)
    requires OwnerInv(w) && Undisturbed(w) && LoopEnabled(w, l) && !CanEnd(ByLoop(l))
    ensures Undisturbed(ApplyLoop(w, l))
  {
  }

  lemma OtherGoesOn(w: World, e: OtherStep)
    requires Undisturbed(w) && OtherEnabled(w, e) && !CanEnd(ByOther(e))
    ensures Undisturbed(ApplyOther(w, e))
  {
  }

  lemma {:induction false} RunGoesOn(w: World, steps: seq<Step>)
    requires Inv(w) && Undisturbed(w) && Valid(w, steps)
    requires forall i :: 0 <= i < |steps| ==> !CanEnd(steps[i])
    ensures Undisturbed(Run(w, steps))
    decreases |steps|
  {
    if steps == [] {
    } else {
      match steps[0] {
        case ByOwner(o) => assert Undisturbed(ApplyOwner(w, o));
        case BySetup(s) => SetupGoesOn(w, s);
        case ByGoLive(g) => GoLiveGoesOn(w, g);
        case ByLoop(l) => LoopGoesOn(w, l);
        case ByOther(e) => OtherGoesOn(w, e);
      }
      StepKeepsInv(w, steps[0]);
      RunGoesOn(Apply(w, steps[0]), steps[1..]);
    }
  }

  // A broadcast ends only for a reason: without one of these steps the thread does not return.
  lemma EndsOnlyForAReason(steps: seq<Step>, w: World)
    requires Valid(INITIAL, steps) && w == Run(INITIAL, steps)
    requires forall i :: 0 <= i < |steps| ==> !CanEnd(steps[i])
    ensures !w.thread.Finished?
  {
    StartsUndisturbed();
    GoesOnTo(INITIAL, steps, w);
  }

  lemma GoesOnTo(w0: World, steps: seq<Step>, w: World)
    requires Inv(w0) && Undisturbed(w0) && Valid(w0, steps) && w == Run(w0, steps)
    requires forall i :: 0 <= i < |steps| ==> !CanEnd(steps[i])
    ensures !w.thread.Finished?
  {
    RunGoesOn(w0, steps);
  }

  lemma StartsUndisturbed()
    ensures Undisturbed(INITIAL)
  {
  }

  lemma StartsScript(w: World)
    requires w.thread.NotSpawned? && !w.startRefused
    ensures FollowsScript(w, [])
  {
    assert Script(true)[..0] == [];
  }

  function ExitOf(step: Step): Exit
    requires EndsThread(step)
  {
    if step.BySetup? then SetupFailed
    else if step == ByGoLive(AwaitSubscription(true)) then NotSubscribed
    else if step.ByGoLive? then NoScreenshot
    else if step == ByLoop(Beat(UpdateFails)) then UpdateFailed
    else Disconnected
  }

  predicate EndedWith(w: World, exit: Exit) {
    || w.thread == Finished(exit)
    || (exit.Disconnected? && (w.thread == FinalCheck(true) || w.thread == SendingStop(true)))
  }

  lemma EndingStep(w: World, step: Step)
    requires ScreenshotInv(w) && Enabled(w, step) && EndsThread(step)
    ensures EndedWith(Apply(w, step), ExitOf(step))
  {
  }

  lemma StaysEnded(w: World, step: Step, exit: Exit)
    requires OwnerInv(w) && Enabled(w, step) && EndedWith(w, exit)
    ensures EndedWith(Apply(w, step), exit)
  {
    match step
    case ByOwner(_) =>
    case ByLoop(_) =>
    case _ =>
  }

  lemma {:induction false} RunStaysEnded(w: World, steps: seq<Step>, exit: Exit)
    requires Inv(w) && Valid(w, steps) && EndedWith(w, exit)
    ensures EndedWith(Run(w, steps), exit)
    decreases |steps|
  {
    if steps == [] {
    } else {
      StaysEnded(w, steps[0], exit);
      StepKeepsInv(w, steps[0]);
      RunStaysEnded(Apply(w, steps[0]), steps[1..], exit);
    }
  }

  // And it does end for them: once one of the thread's steps has failed, the thread returns with
  // the exit that belongs to it, after too many failed heartbeats by way of the final check.
  lemma {:induction false} FailureEndsThread(w: World, steps: seq<Step>, k: nat)
    requires Inv(w) && Valid(w, steps) && k < |steps| && EndsThread(steps[k])
    ensures EndedWith(Run(w, steps), ExitOf(steps[k]))
    decreases |steps|
  {
    StepKeepsInv(w, steps[0]);
    if k == 0 {
      EndingStep(w, steps[0]);
      RunStaysEnded(Apply(w, steps[0]), steps[1..], ExitOf(steps[0]));
    } else {
      FailureEndsThread(Apply(w, steps[0]), steps[1..], k - 1);
    }
  }

  // Each check of the state decides by whether stop() was called, and by nothing else.
  lemma ChecksSeeStop(w: World)
    requires Inv(w)
    ensures w.thread.EnteringStreaming? ==>
      ApplySetup(w, EnterStreaming).thread == if StopCalled(w) then Finished(NeverStreamed) else CallingStarted
    ensures w.thread.CheckingStreaming? ==>
      ApplySetup(w, CheckStreaming).thread == if StopCalled(w) then Finished(Displaced) else AwaitingScreenshot
    ensures w.thread.EnteringLive? ==>
      ApplyGoLive(w, EnterLive).thread == if StopCalled(w) then StoppingEarly else LoopCheck
    ensures w.thread.LoopCheck? ==>
      ApplyLoop(w, CheckLoop).thread == if StopCalled(w) then FinalCheck(false) else LoopBody
    ensures w.thread.FinalCheck? ==>
      var d := w.thread.disconnected;
      ApplyLoop(w, CheckFinal).thread == if StopCalled(w) then SendingStop(d) else Finished(Ending(d))
  {
  }

  // When the other threads can act: frames are looked at exactly between Streaming and stop(),
  // handlers exist from the first set-up on, and a retry passes its check until stop().
  lemma OthersCanAct(w: World)
    requires Inv(w)
    ensures var online := Progress(w.thread) > Progress(EnteringStreaming) && !StopCalled(w);
            (OtherEnabled(w, PassFrame) <==> online) && (OtherEnabled(w, RejectFrame) <==> online)
    ensures forall feedId, message, isLive ::
      OtherEnabled(w, Receive(feedId, message, isLive)) <==> Progress(w.thread) > Progress(Subscribing)
    ensures OtherEnabled(w, ReportFailure) <==> Progress(w.thread) > Progress(Subscribing)
    ensures OtherEnabled(w, PassRetryCheck) <==> Progress(w.thread) > Progress(Subscribing) && !StopCalled(w)
  {
  }

  function ActionOf(step: Step): seq<Action> {
    if step == BySetup(CallStarted) then [StartedCallback]
    else if step.ByGoLive? && step.g.SendStart? then [StartBroadcast]
    else if step == ByGoLive(StopEarly) || step == ByLoop(SendStop) then [StopBroadcast]
    else []
  }

  function Actions(steps: seq<Step>): seq<Action> {
    if steps == [] then [] else ActionOf(steps[0]) + Actions(steps[1..])
  }

  // The log is what the steps did.
  lemma {:induction false} LogIsActions(w: World, steps: seq<Step>)
    requires Valid(w, steps)
    ensures Run(w, steps).log == w.log + Actions(steps)
    decreases |steps|
  {
    if steps == [] {
    } else {
      var w', action, rest := Apply(w, steps[0]), ActionOf(steps[0]), Actions(steps[1..]);
      StepActs(w, steps[0]);
      LogIsActions(w', steps[1..]);
      assert w'.log + rest == w.log + (action + rest);
    }
  }

  lemma StepActs(w: World, step: Step)
    requires Enabled(w, step)
    ensures Apply(w, step).log == w.log + ActionOf(step)
  {
    match step
    case BySetup(_) =>
    case ByGoLive(_) =>
    case _ =>
  }

  // The steps that report a failure whatever the state, and those that report one in some.
  predicate Reports(step: Step) {
    || EndsThread(step) || step == ByGoLive(SendStart(false))
    || step == ByOther(RejectFrame) || step == ByOther(ReportFailure)
    || (step.ByOther? && step.e.Receive? && step.e.message.Errors?)
  }

  predicate MayReport(step: Step) {
    || step == BySetup(CreateFeed(true)) || step == ByGoLive(AwaitScreenshot(false))
    || (step.ByOther? && step.e.Receive? && step.e.message.Payload?)
  }

  function CountReports(steps: seq<Step>): nat {
    if steps == [] then 0 else (if Reports(steps[0]) then 1 else 0) + CountReports(steps[1..])
  }

  function CountPossible(steps: seq<Step>): nat {
    if steps == [] then 0 else (if MayReport(steps[0]) then 1 else 0) + CountPossible(steps[1..])
  }

  // No failure goes unreported, and none is reported twice or without cause.
  lemma {:induction false} FailuresCounted(w: World, steps: seq<Step>)
    requires Inv(w) && Valid(w, steps)
    ensures w.failures + CountReports(steps) <= Run(w, steps).failures
    ensures Run(w, steps).failures <= w.failures + CountReports(steps) + CountPossible(steps)
    decreases |steps|
  {
    if steps == [] {
    } else {
      StepReports(w, steps[0]);
      StepKeepsInv(w, steps[0]);
      FailuresCounted(Apply(w, steps[0]), steps[1..]);
    }
  }

  lemma StepReports(w: World, step: Step)
    requires ScreenshotInv(w) && Enabled(w, step)
    ensures var f := Apply(w, step).failures - w.failures;
            (if Reports(step) then 1 else 0) <= f <= (if Reports(step) || MayReport(step) then 1 else 0)
  {
    match step
    case BySetup(_) =>
    case ByGoLive(_) =>
    case ByLoop(_) =>
    case ByOther(_) =>
    case ByOwner(_) =>
  }

  function CountOther(steps: seq<Step>, e: OtherStep): nat {
    if steps == [] then 0 else (if steps[0] == ByOther(e) then 1 else 0) + CountOther(steps[1..], e)
  }

  // What the media threads' steps amount to: the first claim takes the latch, every frame is
  // claimed for at most once, and the promise holds what its winner set.
  lemma {:induction false} MediaIs(w: World, steps: seq<Step>)
    requires Inv(w) && Valid(w, steps)
    ensures var m, m' := w.media, Run(w, steps).media;
            && m'.frames + CountOther(steps, ClaimScreenshot) == m.frames + CountOther(steps, PassFrame)
            && (m'.isScreenshotNeeded <==> m.isScreenshotNeeded && CountOther(steps, ClaimScreenshot) == 0)
            && (m'.promise.Fulfilled? <==> m.promise.Fulfilled? || CountOther(steps, SetScreenshot(true)) > 0)
            && (m'.promise.Broken? <==> m.promise.Broken? || CountOther(steps, SetScreenshot(false)) > 0)
    decreases |steps|
  {
    if steps == [] {
    } else {
      MediaStep(w, steps[0]);
      StepKeepsInv(w, steps[0]);
      MediaIs(Apply(w, steps[0]), steps[1..]);
    }
  }

  lemma MediaStep(w: World, step: Step)
    requires ScreenshotInv(w) && Enabled(w, step)
    ensures var m, m' := w.media, Apply(w, step).media;
            && m'.frames == m.frames + (if step == ByOther(PassFrame) then 1 else 0)
                 - (if step == ByOther(ClaimScreenshot) then 1 else 0)
            && (m'.isScreenshotNeeded <==> m.isScreenshotNeeded && step != ByOther(ClaimScreenshot))
            && (m'.promise.Fulfilled? <==> m.promise.Fulfilled? || step == ByOther(SetScreenshot(true)))
            && (m'.promise.Broken? <==> m.promise.Broken? || step == ByOther(SetScreenshot(false)))
  {
    match step
    case ByOther(_) =>
    case _ =>
  }

  // Every retry that passes its last check sets up one subscription, or has yet to.
  lemma {:induction false} RetriesConserved(w: World, steps: seq<Step>)
    requires Valid(w, steps)
    ensures Run(w, steps).feed.retrying + CountOther(steps, Resubscribe) ==
      w.feed.retrying + CountOther(steps, PassRetryCheck)
    decreases |steps|
  {
    if steps == [] {
    } else {
      RetryStep(w, steps[0]);
      RetriesConserved(Apply(w, steps[0]), steps[1..]);
    }
  }

  lemma RetryStep(w: World, step: Step)
    requires Enabled(w, step)
    ensures Apply(w, step).feed.retrying == w.feed.retrying
      + (if step == ByOther(PassRetryCheck) then 1 else 0) - (if step == ByOther(Resubscribe) then 1 else 0)
  {
    match step
    case ByOther(_) =>
    case _ =>
  }

  // Behind the store of Stopping no frame is taken and none is rejected.
  lemma {:induction false} NoFrameBehindStop(w: World, steps: seq<Step>)
    requires Inv(w) && StopCalled(w) && Valid(w, steps)
    ensures CountOther(steps, PassFrame) == CountOther(steps, RejectFrame) == 0
    decreases |steps|
  {
    if steps == [] {
    } else {
      StepKeepsInv(w, steps[0]);
      RankFalls(w, steps[0]);
      NoFrameBehindStop(Apply(w, steps[0]), steps[1..]);
    }
  }

  // The messages of a run as the subscription sees them; what it read of the broadcast's state
  // does not matter to its own.
  function Messages(steps: seq<Step>): seq<Subscription.Event> {
    if steps == [] then []
    else
      var n := |steps| - 1;
      Messages(steps[..n]) +
      if steps[n].ByOther? && steps[n].e.Receive? then [Subscription.Received(steps[n].e.message, false, false)] else []
  }

  lemma {:induction false} MessagesLength(steps: seq<Step>)
    ensures |Messages(steps)| <= |steps|
  {
    if steps == [] {
    } else {
      MessagesLength(steps[..|steps| - 1]);
    }
  }

  lemma {:induction false} RunSnoc(w: World, steps: seq<Step>)
    requires steps != [] && Valid(w, steps)
    ensures var n := |steps| - 1;
            && Valid(w, steps[..n]) && Enabled(Run(w, steps[..n]), steps[n])
            && Run(w, steps) == Apply(Run(w, steps[..n]), steps[n])
    decreases |steps|
  {
    if |steps| > 1 {
      var n := |steps| - 1;
      RunSnoc(Apply(w, steps[0]), steps[1..]);
      assert steps[1..][..n - 1] == steps[..n][1..] && steps[1..][n - 1] == steps[n];
    }
  }

  // The subscription's part of the world is the subscription of module Subscription.
  lemma {:induction false} FeedIsSubscription(steps: seq<Step>, feedId: string)
    requires Valid(INITIAL, steps) && |steps| < SIZE_LIMIT - 2
    requires forall i :: 0 <= i < |steps| && steps[i].ByOther? && steps[i].e.Receive? ==> steps[i].e.feedId == feedId
    ensures |Messages(steps)| <= |steps|
    ensures Run(INITIAL, steps).feed.state == Subscription.Run(feedId, Messages(steps)).sub
    ensures Run(INITIAL, steps).feed.promised == Subscription.Run(feedId, Messages(steps)).fulfilled
    decreases |steps|
  {
    MessagesLength(steps);
    if steps == [] {
    } else {
      var n := |steps| - 1;
      RunSnoc(INITIAL, steps);
      FeedIsSubscription(steps[..n], feedId);
      FeedStep(Run(INITIAL, steps[..n]), steps[n]);
      var messages := Messages(steps[..n]);
      if steps[n].ByOther? && steps[n].e.Receive? {
        assert Messages(steps)[..|messages|] == messages;
      } else {
        assert Messages(steps) == messages;
      }
    }
  }

  lemma FeedStep(w: World, step: Step)
    requires Enabled(w, step)
    ensures var f, f' := w.feed, Apply(w, step).feed;
            if step.ByOther? && step.e.Receive? then
              var e := Subscription.Received(step.e.message, false, false);
              && f'.state == Subscription.OnMessage(step.e.feedId, f.state, e).0
              && f'.promised == f.promised + if step.e.message.Payload? && f.state.NoPayload? then 1 else 0
            else f'.state == f.state && f'.promised == f.promised
  {
    match step
    case ByOther(_) =>
    case _ =>
  }
}
