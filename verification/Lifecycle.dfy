// The life of one broadcast as a protocol between four kinds of threads: the owner calling
// start() and stop(), the broadcast thread, the application's media threads inside sendVideo,
// and the websocket thread. A step is what one thread does between two points where others can
// run; a run is any sequence of enabled steps.
module Lifecycle {
  import opened Subscription

  datatype BroadcastState = Offline | Starting | Streaming | Live | Stopping

  // Where the owner is: before start(), between the first transition and the creation of the
  // thread, between start() and stop(), and behind each statement of stop().
  datatype Owner = Fresh | Launching | Started | StoppingStored | Joining | Joined | Stopped

  // How the broadcast thread returned.
  datatype Exit =
    | SetupFailed | NeverStreamed | Displaced | NoScreenshot | NotSubscribed
    | StoppedEarly | UpdateFailed | Disconnected | Completed

  // What the broadcast thread does next.
  datatype Thread =
    | NotSpawned
    | Subscribing | Negotiating | CreatingFeed | Connecting
    | EnteringStreaming | CallingStarted | CheckingStreaming
    | AwaitingScreenshot | SendingScreenshot | AwaitingSubscription
    | StartingBroadcast | EnteringLive | StoppingEarly
    | LoopCheck | LoopBody
    | FinalCheck(disconnected: bool) | SendingStop(disconnected: bool)
    | Finished(exit: Exit)

  datatype Promise = Unset | Fulfilled | Broken

  // What the outside world sees of the broadcast thread.
  datatype Action = StartedCallback | StartBroadcast | StopBroadcast

  // The screenshot latch. `frames` media threads hold a frame and have not yet tried for it;
  // `winners` of them have won it and not yet set the promise; `promised` counts how often it
  // was set.
  datatype Media = Media(isScreenshotNeeded: bool, frames: nat, winners: nat, promise: Promise, promised: nat)

  // The subscription: whether it was ever set up, its state, how often its promise was fulfilled,
  // whether the broadcast holds one now, and how many ended handlers have passed their last check
  // of the broadcast's state and are about to set up another.
  datatype Feed = Feed(subscribed: bool, state: SubscriptionState, promised: nat, held: bool, retrying: nat)

  // `startRefused`: a StartBroadcast was sent that did not put the stage live.
  datatype World = World(
    state: BroadcastState, owner: Owner, thread: Thread, log: seq<Action>, failures: nat,
    startRefused: bool, screenshotSent: bool, media: Media, feed: Feed)

  const INITIAL := World(
    Offline, Fresh, NotSpawned, [], 0, false, false, Media(true, 0, 0, Unset, 0),
    Feed(false, NoPayload, 0, false, 0))

  datatype OwnerStep = Start | Spawn | StoreStopping | ClearSubscription | Join | StoreOffline

  // A choice in a step (`ok`, `timedOut`, ...) is the answer of a foreign call.
  datatype SetupStep =
    | Subscribe | Negotiate(ok: bool) | CreateFeed(ok: bool) | Connect(ok: bool)
    | EnterStreaming | CallStarted | CheckStreaming

  datatype GoLiveStep =
    | AwaitScreenshot(timedOut: bool) | SendScreenshot(ok: bool) | AwaitSubscription(timedOut: bool)
    | SendStart(ok: bool) | EnterLive | StopEarly

  datatype LoopStep = CheckLoop | Beat(beat: BeatOutcome) | CheckFinal | SendStop

  datatype BeatOutcome = Continue | UpdateFails | TooManyFailures

  datatype OtherStep =
    | PassFrame | RejectFrame | ClaimScreenshot | SetScreenshot(ok: bool)
    | Receive(feedId: string, message: Message, isLive: bool)
    | ReportFailure
    | PassRetryCheck | Resubscribe

  datatype Step =
    | ByOwner(o: OwnerStep)
    | BySetup(s: SetupStep) | ByGoLive(g: GoLiveStep) | ByLoop(l: LoopStep)
    | ByOther(e: OtherStep)

  // The steps of the broadcast thread.
  predicate IsThreadStep(step: Step) {
    step.BySetup? || step.ByGoLive? || step.ByLoop?
  }

  predicate IsOnline(s: BroadcastState) {
    s.Streaming? || s.Live?
  }

  predicate OwnerEnabled(w: World, o: OwnerStep) {
    match o
    case Start => w.owner.Fresh?
    case Spawn => w.owner.Launching?
    case StoreStopping => w.owner.Started?
    case ClearSubscription => w.owner.StoppingStored?
    case Join => w.owner.Joining? && w.thread.Finished?
    case StoreOffline => w.owner.Joined?
  }

  function ApplyOwner(w: World, o: OwnerStep): World {
    match o
    case Start => w.(owner := Launching, state := if w.state.Offline? then Starting else w.state)
    case Spawn => w.(owner := Started, thread := Subscribing)
    case StoreStopping => w.(owner := StoppingStored, state := Stopping)
    case ClearSubscription => w.(owner := Joining, feed := w.feed.(held := false))
    case Join => w.(owner := Joined)
    case StoreOffline => w.(owner := Stopped, state := Offline)
  }

  predicate SetupEnabled(w: World, s: SetupStep) {
    match s
    case Subscribe => w.thread.Subscribing?
    case Negotiate(_) => w.thread.Negotiating?
    case CreateFeed(_) => w.thread.CreatingFeed?
    case Connect(_) => w.thread.Connecting?
    case EnterStreaming => w.thread.EnteringStreaming?
    case CallStarted => w.thread.CallingStarted?
    case CheckStreaming => w.thread.CheckingStreaming?
  }

  // A timed wait ends by timing out exactly if what it waits for is not there by then.
  predicate GoLiveEnabled(w: World, g: GoLiveStep) {
    match g
    case AwaitScreenshot(timedOut) => w.thread.AwaitingScreenshot? && (timedOut <==> w.media.promise.Unset?)
    case SendScreenshot(_) => w.thread.SendingScreenshot?
    case AwaitSubscription(timedOut) => w.thread.AwaitingSubscription? && (timedOut <==> w.feed.promised == 0)
    case SendStart(_) => w.thread.StartingBroadcast?
    case EnterLive => w.thread.EnteringLive?
    case StopEarly => w.thread.StoppingEarly?
  }

  predicate LoopEnabled(w: World, l: LoopStep) {
    match l
    case CheckLoop => w.thread.LoopCheck?
    case Beat(_) => w.thread.LoopBody?
    case CheckFinal => w.thread.FinalCheck?
    case SendStop => w.thread.SendingStop?
  }

  // Returning after a report of failure.
  function Fail(w: World, exit: Exit): World {
    w.(failures := w.failures + 1, thread := Finished(exit))
  }

  function ApplySetup(w: World, s: SetupStep): World {
    match s
    case Subscribe => w.(thread := Negotiating, feed := w.feed.(subscribed := true, held := true))
    case Negotiate(ok) => if ok then w.(thread := CreatingFeed) else Fail(w, SetupFailed)
    case CreateFeed(ok) =>
      if w.state.Starting? && ok then w.(thread := Connecting) else Fail(w, SetupFailed)
    case Connect(ok) => if ok then w.(thread := EnteringStreaming) else Fail(w, SetupFailed)
    case EnterStreaming =>
      if w.state.Starting? then w.(state := Streaming, thread := CallingStarted)
      else w.(thread := Finished(NeverStreamed))
    case CallStarted => w.(thread := CheckingStreaming, log := w.log + [StartedCallback])
    case CheckStreaming =>
      if w.state.Streaming? then w.(thread := AwaitingScreenshot) else w.(thread := Finished(Displaced))
  }

  function ApplyGoLive(w: World, g: GoLiveStep): World {
    match g
    case AwaitScreenshot(_) =>
      if w.media.promise.Fulfilled? then w.(thread := SendingScreenshot) else Fail(w, NoScreenshot)
    case SendScreenshot(ok) =>
      if ok then w.(thread := AwaitingSubscription, screenshotSent := true) else Fail(w, NoScreenshot)
    case AwaitSubscription(timedOut) =>
      if timedOut then Fail(w, NotSubscribed) else w.(thread := StartingBroadcast)
    case SendStart(ok) =>
      // A failed StartBroadcast is reported, but the thread goes on.
      w.(thread := EnteringLive, log := w.log + [StartBroadcast], startRefused := w.startRefused || !ok,
         failures := if ok then w.failures else w.failures + 1)
    case EnterLive =>
      if w.state.Streaming? then w.(state := Live, thread := LoopCheck) else w.(thread := StoppingEarly)
    case StopEarly => w.(thread := Finished(StoppedEarly), log := w.log + [StopBroadcast])
  }

  function ApplyLoop(w: World, l: LoopStep): World
    requires LoopEnabled(w, l)
  {
    match l
    case CheckLoop => if w.state.Live? then w.(thread := LoopBody) else w.(thread := FinalCheck(false))
    case Beat(outcome) =>
      (match outcome
       case Continue => w.(thread := LoopCheck)
       case UpdateFails => Fail(w, UpdateFailed)
       case TooManyFailures => w.(thread := FinalCheck(true), failures := w.failures + 1))
    case CheckFinal =>
      if w.state.Stopping? then w.(thread := SendingStop(w.thread.disconnected))
      else w.(thread := Finished(Ending(w.thread.disconnected)))
    case SendStop => w.(thread := Finished(Ending(w.thread.disconnected)), log := w.log + [StopBroadcast])
  }

  predicate OtherEnabled(w: World, e: OtherStep) {
    match e
    case PassFrame => IsOnline(w.state)
    case RejectFrame => IsOnline(w.state)
    case ClaimScreenshot => w.media.frames > 0
    case SetScreenshot(_) => w.media.winners > 0
    case Receive(_, _, _) => w.feed.subscribed
    case ReportFailure => w.feed.subscribed
    case PassRetryCheck => w.feed.subscribed && (w.state.Starting? || IsOnline(w.state))
    case Resubscribe => w.feed.retrying > 0
  }

  function ApplyOther(w: World, e: OtherStep): World
    requires OtherEnabled(w, e)
  {
    match e
    case PassFrame => w.(media := w.media.(frames := w.media.frames + 1))
    case RejectFrame => w.(failures := w.failures + 1)
    case ClaimScreenshot => w.(media := Claim(w.media))
    case SetScreenshot(ok) =>
      w.(media := w.media.(winners := w.media.winners - 1, promised := w.media.promised + 1,
                           promise := if ok then Fulfilled else Broken))
    case Receive(feedId, message, isLive) =>
      // The handler's second read of the state may see anything the state has become since.
      var (state', reports) := OnMessage(feedId, w.feed.state, Received(message, IsOnline(w.state), isLive));
      w.(feed := OnFeed(w.feed, message, state'), failures := w.failures + |reports|)
    case ReportFailure => w.(failures := w.failures + 1)
    case PassRetryCheck => w.(feed := w.feed.(retrying := w.feed.retrying + 1))
    case Resubscribe => w.(feed := w.feed.(retrying := w.feed.retrying - 1, held := true))
  }

  // compare_exchange_strong on isScreenshotNeeded
  function Claim(m: Media): Media
    requires m.frames > 0
  {
    if m.isScreenshotNeeded
    then m.(frames := m.frames - 1, isScreenshotNeeded := false, winners := m.winners + 1)
    else m.(frames := m.frames - 1)
  }

  function OnFeed(f: Feed, message: Message, state': SubscriptionState): Feed {
    f.(state := state', promised := if message.Payload? && f.state.NoPayload? then f.promised + 1 else f.promised)
  }

  predicate Enabled(w: World, step: Step) {
    match step
    case ByOwner(o) => OwnerEnabled(w, o)
    case BySetup(s) => SetupEnabled(w, s)
    case ByGoLive(g) => GoLiveEnabled(w, g)
    case ByLoop(l) => LoopEnabled(w, l)
    case ByOther(e) => OtherEnabled(w, e)
  }

  function Apply(w: World, step: Step): World
    requires Enabled(w, step)
  {
    match step
    case ByOwner(o) => ApplyOwner(w, o)
    case BySetup(s) => ApplySetup(w, s)
    case ByGoLive(g) => ApplyGoLive(w, g)
    case ByLoop(l) => ApplyLoop(w, l)
    case ByOther(e) => ApplyOther(w, e)
  }

  function Ending(disconnected: bool): Exit {
    if disconnected then Disconnected else Completed
  }

  predicate Valid(w: World, steps: seq<Step>)
    decreases |steps|
  {
    steps == [] || (Enabled(w, steps[0]) && Valid(Apply(w, steps[0]), steps[1..]))
  }

  function Run(w: World, steps: seq<Step>): World
    requires Valid(w, steps)
    decreases |steps|
  {
    if steps == [] then w else Run(Apply(w, steps[0]), steps[1..])
  }

  // How far the thread has come, or had come when it returned.
  function Progress(t: Thread): nat {
    match t
    case NotSpawned => 0
    case Subscribing => 1
    case Negotiating => 2
    case CreatingFeed => 3
    case Connecting => 4
    case EnteringStreaming => 5
    case CallingStarted => 6
    case CheckingStreaming => 7
    case AwaitingScreenshot => 8
    case SendingScreenshot => 9
    case AwaitingSubscription => 10
    case StartingBroadcast => 11
    case EnteringLive => 12
    case StoppingEarly => 13
    case LoopCheck => 14
    case LoopBody => 15
    case FinalCheck(_) => 16
    case SendingStop(_) => 17
    case Finished(exit) =>
      (match exit
       case SetupFailed => 2
       case NeverStreamed => 5
       case Displaced => 7
       case NoScreenshot => 8
       case NotSubscribed => 10
       case StoppedEarly => 13
       case UpdateFailed => 15
       case Disconnected => 16
       case Completed => 17)
  }

  // The state as long as stop() has not been called.
  function UndisturbedState(t: Thread): BroadcastState {
    if Progress(t) <= 5 then Starting
    else if Progress(t) <= 13 then Streaming
    else Live
  }

  function ExpectedLog(t: Thread): seq<Action> {
    if Progress(t) <= 6 then []
    else if Progress(t) <= 11 then [StartedCallback]
    else if t == Finished(StoppedEarly) || t == Finished(Completed) then
      [StartedCallback, StartBroadcast, StopBroadcast]
    else [StartedCallback, StartBroadcast]
  }

  // What the thread can only have seen because stop() was already under way.
  predicate OnlyWhenStopping(t: Thread) {
    || t.StoppingEarly? || t == FinalCheck(false) || t.SendingStop?
    || t == Finished(NeverStreamed) || t == Finished(Displaced)
    || t == Finished(StoppedEarly) || t == Finished(Completed)
  }

  predicate OwnerInv(w: World) {
    && (w.thread.NotSpawned? <==> w.owner.Fresh? || w.owner.Launching?)
    && (match w.owner
        case Fresh => w.state.Offline?
        case Launching => w.state.Starting?
        case Started => w.state == UndisturbedState(w.thread) && !OnlyWhenStopping(w.thread)
        case StoppingStored => w.state.Stopping?
        case Joining => w.state.Stopping?
        case Joined => w.state.Stopping? && w.thread.Finished?
        case Stopped => w.state.Offline? && w.thread.Finished?)
  }

  predicate LogInv(w: World) {
    || w.log == ExpectedLog(w.thread)
    || (w.thread == Finished(Disconnected) && w.state in {Stopping, Offline}
        && w.log == [StartedCallback, StartBroadcast, StopBroadcast])
  }

  predicate ScreenshotInv(w: World) {
    && w.media.promised + w.media.winners == (if w.media.isScreenshotNeeded then 0 else 1)
    && (w.media.promise.Unset? <==> w.media.promised == 0)
    && (Progress(w.thread) <= 5 ==> w.media == INITIAL.media)
    && (Progress(w.thread) >= 9 ==> w.media.promise.Fulfilled?)
    && (Progress(w.thread) >= 10 ==> w.screenshotSent)
  }

  predicate SubscriptionInv(w: World) {
    && (w.feed.subscribed <==> Progress(w.thread) >= 2)
    && w.feed.promised == (if w.feed.state.NoPayload? then 0 else 1)
    && (Progress(w.thread) >= 11 ==> w.feed.promised == 1)
  }

  // Every way to return that stop() did not cause has been reported as a failure.
  predicate ReportInv(w: World) {
    (|| w.thread == FinalCheck(true) || w.thread == SendingStop(true)
     || (w.thread.Finished? && !OnlyWhenStopping(w.thread))) ==> w.failures > 0
  }

  predicate Inv(w: World) {
    OwnerInv(w) && LogInv(w) && ScreenshotInv(w) && SubscriptionInv(w) && ReportInv(w)
  }

  lemma OwnerKeepsInv(w: World, o: OwnerStep)
    requires Inv(w) && OwnerEnabled(w, o)
    ensures Inv(ApplyOwner(w, o))
  {
  }

  lemma SetupKeepsOwner(w: World, s: SetupStep)
    requires OwnerInv(w) && SetupEnabled(w, s)
    ensures OwnerInv(ApplySetup(w, s))
  {
  }

  lemma SetupKeepsLog(w: World, s: SetupStep)
    requires OwnerInv(w) && LogInv(w) && SetupEnabled(w, s)
    ensures LogInv(ApplySetup(w, s))
  {
  }

  lemma SetupKeepsPromises(w: World, s: SetupStep)
    requires ScreenshotInv(w) && SubscriptionInv(w) && ReportInv(w) && SetupEnabled(w, s)
    ensures ScreenshotInv(ApplySetup(w, s)) && SubscriptionInv(ApplySetup(w, s)) && ReportInv(ApplySetup(w, s))
  {
  }

  lemma GoLiveKeepsOwner(w: World, g: GoLiveStep)
    requires OwnerInv(w) && GoLiveEnabled(w, g)
    ensures OwnerInv(ApplyGoLive(w, g))
  {
  }

  lemma GoLiveKeepsLog(w: World, g: GoLiveStep)
    requires OwnerInv(w) && LogInv(w) && GoLiveEnabled(w, g)
    ensures LogInv(ApplyGoLive(w, g))
  {
  }

  lemma GoLiveKeepsPromises(w: World, g: GoLiveStep)
    requires ScreenshotInv(w) && SubscriptionInv(w) && ReportInv(w) && GoLiveEnabled(w, g)
    ensures ScreenshotInv(ApplyGoLive(w, g)) && SubscriptionInv(ApplyGoLive(w, g)) && ReportInv(ApplyGoLive(w, g))
  {
  }

  lemma LoopKeepsOwner(w: World, l: LoopStep)
    requires OwnerInv(w) && LoopEnabled(w, l)
    ensures OwnerInv(ApplyLoop(w, l))
  {
    if l.CheckLoop? || l.CheckFinal? {
      LoopCheckKeepsOwner(w, l);
    } else {
      LoopActionKeepsOwner(w, l);
    }
  }

  lemma LoopCheckKeepsOwner(w: World, l: LoopStep)
    requires OwnerInv(w) && LoopEnabled(w, l) && (l.CheckLoop? || l.CheckFinal?)
    ensures OwnerInv(ApplyLoop(w, l))
  {
  }

  lemma LoopActionKeepsOwner(w: World, l: LoopStep)
    requires OwnerInv(w) && LoopEnabled(w, l) && (l.Beat? || l.SendStop?)
    ensures OwnerInv(ApplyLoop(w, l))
  {
  }

  lemma LoopKeepsLog(w: World, l: LoopStep)
    requires OwnerInv(w) && LogInv(w) && LoopEnabled(w, l)
    ensures LogInv(ApplyLoop(w, l))
  {
  }

  lemma LoopKeepsPromises(w: World, l: LoopStep)
    requires ScreenshotInv(w) && SubscriptionInv(w) && ReportInv(w) && LoopEnabled(w, l)
    ensures ScreenshotInv(ApplyLoop(w, l)) && SubscriptionInv(ApplyLoop(w, l)) && ReportInv(ApplyLoop(w, l))
  {
  }

  lemma OtherKeepsInv(w: World, e: OtherStep)
    requires Inv(w) && OtherEnabled(w, e)
    ensures Inv(ApplyOther(w, e))
  {
  }

  lemma StepKeepsInv(w: World, step: Step)
    requires Inv(w) && Enabled(w, step)
    ensures Inv(Apply(w, step))
  {
    match step
    case ByOwner(o) => OwnerKeepsInv(w, o);
    case BySetup(s) => SetupKeepsOwner(w, s); SetupKeepsLog(w, s); SetupKeepsPromises(w, s);
    case ByGoLive(g) => GoLiveKeepsOwner(w, g); GoLiveKeepsLog(w, g); GoLiveKeepsPromises(w, g);
    case ByLoop(l) => LoopKeepsOwner(w, l); LoopKeepsLog(w, l); LoopKeepsPromises(w, l);
    case ByOther(e) => OtherKeepsInv(w, e);
  }

  lemma {:induction false} RunKeepsInv(w: World, steps: seq<Step>)
    requires Inv(w) && Valid(w, steps)
    ensures Inv(Run(w, steps))
    decreases |steps|
  {
    if steps == [] {
    } else {
      StepKeepsInv(w, steps[0]);
      RunKeepsInv(Apply(w, steps[0]), steps[1..]);
    }
  }

  predicate Safe(w: World) {
    // startedCallback, StartBroadcast and StopBroadcast happen at most once each, in this order
    && w.log <= [StartedCallback, StartBroadcast, StopBroadcast]
    // StopBroadcast is only sent once stop() has been called
    && (StopBroadcast in w.log ==> w.state.Stopping? || w.state.Offline?)
    // a broadcast that was started and did not fail is stopped exactly once
    && (w.thread.Finished? && StartBroadcast in w.log && w.thread.exit !in {UpdateFailed, Disconnected}
        ==> w.log == [StartedCallback, StartBroadcast, StopBroadcast])
    && (w.thread == Finished(UpdateFailed) ==> StopBroadcast !in w.log)
    // the check before the last StopBroadcast cannot see Offline
    && (w.thread.FinalCheck? ==> !w.state.Offline?)
    // each promise is fulfilled at most once
    && w.media.promised <= 1 && w.feed.promised <= 1
    // no frame is taken before the broadcast has entered Streaming
    && (w.media != INITIAL.media ==> Progress(w.thread) > Progress(EnteringStreaming))
    // going live takes a screenshot that was sent, an open subscription and a StartBroadcast
    && (w.state.Live? ==>
         && w.log == [StartedCallback, StartBroadcast]
         && w.media.promise.Fulfilled? && w.screenshotSent && w.feed.promised == 1)
    // a thread that returned before stop() was called has reported a failure
    && (w.thread.Finished? && w.owner.Started? ==> w.failures > 0)
  }

  lemma InvIsSafe(w: World)
    requires Inv(w)
    ensures Safe(w)
  {
  }

  // The protocol, over every interleaving from the start.
  lemma {:induction false} Protocol(steps: seq<Step>, w: World)
    requires Valid(INITIAL, steps) && w == Run(INITIAL, steps)
    ensures Safe(w)
  {
    RunKeepsInv(INITIAL, steps);
    InvIsSafe(w);
  }

  // Over every interleaving of media threads with everything else at most one thread wins the
  // screenshot, so the promise is set at most once and never by two threads.
  lemma {:induction false} ScreenshotLatch(steps: seq<Step>, w: World)
    requires Valid(INITIAL, steps) && w == Run(INITIAL, steps)
    ensures w.media.promised + w.media.winners == (if w.media.isScreenshotNeeded then 0 else 1)
    ensures w.media.promise.Unset? <==> w.media.promised == 0
  {
    RunKeepsInv(INITIAL, steps);
    InvLatches(w);
  }

  lemma InvLatches(w: World)
    requires Inv(w)
    ensures w.media.promised + w.media.winners == (if w.media.isScreenshotNeeded then 0 else 1)
    ensures w.media.promise.Unset? <==> w.media.promised == 0
  {
  }

  // The moves the state can make.
  predicate Edge(a: BroadcastState, b: BroadcastState) {
    || a == b
    || (a.Offline? && b.Starting?) || (a.Starting? && b.Streaming?) || (a.Streaming? && b.Live?)
    || (!a.Offline? && b.Stopping?)
    || (a.Stopping? && b.Offline?)
  }

  lemma OwnerMoves(w: World, o: OwnerStep)
    requires OwnerInv(w) && OwnerEnabled(w, o)
    ensures Edge(w.state, ApplyOwner(w, o).state)
  {
  }

  lemma ThreadMoves(w: World, step: Step)
    requires IsThreadStep(step) && Enabled(w, step)
    ensures Edge(w.state, Apply(w, step).state)
  {
  }

  lemma StepMoves(w: World, step: Step)
    requires OwnerInv(w) && Enabled(w, step)
    ensures Edge(w.state, Apply(w, step).state)
  {
    match step
    case ByOwner(o) => OwnerMoves(w, o);
    case ByOther(e) => assert ApplyOther(w, e).state == w.state;
    case _ => ThreadMoves(w, step);
  }

  // The states a run goes through, the first one included.
  function States(w: World, steps: seq<Step>): (r: seq<BroadcastState>)
    requires Valid(w, steps)
    ensures |r| == |steps| + 1 && r[0] == w.state
    decreases |steps|
  {
    [w.state] + if steps == [] then [] else States(Apply(w, steps[0]), steps[1..])
  }

  // Over every run the state only ever moves along these edges.
  lemma {:induction false} StateMoves(w: World, steps: seq<Step>)
    requires Inv(w) && Valid(w, steps)
    ensures forall k :: 0 <= k < |steps| ==> Edge(States(w, steps)[k], States(w, steps)[k + 1])
    decreases |steps|
  {
    if steps == [] {
    } else {
      StepKeepsInv(w, steps[0]);
      StepMoves(w, steps[0]);
      StateMoves(Apply(w, steps[0]), steps[1..]);
    }
  }

  predicate StopCalled(w: World) {
    w.owner.StoppingStored? || w.owner.Joining? || w.owner.Joined? || w.owner.Stopped?
  }

  // From the moment Stopping is stored the broadcast is never online again.
  lemma {:induction false} NeverOnlineAgain(w: World, steps: seq<Step>)
    requires Inv(w) && w.state.Stopping? && Valid(w, steps)
    ensures !IsOnline(Run(w, steps).state)
  {
    StaysStopped(w, steps);
    RunKeepsInv(w, steps);
  }

  lemma {:induction false} StaysStopped(w: World, steps: seq<Step>)
    requires StopCalled(w) && Valid(w, steps)
    ensures StopCalled(Run(w, steps))
    decreases |steps|
  {
    if steps == [] {
    } else {
      StaysStopped(Apply(w, steps[0]), steps[1..]);
    }
  }

  // After stop() has returned the broadcast thread is gone for good: no startedCallback, no
  // request, no change of state. Only failures may still be reported, by the other threads.
  lemma {:induction false} NothingAfterStop(w: World, steps: seq<Step>)
    requires Inv(w) && w.owner.Stopped? && Valid(w, steps)
    ensures var w' := Run(w, steps);
            w'.log == w.log && w'.state == w.state == Offline && w'.thread == w.thread && w.thread.Finished?
    decreases |steps|
  {
    if steps == [] {
    } else {
      StepKeepsInv(w, steps[0]);
      NothingAfterStop(Apply(w, steps[0]), steps[1..]);
    }
  }

  // An upper bound on the steps the thread can still take once Stopping is stored.
  function Rank(t: Thread): nat {
    match t
    case NotSpawned => 0
    case Subscribing => 17
    case Negotiating => 16
    case CreatingFeed => 15
    case Connecting => 14
    case EnteringStreaming => 13
    case CallingStarted => 12
    case CheckingStreaming => 11
    case AwaitingScreenshot => 10
    case SendingScreenshot => 9
    case AwaitingSubscription => 8
    case StartingBroadcast => 7
    case EnteringLive => 6
    case StoppingEarly => 5
    case LoopBody => 4
    case LoopCheck => 3
    case FinalCheck(_) => 2
    case SendingStop(_) => 1
    case Finished(_) => 0
  }

  function ThreadSteps(steps: seq<Step>): nat {
    if steps == [] then 0 else (if IsThreadStep(steps[0]) then 1 else 0) + ThreadSteps(steps[1..])
  }

  // Once Stopping is stored the thread takes at most 17 more steps, however the others are
  // scheduled, ...
  lemma {:induction false} ThreadWindsDown(w: World, steps: seq<Step>)
    requires Inv(w) && StopCalled(w) && Valid(w, steps)
    ensures ThreadSteps(steps) + Rank(Run(w, steps).thread) <= Rank(w.thread) <= 17
    decreases |steps|
  {
    if steps == [] {
    } else {
      StepKeepsInv(w, steps[0]);
      RankFalls(w, steps[0]);
      ThreadWindsDown(Apply(w, steps[0]), steps[1..]);
    }
  }

  lemma RankFalls(w: World, step: Step)
    requires OwnerInv(w) && StopCalled(w) && Enabled(w, step)
    ensures StopCalled(Apply(w, step))
    ensures Rank(Apply(w, step).thread) + (if IsThreadStep(step) then 1 else 0) <= Rank(w.thread)
  {
    match step
    case BySetup(s) => SetupRank(w, s);
    case ByGoLive(g) => GoLiveRank(w, g);
    case ByLoop(l) => LoopRank(w, l);
    case ByOwner(o) => assert ApplyOwner(w, o).thread == w.thread;
    case ByOther(e) => assert ApplyOther(w, e).thread == w.thread;
  }

  lemma SetupRank(w: World, s: SetupStep)
    requires (w.state.Stopping? || w.state.Offline?) && SetupEnabled(w, s)
    ensures Rank(ApplySetup(w, s).thread) < Rank(w.thread) && ApplySetup(w, s).owner == w.owner
  {
  }

  lemma GoLiveRank(w: World, g: GoLiveStep)
    requires (w.state.Stopping? || w.state.Offline?) && GoLiveEnabled(w, g)
    ensures Rank(ApplyGoLive(w, g).thread) < Rank(w.thread) && ApplyGoLive(w, g).owner == w.owner
  {
  }

  lemma LoopRank(w: World, l: LoopStep)
    requires (w.state.Stopping? || w.state.Offline?) && LoopEnabled(w, l)
    ensures Rank(ApplyLoop(w, l).thread) < Rank(w.thread) && ApplyLoop(w, l).owner == w.owner
  {
  }

  // ... and it is never stuck before it has finished, so the join in stop() completes.
  lemma ThreadNeverStuck(w: World)
    requires Inv(w) && !w.thread.NotSpawned?
    ensures w.thread.Finished? || exists step :: IsThreadStep(step) && Enabled(w, step)
    ensures w.thread.Finished? && w.owner.Joining? ==> Enabled(w, ByOwner(Join))
  {
    var next := match w.thread
      case Subscribing => BySetup(Subscribe)
      case Negotiating => BySetup(Negotiate(true))
      case CreatingFeed => BySetup(CreateFeed(true))
      case Connecting => BySetup(Connect(true))
      case EnteringStreaming => BySetup(EnterStreaming)
      case CallingStarted => BySetup(CallStarted)
      case CheckingStreaming => BySetup(CheckStreaming)
      case AwaitingScreenshot => ByGoLive(AwaitScreenshot(w.media.promise.Unset?))
      case SendingScreenshot => ByGoLive(SendScreenshot(true))
      case AwaitingSubscription => ByGoLive(AwaitSubscription(w.feed.promised == 0))
      case StartingBroadcast => ByGoLive(SendStart(true))
      case EnteringLive => ByGoLive(EnterLive)
      case StoppingEarly => ByGoLive(StopEarly)
      case LoopCheck => ByLoop(CheckLoop)
      case LoopBody => ByLoop(Beat(Continue))
      case FinalCheck(_) => ByLoop(CheckFinal)
      case _ => ByLoop(SendStop);
    if !w.thread.Finished? {
      assert IsThreadStep(next) && Enabled(w, next);
    }
  }

  // The set-ups of a subscription that no check stands in front of any more: the broadcast
  // thread's first statement, and ended handlers behind their last check.
  function Pending(w: World): nat {
    w.feed.retrying + if w.thread.Subscribing? then 1 else 0
  }

  predicate IsSetUp(step: Step) {
    step == BySetup(Subscribe) || step == ByOther(Resubscribe)
  }

  function SetUps(steps: seq<Step>): nat {
    if steps == [] then 0 else (if IsSetUp(steps[0]) then 1 else 0) + SetUps(steps[1..])
  }

  // Once Stopping is stored nothing is added to them: each is still made or still pending.
  lemma {:induction false} SetUpsBehindStop(w: World, steps: seq<Step>)
    requires Inv(w) && StopCalled(w) && Valid(w, steps)
    ensures SetUps(steps) + Pending(Run(w, steps)) == Pending(w)
    decreases |steps|
  {
    if steps == [] {
    } else {
      StepKeepsInv(w, steps[0]);
      StepSetsUp(w, steps[0]);
      SetUpsBehindStop(Apply(w, steps[0]), steps[1..]);
    }
  }

  lemma StepSetsUp(w: World, step: Step)
    requires OwnerInv(w) && StopCalled(w) && Enabled(w, step)
    ensures StopCalled(Apply(w, step))
    ensures Pending(Apply(w, step)) + (if IsSetUp(step) then 1 else 0) == Pending(w)
  {
    match step
    case BySetup(_) =>
    case ByOther(_) =>
    case _ =>
  }

  // stop() drops the subscription before it joins. What is held from then on has been set up
  // since.
  lemma {:induction false} HeldSince(w: World, steps: seq<Step>)
    requires Inv(w) && (w.owner.Joining? || w.owner.Joined? || w.owner.Stopped?) && Valid(w, steps)
    ensures Run(w, steps).feed.held <==> w.feed.held || SetUps(steps) > 0
    decreases |steps|
  {
    if steps == [] {
    } else {
      StepHolds(w, steps[0]);
      StepKeepsInv(w, steps[0]);
      HeldSince(Apply(w, steps[0]), steps[1..]);
    }
  }

  lemma StepHolds(w: World, step: Step)
    requires (w.owner.Joining? || w.owner.Joined? || w.owner.Stopped?) && Enabled(w, step)
    ensures var o := Apply(w, step).owner; o.Joining? || o.Joined? || o.Stopped?
    ensures IsThreadStep(step) ==> Apply(w, step).owner == w.owner
    ensures Apply(w, step).feed.held <==> w.feed.held || IsSetUp(step)
  {
    match step
    case BySetup(_) =>
    case ByOther(_) =>
    case _ =>
  }

  // stop() returned from a schedule that began with its first statement, and a subscription is
  // held.
  predicate LeavesHeld(w: World, steps: seq<Step>) {
    && Valid(w, steps) && steps != [] && steps[0] == ByOwner(StoreStopping)
    && Run(w, steps).owner.Stopped? && Run(w, steps).feed.held
  }

  lemma {:induction false} HeldNeedsSetUp(w: World, steps: seq<Step>)
    requires Inv(w) && w.owner.StoppingStored? && Valid(w, steps)
    requires Run(w, steps).owner.Stopped? && Run(w, steps).feed.held
    ensures SetUps(steps) > 0
    decreases |steps|
  {
    var w' := Apply(w, steps[0]);
    StepKeepsInv(w, steps[0]);
    if steps[0] == ByOwner(ClearSubscription) {
      HeldSince(w', steps[1..]);
    } else {
      OwnerStays(w, steps[0]);
      HeldNeedsSetUp(w', steps[1..]);
    }
  }

  lemma OwnerStays(w: World, step: Step)
    requires Enabled(w, step) && w.owner.StoppingStored? && step != ByOwner(ClearSubscription)
    ensures Apply(w, step).owner == w.owner
  {
    match step
    case ByOwner(_) =>
    case ByOther(_) =>
    case _ =>
  }

  lemma HeldWasPending(w: World, steps: seq<Step>)
    requires Inv(w) && w.owner.Started? && LeavesHeld(w, steps)
    ensures Pending(w) > 0
  {
    StepKeepsInv(w, steps[0]);
    HeldNeedsSetUp(Apply(w, steps[0]), steps[1..]);
    SetUpsBehindStop(Apply(w, steps[0]), steps[1..]);
  }

  // The thread runs to its end, and stop() returns.
  lemma FinishStop(w: World) returns (steps: seq<Step>)
    requires Inv(w) && w.owner.Joining? && w.feed.held
    ensures Valid(w, steps) && Run(w, steps).owner.Stopped? && Run(w, steps).feed.held
    decreases Rank(w.thread)
  {
    if w.thread.Finished? {
      steps := [ByOwner(Join), ByOwner(StoreOffline)];
      assert steps[1..] == [ByOwner(StoreOffline)] && steps[1..][1..] == [];
      assert Valid(Apply(w, ByOwner(Join)), steps[1..]);
    } else {
      ThreadNeverStuck(w);
      var step :| IsThreadStep(step) && Enabled(w, step);
      StepKeepsInv(w, step);
      StepHolds(w, step);
      RankFalls(w, step);
      var rest := FinishStop(Apply(w, step));
      steps := Cons(w, step, rest);
    }
  }

  lemma Cons(w: World, step: Step, rest: seq<Step>) returns (steps: seq<Step>)
    requires Enabled(w, step) && Valid(Apply(w, step), rest)
    ensures steps == [step] + rest && Valid(w, steps) && Run(w, steps) == Run(Apply(w, step), rest)
  {
    steps := [step] + rest;
    assert steps[1..] == rest;
  }

  lemma PendingCanBeHeld(w: World)
    requires Inv(w) && w.owner.Started? && Pending(w) > 0
    ensures exists steps :: LeavesHeld(w, steps)
  {
    var setUp := if w.thread.Subscribing? then BySetup(Subscribe) else ByOther(Resubscribe);
    var w1 := Apply(w, ByOwner(StoreStopping));
    StepKeepsInv(w, ByOwner(StoreStopping));
    var w2 := Apply(w1, ByOwner(ClearSubscription));
    StepKeepsInv(w1, ByOwner(ClearSubscription));
    StepKeepsInv(w2, setUp);
    var rest := FinishStop(Apply(w2, setUp));
    rest := Cons(w2, setUp, rest);
    rest := Cons(w1, ByOwner(ClearSubscription), rest);
    rest := Cons(w, ByOwner(StoreStopping), rest);
    assert LeavesHeld(w, rest);
  }

  // A broadcast can be left with a subscription behind stop() exactly if a set-up was pending
  // when stop() was called.
  lemma HeldBehindStopExactly(w: World)
    requires Inv(w) && w.owner.Started?
    ensures (exists steps :: LeavesHeld(w, steps)) <==> Pending(w) > 0
  {
    if steps: seq<Step> :| LeavesHeld(w, steps) {
      HeldWasPending(w, steps);
    }
    if Pending(w) > 0 {
      PendingCanBeHeld(w);
    }
  }

  // In every reachable state right behind StartBroadcast, the broadcast goes live exactly if
  // stop() has not been called, whatever StartBroadcast answered.
  lemma {:induction false} GoesLiveExactly(steps: seq<Step>, w: World)
    requires Valid(INITIAL, steps) && w == Run(INITIAL, steps) && w.thread.EnteringLive?
    ensures ApplyGoLive(w, EnterLive).state.Live? <==> !StopCalled(w)
  {
    RunKeepsInv(INITIAL, steps);
    EnterLiveExactly(w);
  }

  lemma EnterLiveExactly(w: World)
    requires Inv(w) && w.thread.EnteringLive?
    ensures ApplyGoLive(w, EnterLive).state.Live? <==> !StopCalled(w)
  {
  }

  predicate StartAccepted(w: World) {
    StartBroadcast in w.log && !w.startRefused
  }

  // So being live does not imply that StartBroadcast was accepted. A live broadcast has sent
  // exactly one; it was accepted exactly if that one was, and a refusal has been reported.
  lemma {:induction false} LiveAndAcceptedExactly(steps: seq<Step>, w: World)
    requires Valid(INITIAL, steps) && w == Run(INITIAL, steps) && w.state.Live?
    ensures SendStarts(steps) == 1
    ensures StartAccepted(w) <==> ByGoLive(SendStart(true)) in steps
    ensures !StartAccepted(w) <==> ByGoLive(SendStart(false)) in steps
    ensures !StartAccepted(w) ==> w.failures > 0
  {
    Protocol(steps, w);
    RefusedExactly(INITIAL, steps);
    SendStartsLogged(INITIAL, steps);
    SendStartsAre(steps);
  }

  function SendStarts(steps: seq<Step>): nat {
    if steps == [] then 0
    else (if steps[0].ByGoLive? && steps[0].g.SendStart? then 1 else 0) + SendStarts(steps[1..])
  }

  function LoggedStarts(log: seq<Action>): nat {
    multiset(log)[StartBroadcast]
  }

  lemma {:induction false} SendStartsLogged(w: World, steps: seq<Step>)
    requires Valid(w, steps)
    ensures LoggedStarts(w.log) + SendStarts(steps) == LoggedStarts(Run(w, steps).log)
    decreases |steps|
  {
    if steps == [] {
    } else {
      StepLogs(w, steps[0]);
      SendStartsLogged(Apply(w, steps[0]), steps[1..]);
    }
  }

  lemma StepLogs(w: World, step: Step)
    requires Enabled(w, step)
    ensures LoggedStarts(Apply(w, step).log) ==
      LoggedStarts(w.log) + if step.ByGoLive? && step.g.SendStart? then 1 else 0
  {
  }

  lemma {:induction false} SendStartsAre(steps: seq<Step>)
    ensures SendStarts(steps) > 0 <==> ByGoLive(SendStart(true)) in steps || ByGoLive(SendStart(false)) in steps
    ensures SendStarts(steps) == 1 ==> ByGoLive(SendStart(true)) !in steps || ByGoLive(SendStart(false)) !in steps
  {
    if steps == [] {
    } else {
      assert steps == [steps[0]] + steps[1..];
      SendStartsAre(steps[1..]);
    }
  }

  lemma {:induction false} RefusedExactly(w: World, steps: seq<Step>)
    requires Valid(w, steps) && (w.startRefused ==> w.failures > 0)
    ensures Run(w, steps).startRefused <==> w.startRefused || ByGoLive(SendStart(false)) in steps
    ensures Run(w, steps).startRefused ==> Run(w, steps).failures > 0
    decreases |steps|
  {
    if steps == [] {
    } else {
      assert steps == [steps[0]] + steps[1..];
      StepRefuses(w, steps[0]);
      RefusedExactly(Apply(w, steps[0]), steps[1..]);
    }
  }

  lemma StepRefuses(w: World, step: Step)
    requires Enabled(w, step)
    ensures Apply(w, step).startRefused <==> w.startRefused || step == ByGoLive(SendStart(false))
    ensures Apply(w, step).failures >= w.failures + if step == ByGoLive(SendStart(false)) then 1 else 0
  {
    match step
    case ByGoLive(_) =>
    case ByOther(_) =>
    case _ =>
  }

  lemma {:induction false} RunExtend(w: World, steps: seq<Step>, step: Step)
    requires Valid(w, steps) && Enabled(Run(w, steps), step)
    ensures Valid(w, steps + [step])
    ensures Run(w, steps + [step]) == Apply(Run(w, steps), step)
    decreases |steps|
  {
    if steps == [] {
      assert [] + [step] == [step] && [step][1..] == [];
    } else {
      assert (steps + [step])[1..] == steps[1..] + [step];
      RunExtend(Apply(w, steps[0]), steps[1..], step);
    }
  }

  lemma Extend(steps: seq<Step>, w: World, step: Step) returns (steps': seq<Step>, w': World)
    requires Valid(INITIAL, steps) && w == Run(INITIAL, steps) && Enabled(w, step)
    ensures steps' == steps + [step] && w' == Apply(w, step)
    ensures Valid(INITIAL, steps') && w' == Run(INITIAL, steps')
  {
    RunExtend(INITIAL, steps, step);
    steps', w' := steps + [step], Apply(w, step);
  }

  // And it happens: a run that streams, ...
  lemma Streams() returns (steps: seq<Step>, w: World)
    ensures Valid(INITIAL, steps) && w == Run(INITIAL, steps)
    ensures w == World(Streaming, Started, AwaitingScreenshot, [StartedCallback], 0, false, false,
                       Media(true, 0, 0, Unset, 0), Feed(true, NoPayload, 0, true, 0))
  {
    steps, w := [], INITIAL;
    steps, w := Extend(steps, w, ByOwner(Start));
    steps, w := Extend(steps, w, ByOwner(Spawn));
    steps, w := Extend(steps, w, BySetup(Subscribe));
    steps, w := Extend(steps, w, BySetup(Negotiate(true)));
    steps, w := Extend(steps, w, BySetup(CreateFeed(true)));
    steps, w := Extend(steps, w, BySetup(Connect(true)));
    steps, w := Extend(steps, w, BySetup(EnterStreaming));
    steps, w := Extend(steps, w, BySetup(CallStarted));
    steps, w := Extend(steps, w, BySetup(CheckStreaming));
  }

  // ... whose screenshot is sent, whose StartBroadcast is refused, and which goes live.
  lemma RefusedStartGoesLive() returns (steps: seq<Step>, w: World)
    ensures Valid(INITIAL, steps) && w == Run(INITIAL, steps)
    ensures w.state.Live? && !StartAccepted(w) && w.failures == 1
  {
    steps, w := Streams();
    steps, w := Extend(steps, w, ByOther(PassFrame));
    steps, w := Extend(steps, w, ByOther(ClaimScreenshot));
    steps, w := Extend(steps, w, ByOther(SetScreenshot(true)));
    steps, w := Extend(steps, w, ByGoLive(AwaitScreenshot(false)));
    steps, w := Extend(steps, w, ByGoLive(SendScreenshot(true)));
    steps, w := Extend(steps, w, ByOther(Receive("", Payload([], false), false)));
    steps, w := Extend(steps, w, ByGoLive(AwaitSubscription(false)));
    steps, w := Extend(steps, w, ByGoLive(SendStart(false)));
    steps, w := Extend(steps, w, ByGoLive(EnterLive));
  }
}
