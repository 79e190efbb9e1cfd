// The stage subscription: how websocket messages move the subscription state, when a takeover
// is reported, and how an ended connection is retried.
module Subscription {
  import opened Common
  import opened RestApi

  datatype SubscriptionState = NoPayload | Open | FeedHasAppeared | StageHasGoneLive

  datatype Message = Payload(feeds: seq<string>, live: bool) | Errors

  datatype Failure = Takeover | BroadcastFailed

  datatype EndType = Failed | Closed

  // What the ended handler finds when it looks at the broadcast.
  datatype Check = Active | Inactive | Gone

  // `online` and `isLive` are what the two reads of the broadcast state during a message saw.
  datatype Event =
    | Received(message: Message, online: bool, isLive: bool)
    | Ended(endType: EndType, first: Check, second: Check)

  // `fulfilled` counts fulfilments of the subscriptionOpened promise, `connects` calls of
  // setupSubscription; `tryNum` is the number the current connection was set up with.
  datatype State = State(
    sub: SubscriptionState, fulfilled: nat, connected: bool, tryNum: nat, connects: nat, sleeps: seq<nat>)

  const CONNECTED := State(NoPayload, 0, true, 1, 1, [])

  // The state part of the message handler.
  function OnPayload(sub: SubscriptionState, onStage: bool, live: bool): SubscriptionState {
    var s := if sub.NoPayload? then Open else sub;
    if !onStage then s
    else if live then StageHasGoneLive
    else if s.Open? then FeedHasAppeared
    else s
  }

  function OnMessage(feedId: string, sub: SubscriptionState, e: Event): (SubscriptionState, seq<Failure>)
    requires e.Received?
  {
    match e.message
    case Errors => (sub, [BroadcastFailed])
    case Payload(feeds, live) =>
      var onStage := feedId in feeds;
      var sub' := OnPayload(sub, onStage, live);
      if !onStage && sub'.FeedHasAppeared? && e.online then (sub', [Takeover])
      else if !onStage && sub'.StageHasGoneLive? && e.online then (sub', [Takeover])
      else if !live && sub'.StageHasGoneLive? && e.isLive then (sub', [Takeover])
      else (sub', [])
  }

  function OnEnded(s: State, e: Event): State
    requires e.Ended? && s.tryNum < SIZE_LIMIT - 1
  {
    var ended := s.(connected := false);
    if !e.first.Active? then ended
    else if e.endType.Closed? then ended.(connected := true, tryNum := 1, connects := s.connects + 1)
    else
      var slept := ended.(sleeps := s.sleeps + [Backoff(s.tryNum)]);
      if !e.second.Active? then slept
      else slept.(connected := true, tryNum := s.tryNum + 1, connects := s.connects + 1)
  }

  function Step(feedId: string, s: State, e: Event): (State, seq<Failure>)
    requires s.tryNum < SIZE_LIMIT - 1
  {
    match e
    case Received(message, _, _) =>
      var (sub', failures) := OnMessage(feedId, s.sub, e);
      var fulfilled' := if message.Payload? && s.sub.NoPayload? then s.fulfilled + 1 else s.fulfilled;
      (s.(sub := sub', fulfilled := fulfilled'), failures)
    case Ended(_, _, _) => (OnEnded(s, e), [])
  }

  // The fields of Broadcast the two handlers work on.
  class StageSubscriber {
    const feedId: string
    var subscriptionState: SubscriptionState
    var fulfilled: nat
    var connected: bool
    var tryNum: nat
    var connects: nat
    var sleeps: seq<nat>

    ghost function View(): State
      reads this
    {
      State(subscriptionState, fulfilled, connected, tryNum, connects, sleeps)
    }

    constructor (feedId: string)
      ensures this.feedId == feedId && View() == CONNECTED
    {
      this.feedId := feedId;
      subscriptionState, fulfilled, connected, tryNum, connects, sleeps := NoPayload, 0, true, 1, 1, [];
    }

    method SetupSubscription(tryNum: nat)
      modifies this
      ensures View() == old(View()).(connected := true, tryNum := tryNum, connects := old(connects) + 1)
    {
      connected, this.tryNum, connects := true, tryNum, connects + 1;
    }

    method MessageHandler(update: Message, online: bool, isLive: bool) returns (failures: seq<Failure>)
      requires tryNum < SIZE_LIMIT - 1
      modifies this
      ensures (View(), failures) == Step(feedId, old(View()), Received(update, online, isLive))
    {
      failures := [];
      if update.Payload? {
        if subscriptionState == NoPayload {
          subscriptionState := Open;
          fulfilled := fulfilled + 1;
        }
        var feedIsOnStage := Find(update.feeds, feedId);
        if feedIsOnStage {
          if subscriptionState == Open {
            subscriptionState := FeedHasAppeared;
          }
          if update.live {
            subscriptionState := StageHasGoneLive;
          }
        } else if (subscriptionState == FeedHasAppeared || subscriptionState == StageHasGoneLive) && online {
          return [Takeover];
        }
        if !update.live && subscriptionState == StageHasGoneLive && isLive {
          failures := [Takeover];
        }
      } else {
        failures := [BroadcastFailed];
      }
    }

    method EndedHandler(endType: EndType, first: Check, second: Check)
      requires tryNum < SIZE_LIMIT - 1
      modifies this
      ensures View() == Step(feedId, old(View()), Ended(endType, first, second)).0
    {
      connected := false;
      if !first.Active? {
        return;
      }
      if endType.Closed? {
        SetupSubscription(1);
        return;
      }
      sleeps := sleeps + [Backoff(tryNum)];
      if second.Active? {
        SetupSubscription(tryNum + 1);
      }
    }
  }

  // std::find_if over the feeds of the payload.
  method Find(feeds: seq<string>, id: string) returns (found: bool)
    ensures found <==> id in feeds
  {
    for i := 0 to |feeds|
      invariant id !in feeds[..i]
    {
      if feeds[i] == id {
        return true;
      }
    }
    return false;
  }

  // A history is possible if no connection ends that was not there. Its length stands for the
  // width of the retry counter.
  predicate Possible(feedId: string, h: seq<Event>) {
    |h| < SIZE_LIMIT - 2 &&
    (h != [] ==>
      var before := h[..|h| - 1];
      Possible(feedId, before) && (h[|h| - 1].Ended? ==> Run(feedId, before).connected))
  }

  function Run(feedId: string, h: seq<Event>): (s: State)
    requires |h| < SIZE_LIMIT - 2
    ensures s.tryNum <= |h| + 1
  {
    if h == [] then CONNECTED else Step(feedId, Run(feedId, h[..|h| - 1]), h[|h| - 1]).0
  }

  predicate IsPayload(e: Event) {
    e.Received? && e.message.Payload?
  }

  predicate ShowsFeed(feedId: string, e: Event) {
    IsPayload(e) && feedId in e.message.feeds
  }

  predicate ShowsFeedLive(feedId: string, e: Event) {
    ShowsFeed(feedId, e) && e.message.live
  }

  predicate SawPayload(h: seq<Event>) {
    exists i :: 0 <= i < |h| && IsPayload(h[i])
  }

  predicate SawFeed(feedId: string, h: seq<Event>) {
    exists i :: 0 <= i < |h| && ShowsFeed(feedId, h[i])
  }

  predicate SawFeedLive(feedId: string, h: seq<Event>) {
    exists i :: 0 <= i < |h| && ShowsFeedLive(feedId, h[i])
  }

  // The state is a function of what has been seen, in whatever order and over however many
  // connections; the promise is fulfilled once, by the first payload.
  lemma {:induction false} StateIsWhatWasSeen(feedId: string, h: seq<Event>)
    requires |h| < SIZE_LIMIT - 2
    ensures var s := Run(feedId, h);
            && s.sub == (if SawFeedLive(feedId, h) then StageHasGoneLive
                         else if SawFeed(feedId, h) then FeedHasAppeared
                         else if SawPayload(h) then Open
                         else NoPayload)
            && s.fulfilled == if SawPayload(h) then 1 else 0
  {
    if h == [] {
    } else {
      var n := |h| - 1;
      StateIsWhatWasSeen(feedId, h[..n]);
      SawSnoc(feedId, h);
      assert Run(feedId, h) == Step(feedId, Run(feedId, h[..n]), h[n]).0;
    }
  }

  lemma SawSnoc(feedId: string, h: seq<Event>)
    requires h != []
    ensures var n := |h| - 1;
            && (SawPayload(h) <==> SawPayload(h[..n]) || IsPayload(h[n]))
            && (SawFeed(feedId, h) <==> SawFeed(feedId, h[..n]) || ShowsFeed(feedId, h[n]))
            && (SawFeedLive(feedId, h) <==> SawFeedLive(feedId, h[..n]) || ShowsFeedLive(feedId, h[n]))
  {
    var n := |h| - 1;
    forall i | 0 <= i < n ensures h[..n][i] == h[i] {}
    if SawPayload(h[..n]) {
      var i :| 0 <= i < n && IsPayload(h[..n][i]);
      assert IsPayload(h[i]);
    }
    if SawFeed(feedId, h[..n]) {
      var i :| 0 <= i < n && ShowsFeed(feedId, h[..n][i]);
      assert ShowsFeed(feedId, h[i]);
    }
    if SawFeedLive(feedId, h[..n]) {
      var i :| 0 <= i < n && ShowsFeedLive(feedId, h[..n][i]);
      assert ShowsFeedLive(feedId, h[i]);
    }
  }

  function Rank(s: SubscriptionState): nat {
    match s case NoPayload => 0 case Open => 1 case FeedHasAppeared => 2 case StageHasGoneLive => 3
  }

  // It never goes backwards, reconnects included.
  lemma {:induction false} NeverBackwards(feedId: string, h: seq<Event>, i: nat)
    requires i <= |h| < SIZE_LIMIT - 2
    ensures Rank(Run(feedId, h[..i]).sub) <= Rank(Run(feedId, h).sub)
    ensures Run(feedId, h[..i]).fulfilled <= Run(feedId, h).fulfilled <= 1
  {
    StateIsWhatWasSeen(feedId, h);
    StateIsWhatWasSeen(feedId, h[..i]);
    forall j | 0 <= j < i ensures h[..i][j] == h[j] {}
  }

  // Exactly when a message makes the handler report a takeover: our feed is missing though an
  // earlier message had it and we are online, or the stage is not live though an earlier
  // message had our feed on the live stage and we are live. Errors are reported as a failed
  // broadcast, and nothing else is reported.
  lemma {:induction false} TakeoverExactly(feedId: string, h: seq<Event>, e: Event)
    requires |h| < SIZE_LIMIT - 2
    ensures var failures := Step(feedId, Run(feedId, h), e).1;
            && failures in [[], [Takeover], [BroadcastFailed]]
            && (failures == [BroadcastFailed] <==> e.Received? && e.message.Errors?)
            && (failures == [Takeover] <==>
                 && IsPayload(e)
                 && (|| (feedId !in e.message.feeds && SawFeed(feedId, h) && e.online)
                     || (!e.message.live && SawFeedLive(feedId, h) && e.isLive)))
  {
    StateIsWhatWasSeen(feedId, h);
    if SawFeedLive(feedId, h) {
      var i :| 0 <= i < |h| && ShowsFeedLive(feedId, h[i]);
      assert ShowsFeed(feedId, h[i]);
    }
  }

  // Failed ends since the last set-up that started counting afresh.
  function TrailingFailures(h: seq<Event>): (k: nat)
    ensures k <= |h|
  {
    if h == [] then 0
    else
      var e, before := h[|h| - 1], h[..|h| - 1];
      if e.Received? then TrailingFailures(before)
      else if e.endType.Closed? then 0
      else TrailingFailures(before) + 1
  }

  // An end that leads to another connection: an active broadcast at every check made.
  predicate Reconnects(e: Event) {
    e.Ended? && e.first.Active? && (e.endType.Closed? || e.second.Active?)
  }

  function CountReconnects(h: seq<Event>): nat {
    if h == [] then 0
    else CountReconnects(h[..|h| - 1]) + if Reconnects(h[|h| - 1]) then 1 else 0
  }

  lemma {:induction false} RetriesCount(feedId: string, h: seq<Event>)
    requires Possible(feedId, h)
    ensures Run(feedId, h).connected ==> Run(feedId, h).tryNum == 1 + TrailingFailures(h)
    ensures Run(feedId, h).connects == 1 + CountReconnects(h)
    ensures Run(feedId, h).connected <==> forall i :: 0 <= i < |h| && h[i].Ended? ==> Reconnects(h[i])
  {
    if h == [] {
    } else {
      var n := |h| - 1;
      RetriesCount(feedId, h[..n]);
      forall i | 0 <= i < n ensures h[..n][i] == h[i] {}
    }
  }

  // The k-th consecutive failure of an active broadcast sleeps min(1 + k, 20) seconds; a closed
  // connection, a message and the end of an inactive broadcast do not sleep at all.
  lemma {:induction false} SleepOfFailure(feedId: string, h: seq<Event>, e: Event)
    requires Possible(feedId, h + [e])
    ensures Run(feedId, h + [e]).sleeps == Run(feedId, h).sleeps +
      if e.Ended? && e.endType.Failed? && e.first.Active?
      then [Min(1 + TrailingFailures(h + [e]), 20)] else []
  {
    assert (h + [e])[..|h|] == h;
    RetriesCount(feedId, h);
  }

  // While the connection lives, the sleeps since the failures began are exactly their delays.
  lemma {:induction false} SleepsOfFailureRun(feedId: string, h: seq<Event>)
    requires Possible(feedId, h) && Run(feedId, h).connected
    ensures var sleeps, k := Run(feedId, h).sleeps, TrailingFailures(h);
            k <= |sleeps| && sleeps[|sleeps| - k..] == Delays(k)
  {
    if h == [] {
    } else {
      var n := |h| - 1;
      assert h[..n] + [h[n]] == h;
      WasConnected(feedId, h);
      SleepsOfFailureRun(feedId, h[..n]);
      SleepOfFailure(feedId, h[..n], h[n]);
    }
  }

  // A connection that is there has lived through every end before.
  lemma {:induction false} WasConnected(feedId: string, h: seq<Event>)
    requires Possible(feedId, h) && h != [] && Run(feedId, h).connected
    ensures Run(feedId, h[..|h| - 1]).connected
    ensures h[|h| - 1].Ended? ==> Reconnects(h[|h| - 1])
  {
  }
}
