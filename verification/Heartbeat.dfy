// The heartbeat loop of a live broadcast.
module Heartbeat {
  import opened Common

  const HEARTBEAT_INTERVAL: nat := 5000
  const CHECK_INTERVAL: nat := 100
  const MAX_FAILURES: nat := 5

  datatype Quality = Good | Poor | Unknown

  // One turn of the loop: what a heartbeat would be answered, and whether an update of the feed
  // would succeed.
  datatype Tick = Tick(reply: Option<Quality>, updateOk: bool)

  datatype Failure = BroadcastFailed | Disconnected

  // The replies of the first `n` heartbeats, if they happen every 50 turns.
  function Replies(ticks: seq<Tick>, n: nat): (r: seq<Option<Quality>>)
    requires n == 0 || 50 * (n - 1) < |ticks|
    ensures |r| == n
  {
    seq(n, j requires 0 <= j < n => ticks[50 * j].reply)
  }

  function TrailingFailures(replies: seq<Option<Quality>>): (n: nat)
    ensures n <= |replies|
  {
    if replies == [] || replies[|replies| - 1].Some? then 0
    else TrailingFailures(replies[..|replies| - 1]) + 1
  }

  // The qualities reported, Unknown to begin with.
  function Qualities(replies: seq<Option<Quality>>): (r: seq<Quality>)
    ensures r != []
  {
    if replies == [] then [Unknown]
    else
      var before := Qualities(replies[..|replies| - 1]);
      match replies[|replies| - 1]
      case None => before
      case Some(q) => before + [q]
  }

  function LastQuality(replies: seq<Option<Quality>>): Quality {
    var qs := Qualities(replies);
    qs[|qs| - 1]
  }

  // Whether heartbeat `k` reports another quality than the last one before it.
  predicate ChangesQuality(ticks: seq<Tick>, k: nat)
    requires 50 * k < |ticks|
  {
    var reply := ticks[50 * k].reply;
    reply.Some? && reply.value != LastQuality(Replies(ticks, k))
  }

  predicate DisconnectsAt(ticks: seq<Tick>, k: nat)
    requires 50 * k < |ticks|
  {
    TrailingFailures(Replies(ticks, k + 1)) > MAX_FAILURES
  }

  predicate UpdateFailsAt(ticks: seq<Tick>, k: nat)
    requires 50 * k < |ticks|
  {
    ChangesQuality(ticks, k) && !ticks[50 * k].updateOk
  }

  // The first `n` heartbeats give no reason to end the broadcast.
  predicate Calm(ticks: seq<Tick>, n: nat)
    requires n == 0 || 50 * (n - 1) < |ticks|
  {
    forall k :: 0 <= k < n ==> !DisconnectsAt(ticks, k) && !UpdateFailsAt(ticks, k)
  }

  // The loop's variables after `n` heartbeats.
  predicate Summary(ticks: seq<Tick>, n: nat, quality: Quality, updates: nat, failures: nat)
    requires n == 0 || 50 * (n - 1) < |ticks|
  {
    && quality == LastQuality(Replies(ticks, n))
    && updates == Alternations(Qualities(Replies(ticks, n)))
    && failures == TrailingFailures(Replies(ticks, n))
  }

  // `ticks` are the turns for which the loop found the broadcast live; it ends by itself at the
  // first check that finds it otherwise. `beats` are the turns a heartbeat was sent in. A failure
  // is reported at the first heartbeat that gives a reason for it, and no other is sent.
  method Run(ticks: seq<Tick>)
    returns (beats: seq<nat>, connectionQuality: Quality, updates: nat, failures: nat, failure: Option<Failure>)
    ensures |beats| <= (|ticks| + 49) / 50
    ensures forall j :: 0 <= j < |beats| ==> beats[j] == 50 * j < |ticks|
    ensures Summary(ticks, |beats|, connectionQuality, updates, failures)
    ensures failure.None? ==> |beats| == (|ticks| + 49) / 50 && Calm(ticks, |beats|)
    ensures failure.Some? ==>
      && |beats| > 0 && Calm(ticks, |beats| - 1)
      && (failure.value.Disconnected? <==> DisconnectsAt(ticks, |beats| - 1))
      && (failure.value.BroadcastFailed? <==> UpdateFailsAt(ticks, |beats| - 1))
  {
    beats, connectionQuality, updates, failures, failure := [], Unknown, 0, 0, None;
    var interval := HEARTBEAT_INTERVAL;
    for i := 0 to |ticks|
      invariant i == 0 ==> |beats| == 0 && interval == HEARTBEAT_INTERVAL
      invariant i > 0 ==> 50 * (|beats| - 1) < i <= 50 * |beats|
      invariant i > 0 ==> interval == CHECK_INTERVAL * (i - 1 - 50 * (|beats| - 1))
      invariant forall j :: 0 <= j < |beats| ==> beats[j] == 50 * j < |ticks|
      invariant Summary(ticks, |beats|, connectionQuality, updates, failures)
      invariant Calm(ticks, |beats|) && failure.None?
    {
      interval := interval + CHECK_INTERVAL;
      if interval < HEARTBEAT_INTERVAL {
        continue;
      }
      interval := 0;
      ghost var n := |beats|;
      assert i == 50 * n;
      connectionQuality, updates, failures, failure := Beat(ticks, |beats|, connectionQuality, updates, failures);
      beats := beats + [i];
      assert |beats| == n + 1 && beats[n] == 50 * n;
      if failure.Some? {
        HeartbeatsIn(i + 1, n + 1);
        return;
      }
      CalmGrows(ticks, n);
    }
    HeartbeatsIn(|ticks|, |beats|);
  }

  lemma CalmGrows(ticks: seq<Tick>, n: nat)
    requires 50 * n < |ticks| && Calm(ticks, n) && !DisconnectsAt(ticks, n) && !UpdateFailsAt(ticks, n)
    ensures Calm(ticks, n + 1)
  {
  }

  lemma HeartbeatsIn(turns: nat, n: nat)
    requires 50 * (n - 1) < turns <= 50 * n || turns == n == 0
    ensures n == (turns + 49) / 50
  {
  }

  // One heartbeat and what follows from its reply.
  method Beat(ticks: seq<Tick>, n: nat, connectionQuality: Quality, updates: nat, failures: nat)
    returns (connectionQuality': Quality, updates': nat, failures': nat, failure: Option<Failure>)
    requires 50 * n < |ticks| && Summary(ticks, n, connectionQuality, updates, failures)
    ensures Summary(ticks, n + 1, connectionQuality', updates', failures')
    ensures failure == Some(Disconnected) <==> DisconnectsAt(ticks, n)
    ensures failure == Some(BroadcastFailed) <==> UpdateFailsAt(ticks, n)
  {
    Extended(ticks, n);
    connectionQuality', updates', failures', failure := connectionQuality, updates, failures, None;
    var Tick(reply, updateOk) := ticks[50 * n];
    if reply.Some? {
      failures' := 0;
      var shouldMutateFeed := false;
      if reply.value != connectionQuality {
        connectionQuality' := reply.value;
        shouldMutateFeed := true;
      }
      if shouldMutateFeed {
        updates' := updates + 1;
        if !updateOk {
          return connectionQuality', updates', failures', Some(BroadcastFailed);
        }
      }
    } else {
      failures' := failures + 1;
      if failures' > MAX_FAILURES {
        return connectionQuality', updates', failures', Some(Disconnected);
      }
    }
  }

  // What one more heartbeat does to the summaries of the replies.
  lemma Extended(ticks: seq<Tick>, n: nat)
    requires 50 * n < |ticks|
    ensures var before, after, reply := Replies(ticks, n), Replies(ticks, n + 1), ticks[50 * n].reply;
            && TrailingFailures(after) == (if reply.Some? then 0 else TrailingFailures(before) + 1)
            && LastQuality(after) == (if reply.Some? then reply.value else LastQuality(before))
            && Alternations(Qualities(after)) ==
                 Alternations(Qualities(before)) + (if ChangesQuality(ticks, n) then 1 else 0)
  {
    var before, after := Replies(ticks, n), Replies(ticks, n + 1);
    assert after[..n] == before;
    if after[n].Some? {
      AlternationsSnoc(Qualities(before), after[n].value);
    }
  }

  lemma {:induction false} TrailingFailuresMeaning(replies: seq<Option<Quality>>, n: nat)
    ensures TrailingFailures(replies) >= n <==>
      n <= |replies| && forall i :: |replies| - n <= i < |replies| ==> replies[i].None?
  {
    if replies != [] && n > 0 {
      var before := replies[..|replies| - 1];
      TrailingFailuresMeaning(before, n - 1);
      if n <= |replies| && forall i :: |replies| - n <= i < |replies| ==> replies[i].None? {
        assert forall i :: |before| - (n - 1) <= i < |before| ==> before[i] == replies[i];
      }
      if TrailingFailures(replies) >= n {
        forall i | |replies| - n <= i < |replies| ensures replies[i].None? {
          assert i < |before| ==> replies[i] == before[i];
        }
      }
    }
  }

  // The quality is that of the last heartbeat that was answered, ...
  lemma {:induction false} LastQualityIs(replies: seq<Option<Quality>>, i: nat)
    requires i < |replies| && replies[i].Some?
    requires forall j :: i < j < |replies| ==> replies[j].None?
    ensures LastQuality(replies) == replies[i].value
  {
    if i + 1 < |replies| {
      LastQualityIs(replies[..|replies| - 1], i);
    }
  }

  // ... and Unknown before there is one.
  lemma {:induction false} UnknownAtFirst(replies: seq<Option<Quality>>)
    requires forall j :: 0 <= j < |replies| ==> replies[j].None?
    ensures LastQuality(replies) == Unknown
  {
    if replies == [] {
    } else {
      UnknownAtFirst(replies[..|replies| - 1]);
    }
  }

  // Heartbeat `k` is answered with another quality than the last answer before it, or, if there
  // is none, with a known one.
  ghost predicate Differs(ticks: seq<Tick>, k: nat)
    requires 50 * k < |ticks|
  {
    && ticks[50 * k].reply.Some?
    && (|| (exists i :: 0 <= i < k && IsAnswerBefore(ticks, i, k) && ticks[50 * i].reply != ticks[50 * k].reply)
        || ((forall i :: 0 <= i < k ==> ticks[50 * i].reply.None?) && ticks[50 * k].reply != Some(Unknown)))
  }

  predicate IsAnswerBefore(ticks: seq<Tick>, i: nat, k: nat)
    requires i < k && 50 * k < |ticks|
  {
    ticks[50 * i].reply.Some? && forall j :: i < j < k ==> ticks[50 * j].reply.None?
  }

  lemma {:induction false} LastAnswer(replies: seq<Option<Quality>>) returns (i: int)
    ensures -1 <= i < |replies| && (i >= 0 ==> replies[i].Some?)
    ensures forall j :: i < j < |replies| ==> replies[j].None?
  {
    if replies == [] || replies[|replies| - 1].Some? {
      i := |replies| - 1;
    } else {
      i := LastAnswer(replies[..|replies| - 1]);
    }
  }

  lemma ChangesExactly(ticks: seq<Tick>, k: nat)
    requires 50 * k < |ticks|
    ensures ChangesQuality(ticks, k) <==> Differs(ticks, k)
    ensures UpdateFailsAt(ticks, k) <==> Differs(ticks, k) && !ticks[50 * k].updateOk
  {
    var replies := Replies(ticks, k);
    var i := LastAnswer(replies);
    assert forall j :: 0 <= j < k ==> replies[j] == ticks[50 * j].reply;
    if i < 0 {
      UnknownAtFirst(replies);
    } else {
      LastQualityIs(replies, i);
      assert IsAnswerBefore(ticks, i, k);
      forall i' | 0 <= i' < k && IsAnswerBefore(ticks, i', k) ensures i' == i {
        assert replies[i'].Some?;
      }
    }
  }

  ghost function CountDiffering(ticks: seq<Tick>, n: nat): nat
    requires n == 0 || 50 * (n - 1) < |ticks|
  {
    if n == 0 then 0 else CountDiffering(ticks, n - 1) + if Differs(ticks, n - 1) then 1 else 0
  }

  // So the feed is updated once for every heartbeat that is answered differently.
  lemma {:induction false} UpdatesAreDifferences(ticks: seq<Tick>, n: nat)
    requires n == 0 || 50 * (n - 1) < |ticks|
    ensures Alternations(Qualities(Replies(ticks, n))) == CountDiffering(ticks, n)
  {
    if n == 0 {
    } else {
      UpdatesAreDifferences(ticks, n - 1);
      Extended(ticks, n - 1);
      ChangesExactly(ticks, n - 1);
    }
  }

  // More than five trailing failures means that the last six heartbeats failed: together with
  // the contract of Run, a disconnection is reported exactly at the first six in a row.
  lemma DisconnectsExactly(ticks: seq<Tick>, k: nat)
    requires 50 * k < |ticks|
    ensures DisconnectsAt(ticks, k) <==> k >= 5 && forall j :: k - 5 <= j <= k ==> ticks[50 * j].reply.None?
  {
    var replies := Replies(ticks, k + 1);
    TrailingFailuresMeaning(replies, 6);
    assert forall j :: 0 <= j <= k ==> replies[j] == ticks[50 * j].reply;
  }
}
