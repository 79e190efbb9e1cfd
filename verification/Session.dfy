// What an Instance knows about the signed-in user, over sequential API calls and failure tasks.
// The methods of Instance are proved against Step; the laws over whole runs are about Step.
module Session {
  import opened Common

  // The shared credentials object is told apart by a serial number, a broadcast by its client
  // id; a broadcast keeps a reference to the credentials it was built with.
  type CredentialsId = nat

  datatype Broadcast = Broadcast(clientId: nat, credentials: CredentialsId)

  datatype UserInfo = UserInfo(username: string, canBroadcast: bool)

  datatype Result =
    | Success | Failure | NotSignedIn | OldVersion | EmailVerificationRequired | AlreadyBroadcasting | Refused

  // The answers of the services are part of a call: the refresh token an accepted sign-in comes
  // with, and the user info that could be fetched.
  datatype Call =
    | Authenticate(token: Option<string>, fetched: Option<UserInfo>)
    | SignOut
    | StartBroadcast(oldVersion: bool, fetched: Option<UserInfo>)
    | EndBroadcast
    | FailureTask(clientId: nat)

  datatype State = State(
    refreshToken: Option<string>, sharedCredentials: Option<CredentialsId>, userInfo: Option<UserInfo>,
    broadcast: Option<Broadcast>, nextCredentials: CredentialsId, nextClient: nat)

  const SIGNED_OUT := State(None, None, None, None, 0, 0)

  predicate SignedIn(s: State) {
    s.sharedCredentials.Some? && s.userInfo.Some?
  }

  // All set or all unset, and a broadcast uses the very credentials that are set.
  predicate Inv(s: State) {
    && (s.refreshToken.Some? <==> s.sharedCredentials.Some?)
    && (s.userInfo.Some? <==> s.sharedCredentials.Some?)
    && (s.broadcast.Some? ==> s.sharedCredentials == Some(s.broadcast.value.credentials))
  }

  function Step(s: State, c: Call): (State, Result) {
    match c
    case Authenticate(token, fetched) =>
      if s.broadcast.Some? then (s, AlreadyBroadcasting)
      else if token.None? then (s, Refused)
      else
        // The credentials object is replaced before the user info is known.
        var replaced := s.(nextCredentials := s.nextCredentials + 1, userInfo := fetched);
        if fetched.None? then (replaced.(refreshToken := None, sharedCredentials := None), Failure)
        else (replaced.(refreshToken := token, sharedCredentials := Some(s.nextCredentials)), Success)
    case SignOut =>
      (s.(broadcast := None, sharedCredentials := None, refreshToken := None, userInfo := None), Success)
    case StartBroadcast(oldVersion, fetched) =>
      if !SignedIn(s) then (s, NotSignedIn)
      else if oldVersion then (s, OldVersion)
      else if !s.userInfo.value.canBroadcast && (fetched.None? || !fetched.value.canBroadcast) then
        (s, EmailVerificationRequired)
      else
        var s' := if s.userInfo.value.canBroadcast then s else s.(userInfo := fetched);
        if s.broadcast.Some? then (s', AlreadyBroadcasting)
        else
          (s'.(broadcast := Some(Broadcast(s.nextClient, s.sharedCredentials.value)),
               nextClient := s.nextClient + 1), Success)
    case EndBroadcast => (s.(broadcast := None), Success)
    case FailureTask(clientId) =>
      if s.broadcast.Some? && s.broadcast.value.clientId == clientId then (s.(broadcast := None), Success)
      else (s, Refused)
  }

  class Instance {
    var refreshToken: Option<string>
    var sharedCredentials: Option<CredentialsId>
    var userInfo: Option<UserInfo>
    var broadcast: Option<Broadcast>
    var nextCredentials: CredentialsId
    var nextClient: nat

    ghost predicate Valid()
      reads this
    {
      Inv(View())
    }

    ghost function View(): State
      reads this
    {
      State(refreshToken, sharedCredentials, userInfo, broadcast, nextCredentials, nextClient)
    }

    constructor ()
      ensures Valid() && View() == SIGNED_OUT
    {
      refreshToken, sharedCredentials, userInfo, broadcast := None, None, None, None;
      nextCredentials, nextClient := 0, 0;
    }

    method Authenticate(token: Option<string>, fetched: Option<UserInfo>) returns (result: Result)
      requires Valid()
      modifies this
      ensures Valid() && (View(), result) == Step(old(View()), Call.Authenticate(token, fetched))
    {
      if broadcast.Some? {
        return AlreadyBroadcasting;
      }
      if token.None? {
        return Refused;
      }
      refreshToken := token;
      sharedCredentials, nextCredentials := Some(nextCredentials), nextCredentials + 1;
      userInfo := fetched;
      if userInfo.None? {
        sharedCredentials := None;
        refreshToken := None;
        return Failure;
      }
      return Success;
    }

    predicate IsSignedIn()
      reads this
    {
      sharedCredentials.Some? && userInfo.Some?
    }

    method StartBroadcast(oldVersion: bool, fetched: Option<UserInfo>) returns (result: Result)
      requires Valid()
      modifies this
      ensures Valid() && (View(), result) == Step(old(View()), Call.StartBroadcast(oldVersion, fetched))
    {
      if !IsSignedIn() {
        return NotSignedIn;
      }
      if oldVersion {
        return OldVersion;
      }
      if !userInfo.value.canBroadcast {
        if fetched.None? || !fetched.value.canBroadcast {
          return EmailVerificationRequired;
        }
        userInfo := fetched;
      }
      if broadcast.Some? {
        return AlreadyBroadcasting;
      }
      broadcast, nextClient := Some(Broadcast(nextClient, sharedCredentials.value)), nextClient + 1;
      return Success;
    }

    method EndBroadcast()
      requires Valid()
      modifies this`broadcast
      ensures Valid() && View() == Step(old(View()), Call.EndBroadcast).0
    {
      if broadcast.Some? {
        broadcast := None;
      }
    }

    method FailureTask(clientId: nat) returns (result: Result)
      requires Valid()
      modifies this`broadcast
      ensures Valid() && (View(), result) == Step(old(View()), Call.FailureTask(clientId))
    {
      if broadcast.None? || broadcast.value.clientId != clientId {
        return Refused;
      }
      EndBroadcast();
      return Success;
    }

    method SignOut()
      requires Valid()
      modifies this
      ensures Valid() && View() == Step(old(View()), Call.SignOut).0
    {
      EndBroadcast();
      sharedCredentials := None;
      refreshToken := None;
      userInfo := None;
    }
  }

  function Run(s: State, calls: seq<Call>): State {
    if calls == [] then s else Step(Run(s, calls[..|calls| - 1]), calls[|calls| - 1]).0
  }

  lemma {:induction false} RunKeepsInv(s: State, calls: seq<Call>)
    requires Inv(s)
    ensures Inv(Run(s, calls))
  {
    if calls == [] {
    } else {
      RunKeepsInv(s, calls[..|calls| - 1]);
    }
  }

  // What a call decides about being signed in, if anything: an accepted sign-in does, by whether
  // the user info could be fetched, unless a broadcast is active; signing out always does.
  function Decision(s: State, c: Call): Option<bool> {
    if c.SignOut? then Some(false)
    else if c.Authenticate? && s.broadcast.None? && c.token.Some? then Some(c.fetched.Some?)
    else None
  }

  function LastDecision(calls: seq<Call>): Option<bool> {
    if calls == [] then None
    else
      var before := calls[..|calls| - 1];
      var d := Decision(Run(SIGNED_OUT, before), calls[|calls| - 1]);
      if d.Some? then d else LastDecision(before)
  }

  // Over every run the last decision is the whole truth: everything is set if it was yes, and
  // everything is unset, with no broadcast left, if it was no or there was none.
  lemma {:induction false} SignedInExactly(calls: seq<Call>)
    ensures var s := Run(SIGNED_OUT, calls);
            && (LastDecision(calls) == Some(true) ==>
                 s.refreshToken.Some? && s.sharedCredentials.Some? && s.userInfo.Some?)
            && (LastDecision(calls) != Some(true) ==>
                 s.refreshToken.None? && s.sharedCredentials.None? && s.userInfo.None? && s.broadcast.None?)
  {
    RunKeepsInv(SIGNED_OUT, calls);
    if calls == [] {
    } else {
      RunKeepsInv(SIGNED_OUT, calls[..|calls| - 1]);
      SignedInExactly(calls[..|calls| - 1]);
    }
  }

  // Two different broadcasts never have the same client id, and the credentials under a running
  // broadcast are never replaced: as long as its id is the current one, so are its credentials.
  lemma {:induction false} BroadcastsKeepCredentials(s: State, calls: seq<Call>)
    requires Inv(s) && s.broadcast.Some? && s.broadcast.value.clientId < s.nextClient
    ensures var s' := Run(s, calls);
            && s.nextClient <= s'.nextClient
            && (s'.broadcast.Some? ==>
                 if s'.broadcast.value.clientId < s.nextClient
                 then s'.broadcast == s.broadcast && s'.sharedCredentials == s.sharedCredentials
                 else s'.broadcast.value.clientId < s'.nextClient)
  {
    RunKeepsInv(s, calls);
    if calls == [] {
    } else {
      BroadcastsKeepCredentials(s, calls[..|calls| - 1]);
    }
  }

  // The place of the last sign-in that was accepted, behind which nobody signed out or in.
  function SignInAt(calls: seq<Call>): (i: nat)
    requires LastDecision(calls) == Some(true)
    ensures i < |calls| && calls[i].Authenticate? && calls[i].token.Some? && calls[i].fetched.Some?
  {
    var n := |calls| - 1;
    if Decision(Run(SIGNED_OUT, calls[..n]), calls[n]).Some? then n else SignInAt(calls[..n])
  }

  // What is known is what that sign-in brought: its refresh token, and its user info unless that
  // did not allow broadcasting and a later startBroadcast fetched one that does.
  lemma {:induction false} KnownFromSignIn(calls: seq<Call>)
    requires LastDecision(calls) == Some(true)
    ensures var s, i := Run(SIGNED_OUT, calls), SignInAt(calls);
            && s.refreshToken == calls[i].token && s.userInfo.Some?
            && (s.userInfo == calls[i].fetched || (!calls[i].fetched.value.canBroadcast && Refreshed(s, calls, i)))
  {
    var n := |calls| - 1;
    var before := calls[..n];
    SignedInExactly(before);
    if Decision(Run(SIGNED_OUT, before), calls[n]).None? {
      KnownFromSignIn(before);
      var s := Run(SIGNED_OUT, calls);
      if Refreshed(Run(SIGNED_OUT, before), before, SignInAt(before)) {
        RefreshedLater(Run(SIGNED_OUT, before), before, calls, SignInAt(before));
      }
      if s.userInfo != Run(SIGNED_OUT, before).userInfo {
        assert calls[n].StartBroadcast? && calls[n].fetched == s.userInfo;
      }
    }
  }

  predicate Refreshed(s: State, calls: seq<Call>, i: nat) {
    && s.userInfo.Some? && s.userInfo.value.canBroadcast
    && exists j :: i < j < |calls| && calls[j].StartBroadcast? && calls[j].fetched == s.userInfo
  }

  lemma RefreshedLater(s: State, before: seq<Call>, calls: seq<Call>, i: nat)
    requires Refreshed(s, before, i) && before <= calls
    ensures Refreshed(s, calls, i)
  {
    var j :| i < j < |before| && before[j].StartBroadcast? && before[j].fetched == s.userInfo;
    assert calls[j] == before[j];
  }

  // A call that ends the broadcast there is, by its client id if it is a failure's.
  predicate Ends(s: State, c: Call) {
    || c.EndBroadcast? || c.SignOut?
    || (c.FailureTask? && s.broadcast.Some? && s.broadcast.value.clientId == c.clientId)
  }

  // A startBroadcast has succeeded and no call has ended what it started.
  predicate Running(calls: seq<Call>) {
    calls != [] &&
    var n := |calls| - 1;
    var s, c := Run(SIGNED_OUT, calls[..n]), calls[n];
    (c.StartBroadcast? && Step(s, c).1.Success?) || (Running(calls[..n]) && !Ends(s, c))
  }

  // A broadcast is there exactly if one was started and not ended since.
  lemma {:induction false} BroadcastExactly(calls: seq<Call>)
    ensures Run(SIGNED_OUT, calls).broadcast.Some? <==> Running(calls)
  {
    if calls == [] {
    } else {
      BroadcastExactly(calls[..|calls| - 1]);
    }
  }

  // What startBroadcast answers after any calls, and that a new broadcast gets a client id no
  // other had and the credentials that are set.
  lemma StartExactly(calls: seq<Call>, c: Call)
    requires c.StartBroadcast?
    ensures var s := Run(SIGNED_OUT, calls);
            var (s', result) := Step(s, c);
            var signedIn := LastDecision(calls) == Some(true);
            var may := signedIn && s.userInfo.Some? &&
              (s.userInfo.value.canBroadcast || (c.fetched.Some? && c.fetched.value.canBroadcast));
            && (result.NotSignedIn? <==> !signedIn)
            && (result.OldVersion? <==> signedIn && c.oldVersion)
            && (result.EmailVerificationRequired? <==> signedIn && !c.oldVersion && !may)
            && (result.AlreadyBroadcasting? <==> may && !c.oldVersion && Running(calls))
            && (result.Success? <==> may && !c.oldVersion && !Running(calls))
            && (result.Success? ==>
                 && s.sharedCredentials.Some?
                 && s'.broadcast == Some(Broadcast(s.nextClient, s.sharedCredentials.value))
                 && s'.nextClient > s.nextClient)
            && (!result.Success? ==> s'.broadcast == s.broadcast)
            && (may && !c.oldVersion ==> s'.userInfo.Some? && s'.userInfo.value.canBroadcast)
  {
    SignedInExactly(calls);
    BroadcastExactly(calls);
  }

  lemma {:induction false} SerialsBelow(calls: seq<Call>)
    ensures var s := Run(SIGNED_OUT, calls); s.sharedCredentials.Some? ==> s.sharedCredentials.value < s.nextCredentials
  {
    if calls == [] {
    } else {
      SerialsBelow(calls[..|calls| - 1]);
    }
  }

  // What signing in answers, and that it replaces the credentials by new ones.
  lemma AuthenticateExactly(calls: seq<Call>, c: Call)
    requires c.Authenticate?
    ensures var s := Run(SIGNED_OUT, calls);
            var (s', result) := Step(s, c);
            && (result.Success? ==> s'.sharedCredentials.Some? && s'.sharedCredentials != s.sharedCredentials)
            && (result.AlreadyBroadcasting? <==> Running(calls))
            && (result.Refused? <==> !Running(calls) && c.token.None?)
            && (result.Failure? <==> !Running(calls) && c.token.Some? && c.fetched.None?)
            && (result.Success? <==> !Running(calls) && c.token.Some? && c.fetched.Some?)
  {
    BroadcastExactly(calls);
    SerialsBelow(calls);
  }

  // A failure's task goes through exactly if the broadcast that is there is the one that failed.
  lemma FailureTaskExactly(calls: seq<Call>, clientId: nat)
    ensures var s := Run(SIGNED_OUT, calls);
            var (s', result) := Step(s, FailureTask(clientId));
            && (result.Success? <==> Running(calls) && !Running(calls + [FailureTask(clientId)]))
            && (result.Success? <==> s.broadcast.Some? && s.broadcast.value.clientId == clientId)
            && (!result.Success? ==> result.Refused? && s' == s)
  {
    var c := FailureTask(clientId);
    assert (calls + [c])[..|calls|] == calls;
    BroadcastExactly(calls);
    BroadcastExactly(calls + [c]);
  }
}
