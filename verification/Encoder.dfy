// The x264 encoder wrapper: handle, image buffer, frame counter and target frame rate.
// The methods of X264Encoder are proved against Step; the laws over whole sequences of calls
// are proved about Step.
module Encoder {
  import opened Common
  import opened AnnexB
  import opened Fragmenter

  const FPS_HIGH_THRESHOLD: nat := 50
  const FPS_LOW_THRESHOLD: nat := 35

  datatype Ret = Ok | ErrParameter | Error | Uninitialized | Thrown

  datatype FrameType = EmptyFrame | KeyFrame | DeltaFrame

  datatype Settings = Settings(isH264: bool, maxFramerate: nat, width: int, height: int)

  // What x264_encoder_encode answers.
  datatype Reply = EncodeFailed | Produced(nals: seq<Nal>)

  // A call with the answers of the foreign functions it makes; what x264 produces is memory of
  // at least the announced size.
  type Call = c: CallData | CallOk(c) witness Release

  datatype CallData =
    | InitEncode(settings: Option<Settings>, presetOk: bool, pictureOk: bool, openOk: bool, unencoded: nat)
    | Release
    | RegisterCallback(present: bool)
    | SetRateAllocation(bps: nat, framerate: nat, reconfigOk: bool)
    | Encode(frameTypes: Option<seq<FrameType>>, reply: Reply, unencoded: nat)

  // `buffer` is the length of the allocated image buffer, if there is one.
  datatype State = State(
    open: bool, frameCount: nat, targetFps: nat, hasCallback: bool, buffer: Option<nat>, size: nat)

  // What the caller and x264 see of a call: the return value, the pts handed to x264, and
  // whether the encoder was reconfigured, and the image delivered to the callback.
  datatype Effect = Effect(ret: Ret, pts: Option<nat>, reconfigured: bool, delivered: Option<seq<uint8>>)

  const INITIAL := State(false, 0, 30, false, None, 0)

  // A non-null encoder has its buffer, of exactly the length the image announces.
  predicate Inv(s: State) {
    && (s.open ==> s.buffer == Some(s.size))
    && s.targetFps in {30, 60}
  }

  predicate CallOk(c: CallData) {
    c.Encode? && c.reply.Produced? ==> AllBacked(c.reply.nals) && |c.reply.nals| < 0x1_0000_0000
  }

  predicate AcceptableSettings(settings: Option<Settings>) {
    && settings.Some?
    && settings.value.isH264
    && settings.value.maxFramerate != 0
    && settings.value.width >= 1 && settings.value.height >= 1
  }

  predicate InitSucceeds(c: Call) {
    c.InitEncode? && AcceptableSettings(c.settings) && c.presetOk && c.pictureOk && c.openOk
  }

  function Quiet(ret: Ret): Effect {
    Effect(ret, None, false, None)
  }

  function Step(s: State, c: Call): (State, Effect) {
    match c
    case InitEncode(settings, presetOk, pictureOk, openOk, unencoded) =>
      if !AcceptableSettings(settings) then (s, Quiet(ErrParameter))
      else
        var released := s.(open := false, buffer := None, frameCount := 0);
        if presetOk && pictureOk && openOk
        then (released.(open := true, buffer := Some(unencoded), size := unencoded), Quiet(Ok))
        else (released, Quiet(Error))
    case Release => (s.(open := false, buffer := None, frameCount := 0), Quiet(Ok))
    case RegisterCallback(present) => (s.(hasCallback := present), Quiet(Ok))
    case SetRateAllocation(bps, framerate, reconfigOk) => StepRate(s, bps, framerate, reconfigOk)
    case Encode(frameTypes, reply, unencoded) =>
      if !s.open || !s.hasCallback then (s, Quiet(Uninitialized))
      else if frameTypes.Some? && |frameTypes.value| != 1 then (s, Quiet(Thrown))
      else if frameTypes.Some? && frameTypes.value[0].EmptyFrame? then (s, Quiet(Ok))
      else StepFrame(s, reply, unencoded)
  }

  function StepRate(s: State, bps: nat, framerate: nat, reconfigOk: bool): (State, Effect) {
    if bps == 0 || framerate == 0 then (s, Quiet(ErrParameter))
    else if s.frameCount == 0 || !s.open then (s, Quiet(Ok))
    else if framerate > FPS_HIGH_THRESHOLD && s.targetFps == 30 then
      (s.(targetFps := 60), Effect(if reconfigOk then Ok else ErrParameter, None, true, None))
    else if framerate < FPS_LOW_THRESHOLD && s.targetFps == 60 then
      (s.(targetFps := 30), Effect(if reconfigOk then Ok else ErrParameter, None, true, None))
    else (s, Quiet(Ok))
  }

  function StepFrame(s: State, reply: Reply, unencoded: nat): (State, Effect)
    requires reply.Produced? ==> AllBacked(reply.nals)
  {
    match reply
    case EncodeFailed => (s.(open := false), Effect(Error, Some(s.frameCount), false, None))
    case Produced(nals) =>
      var size' := if AllPositive(nals) then Grown(s.size, unencoded, Required(nals)) else s.size;
      var s' := s.(size := size', buffer := if size' == s.size then s.buffer else Some(size'));
      if AllLongEnough(nals)
      then (s'.(frameCount := s.frameCount + 1),
            Effect(Ok, Some(s.frameCount), false, if nals == [] then None else Some(Stream(nals))))
      else (s', Effect(Thrown, Some(s.frameCount), false, None))
  }

  class X264Encoder {
    var encoder: bool
    var frameCount: nat
    var targetFps: nat
    var encodedImageCallback: bool
    const image: EncodedImage

    ghost predicate Valid()
      reads this, image
    {
      && Inv(View())
      && image.owned == image.buffer
    }

    ghost function View(): State
      reads this, image
    {
      State(encoder, frameCount, targetFps, encodedImageCallback,
            if image.buffer == null then None else Some(image.buffer.Length), image.size)
    }

    constructor ()
      ensures Valid() && fresh(image) && View() == INITIAL
    {
      encoder, frameCount, targetFps, encodedImageCallback := false, 0, 30, false;
      image := new EncodedImage();
    }

    method Release() returns (ret: Ret)
      requires Valid()
      modifies this, image
      ensures Valid()
      ensures (View(), Quiet(ret)) == Step(old(View()), CallData.Release)
    {
      if encoder {
        encoder := false;
      }
      image.buffer := null;
      image.owned := null;
      frameCount := 0;
      return Ok;
    }

    method InitEncode(settings: Option<Settings>, presetOk: bool, pictureOk: bool, openOk: bool, unencoded: nat)
      returns (ret: Ret)
      requires Valid()
      modifies this, image
      ensures Valid()
      ensures (View(), Quiet(ret)) ==
        Step(old(View()), CallData.InitEncode(settings, presetOk, pictureOk, openOk, unencoded))
    {
      if settings.None? || !settings.value.isH264 {
        return ErrParameter;
      }
      if settings.value.maxFramerate == 0 {
        return ErrParameter;
      }
      if settings.value.width < 1 || settings.value.height < 1 {
        return ErrParameter;
      }
      var _ := Release();
      if !presetOk {
        return Error;
      }
      if !pictureOk {
        return Error;
      }
      encoder := openOk;
      if !encoder {
        return Error;
      }
      image.size := unencoded;
      image.buffer := new uint8[image.size];
      image.owned := image.buffer;
      image.length := 0;
      frameCount := 0;
      return Ok;
    }

    method RegisterEncodeCompleteCallback(present: bool) returns (ret: Ret)
      requires Valid()
      modifies this`encodedImageCallback
      ensures Valid()
      ensures (View(), Quiet(ret)) == Step(old(View()), RegisterCallback(present))
    {
      encodedImageCallback := present;
      return Ok;
    }

    method SetRateAllocation(bps: nat, framerate: nat, reconfigOk: bool) returns (ret: Ret, reconfigured: bool)
      requires Valid()
      modifies this`targetFps
      ensures Valid()
      ensures (View(), Effect(ret, None, reconfigured, None)) ==
        Step(old(View()), CallData.SetRateAllocation(bps, framerate, reconfigOk))
    {
      if bps <= 0 || framerate <= 0 {
        return ErrParameter, false;
      }
      if frameCount == 0 || !encoder {
        return Ok, false;
      }
      if framerate > FPS_HIGH_THRESHOLD && targetFps == 30 {
        targetFps := 60;
      } else if framerate < FPS_LOW_THRESHOLD && targetFps == 60 {
        targetFps := 30;
      } else {
        return Ok, false;
      }
      if !reconfigOk {
        return ErrParameter, true;
      }
      return Ok, true;
    }

    // The image handed to the callback is what the buffer then holds, with its complete table.
    method Encode(frameTypes: Option<seq<FrameType>>, reply: Reply, unencoded: nat)
      returns (effect: Effect, header: FragmentationHeader)
      requires Valid() && CallOk(CallData.Encode(frameTypes, reply, unencoded))
      modifies this, image, image.buffer
      ensures Valid() && fresh(header)
      ensures (View(), effect) == Step(old(View()), CallData.Encode(frameTypes, reply, unencoded))
      ensures effect.delivered.Some? ==>
        && reply.Produced? && Copied(image, header, reply.nals, |reply.nals|)
        && image.buffer[..image.length] == effect.delivered.value
    {
      header := new FragmentationHeader();
      if !encoder {
        return Quiet(Uninitialized), header;
      }
      if !encodedImageCallback {
        return Quiet(Uninitialized), header;
      }
      if frameTypes.Some? {
        if |frameTypes.value| != 1 {
          return Quiet(Thrown), header;
        }
        if frameTypes.value[0].EmptyFrame? {
          return Quiet(Ok), header;
        }
      }
      effect := EncodeFrame(reply, unencoded, header);
    }

    // From handing the frame to x264 on.
    method EncodeFrame(reply: Reply, unencoded: nat, header: FragmentationHeader)
      returns (effect: Effect)
      requires Valid() && encoder
      requires reply.Produced? ==> AllBacked(reply.nals) && |reply.nals| < 0x1_0000_0000
      modifies this, image, image.buffer, header
      ensures Valid()
      ensures (View(), effect) == StepFrame(old(View()), reply, unencoded)
      ensures effect.delivered.Some? ==>
        && reply.Produced? && Copied(image, header, reply.nals, |reply.nals|)
        && image.buffer[..image.length] == effect.delivered.value
    {
      var pts := Some(frameCount);
      if reply.EncodeFailed? {
        encoder := false;
        return Effect(Error, pts, false, None);
      }
      ghost var s := View();
      var outcome := RtpFragmentize(image, unencoded, reply.nals, header);
      if outcome.CheckFailed? {
        FrameThrown(s, View(), reply.nals, unencoded);
        return Effect(Thrown, pts, false, None);
      }
      assert reply.nals[..|reply.nals|] == reply.nals;
      var delivered := if image.length > 0 then Some(image.buffer[..image.length]) else None;
      FrameDone(s, View(), reply.nals, unencoded, image.length);
      frameCount := frameCount + 1;
      return Effect(Ok, pts, false, delivered);
    }
  }

  // What the fragmenter leaves of a frame is what StepFrame says.
  predicate Fragmented(s: State, s': State, nals: seq<Nal>, unencoded: nat) {
    && s.buffer == Some(s.size)
    && s' == s.(size := s'.size, buffer := Some(s'.size))
    && s'.size == if AllPositive(nals) then Grown(s.size, unencoded, Required(nals)) else s.size
  }

  lemma FrameThrown(s: State, s': State, nals: seq<Nal>, unencoded: nat)
    requires AllBacked(nals) && Fragmented(s, s', nals, unencoded) && !AllLongEnough(nals)
    ensures StepFrame(s, Produced(nals), unencoded) == (s', Effect(Thrown, Some(s.frameCount), false, None))
  {
  }

  lemma FrameDone(s: State, s': State, nals: seq<Nal>, unencoded: nat, length: nat)
    requires AllBacked(nals) && Fragmented(s, s', nals, unencoded) && AllLongEnough(nals) && length == Required(nals)
    ensures StepFrame(s, Produced(nals), unencoded) ==
      (s'.(frameCount := s.frameCount + 1),
       Effect(Ok, Some(s.frameCount), false, if length > 0 then Some(Stream(nals)) else None))
  {
    RequiredPositive(nals);
  }

  lemma {:induction false} RequiredPositive(nals: seq<Nal>)
    requires AllPositive(nals)
    ensures Required(nals) >= |nals|
  {
    if nals == [] {
    } else {
      RequiredPositive(nals[..|nals| - 1]);
    }
  }

  function Run(s: State, calls: seq<Call>): State {
    if calls == [] then s else Step(Run(s, calls[..|calls| - 1]), calls[|calls| - 1]).0
  }

  // The effect of the last call of a run.
  function LastEffect(s: State, calls: seq<Call>): Effect
    requires calls != []
  {
    Step(Run(s, calls[..|calls| - 1]), calls[|calls| - 1]).1
  }

  // What makes it sound to keep a large enough buffer: over every sequence of calls, an open
  // encoder has a buffer of exactly the announced size.
  lemma {:induction false} RunKeepsInv(s: State, calls: seq<Call>)
    requires Inv(s)
    ensures Inv(Run(s, calls))
  {
    if calls == [] {
    } else {
      RunKeepsInv(s, calls[..|calls| - 1]);
    }
  }

  lemma {:induction false} RunAppend(s: State, a: seq<Call>, b: seq<Call>)
    ensures Run(s, a + b) == Run(Run(s, a), b)
  {
    if b == [] {
      assert a + b == a;
    } else {
      assert (a + b)[..|a + b| - 1] == a + b[..|b| - 1];
      RunAppend(s, a, b[..|b| - 1]);
    }
  }

  lemma {:induction false} StaysClosed(s: State, calls: seq<Call>)
    requires !s.open && forall i :: 0 <= i < |calls| ==> !InitSucceeds(calls[i])
    ensures !Run(s, calls).open
  {
    if calls == [] {
    } else {
      StaysClosed(s, calls[..|calls| - 1]);
    }
  }

  // Once an encode has failed, every later one is refused as uninitialized, whatever is called
  // in between, until an InitEncode succeeds; and that one is accepted again.
  lemma {:induction false} FailedEncodeIsSticky(s: State, failed: Call, calls: seq<Call>, next: Call)
    requires failed.Encode? && Step(s, failed).1.ret == Error
    requires next.Encode?
    requires forall i :: 0 <= i < |calls| ==> !InitSucceeds(calls[i])
    ensures Step(Run(s, [failed] + calls), next) == (Run(s, [failed] + calls), Quiet(Uninitialized))
    ensures forall init :: InitSucceeds(init) ==> Run(s, [failed] + calls + [init]).open
  {
    RunAppend(s, [failed], calls);
    assert [failed][..0] == [];
    assert Run(s, [failed]) == Step(s, failed).0;
    StaysClosed(Run(s, [failed]), calls);
    forall init | InitSucceeds(init) ensures Run(s, [failed] + calls + [init]).open {
      assert ([failed] + calls + [init])[..|calls| + 1] == [failed] + calls;
    }
  }

  // The pts values handed to x264 since the last successful InitEncode.
  function PtsSinceInit(s: State, calls: seq<Call>): seq<nat> {
    if calls == [] then []
    else if InitSucceeds(calls[|calls| - 1]) then []
    else
      var e := LastEffect(s, calls);
      PtsSinceInit(s, calls[..|calls| - 1]) + (if e.pts.Some? then [e.pts.value] else [])
  }

  // A frame is handed to x264.
  predicate HandsOver(s: State, c: Call) {
    && c.Encode? && s.open && s.hasCallback
    && (c.frameTypes.Some? ==> |c.frameTypes.value| == 1 && !c.frameTypes.value[0].EmptyFrame?)
  }

  // And its answer makes the fragmenter throw: some payload is shorter than a start code.
  predicate ThrowsMidway(s: State, c: Call) {
    HandsOver(s, c) && c.reply.Produced? && !AllLongEnough(c.reply.nals)
  }

  // How often that happened since the last successful InitEncode.
  function ThrowsSinceInit(s: State, calls: seq<Call>): nat {
    if calls == [] || InitSucceeds(calls[|calls| - 1]) then 0
    else
      var n := |calls| - 1;
      ThrowsSinceInit(s, calls[..n]) + if ThrowsMidway(Run(s, calls[..n]), calls[n]) then 1 else 0
  }

  // Since then some frame was handed over behind such a throw.
  predicate ThrewBeforeLast(s: State, calls: seq<Call>) {
    calls != [] && !InitSucceeds(calls[|calls| - 1]) &&
    var before := calls[..|calls| - 1];
    ThrewBeforeLast(s, before) || (ThrowsSinceInit(s, before) > 0 && LastEffect(s, calls).pts.Some?)
  }

  lemma StepPts(s: State, c: Call)
    ensures var (s', e) := Step(s, c);
            && (InitSucceeds(c) ==> s'.open && s'.frameCount == 0)
            && (e.pts.Some? ==> s.open && e.pts.value == s.frameCount)
            && (ThrowsMidway(s, c) <==> e.pts.Some? && e.ret.Thrown?)
            && (ThrowsMidway(s, c) ==> s'.open && s'.frameCount == s.frameCount)
            && (e.pts.Some? && s'.open && !ThrowsMidway(s, c) ==> s'.frameCount == s.frameCount + 1)
            && (e.pts.None? && s'.open && !InitSucceeds(c) ==> s.open && s'.frameCount == s.frameCount)
  {
  }

  // The next pts falls behind the number of frames handed over by one for every throw.
  lemma {:induction false} FramesAndThrows(calls: seq<Call>)
    ensures var s := Run(INITIAL, calls);
            s.open ==> s.frameCount + ThrowsSinceInit(INITIAL, calls) == |PtsSinceInit(INITIAL, calls)|
  {
    if calls == [] {
    } else {
      FramesAndThrows(calls[..|calls| - 1]);
      StepPts(Run(INITIAL, calls[..|calls| - 1]), calls[|calls| - 1]);
    }
  }

  predicate CountsUp(pts: seq<nat>) {
    forall k :: 0 <= k < |pts| ==> pts[k] == k
  }

  // So the pts values since the last successful InitEncode are 0, 1, 2, ... exactly as long as
  // no frame follows a throw.
  lemma {:induction false} PtsCountUp(calls: seq<Call>)
    ensures CountsUp(PtsSinceInit(INITIAL, calls)) <==> !ThrewBeforeLast(INITIAL, calls)
  {
    if calls != [] && !InitSucceeds(calls[|calls| - 1]) {
      var before, last := calls[..|calls| - 1], calls[|calls| - 1];
      PtsCountUp(before);
      FramesAndThrows(before);
      StepPts(Run(INITIAL, before), last);
      var pts, e := PtsSinceInit(INITIAL, before), LastEffect(INITIAL, calls);
      if e.pts.Some? {
        CountsUpSnoc(pts, e.pts.value);
      } else {
        assert PtsSinceInit(INITIAL, calls) == pts;
      }
    }
  }

  lemma CountsUpSnoc(pts: seq<nat>, p: nat)
    ensures CountsUp(pts + [p]) <==> CountsUp(pts) && p == |pts|
  {
    if CountsUp(pts + [p]) {
      forall k | 0 <= k < |pts| ensures pts[k] == k {
        assert (pts + [p])[k] == pts[k];
      }
      assert (pts + [p])[|pts|] == p;
    }
  }

  // And it happens: an answer with a payload of three bytes, and the next frame repeats its pts.
  lemma ThrowRepeatsPts(short: Nal, next: Call) returns (calls: seq<Call>)
    requires Backed(short) && short.iPayload < 4
    requires next.Encode? && next.frameTypes.None?
    ensures calls == [
      CallData.InitEncode(Some(Settings(true, 30, 640, 480)), true, true, true, 460800),
      RegisterCallback(true),
      CallData.Encode(None, Produced([short]), 460800),
      next]
    ensures PtsSinceInit(INITIAL, calls) == [0, 0]
  {
    var init: Call := CallData.InitEncode(Some(Settings(true, 30, 640, 480)), true, true, true, 460800);
    var register: Call := RegisterCallback(true);
    var throwing: Call := CallData.Encode(None, Produced([short]), 460800);
    calls := [init, register, throwing, next];
    assert calls[..3] == [init, register, throwing] && [init, register, throwing][..2] == [init, register];
    assert [init, register][..1] == [init] && [init][..0] == [];
    assert Run(INITIAL, [init]) == State(true, 0, 30, false, Some(460800), 460800);
    var s := Run(INITIAL, [init, register]);
    assert s == State(true, 0, 30, true, Some(460800), 460800);
    assert ThrowsMidway(s, throwing) by {
      assert !AllLongEnough([short]) by {
        assert [short][0] == short;
      }
    }
    StepPts(s, throwing);
    assert PtsSinceInit(INITIAL, [init, register]) == [];
  }

  // A call that closes an open encoder: a release, an acceptable InitEncode that fails behind its
  // own release, and a frame that x264 fails on.
  predicate Closes(s: State, c: Call) {
    || c.Release?
    || (c.InitEncode? && AcceptableSettings(c.settings) && !InitSucceeds(c))
    || (HandsOver(s, c) && c.reply.EncodeFailed?)
  }

  // An InitEncode has succeeded and no call has closed the encoder since.
  predicate OpenedBy(calls: seq<Call>) {
    calls != [] &&
    var n := |calls| - 1;
    InitSucceeds(calls[n]) || (OpenedBy(calls[..n]) && !Closes(Run(INITIAL, calls[..n]), calls[n]))
  }

  // A callback is registered, by the last call that says so.
  predicate RegisteredBy(calls: seq<Call>) {
    calls != [] &&
    var n := |calls| - 1;
    if calls[n].RegisterCallback? then calls[n].present else RegisteredBy(calls[..n])
  }

  lemma {:induction false} OpenExactly(calls: seq<Call>)
    ensures Run(INITIAL, calls).open <==> OpenedBy(calls)
    ensures Run(INITIAL, calls).hasCallback <==> RegisteredBy(calls)
  {
    if calls == [] {
    } else {
      OpenExactly(calls[..|calls| - 1]);
    }
  }

  // What every call answers, after any calls before it: an open encoder with a callback takes a
  // frame, and the answer says what became of it.
  lemma AnswersExactly(calls: seq<Call>, c: Call)
    ensures var s := Run(INITIAL, calls);
            var (s', e) := Step(s, c);
            && (c.InitEncode? ==>
                 && (e.ret.Ok? <==> InitSucceeds(c))
                 && (e.ret.ErrParameter? <==>
                      || c.settings.None? || !c.settings.value.isH264 || c.settings.value.maxFramerate == 0
                      || c.settings.value.width < 1 || c.settings.value.height < 1)
                 && (e.ret.ErrParameter? ==> s' == s)
                 && (!e.ret.Ok? ==> e.ret.ErrParameter? || e.ret.Error?))
            && (c.Release? || c.RegisterCallback? ==> e.ret.Ok?)
            && (c.SetRateAllocation? ==>
                 && (e.ret.ErrParameter? <==>
                      c.bps == 0 || c.framerate == 0 || (e.reconfigured && !c.reconfigOk))
                 && (!e.ret.ErrParameter? ==> e.ret.Ok?))
            && (c.Encode? ==>
                 && (e.ret.Uninitialized? <==> !OpenedBy(calls) || !RegisteredBy(calls))
                 && (e.pts.Some? <==> HandsOver(s, c))
                 && (e.ret.Error? <==> HandsOver(s, c) && c.reply.EncodeFailed?)
                 && (e.ret.Thrown? <==>
                      || ThrowsMidway(s, c)
                      || (OpenedBy(calls) && RegisteredBy(calls) && c.frameTypes.Some? && |c.frameTypes.value| != 1))
                 && !e.ret.ErrParameter?)
            && (!c.Encode? ==> e.pts.None? && e.delivered.None?)
  {
    OpenExactly(calls);
  }

  // The frames handed over since the last successful InitEncode need no more room than it made.
  predicate NeverOutgrown(calls: seq<Call>, room: nat)
    requires OpenedBy(calls)
  {
    var n := |calls| - 1;
    if InitSucceeds(calls[n]) then calls[n].unencoded == room
    else
      && NeverOutgrown(calls[..n], room)
      && (HandsOver(Run(INITIAL, calls[..n]), calls[n]) && AllPositive(calls[n].reply.nals) ==>
           Required(calls[n].reply.nals) <= room)
  }

  // The buffer InitEncode makes is kept as long as it is large enough.
  lemma {:induction false} BufferKept(calls: seq<Call>, room: nat)
    requires OpenedBy(calls) && NeverOutgrown(calls, room)
    ensures Run(INITIAL, calls).size == room
  {
    var n := |calls| - 1;
    if !InitSucceeds(calls[n]) {
      BufferKept(calls[..n], room);
      OpenExactly(calls[..n]);
    }
  }

  // A released encoder, and one that InitEncode released in vain, holds no buffer and counts from
  // 0 until an InitEncode succeeds.
  lemma {:induction false} ReleasedHoldsNothing(s: State, release: Call, calls: seq<Call>)
    requires release.Release? || (release.InitEncode? && Step(s, release).1.ret.Error?)
    requires forall i :: 0 <= i < |calls| ==> !InitSucceeds(calls[i])
    ensures var s' := Run(Step(s, release).0, calls); !s'.open && s'.buffer.None? && s'.frameCount == 0
  {
    if calls == [] {
    } else {
      ReleasedHoldsNothing(s, release, calls[..|calls| - 1]);
    }
  }

  // The decision an effective sample outside [35, 50] stands for; empty for any other call.
  function Decision(s: State, c: Call): seq<nat> {
    if c.SetRateAllocation? && c.bps > 0 && c.framerate > 0 && s.open && s.frameCount > 0 then
      if c.framerate > 50 then [60] else if c.framerate < 35 then [30] else []
    else []
  }

  function Decisions(s: State, calls: seq<Call>): seq<nat> {
    if calls == [] then []
    else var n := |calls| - 1; Decisions(s, calls[..n]) + Decision(Run(s, calls[..n]), calls[n])
  }

  function Reconfigurations(s: State, calls: seq<Call>): nat {
    if calls == [] then 0
    else Reconfigurations(s, calls[..|calls| - 1]) + if LastEffect(s, calls).reconfigured then 1 else 0
  }

  lemma StepDecides(s: State, c: Call)
    requires Inv(s)
    ensures Decision(s, c) == [] ==> Step(s, c).0.targetFps == s.targetFps && !Step(s, c).1.reconfigured
    ensures Decision(s, c) != [] ==>
      && Decision(s, c) == [Step(s, c).0.targetFps]
      && (Step(s, c).1.reconfigured <==> Step(s, c).0.targetFps != s.targetFps)
  {
  }

  // Over every sequence of calls the target frame rate is what the last decision says, or 30
  // if there was none, and x264 was reconfigured once per alternation of the decisions.
  lemma {:induction false} FpsHysteresis(calls: seq<Call>)
    ensures var seen := [30] + Decisions(INITIAL, calls);
            && Run(INITIAL, calls).targetFps == seen[|seen| - 1]
            && Reconfigurations(INITIAL, calls) == Alternations(seen)
  {
    if calls == [] {
    } else {
      var n := |calls| - 1;
      var s, c := Run(INITIAL, calls[..n]), calls[n];
      FpsHysteresis(calls[..n]);
      RunKeepsInv(INITIAL, calls[..n]);
      StepDecides(s, c);
      var seen := [30] + Decisions(INITIAL, calls[..n]);
      assert [30] + Decisions(INITIAL, calls) == seen + Decision(s, c);
      if Decision(s, c) == [] {
        assert seen + Decision(s, c) == seen;
      } else {
        AlternationsSnoc(seen, Step(s, c).0.targetFps);
      }
    }
  }

  function ImageBytes(e: Effect): seq<uint8> {
    if e.delivered.Some? then e.delivered.value else []
  }

  // The NAL units behind the image a call delivers.
  function ImageUnits(s: State, c: Call): seq<Unit> {
    if Step(s, c).1.delivered.Some? && c.Encode? && c.reply.Produced? && AllLongEnough(c.reply.nals)
    then Units(c.reply.nals) else []
  }

  // Everything delivered over a run, one image after the other, and the units it came from.
  function DeliveredBytes(s: State, calls: seq<Call>): seq<uint8> {
    if calls == [] then [] else DeliveredBytes(s, calls[..|calls| - 1]) + ImageBytes(LastEffect(s, calls))
  }

  function DeliveredUnits(s: State, calls: seq<Call>): seq<Unit> {
    if calls == [] then []
    else var n := |calls| - 1; DeliveredUnits(s, calls[..n]) + ImageUnits(Run(s, calls[..n]), calls[n])
  }

  // A receiver that gets the images of a whole session back to back decodes exactly the bodies
  // of all frames that were encoded, in order, if and only if those are separable.
  lemma {:induction false} SessionDecodes(s: State, calls: seq<Call>)
    ensures Decode(DeliveredBytes(s, calls)) == Some(Bodies(DeliveredUnits(s, calls))) <==>
      Separable(DeliveredUnits(s, calls))
  {
    DeliveredIsSerialized(s, calls);
    DecodeSerialize(DeliveredUnits(s, calls));
  }

  lemma {:induction false} DeliveredIsSerialized(s: State, calls: seq<Call>)
    ensures DeliveredBytes(s, calls) == Serialize(DeliveredUnits(s, calls))
  {
    if calls == [] {
    } else {
      var n := |calls| - 1;
      DeliveredIsSerialized(s, calls[..n]);
      ImageIsSerialized(Run(s, calls[..n]), calls[n]);
      SerializeAppend(DeliveredUnits(s, calls[..n]), ImageUnits(Run(s, calls[..n]), calls[n]));
    }
  }

  // An image is delivered exactly for a frame that was encoded into at least one NAL unit.
  lemma ImageIsSerialized(s: State, c: Call)
    ensures ImageBytes(Step(s, c).1) == Serialize(ImageUnits(s, c))
    ensures ImageUnits(s, c) != [] <==>
      && c.Encode? && Step(s, c).1.ret.Ok? && Step(s, c).1.pts.Some?
      && c.reply.Produced? && c.reply.nals != []
  {
  }
}
