// How start() turns the encoder settings of the service into the limits of a broadcast.
module Targets {
  import opened Common
  import opened Policy
  import opened VideoCapturer

  const MAX_BITS_PER_SECOND: int32 := 2_000_000

  datatype EncoderSetting = EncoderSetting(width: int32, height: int32, targetBitrate: int32, framerate: int32)

  datatype Limits = Limits(maxBitrate: int32, minBitrate: int32, fps: int32, width: int32, height: int32)

  const DEFAULT_LIMITS := Limits(2_000_000, 1_500_000, 30, 1280, 720)

  // Nothing is ever lowered below the defaults except, together with a raised height, the width;
  // frame rate and size are only raised with the bandwidth, the size only to one the aspect check
  // accepts; and the capturer can be given these limits.
  method SelectLimits(info: Option<EncoderSetting>) returns (l: Limits)
    requires info.Some? ==> Fits(info.value.targetBitrate * 3)
    ensures l.maxBitrate == (if info.Some? then Max(info.value.targetBitrate, 2_000_000) else 2_000_000)
    ensures l.minBitrate <= l.maxBitrate && 4 * l.minBitrate <= 3 * l.maxBitrate < 4 * l.minBitrate + 4
    ensures l.maxBitrate == 2_000_000 ==> l == DEFAULT_LIMITS
    ensures l.maxBitrate > 2_000_000 ==>
      && l.fps == Max(info.value.framerate, 30)
      && (l.width, l.height) ==
           if info.value.height > 720 && CheckAspectRatio(info.value.width, info.value.height).Success?
           then (info.value.width, info.value.height) else (1280, 720)
    ensures l.fps >= 30 && IsCaps(l.width, l.height) && CheckAspectRatio(l.width, l.height).Success?
  {
    var targetMaxBitrate := MAX_BITS_PER_SECOND;
    var targetFps := MAX_FPS;
    var targetFrameHeight := MAX_FRAME_HEIGHT;
    var targetFrameWidth := MAX_FRAME_WIDTH;
    if info.Some? {
      var setting := info.value;
      if setting.targetBitrate > MAX_BITS_PER_SECOND {
        targetMaxBitrate := setting.targetBitrate;
        if setting.framerate > MAX_FPS {
          targetFps := setting.framerate;
        }
        if setting.height > MAX_FRAME_HEIGHT && CheckAspectRatio(setting.width, setting.height).Success? {
          targetFrameWidth := setting.width;
          targetFrameHeight := setting.height;
        }
      }
    }
    var targetMinBitrate := targetMaxBitrate * 3 / 4;
    return Limits(targetMaxBitrate, targetMinBitrate, targetFps, targetFrameWidth, targetFrameHeight);
  }
}
