/** The Kinect 2 image source engine: its constructor's availability flags, the
    per-call polling and normalisation of the colour and depth streams into
    caller-owned buffers, and the constant size queries; plus the stand-in
    engine used when the program is built without Kinect 2 support. */
module Kinect2 {
  import opened FrameTypes
  import opened ComRelease
  import opened DeviceInit
  import opened ColorResample
  import opened DepthCopy

  /** What one poll of the colour reader yields: nothing (AcquireLatestFrame
      failed), or a frame together with the status of its conversion to RGBA and
      the contents of the conversion buffer afterwards. */
  datatype ColorPoll =
    | NoColorFrame
    | ColorFrame(converted: HResult, pixels: seq<byte>)

  /** What one poll of the depth reader yields: nothing (AcquireLatestFrame
      failed), or a frame together with the status of AccessUnderlyingBuffer and
      the samples of that buffer. */
  datatype DepthPoll =
    | NoDepthFrame
    | DepthFrame(access: HResult, samples: seq<uint16>)

  /** How a call to GetImages ends: normally, or by the exception thrown when the
      colour conversion failed. */
  datatype Outcome = Returned | ConversionFailed

  /** The conversion buffer holds a whole native colour frame. */
  predicate ColorPollFits(poll: ColorPoll)
  {
    poll.ColorFrame? ==> |poll.pixels| == ColorBytes
  }

  /** A depth buffer that is handed out holds at least a whole depth frame; the
      copy reads that many samples without consulting the reported size. */
  predicate DepthPollFits(poll: DepthPoll)
  {
    poll.DepthFrame? && Succeeded(poll.access) ==> |poll.samples| >= DepthPixels
  }

  /** Whether the colour path writes the output buffer in this call: on an
      enabled stream, any frame that arrived is written, whatever the status of
      its conversion. */
  predicate WritesColor(available: bool, poll: ColorPoll)
    ensures !available ==> !WritesColor(available, poll)
    ensures poll == NoColorFrame ==> !WritesColor(available, poll)
    ensures poll.ColorFrame? ==> (WritesColor(available, poll) <==> available)
  {
    available && poll.ColorFrame?
  }

  /** Whether the depth path writes the output buffer in this call: only on an
      enabled stream, for a frame whose buffer could be accessed. */
  predicate WritesDepth(available: bool, poll: DepthPoll)
    ensures !available ==> !WritesDepth(available, poll)
    ensures poll == NoDepthFrame ==> !WritesDepth(available, poll)
    ensures poll.DepthFrame? && !Succeeded(poll.access) ==> !WritesDepth(available, poll)
  {
    available && poll.DepthFrame? && Succeeded(poll.access)
  }

  /** How the call ends, given the colour stream's flag and poll. */
  function ColorOutcome(available: bool, poll: ColorPoll): (o: Outcome)
    ensures o == ConversionFailed <==> WritesColor(available, poll) && !Succeeded(poll.converted)
  {
    if available && poll.ColorFrame? && !Succeeded(poll.converted) then ConversionFailed else Returned
  }

  /** The colour buffer after the colour path. A frame that arrived is resampled
      into the first 640*480 slots whether or not its conversion succeeded; no
      frame, or a disabled stream, leaves the buffer as it was. */
  function ColorAfter(available: bool, poll: ColorPoll, before: seq<RGBA>): (after: seq<RGBA>)
    requires ColorPollFits(poll) && |before| >= OutPixels
    ensures |after| == |before|
    ensures !WritesColor(available, poll) ==> after == before
    ensures forall i :: OutPixels <= i < |before| ==> after[i] == before[i]
    ensures WritesColor(available, poll) ==>
      forall r, c :: 0 <= r < OutHeight && 0 <= c < OutWidth ==>
        after[OutIndex(r, c)] == PixelAt(poll.pixels, r, c)
  {
    if WritesColor(available, poll) then
      var after := Downsampled(poll.pixels) + before[OutPixels..];
      assert forall r, c :: 0 <= r < OutHeight && 0 <= c < OutWidth ==>
        after[OutIndex(r, c)] == Downsampled(poll.pixels)[OutIndex(r, c)];
      after
    else before
  }

  /** The depth buffer after the depth path: when a buffer was handed out, its
      first 512*424 samples are stored bit for bit; otherwise nothing changes. */
  function DepthAfter(available: bool, poll: DepthPoll, before: seq<int16>): (after: seq<int16>)
    requires DepthPollFits(poll) && |before| >= DepthPixels
    ensures |after| == |before|
    ensures !WritesDepth(available, poll) ==> after == before
    ensures forall i :: DepthPixels <= i < |before| ==> after[i] == before[i]
    ensures WritesDepth(available, poll) ==>
      forall i :: 0 <= i < DepthPixels ==> ToUint16(after[i]) == poll.samples[i]
  {
    if WritesDepth(available, poll) then Converted(poll.samples) + before[DepthPixels..]
    else before
  }

  /** The guarded chain run on a sensor that was found: open it, obtain both frame
      sources and open a reader on each, each step only after the previous one
      succeeded; then release both frame sources. Returns the final status and
      the SDK calls made. */
  method OpenFrameReaders(rep: InitReplies) returns (hr: HResult, ghost calls: seq<DeviceCall>)
    ensures hr == ChainStatus(ChainReplies(rep))
    ensures calls == SensorCalls(rep)
  {
    ghost var hrs := ChainReplies(rep);
    AttemptedFive(hrs);
    var depthSource := new InterfacePointer(null);
    var colorSource := new InterfacePointer(null);
    hr := rep.open;
    calls := [OpenSensor];
    if Succeeded(hr) {
      hr := rep.depthSource;
      calls := calls + [GetDepthFrameSource];
      if Succeeded(hr) {
        depthSource.target := new ComInterface();
      }
    }
    if Succeeded(hr) {
      hr := rep.depthReader;
      calls := calls + [OpenDepthReader];
    }
    if Succeeded(hr) {
      hr := rep.colorSource;
      calls := calls + [GetColorFrameSource];
      if Succeeded(hr) {
        colorSource.target := new ComInterface();
      }
    }
    if Succeeded(hr) {
      hr := rep.colorReader;
      calls := calls + [OpenColorReader];
    }
    assert calls == ChainCalls[..Attempted(hrs)];
    ghost var releasedDepth := SafeRelease(depthSource);
    if releasedDepth {
      calls := calls + [ReleaseDepthFrameSource];
    }
    ghost var releasedColor := SafeRelease(colorSource);
    if releasedColor {
      calls := calls + [ReleaseColorFrameSource];
    }
  }

  class Kinect2Engine {
    const depthImageSize: Vector2i
    const rgbImageSize: Vector2i
    var colorAvailable: bool
    var depthAvailable: bool
    /** The SDK calls made while constructing the engine. */
    ghost var initCalls: seq<DeviceCall>

    /** The sizes are the fixed output resolutions and the colour stream is
        always marked available. */
    ghost predicate Valid()
      reads this
    {
      depthImageSize == Vector2i(DepthWidth, DepthHeight) &&
      rgbImageSize == Vector2i(OutWidth, OutHeight) &&
      colorAvailable
    }

    /** Brings up the sensor through the guarded chain of SDK calls. Failure
        anywhere leaves the depth stream disabled; construction itself never fails. */
    constructor (rep: InitReplies)
      ensures Valid()
      ensures depthAvailable == InitSucceeds(rep)
      ensures initCalls == InitCalls(rep)
    {
      depthImageSize := Vector2i(512, 424);
      rgbImageSize := Vector2i(640, 480);
      colorAvailable := true;
      depthAvailable := true;
      initCalls := [GetDefaultKinectSensor];
      new;
      var hr := rep.getSensor;
      if !Succeeded(hr) {
        depthAvailable := false;
        return;
      }
      if rep.sensorPresent {
        ghost var calls;
        hr, calls := OpenFrameReaders(rep);
        initCalls := initCalls + calls;
      }
      if !rep.sensorPresent || !Succeeded(hr) {
        depthAvailable := false;
        return;
      }
    }

    /** One poll of both streams. Each stream whose flag is set is polled and,
        when a frame arrived, normalised into its buffer; the colour path writes
        only the colour buffer and the depth path only the depth buffer. A failed
        colour conversion ends the call with an exception after the colour buffer
        was written, before the depth stream is polled. */
    method GetImages(rgb: array<RGBA>, depth: array<int16>, colorPoll: ColorPoll, depthPoll: DepthPoll)
      returns (outcome: Outcome)
      requires Valid()
      requires rgb.Length >= rgbImageSize.x * rgbImageSize.y
      requires depth.Length >= depthImageSize.x * depthImageSize.y
      requires ColorPollFits(colorPoll) && DepthPollFits(depthPoll)
      modifies rgb, depth
      ensures outcome == ColorOutcome(colorAvailable, colorPoll)
      ensures rgb[..] == ColorAfter(colorAvailable, colorPoll, old(rgb[..]))
      ensures depth[..] ==
        if outcome == ConversionFailed then old(depth[..])
        else DepthAfter(depthAvailable, depthPoll, old(depth[..]))
    {
      outcome := Returned;
      if colorAvailable {
        if colorPoll.ColorFrame? {
          Resample(rgb, colorPoll.pixels);
          if !Succeeded(colorPoll.converted) {
            outcome := ConversionFailed;
            return;
          }
        }
      }
      if depthAvailable {
        if depthPoll.DepthFrame? && Succeeded(depthPoll.access) {
          Copy(depth, depthPoll.samples);
        }
      }
    }

    /** A live sensor never runs out of images. */
    function HasMoreImages(): (more: bool)
      ensures more
    {
      true
    }

    /** The depth image size, fixed at 512x424 for the engine's lifetime. */
    function GetDepthImageSize(): (size: Vector2i)
      requires Valid()
      reads this
      ensures size == Vector2i(512, 424) && size.x * size.y == DepthPixels
    {
      depthImageSize
    }

    /** The colour image size, fixed at 640x480 for the engine's lifetime. */
    function GetRGBImageSize(): (size: Vector2i)
      requires Valid()
      reads this
      ensures size == Vector2i(640, 480) && size.x * size.y == OutPixels
    {
      rgbImageSize
    }
  }

  /** A healthy device delivering a frame of one colour and a depth frame of one
      in-range value: every output pixel takes that colour and every output
      sample that value, whatever the buffers held before. */
  lemma UniformFramesScenario(big: seq<byte>, p: RGBA, samples: seq<uint16>, v: uint16,
                              rgbBefore: seq<RGBA>, depthBefore: seq<int16>)
    requires |big| == ColorBytes && forall k :: 0 <= k < |big| ==> big[k] == Channel(p, k)
    requires |samples| == DepthPixels && forall i :: 0 <= i < |samples| ==> samples[i] == v
    requires v < 0x8000
    requires |rgbBefore| == OutPixels && |depthBefore| == DepthPixels
    ensures forall i :: 0 <= i < OutPixels ==> ColorAfter(true, ColorFrame(0, big), rgbBefore)[i] == p
    ensures forall i :: 0 <= i < DepthPixels ==> DepthAfter(true, DepthFrame(0, samples), depthBefore)[i] as int == v as int
  {
    SolidFrameResamplesSolid(big, p);
    assert ColorAfter(true, ColorFrame(0, big), rgbBefore) == Downsampled(big);
    forall i | 0 <= i < DepthPixels
      ensures DepthAfter(true, DepthFrame(0, samples), depthBefore)[i] as int == v as int
    {
      ReinterpretRoundTrip(v, DepthAfter(true, DepthFrame(0, samples), depthBefore)[i]);
    }
  }

  /** A frame followed by a dropped frame: the colour image of the first call
      survives the second call unchanged. */
  method DroppedFrameScenario(engine: Kinect2Engine, rgb: array<RGBA>, depth: array<int16>, big: seq<byte>)
    requires engine.Valid()
    requires rgb.Length == OutPixels && depth.Length == DepthPixels
    requires |big| == ColorBytes
    modifies rgb, depth
    ensures rgb[..] == Downsampled(big)
    ensures depth[..] == old(depth[..])
  {
    var first := engine.GetImages(rgb, depth, ColorFrame(0, big), NoDepthFrame);
    assert rgb[..] == Downsampled(big);
    var second := engine.GetImages(rgb, depth, NoColorFrame, NoDepthFrame);
  }

  /** The engine as built without Kinect 2 support: it never yields an image,
      reports empty sizes and leaves the caller's buffers alone. */
  class Kinect2EngineWithoutSensor {
    constructor ()
    {
    }

    method GetImages(rgb: array<RGBA>, depth: array<int16>)
      ensures unchanged(rgb) && unchanged(depth)
    {
    }

    function HasMoreImages(): (more: bool)
      ensures !more
    {
      false
    }

    function GetDepthImageSize(): (size: Vector2i)
      ensures size == Vector2i(0, 0)
    {
      Vector2i(0, 0)
    }

    function GetRGBImageSize(): (size: Vector2i)
      ensures size == Vector2i(0, 0)
    {
      Vector2i(0, 0)
    }
  }
}
