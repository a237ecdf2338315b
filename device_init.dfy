/** The device bring-up performed when the engine is constructed: which SDK
    calls are made, in what order, and whether the depth stream ends up usable.
    Each SDK call is represented only by the status code it returns. */
module DeviceInit {
  import opened FrameTypes

  /** The SDK calls the constructor can make. */
  datatype DeviceCall =
    | GetDefaultKinectSensor
    | OpenSensor
    | GetDepthFrameSource
    | OpenDepthReader
    | GetColorFrameSource
    | OpenColorReader
    | ReleaseDepthFrameSource
    | ReleaseColorFrameSource

  /** What the device answers to each bring-up call: the status of each call,
      and whether GetDefaultKinectSensor produced a non-null sensor. */
  datatype InitReplies = InitReplies(
    getSensor: HResult,
    sensorPresent: bool,
    open: HResult,
    depthSource: HResult,
    depthReader: HResult,
    colorSource: HResult,
    colorReader: HResult)

  /** The statuses of the five guarded steps, in the order they are tried. */
  function ChainReplies(rep: InitReplies): (hrs: seq<HResult>)
    ensures |hrs| == |ChainCalls|
  {
    [rep.open, rep.depthSource, rep.depthReader, rep.colorSource, rep.colorReader]
  }

  /** The five guarded steps themselves. */
  const ChainCalls: seq<DeviceCall> :=
    [OpenSensor, GetDepthFrameSource, OpenDepthReader, GetColorFrameSource, OpenColorReader]

  /** Number of steps of an `if (SUCCEEDED(hr)) hr = step();` chain that run, when
      the steps would return `hrs`: the first always runs, and each later one runs
      only when the one before it succeeded. */
  function Attempted(hrs: seq<HResult>): (n: nat)
    ensures n <= |hrs|
    ensures hrs != [] ==> n >= 1
  {
    if hrs == [] then 0
    else if Succeeded(hrs[0]) then 1 + Attempted(hrs[1..])
    else 1
  }

  /** Step k runs exactly when every step before it succeeded. */
  lemma {:induction false} AttemptedIff(hrs: seq<HResult>, k: nat)
    requires k < |hrs|
    ensures k < Attempted(hrs) <==> forall j :: 0 <= j < k ==> Succeeded(hrs[j])
  {
    if k > 0 && Succeeded(hrs[0]) {
      AttemptedIff(hrs[1..], k - 1);
      assert forall j :: 1 <= j < k ==> hrs[j] == hrs[1..][j - 1];
    }
  }

  /** The five-step chain of the constructor spelled out: it stops after the
      first failing step. */
  lemma AttemptedFive(hrs: seq<HResult>)
    requires |hrs| == 5
    ensures Attempted(hrs) ==
      if !Succeeded(hrs[0]) then 1
      else if !Succeeded(hrs[1]) then 2
      else if !Succeeded(hrs[2]) then 3
      else if !Succeeded(hrs[3]) then 4
      else 5
  {
    assert hrs[4..][1..] == [];
    assert Attempted(hrs[4..]) == 1;
    assert hrs[3..][1..] == hrs[4..];
    assert Attempted(hrs[3..]) == if Succeeded(hrs[3]) then 2 else 1;
    assert hrs[2..][1..] == hrs[3..];
    assert Attempted(hrs[2..]) == if Succeeded(hrs[2]) then 1 + Attempted(hrs[3..]) else 1;
    assert hrs[1..][1..] == hrs[2..];
    assert Attempted(hrs[1..]) == if Succeeded(hrs[1]) then 1 + Attempted(hrs[2..]) else 1;
  }

  /** The status held in hr once the chain is over: that of the last step run. */
  function ChainStatus(hrs: seq<HResult>): (hr: HResult)
    requires hrs != []
    ensures hr in hrs
    ensures Attempted(hrs) < |hrs| ==> !Succeeded(hr)
  {
    var n := Attempted(hrs);
    AttemptedIff(hrs, n - 1);
    AttemptedIff(hrs, if n < |hrs| then n else n - 1);
    hrs[n - 1]
  }

  /** The chain ends in success exactly when every step succeeded. */
  lemma {:induction false} ChainStatusSucceeds(hrs: seq<HResult>)
    requires hrs != []
    ensures Succeeded(ChainStatus(hrs)) <==> forall j :: 0 <= j < |hrs| ==> Succeeded(hrs[j])
  {
    if Succeeded(hrs[0]) && |hrs| > 1 {
      ChainStatusSucceeds(hrs[1..]);
      assert ChainStatus(hrs) == ChainStatus(hrs[1..]);
      assert forall j :: 1 <= j < |hrs| ==> hrs[j] == hrs[1..][j - 1];
    }
  }

  /** The depth stream is usable after construction: a sensor was found and
      every guarded step succeeded. */
  predicate InitSucceeds(rep: InitReplies)
    ensures InitSucceeds(rep) <==>
      Succeeded(rep.getSensor) && rep.sensorPresent &&
      forall j :: 0 <= j < |ChainCalls| ==> Succeeded(ChainReplies(rep)[j])
  {
    ChainStatusSucceeds(ChainReplies(rep));
    Succeeded(rep.getSensor) && rep.sensorPresent && Succeeded(ChainStatus(ChainReplies(rep)))
  }

  /** Bring-up succeeds exactly when every call that is made succeeds. */
  lemma InitSucceedsIff(rep: InitReplies)
    ensures InitSucceeds(rep) <==>
      Succeeded(rep.getSensor) && rep.sensorPresent && Succeeded(rep.open) &&
      Succeeded(rep.depthSource) && Succeeded(rep.depthReader) &&
      Succeeded(rep.colorSource) && Succeeded(rep.colorReader)
  {
    var hrs := ChainReplies(rep);
    ChainStatusSucceeds(hrs);
    assert hrs[0] == rep.open && hrs[1] == rep.depthSource && hrs[2] == rep.depthReader;
    assert hrs[3] == rep.colorSource && hrs[4] == rep.colorReader;
  }

  /** The SDK calls made once a sensor was found: the guarded steps that ran,
      then the release (through SafeRelease) of each frame source obtained. */
  function SensorCalls(rep: InitReplies): (calls: seq<DeviceCall>)
    ensures |calls| >= 1 && calls[0] == OpenSensor
  {
    var n := Attempted(ChainReplies(rep));
    ChainCalls[..n] +
    (if n >= 2 && Succeeded(rep.depthSource) then [ReleaseDepthFrameSource] else []) +
    (if n >= 4 && Succeeded(rep.colorSource) then [ReleaseColorFrameSource] else [])
  }

  /** The SDK calls made by the constructor, in order. */
  function InitCalls(rep: InitReplies): (calls: seq<DeviceCall>)
    ensures |calls| >= 1 && calls[0] == GetDefaultKinectSensor
  {
    [GetDefaultKinectSensor] +
    if !Succeeded(rep.getSensor) || !rep.sensorPresent then [] else SensorCalls(rep)
  }

  /** Guarded step k is made exactly when the sensor was found and every step
      before it succeeded. */
  lemma StepMadeIff(rep: InitReplies, k: nat)
    requires k < |ChainCalls|
    ensures ChainCalls[k] in InitCalls(rep) <==>
      Succeeded(rep.getSensor) && rep.sensorPresent &&
      forall j :: 0 <= j < k ==> Succeeded(ChainReplies(rep)[j])
  {
    var hrs := ChainReplies(rep);
    if Succeeded(rep.getSensor) && rep.sensorPresent {
      AttemptedIff(hrs, k);
      var n := Attempted(hrs);
      assert InitCalls(rep)[1..1 + n] == ChainCalls[..n];
      if k < n {
        assert InitCalls(rep)[1 + k] == ChainCalls[k];
      }
      if ChainCalls[k] in InitCalls(rep) {
        var m :| 0 <= m < |InitCalls(rep)| && InitCalls(rep)[m] == ChainCalls[k];
        assert 1 <= m < 1 + n;
        assert ChainCalls[m - 1] == ChainCalls[k];
      }
    }
  }

  /** Each frame source is released exactly when it was obtained. */
  lemma SourcesReleasedIffObtained(rep: InitReplies)
    ensures ReleaseDepthFrameSource in InitCalls(rep) <==>
      GetDepthFrameSource in InitCalls(rep) && Succeeded(rep.depthSource)
    ensures ReleaseColorFrameSource in InitCalls(rep) <==>
      GetColorFrameSource in InitCalls(rep) && Succeeded(rep.colorSource)
  {
    StepMadeIff(rep, 1);
    StepMadeIff(rep, 3);
    if Succeeded(rep.getSensor) && rep.sensorPresent {
      var hrs := ChainReplies(rep);
      AttemptedIff(hrs, 1);
      AttemptedIff(hrs, 3);
      var n := Attempted(hrs);
      assert ReleaseDepthFrameSource !in ChainCalls[..n];
      assert ReleaseColorFrameSource !in ChainCalls[..n];
    }
  }

  /** No SDK call is made twice during construction; in particular neither frame
      source is released twice. */
  lemma NoCallRepeated(rep: InitReplies)
    ensures forall i, j :: 0 <= i < j < |InitCalls(rep)| ==> InitCalls(rep)[i] != InitCalls(rep)[j]
  {
    if Succeeded(rep.getSensor) && rep.sensorPresent {
      var n := Attempted(ChainReplies(rep));
      var calls := InitCalls(rep);
      forall i, j | 0 <= i < j < |calls|
        ensures calls[i] != calls[j]
      {
        assert i <= n ==> calls[i] == ([GetDefaultKinectSensor] + ChainCalls)[i];
        assert j <= n ==> calls[j] == ([GetDefaultKinectSensor] + ChainCalls)[j];
      }
    }
  }
}
