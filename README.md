# Kinect 2 image source engine, modelled in Dafny

This project models InfiniTAM's Kinect 2 image source (`Kinect2Engine`). The
engine pulls the latest colour and depth frames from a Kinect 2 sensor and
normalises them into buffers the caller owns. These are the buffers the
reconstruction pipeline consumes.

- **Colour normaliser**: each call resamples the sensor's 1920x1080 RGBA frame
  to a 640x480 image of `Vector4u` pixels. Output pixel `(r, c)` is copied from
  native row `floor(r * 2.25)` and native column `3c`. That row is written here
  exactly as the integer `(9 * r) / 4`.
- **Depth normaliser**: copies the 512x424 raw `UINT16` samples into the
  caller's `short` buffer. Each sample keeps its 16 bits.
- **Availability flags and bring-up**: the constructor runs a chain of SDK calls
  guarded by `SUCCEEDED(hr)`. Any failure disables the depth stream. The colour
  stream's flag is always set.
- **Size queries**: `hasMoreImages`, `getDepthImageSize` and `getRGBImageSize`,
  in the real engine and in the stand-in built without Kinect 2 support.
- **`SafeRelease`**: releases a COM interface pointer if it is non-null, then
  nulls it.

The Kinect SDK is treated as an oracle, so every SDK call becomes an input:
- One `getImages` call receives a `ColorPoll` and a `DepthPoll`. A poll is
  either "no frame" or a frame with its status code (HRESULT) and its buffer.
- The constructor receives `InitReplies`, the status code of each bring-up
  call. The SDK calls it makes are recorded as a sequence of `DeviceCall`s.
- HRESULT is a 32-bit signed integer, and `SUCCEEDED(hr)` means `hr >= 0`.

Modules:
- `FrameTypes`: pixel and integer types, status codes and resolutions.
- `ComRelease`: `SafeRelease`.
- `ColorResample`: index arithmetic, the resampled image and the resampling loop.
- `DepthCopy`: the 16-bit reinterpretation and the copy loop.
- `DeviceInit`: the constructor's call chain as functions, with lemmas about it.
- `Kinect2`: the engine classes and the per-call outcome of both streams.

Two behaviours of the code are worth stating plainly:
- A failed colour conversion still overwrites the colour buffer. Lines 118-130
  run the resampling loop over the conversion buffer and only then throw, so
  the depth stream is not polled in that call. `Kinect2Engine.GetImages` and
  `ColorAfter` model exactly this.
- `colorAvailable` is set at line 43 and never cleared, even when no sensor is
  found. Only `depthAvailable` records a failed bring-up.

## Model

| member | source | states |
|---|---|---|
| `ComRelease.SafeRelease` | InfiniTAM/Engine/Kinect2Engine.cpp:17-25 | afterwards the pointer is null; Release() was called once exactly when the pointer was non-null; a null pointer is left as it was |
| `ComRelease.SafeReleaseTwice` | InfiniTAM/Engine/Kinect2Engine.cpp:17-25 | a second SafeRelease is a no-op: two calls release the object once and leave the pointer null |
| `ColorResample.SrcRow` | InfiniTAM/Engine/Kinect2Engine.cpp:121 | the source row is floor(r * 2.25) (4*row <= 9*r < 4*row + 4) and is at most 1077 < 1080 for every output row |
| `ColorResample.SrcCol` | InfiniTAM/Engine/Kinect2Engine.cpp:121 | the source column (every third native column) is at most 1917 < 1920 |
| `ColorResample.SrcIndex` | InfiniTAM/Engine/Kinect2Engine.cpp:121-124 | the byte offset starts a whole pixel (multiple of 4), and all four bytes b..b+3 lie inside the 4*1920*1080-byte frame |
| `ColorResample.OutIndex` | InfiniTAM/Engine/Kinect2Engine.cpp:125 | the output slot r*640+c lies inside the 640*480 buffer and determines (r, c) back, so no two output pixels share a slot |
| `ColorResample.OutIndexOnto` | InfiniTAM/Engine/Kinect2Engine.cpp:119-125 | every slot of the 640*480 buffer is the slot of some output pixel (with the previous row: each slot is hit exactly once) |
| `ColorResample.PixelAt` | InfiniTAM/Engine/Kinect2Engine.cpp:121-124 | channel k (red, green, blue, alpha for k = 0..3) of output pixel (r, c) is native byte SrcIndex(r, c) + k |
| `ColorResample.Downsampled` | InfiniTAM/Engine/Kinect2Engine.cpp:119-127 | the resampled image has exactly 640*480 pixels |
| `ColorResample.DownsampledAt` | InfiniTAM/Engine/Kinect2Engine.cpp:123-125 | slot r*640+c of the resampled image holds the four bytes at the pixel's source offset |
| `ColorResample.SolidFrameResamplesSolid` | InfiniTAM/Engine/Kinect2Engine.cpp:119-127 | a native frame of one RGBA colour resamples to an output image of that colour in every slot |
| `ColorResample.Resample` | InfiniTAM/Engine/Kinect2Engine.cpp:119-127 | the nested loop leaves the first 640*480 slots equal to the resampled image and every later slot unchanged |
| `DepthCopy.ToInt16` | InfiniTAM/Engine/Kinect2Engine.cpp:155-156 | the stored short is congruent to the raw sample modulo 2^16, equals it below 0x8000, and is negative from 0x8000 up |
| `DepthCopy.ToUint16` | InfiniTAM/Engine/Kinect2Engine.cpp:155-156 | reading a stored short as unsigned gives a value congruent to it modulo 2^16 |
| `DepthCopy.ReinterpretRoundTrip` | InfiniTAM/Engine/Kinect2Engine.cpp:155-156 | the ushort-to-short conversion is a bijection: each raw sample is recovered from the stored value and each stored value from its sample |
| `DepthCopy.Converted` | InfiniTAM/Engine/Kinect2Engine.cpp:153-158 | the converted depth image has 512*424 samples, each holding the bits of the raw sample at the same index |
| `DepthCopy.Copy` | InfiniTAM/Engine/Kinect2Engine.cpp:153-158 | the copy loop leaves the first 512*424 slots equal to the converted samples and every later slot unchanged |
| `DeviceInit.Attempted` | InfiniTAM/Engine/Kinect2Engine.cpp:62-74 | a chain of guarded steps runs at least its first step and never more steps than it has |
| `DeviceInit.AttemptedIff` | InfiniTAM/Engine/Kinect2Engine.cpp:62-74 | step k of the SUCCEEDED(hr) chain runs exactly when every earlier step succeeded |
| `DeviceInit.AttemptedFive` | InfiniTAM/Engine/Kinect2Engine.cpp:62-74 | the constructor's five-step chain stops right after its first failing step |
| `DeviceInit.ChainStatus` | InfiniTAM/Engine/Kinect2Engine.cpp:62-74 | the hr the chain leaves is the status of one of its steps, and a failure whenever the chain stopped before its last step |
| `DeviceInit.ChainStatusSucceeds` | InfiniTAM/Engine/Kinect2Engine.cpp:62-80 | the status hr holds after the chain is a success exactly when every step succeeded |
| `DeviceInit.InitSucceeds` | InfiniTAM/Engine/Kinect2Engine.cpp:50-80 | the success condition of lines 50 and 80: the sensor call succeeded, the sensor is non-null and every one of the five guarded steps succeeded |
| `DeviceInit.InitSucceedsIff` | InfiniTAM/Engine/Kinect2Engine.cpp:47-85 | the depth stream stays enabled exactly when the sensor was found, was non-null and all five steps succeeded, so any failure disables it |
| `DeviceInit.SensorCalls` | InfiniTAM/Engine/Kinect2Engine.cpp:57-78 | once a sensor is present, the first call made is Open |
| `DeviceInit.InitCalls` | InfiniTAM/Engine/Kinect2Engine.cpp:49-78 | the first SDK call made by the constructor is always GetDefaultKinectSensor |
| `DeviceInit.StepMadeIff` | InfiniTAM/Engine/Kinect2Engine.cpp:57-74 | each guarded SDK call is made exactly when the sensor was found and every earlier guarded call succeeded |
| `DeviceInit.SourcesReleasedIffObtained` | InfiniTAM/Engine/Kinect2Engine.cpp:59-77 | each frame source is released exactly when it was requested and obtained |
| `DeviceInit.NoCallRepeated` | InfiniTAM/Engine/Kinect2Engine.cpp:49-78 | no SDK call is made twice during construction, so neither frame source is released twice |
| `Kinect2.WritesColor` | InfiniTAM/Engine/Kinect2Engine.cpp:102-116 | the guards of lines 102 and 116: a disabled stream or a missing frame is never written; on an enabled stream every frame that arrived is written, whatever its conversion status |
| `Kinect2.WritesDepth` | InfiniTAM/Engine/Kinect2Engine.cpp:138-151 | the guards of lines 138, 146 and 151: a disabled stream, a missing frame or a failed buffer access is never written |
| `Kinect2.ColorOutcome` | InfiniTAM/Engine/Kinect2Engine.cpp:116-130 | getImages throws exactly when the colour stream is enabled, a frame arrived and its conversion failed |
| `Kinect2.ColorAfter` | InfiniTAM/Engine/Kinect2Engine.cpp:102-135 | with the stream disabled or no frame the colour buffer is unchanged; otherwise every pixel (r, c) holds its sampled native pixel, even when conversion failed, and slots past 640*480 are untouched |
| `Kinect2.DepthAfter` | InfiniTAM/Engine/Kinect2Engine.cpp:138-163 | with the stream disabled, no frame, or a failed buffer access the depth buffer is unchanged; otherwise each of the first 512*424 slots holds the bits of its raw sample and later slots are untouched |
| `Kinect2.OpenFrameReaders` | InfiniTAM/Engine/Kinect2Engine.cpp:57-78 | the guarded chain ends with the status of its last step run and makes exactly the calls SensorCalls lists, releasing each frame source it obtained |
| `Kinect2.Kinect2Engine.constructor` | InfiniTAM/Engine/Kinect2Engine.cpp:36-86 | sizes are 512x424 and 640x480 and colour is enabled; depth is enabled exactly when bring-up succeeded; the calls made are InitCalls |
| `Kinect2.Kinect2Engine.GetImages` | InfiniTAM/Engine/Kinect2Engine.cpp:98-169 | the colour buffer becomes ColorAfter of the colour flag and poll, and the depth buffer DepthAfter of the depth flag and poll (unchanged when the colour conversion threw); the flags do not change |
| `Kinect2.Kinect2Engine.HasMoreImages` | InfiniTAM/Engine/Kinect2Engine.cpp:171 | the live engine always has more images |
| `Kinect2.Kinect2Engine.GetDepthImageSize` | InfiniTAM/Engine/Kinect2Engine.cpp:172 | the depth size is 512x424, that is 512*424 samples, for the engine's lifetime |
| `Kinect2.Kinect2Engine.GetRGBImageSize` | InfiniTAM/Engine/Kinect2Engine.cpp:173 | the colour size is 640x480, that is 640*480 pixels, for the engine's lifetime |
| `Kinect2.UniformFramesScenario` | InfiniTAM/Engine/Kinect2Engine.cpp:116-158 | a uniform colour frame and a uniform depth frame below 0x8000 make every output pixel that colour and every output sample that value |
| `Kinect2.DroppedFrameScenario` | InfiniTAM/Engine/Kinect2Engine.cpp:102-134 | after a frame and then a dropped frame, the colour buffer still holds the first frame's resampled image (a failed acquire is treated as no frame; see Left out) |
| `Kinect2.Kinect2EngineWithoutSensor.GetImages` | InfiniTAM/Engine/Kinect2Engine.cpp:185-186 | without Kinect 2 support, getImages leaves both buffers unchanged |
| `Kinect2.Kinect2EngineWithoutSensor.HasMoreImages` | InfiniTAM/Engine/Kinect2Engine.cpp:187-188 | without Kinect 2 support there are never more images |
| `Kinect2.Kinect2EngineWithoutSensor.GetDepthImageSize` | InfiniTAM/Engine/Kinect2Engine.cpp:189-190 | without Kinect 2 support the depth size is 0x0 |
| `Kinect2.Kinect2EngineWithoutSensor.GetRGBImageSize` | InfiniTAM/Engine/Kinect2Engine.cpp:191-192 | without Kinect 2 support the colour size is 0x0 |

## Left out

- Kinect SDK calls are not modelled. This covers `GetDefaultKinectSensor`,
  `Open`, `get_*FrameSource`, `OpenReader`, `AcquireLatestFrame`,
  `CopyConvertedFrameDataToArray`, `AccessUnderlyingBuffer`, `Release` and
  `Close`. They are foreign code, so only their status codes and buffers enter
  the model, as inputs.
- The model assumes a `get_*FrameSource` call yields a non-null frame source
  exactly when it succeeds. This is the COM out-parameter convention, and it
  decides whether `SafeRelease` (lines 76-77) calls `Release()`.
- Console output is not modelled: `printf` and `std::cout` at lines 53, 83, 114
  and 181. The frame description read at lines 109-113 is used only for that
  printing, so it is left out too.
- The conversion buffer allocation at line 101 is not reproduced as written.
  `new BYTE(4 * 1920 * 1080)` allocates a single byte and never frees it. The
  model gives the conversion a buffer of the full 4*1920*1080 bytes, which is
  the size that line 118 and the loop use.
- Line 110 reads the frame description through `pColorFrame` before checking
  the status of `AcquireLatestFrame`. When the acquire fails, that pointer is
  null and the program has undefined behaviour. The model treats a failed
  acquire as "no frame".
- Releasing each polled frame (lines 133 and 162) is not modelled, because it
  is device-side lifetime. The exception at line 129 skips the colour frame's
  release, and the model does not capture that leak.
- The destructor (lines 88-96) is not modelled. It releases the readers, closes
  the sensor and releases it. The reader pointers of `PrivateData` (line 29)
  are never initialised when bring-up stops early, so what the destructor does
  then is undefined.
- The same gap affects `getImages`. The colour reader is polled whenever
  `colorAvailable` is set, which is always, even when it was never opened. The
  model's polls are inputs, so it does not capture that invalid access.
- `Kinect2.DepthPollFits`: the copy reads 512*424 samples without consulting
  the buffer size that `AccessUnderlyingBuffer` reports. The model therefore
  requires the handed-out buffer to hold at least that many samples.
- The output buffers are assumed to hold at least 640*480 and 512*424 elements.
  These are the sizes the caller allocates from the size queries, and the
  source does not check them.
- `DepthCopy.ToInt16` uses the modular conversion of `unsigned short` to
  `short`. That is what C++20 and the usual compilers do; earlier standards
  leave it to the implementation.
- `size_t` and `int` index arithmetic is written with unbounded integers. The
  bounds proved for `SrcIndex` and `OutIndex` keep every value far below 2^31,
  so no wrap-around can occur.
- The calibration file, loaded by the `ImageSourceEngine` base class, is not
  part of this model.
- The stand-in constructor (lines 179-182) only prints a message, so it has no
  contract.
