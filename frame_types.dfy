/** Value types shared by the Kinect 2 image source: pixel formats, the fixed
    native and output resolutions, and COM's HRESULT status codes. */
module FrameTypes {

  /** An unsigned 8-bit channel value (BYTE / unsigned char). */
  newtype byte = x: int | 0 <= x < 0x100

  /** A raw depth sample as the sensor delivers it (UINT16 / ushort). */
  newtype uint16 = x: int | 0 <= x < 0x1_0000

  /** A sample of the consumer's depth image (short). */
  newtype int16 = x: int | -0x8000 <= x < 0x8000

  /** A COM status code (HRESULT, a 32-bit signed LONG). */
  newtype HResult = x: int | -0x8000_0000 <= x < 0x8000_0000

  /** The SUCCEEDED macro: a status code is a success when it is not negative. */
  predicate Succeeded(hr: HResult) { hr >= 0 }

  /** One pixel of the consumer's colour image (Vector4u): red, green, blue, alpha. */
  datatype RGBA = RGBA(r: byte, g: byte, b: byte, a: byte)

  /** A width/height pair (Vector2i). */
  datatype Vector2i = Vector2i(x: int, y: int)

  /** Native colour resolution of the sensor, and bytes per RGBA pixel. */
  const NativeWidth: nat := 1920
  const NativeHeight: nat := 1080
  const BytesPerPixel: nat := 4
  /** Size of the converted native colour frame in bytes. */
  const ColorBytes: nat := 4 * 1920 * 1080

  /** Output colour resolution handed to the consumer. */
  const OutWidth: nat := 640
  const OutHeight: nat := 480
  const OutPixels: nat := 640 * 480

  /** Depth resolution, native and output alike. */
  const DepthWidth: nat := 512
  const DepthHeight: nat := 424
  const DepthPixels: nat := 512 * 424
}
