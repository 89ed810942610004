/** Values shared by every component: bytes, instants and the usual wrappers. */
module Common {
  newtype byte = x: int | 0 <= x < 256

  type Bytes = seq<byte>

  datatype Option<+T> = None | Some(value: T)

  datatype Result<+T, +E> = Ok(value: T) | Err(error: E)

  /** An instant (nanoseconds since the Unix epoch) together with the offset east of
      UTC, in nanoseconds, in which it is displayed. */
  datatype Time = Time(ns: int, offset: int)

  const SECOND: int := 1_000_000_000
  const DAY: int := 86_400_000_000_000

  const TWO_32: int := 0x1_0000_0000
  const TWO_63: int := 0x8000_0000_0000_0000
  const TWO_64: int := 0x1_0000_0000_0000_0000

  datatype Codec = H264 | H265 | MPEG4 | Unsupported(name: Bytes)

  datatype GOPMeta = GOPMeta(
    cameraId: Bytes,
    start: Time,
    end: Time,
    objectKey: Bytes,
    initKey: Bytes,
    size: int,
    frameCount: int,
    codec: Codec)
}
