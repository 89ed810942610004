/** Video samples as they come from a camera and go back out to a player. */
module Samples {
  import opened Common

  datatype FrameType = I | P | B

  datatype Params = Params(payloadType: int, width: int, height: int, sps: Bytes, pps: Bytes, vps: Bytes, config: Bytes)

  const NO_PARAMS: Params := Params(0, 0, 0, [], [], [], [])

  datatype Sample = Sample(
    codec: Codec,
    timestamp: Time,
    units: seq<Bytes>,
    isKey: bool,
    frameType: FrameType,
    params: Params)
}
