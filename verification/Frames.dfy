/** The video frame passed from the assembler and the splitter to the hub and its subscribers. */
module Frames {
  import opened Bytes

  datatype VideoFrame = VideoFrame(
    deviceID: string,
    sequence: nat,
    metadata0: nat,
    metadata1: nat,
    metadata2: nat,
    keyFrame: bool,
    discontinuity: bool,
    data: seq<byte>)

  /** The frame that tells a subscriber that the stream was interrupted. */
  function Marker(deviceID: string): VideoFrame {
    VideoFrame(deviceID, 0, 0, 0, 0, false, true, [])
  }
}
