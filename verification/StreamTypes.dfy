/** The values that travel through one stream's pipeline (src/pipeline/StreamTypes.h). */
module StreamTypes {

  datatype MediaType = Video | Audio

  datatype InferState = Idle | Selected | Running | Done | Dropped

  /** An encoded packet; `body` stands for the AVPacket it carries. */
  datatype Packet = Packet(media: MediaType, frameId: int, pts: int, body: int)

  /** What one FrameBundle says at one moment. */
  datatype Frame = Frame(frameId: int, pts: int, decoded: bool, state: InferState)

  /** A detector result; `body` stands for the detected objects. */
  datatype InferenceResult = InferenceResult(frameId: int, pts: int, expireAt: int, body: int)

  predicate IsTerminal(s: InferState) { s == Done || s == Dropped }

  predicate IsInferring(s: InferState) { s == Selected || s == Running }

  /** A FrameBundle is shared between the buffer and the inference task; only its inference state changes. */
  class FrameBundle {
    const frameId: int
    const pts: int
    const decoded: bool
    var inferState: InferState

    constructor (frameId: int, pts: int, decoded: bool)
      ensures Value() == Frame(frameId, pts, decoded, Idle)
    {
      this.frameId, this.pts, this.decoded := frameId, pts, decoded;
      inferState := Idle;
    }

    function Value(): Frame
      reads this
    {
      Frame(frameId, pts, decoded, inferState)
    }
  }
}
