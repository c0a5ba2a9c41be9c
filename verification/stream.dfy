/**
 The shape of the stream `generate_frames` yields (app.py): nothing when the
 camera did not open; otherwise one multipart part per successful read,
 ending at the first failed read.

 The camera is an input: whether it opened, and the outcomes of the reads
 made before the consumer stopped pulling. A successful read carries the
 faces the detector reported in it and the JPEG bytes `cv2.imencode` made of
 the annotated frame; those bytes are opaque here. Exceptions raised by
 the OpenCV calls between two reads are not modelled: each read either
 succeeds and yields a part or fails and ends the loop.
 */
module Stream {
  import opened Classifier
  import opened Annotator

  newtype byte = b: int | 0 <= b < 256

  datatype Option<T> = None | Some(value: T)

  /** One `camera.read()`. */
  datatype Read = Grabbed(faces: seq<Face>, jpeg: seq<byte>) | ReadFailed

  /** The boundary line `b'--frame\r\n'`. */
  const BoundaryLine: seq<byte> := [45, 45, 102, 114, 97, 109, 101, 13, 10]

  /** The part header `b'Content-Type: image/jpeg\r\n\r\n'`. */
  const JpegHeader: seq<byte> := [
    67, 111, 110, 116, 101, 110, 116, 45, 84, 121, 112, 101, 58, 32,
    105, 109, 97, 103, 101, 47, 106, 112, 101, 103, 13, 10, 13, 10]

  /** The line break `b'\r\n'` that closes every part. */
  const PartTail: seq<byte> := [13, 10]

  /** What opens every part. */
  const PartHead: seq<byte> := BoundaryLine + JpegHeader

  /** `bytes` holds the ASCII codes of `text`. */
  ghost predicate SpellsOut(bytes: seq<byte>, text: string) {
    |bytes| == |text| && forall i :: 0 <= i < |text| ==> bytes[i] as int == text[i] as int
  }

  /** The framing bytes spell out the literals of the multipart body. */
  lemma {:induction false} FramingIsAscii()
    ensures SpellsOut(BoundaryLine, "--frame\r\n")
    ensures SpellsOut(JpegHeader, "Content-Type: image/jpeg\r\n\r\n")
    ensures SpellsOut(PartTail, "\r\n")
  {
  }

  /** One part of the `multipart/x-mixed-replace; boundary=frame` body. */
  function Chunk(jpeg: seq<byte>): (r: seq<byte>)
    ensures |r| == |jpeg| + 39
  {
    PartHead + jpeg + PartTail
  }

  /** Read the JPEG bytes back out of one part; `None` when the framing is wrong. */
  function ParseChunk(part: seq<byte>): (r: Option<seq<byte>>)
    ensures r.Some? ==> |r.value| + 39 == |part|
  {
    if |part| >= |PartHead| + |PartTail|
       && part[..|PartHead|] == PartHead
       && part[|part| - |PartTail|..] == PartTail
    then Some(part[|PartHead|..|part| - |PartTail|])
    else None
  }

  lemma {:induction false} ParseChunkInvertsChunk(jpeg: seq<byte>)
    ensures ParseChunk(Chunk(jpeg)) == Some(jpeg)
  {
    var part := Chunk(jpeg);
    assert part[..|PartHead|] == PartHead;
    assert part[|part| - |PartTail|..] == PartTail;
    assert part[|PartHead|..|part| - |PartTail|] == jpeg;
  }

  /** Every byte string the parser accepts is exactly one part. */
  lemma {:induction false} ChunkInvertsParseChunk(part: seq<byte>)
    requires ParseChunk(part).Some?
    ensures Chunk(ParseChunk(part).value) == part
  {
    var jpeg := ParseChunk(part).value;
    assert part == part[..|PartHead|] + jpeg + part[|part| - |PartTail|..];
  }

  /**
   The `while True` loop over an opened camera: it goes on while reads
   succeed and stops at the first failed one. `taken` counts the successful
   reads, each of which yields one part.
   */
  method Drain(outcomes: seq<Read>) returns (taken: nat, failed: bool)
    ensures taken <= |outcomes|
    ensures forall k :: 0 <= k < taken ==> outcomes[k].Grabbed?
    ensures failed <==> taken < |outcomes|
    ensures failed ==> outcomes[taken].ReadFailed?
  {
    taken, failed := 0, false;
    while taken < |outcomes|
      invariant taken <= |outcomes|
      invariant forall k :: 0 <= k < taken ==> outcomes[k].Grabbed?
    {
      if outcomes[taken].ReadFailed? {
        return taken, true;
      }
      taken := taken + 1;
    }
  }

  /**
   The generator. When the camera did not open it yields nothing and
   returns without releasing it. Otherwise it yields one part per successful
   read, framing the JPEG bytes of that read's annotated frame, stops at the
   first failed read and releases the camera there; when the consumer stops
   pulling first, the release line is never reached.
   */
  method Pump(model: ModelHandle, isOpen: bool, outcomes: seq<Read>)
    returns (chunks: seq<seq<byte>>, overlays: seq<seq<DrawCmd>>, released: bool)
    ensures !isOpen ==> chunks == [] && overlays == [] && !released
    ensures |overlays| == |chunks| <= |outcomes|
    ensures isOpen ==> forall k :: 0 <= k < |chunks| ==>
      && outcomes[k].Grabbed?
      && chunks[k] == Chunk(outcomes[k].jpeg)
      && overlays[k] == Annotate(model, outcomes[k].faces)
    ensures isOpen && |chunks| < |outcomes| ==> outcomes[|chunks|].ReadFailed?
    ensures released <==> isOpen && |chunks| < |outcomes|
  {
    if !isOpen {
      return [], [], false;
    }
    var taken;
    taken, released := Drain(outcomes);
    chunks := seq(taken, k requires 0 <= k < taken => Chunk(outcomes[k].jpeg));
    overlays := seq(taken, k requires 0 <= k < taken => Annotate(model, outcomes[k].faces));
  }
}
