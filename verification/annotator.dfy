/**
 The per-frame overlay of `generate_frames` (app.py): for each face the
 detector reports, in the detector's order, a rectangle, a caption above it
 and, when the score dictionary is non-empty, up to three score lines below.

 Drawing is modelled as the list of draw calls made on the frame. Pixels,
 colours, fonts and the text formatting of numbers are not modelled; a draw
 call carries its anchor position and the label and value it shows.
 */
module Annotator {
  import opened Emotions
  import opened Classifier
  import opened Ranking

  /** A detector rectangle `(x, y, w, h)`. */
  datatype Region = Region(x: int, y: int, w: int, h: int)

  /**
   One detected face: its region and what inference gave for its pixels.
   `generate_frames` crops the face from the frame it is drawing on, so those
   pixels may carry the overlays of earlier faces; the outcome is taken as
   given.
   */
  datatype Face = Face(region: Region, inference: Inference)

  datatype DrawCmd =
    | Rectangle(x1: int, y1: int, x2: int, y2: int)
    | Caption(x: int, y: int, emotion: string, confidence: real)
    | ScoreLine(x: int, y: int, name: string, percent: real)

  /** The caption sits this far above the rectangle's top edge. */
  const CaptionLift := 10
  /** The first score line sits this far below the rectangle's bottom edge. */
  const FirstLineDrop := 20
  /** Each further score line moves down by this much. */
  const LineStep := 20

  /** The score lines as the Python loop draws them, `y_offset` growing by one step per line. */
  function ScoreLines(x: int, yOffset: int, shown: seq<ScoreEntry>): (r: seq<DrawCmd>)
    ensures |r| == |shown|
    ensures forall k :: 0 <= k < |r| ==>
      r[k] == ScoreLine(x, yOffset + 20 * k, shown[k].key, shown[k].score)
    decreases |shown|
  {
    if shown == [] then []
    else [ScoreLine(x, yOffset, shown[0].key, shown[0].score)] + ScoreLines(x, yOffset + LineStep, shown[1..])
  }

  /**
   A face ready to draw: its region, the classifier's answer, and the score
   items the overlay lists for it (the sorted and sliced dictionary).
   */
  datatype Labelled = Labelled(region: Region, result: ClassResult, shown: seq<ScoreEntry>)

  /** Pair a region with the classifier's answer and its top items. */
  function Labelling(region: Region, result: ClassResult): (item: Labelled)
    ensures item.region == region && item.result == result
    ensures |item.shown| == Min(ShownItems, |result.Scores()|)
  {
    Labelled(region, result, TopScores(result.Scores()))
  }

  /** `detect_emotion` on each face, in the detector's order. */
  function Classify(model: ModelHandle, faces: seq<Face>): (r: seq<Labelled>)
    ensures |r| == |faces|
    ensures forall i :: 0 <= i < |r| ==>
      && r[i].region == faces[i].region
      && r[i].result == DetectEmotion(model, faces[i].inference)
      && r[i].shown == TopScores(r[i].result.Scores())
  {
    seq(|faces|, i requires 0 <= i < |faces| => Labelling(faces[i].region, DetectEmotion(model, faces[i].inference)))
  }

  /** The rectangle a face gets. */
  function BoxOf(region: Region): DrawCmd {
    Rectangle(region.x, region.y, region.x + region.w, region.y + region.h)
  }

  /** The caption a face gets. */
  function CaptionOf(item: Labelled): DrawCmd {
    Caption(item.region.x, item.region.y - CaptionLift, item.result.Label(), item.result.Confidence())
  }

  /** The score lines under one face: none when the score dictionary is empty. */
  function SubLines(item: Labelled): seq<DrawCmd> {
    var Region(x, y, w, h) := item.region;
    if |item.result.Scores()| == 0 then [] else ScoreLines(x, y + h + FirstLineDrop, item.shown)
  }

  /** The draw calls for one face: its rectangle, its caption, then its score lines. */
  function Overlay(item: Labelled): seq<DrawCmd> {
    var Region(x, y, w, h) := item.region;
    [Rectangle(x, y, x + w, y + h), Caption(x, y - CaptionLift, item.result.Label(), item.result.Confidence())]
    + SubLines(item)
  }

  /**
   The `if scores:` block: no line for an empty dictionary, otherwise one per
   listed item, the k-th at `(x, y+h+20+20k)`.
   */
  lemma {:induction false} SubLinesLayout(item: Labelled)
    ensures var lines := SubLines(item);
      var Region(x, y, w, h) := item.region;
      && |lines| == (if |item.result.Scores()| == 0 then 0 else |item.shown|)
      && (forall k :: 0 <= k < |lines| ==>
            lines[k] == ScoreLine(x, y + h + 20 + 20 * k, item.shown[k].key, item.shown[k].score))
  {
  }

  /** The draw calls for a list of faces, one face after the other. */
  function Draw(items: seq<Labelled>): (r: seq<DrawCmd>)
    ensures items == [] <==> r == []
    ensures |r| >= 2 * |items|
    decreases |items|
  {
    if items == [] then []
    else Overlay(items[0]) + Draw(items[1..])
  }

  /** All draw calls made on one frame. */
  function Annotate(model: ModelHandle, faces: seq<Face>): (r: seq<DrawCmd>)
    ensures faces == [] <==> r == []
    ensures |r| >= 2 * |faces|
  {
    Draw(Classify(model, faces))
  }

  /**
   The layout of one face: the rectangle `(x, y)-(x+w, y+h)`, the caption at
   `(x, y-10)` with the classifier's label and confidence, then, only when
   the score dictionary is non-empty, one line per listed item, the k-th at
   `(x, y+h+20+20k)`.
   */
  lemma {:induction false} OverlayLayout(region: Region, result: ClassResult)
    ensures var r := Overlay(Labelling(region, result));
      var Region(x, y, w, h) := region;
      var scores := result.Scores();
      && |r| == 2 + (if |scores| == 0 then 0 else Min(3, |scores|))
      && r[0] == Rectangle(x, y, x + w, y + h)
      && r[1] == Caption(x, y - 10, result.Label(), result.Confidence())
      && (forall k :: 0 <= k < |r| - 2 ==>
            r[2 + k] == ScoreLine(x, y + h + 20 + 20 * k, TopScores(scores)[k].key, TopScores(scores)[k].score))
  {
    var item := Labelling(region, result);
    var r, lines := Overlay(item), SubLines(item);
    SubLinesLayout(item);
    assert forall k :: 0 <= k < |r| - 2 ==> r[2 + k] == lines[k];
  }

  /** Sentinel answers are drawn like any other: a rectangle and a caption, and no score line. */
  lemma {:induction false} SentinelOverlay(region: Region, result: ClassResult)
    requires !result.Detected?
    ensures var Region(x, y, w, h) := region;
      Overlay(Labelling(region, result)) == [Rectangle(x, y, x + w, y + h), Caption(x, y - 10, result.Label(), 0.0)]
  {
  }

  /** With no model loaded, every face gets a "Model Error" caption at 0.0 and nothing else. */
  lemma {:induction false} NoModelOverlay(face: Face)
    ensures var Region(x, y, w, h) := face.region;
      Overlay(Labelling(face.region, DetectEmotion(Absent, face.inference)))
        == [Rectangle(x, y, x + w, y + h), Caption(x, y - 10, "Model Error", 0.0)]
  {
  }

  /** A successful classification always shows three score lines: the dictionary has seven items. */
  lemma {:induction false} DetectedShowsThree(model: ModelHandle, face: Face)
    ensures DetectEmotion(model, face.inference).Detected? ==>
      |Overlay(Labelling(face.region, DetectEmotion(model, face.inference)))| == 5
  {
    OverlayLayout(face.region, DetectEmotion(model, face.inference));
  }

  lemma {:induction false} DrawAppend(a: seq<Labelled>, b: seq<Labelled>)
    ensures Draw(a + b) == Draw(a) + Draw(b)
    decreases |a|
  {
    if a == [] {
      assert a + b == b;
    } else {
      assert (a + b)[0] == a[0];
      assert (a + b)[1..] == a[1..] + b;
      DrawAppend(a[1..], b);
    }
  }

  lemma {:induction false} MiddleSlice(whole: seq<DrawCmd>, a: seq<DrawCmd>, b: seq<DrawCmd>, c: seq<DrawCmd>)
    requires whole == a + (b + c)
    ensures |a| + |b| <= |whole|
    ensures whole[|a|..|a| + |b|] == b
  {
  }

  lemma {:induction false} DrawSplit(items: seq<Labelled>, i: int)
    requires 0 <= i <= |items|
    ensures Draw(items) == Draw(items[..i]) + Draw(items[i..])
  {
    assert items == items[..i] + items[i..];
    DrawAppend(items[..i], items[i..]);
  }

  lemma {:induction false} DrawHead(items: seq<Labelled>)
    requires items != []
    ensures Draw(items) == Overlay(items[0]) + Draw(items[1..])
  {
  }

  /**
   The draw calls of face `i` form one contiguous block of the frame's
   calls, right after those of the faces before it.
   */
  lemma {:induction false} FaceBlock(items: seq<Labelled>, i: int)
    requires 0 <= i < |items|
    ensures var start := |Draw(items[..i])|;
      var block := Overlay(items[i]);
      && start + |block| <= |Draw(items)|
      && Draw(items)[start..start + |block|] == block
  {
    var before, block, after := Draw(items[..i]), Overlay(items[i]), Draw(items[i + 1..]);
    assert Draw(items) == before + (block + after) by {
      DrawSplit(items, i);
      DrawHead(items[i..]);
      assert items[i..][0] == items[i];
      assert items[i..][1..] == items[i + 1..];
    }
    MiddleSlice(Draw(items), before, block, after);
  }

  /** The three kinds of draw call. */
  datatype Kind = Box | Text | Line

  function KindOf(c: DrawCmd): Kind {
    match c
    case Rectangle(_, _, _, _) => Box
    case Caption(_, _, _, _) => Text
    case ScoreLine(_, _, _, _) => Line
  }

  /** The draw calls of one kind, in drawing order. */
  function OfKind(cmds: seq<DrawCmd>, kind: Kind): (r: seq<DrawCmd>)
    ensures |r| <= |cmds|
    decreases |cmds|
  {
    if cmds == [] then []
    else (if KindOf(cmds[0]) == kind then [cmds[0]] else []) + OfKind(cmds[1..], kind)
  }

  lemma {:induction false} OfKindAppend(a: seq<DrawCmd>, b: seq<DrawCmd>, kind: Kind)
    ensures OfKind(a + b, kind) == OfKind(a, kind) + OfKind(b, kind)
    decreases |a|
  {
    if a == [] {
      assert a + b == b;
    } else {
      assert (a + b)[0] == a[0];
      assert (a + b)[1..] == a[1..] + b;
      OfKindAppend(a[1..], b, kind);
    }
  }

  lemma {:induction false} NoBoxOrTextInLines(x: int, yOffset: int, shown: seq<ScoreEntry>)
    ensures OfKind(ScoreLines(x, yOffset, shown), Box) == []
    ensures OfKind(ScoreLines(x, yOffset, shown), Text) == []
    decreases |shown|
  {
    if shown != [] {
      var r := ScoreLines(x, yOffset, shown);
      assert r[1..] == ScoreLines(x, yOffset + LineStep, shown[1..]);
      NoBoxOrTextInLines(x, yOffset + LineStep, shown[1..]);
    }
  }

  lemma {:induction false} OfKindPair(a: DrawCmd, b: DrawCmd, tail: seq<DrawCmd>, kind: Kind)
    ensures OfKind([a, b] + tail, kind)
      == (if KindOf(a) == kind then [a] else []) + (if KindOf(b) == kind then [b] else []) + OfKind(tail, kind)
  {
    assert ([a, b] + tail)[1..] == [b] + tail;
    assert ([b] + tail)[1..] == tail;
  }

  lemma {:induction false} SubLinesHaveNoBoxOrText(item: Labelled)
    ensures OfKind(SubLines(item), Box) == []
    ensures OfKind(SubLines(item), Text) == []
  {
    if |item.result.Scores()| != 0 {
      NoBoxOrTextInLines(item.region.x, item.region.y + item.region.h + FirstLineDrop, item.shown);
    }
  }

  lemma {:induction false} OverlayBoxAndCaption(item: Labelled)
    ensures OfKind(Overlay(item), Box) == [BoxOf(item.region)]
    ensures OfKind(Overlay(item), Text) == [CaptionOf(item)]
  {
    var box := BoxOf(item.region);
    var caption := CaptionOf(item);
    var tail := SubLines(item);
    assert Overlay(item) == [box, caption] + tail;
    SubLinesHaveNoBoxOrText(item);
    OfKindPair(box, caption, tail, Box);
    OfKindPair(box, caption, tail, Text);
  }

  lemma {:induction false} KindsOfDrawHead(items: seq<Labelled>)
    requires items != []
    ensures OfKind(Draw(items), Box) == [BoxOf(items[0].region)] + OfKind(Draw(items[1..]), Box)
    ensures OfKind(Draw(items), Text) == [CaptionOf(items[0])] + OfKind(Draw(items[1..]), Text)
  {
    DrawHead(items);
    OverlayBoxAndCaption(items[0]);
    OfKindAppend(Overlay(items[0]), Draw(items[1..]), Box);
    OfKindAppend(Overlay(items[0]), Draw(items[1..]), Text);
  }

  /** A frame's rectangles: exactly one per face, in the detector's order. */
  lemma {:induction false} FrameBoxes(items: seq<Labelled>)
    ensures var boxes := OfKind(Draw(items), Box);
      |boxes| == |items| && forall i :: 0 <= i < |items| ==> boxes[i] == BoxOf(items[i].region)
    decreases |items|
  {
    if items != [] {
      var all, rest := OfKind(Draw(items), Box), OfKind(Draw(items[1..]), Box);
      assert all == [BoxOf(items[0].region)] + rest by {
        KindsOfDrawHead(items);
      }
      FrameBoxes(items[1..]);
      forall i | 1 <= i < |items| ensures all[i] == BoxOf(items[i].region) {
        assert all[i] == rest[i - 1];
        assert items[1..][i - 1] == items[i];
      }
    }
  }

  /** A frame's captions: exactly one per face, in the detector's order. */
  lemma {:induction false} FrameCaptions(items: seq<Labelled>)
    ensures var captions := OfKind(Draw(items), Text);
      |captions| == |items| && forall i :: 0 <= i < |items| ==> captions[i] == CaptionOf(items[i])
    decreases |items|
  {
    if items != [] {
      var all, rest := OfKind(Draw(items), Text), OfKind(Draw(items[1..]), Text);
      assert all == [CaptionOf(items[0])] + rest by {
        KindsOfDrawHead(items);
      }
      FrameCaptions(items[1..]);
      forall i | 1 <= i < |items| ensures all[i] == CaptionOf(items[i]) {
        assert all[i] == rest[i - 1];
        assert items[1..][i - 1] == items[i];
      }
    }
  }

  /**
   Over a whole frame: exactly one rectangle `(x,y)-(x+w,y+h)` per detected
   face, in the detector's order.
   */
  lemma {:induction false} FrameRectangles(model: ModelHandle, faces: seq<Face>)
    ensures var boxes := OfKind(Annotate(model, faces), Box);
      |boxes| == |faces| && forall i :: 0 <= i < |faces| ==>
        var Region(x, y, w, h) := faces[i].region;
        boxes[i] == Rectangle(x, y, x + w, y + h)
  {
    var items := Classify(model, faces);
    FrameBoxes(items);
    forall i | 0 <= i < |faces|
      ensures OfKind(Annotate(model, faces), Box)[i] == BoxOf(faces[i].region)
    {
      assert items[i].region == faces[i].region;
    }
  }

  /** Captions of labelled faces, read back in terms of the faces and the answers they were given. */
  lemma {:induction false} CaptionsOfAnswers(items: seq<Labelled>, faces: seq<Face>, results: seq<ClassResult>)
    requires |items| == |faces| == |results|
    requires forall i :: 0 <= i < |items| ==> items[i].region == faces[i].region && items[i].result == results[i]
    ensures var captions := OfKind(Draw(items), Text);
      |captions| == |faces| && forall i :: 0 <= i < |faces| ==>
        captions[i] == Caption(faces[i].region.x, faces[i].region.y - 10, results[i].Label(), results[i].Confidence())
  {
    FrameCaptions(items);
  }

  /**
   Over a whole frame: exactly one caption at `(x, y-10)` per detected face,
   in the detector's order, showing what `detect_emotion` answered for it.
   */
  lemma {:induction false} FrameLabels(model: ModelHandle, faces: seq<Face>)
    ensures var captions := OfKind(Annotate(model, faces), Text);
      |captions| == |faces| && forall i :: 0 <= i < |faces| ==>
        var result := DetectEmotion(model, faces[i].inference);
        captions[i] == Caption(faces[i].region.x, faces[i].region.y - 10, result.Label(), result.Confidence())
  {
    var results := seq(|faces|, i requires 0 <= i < |faces| => DetectEmotion(model, faces[i].inference));
    CaptionsOfAnswers(Classify(model, faces), faces, results);
  }
}
