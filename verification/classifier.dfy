/**
 The decision logic of `detect_emotion` (app.py) around the pretrained model.

 The model itself, the grayscale/resize/normalise preprocessing and
 `predict` are foreign numerics: what they produce for one face region is an
 input here, either the raw output vector or the fact that one of those
 steps raised. The process-wide model handle is an input too.
 */
module Classifier {
  import opened Emotions

  /** Whether `load_emotion_model` left a model in the global slot. */
  datatype ModelHandle = Absent | Loaded

  /** What preprocessing and `predict` gave for one face region. */
  datatype Inference = Predicted(output: seq<real>) | Raised

  /**
   The classifier's answer for one face: a real classification or one of the
   two sentinels. `Label`, `Confidence` and `Scores` give the triple that the
   Python function returns.
   */
  datatype ClassResult =
    | Detected(emotion: string, confidence: real, scores: seq<ScoreEntry>)
    | ModelError
    | Unknown
  {
    function Label(): string {
      match this
      case Detected(e, _, _) => e
      case ModelError => "Model Error"
      case Unknown => "Unknown"
    }

    function Confidence(): real {
      if Detected? then confidence else 0.0
    }

    function Scores(): seq<ScoreEntry> {
      if Detected? then scores else []
    }
  }

  /** `i` is where `np.argmax` lands: a maximum, and no earlier entry reaches it. */
  ghost predicate IsFirstMax(p: seq<real>, i: int) {
    && 0 <= i < |p|
    && (forall j :: 0 <= j < |p| ==> p[j] <= p[i])
    && (forall j :: 0 <= j < i ==> p[j] < p[i])
  }

  lemma {:induction false} FirstMaxUnique(p: seq<real>, i: int, j: int)
    requires IsFirstMax(p, i) && IsFirstMax(p, j)
    ensures i == j
  {
    assert p[i] == p[j];
  }

  /** `np.argmax` of a non-empty vector: the first index holding the maximum. */
  function ArgMax(p: seq<real>): (i: nat)
    requires |p| > 0
    ensures IsFirstMax(p, i)
    decreases |p|
  {
    if |p| == 1 then 0
    else
      var i := ArgMax(p[..|p| - 1]);
      if p[|p| - 1] > p[i] then |p| - 1 else i
  }

  /** The dictionary comprehension: each lower-cased label with its output times 100. */
  function ScoreEntries(p: seq<real>): (r: seq<ScoreEntry>)
    requires |p| >= |Labels|
    ensures |r| == |Labels|
  {
    seq(|Labels|, k requires 0 <= k < |Labels| => ScoreEntry(Lower(Labels[k]), p[k] * 100.0))
  }

  /**
   The k-th item of the comprehension is the k-th label, lower-cased, with
   the k-th output times 100; no two items share a key, so the dict built
   from them keeps all seven.
   */
  lemma {:induction false} ScoreItems(p: seq<real>)
    requires |p| >= |Labels|
    ensures var r := ScoreEntries(p);
      && (forall k :: 0 <= k < |Labels| ==> r[k].key == Lower(Labels[k]) && r[k].score == p[k] * 100.0)
      && DistinctKeys(r)
  {
    LowerLabelsDistinct();
  }

  /** The percentage column of a score dictionary, in item order. */
  function Percentages(entries: seq<ScoreEntry>): (r: seq<real>)
    ensures |r| == |entries|
  {
    seq(|entries|, k requires 0 <= k < |entries| => entries[k].score)
  }

  /**
   `detect_emotion` after inference. Without a model the answer is the
   "Model Error" sentinel; any step that raises gives the "Unknown" sentinel:
   preprocessing or `predict` itself, `np.argmax` on an empty vector,
   `EMOTIONS[idx]` past the seventh label, or the comprehension reading an
   output shorter than seven.
   */
  function DetectEmotion(model: ModelHandle, inference: Inference): (r: ClassResult)
    ensures model.Absent? ==> r == ModelError
    ensures model.Loaded? && inference.Raised? ==> r == Unknown
    ensures model.Loaded? && inference.Predicted? && |inference.output| < |Labels| ==> r == Unknown
    ensures model.Loaded? && inference.Predicted? && |inference.output| >= |Labels| ==>
      forall i | IsFirstMax(inference.output, i) ::
        if i < |Labels| then r == Detected(Labels[i], inference.output[i], ScoreEntries(inference.output))
        else r == Unknown
  {
    match model
    case Absent => ModelError
    case Loaded =>
      match inference
      case Raised => Unknown
      case Predicted(p) =>
        if |p| == 0 then Unknown
        else
          var i := ArgMax(p);
          if i >= |Labels| then Unknown
          else if |p| < |Labels| then Unknown
          else
            assert forall j | IsFirstMax(p, j) :: j == i by {
              forall j | IsFirstMax(p, j) ensures j == i { FirstMaxUnique(p, i, j); }
            }
            Detected(Labels[i], p[i], ScoreEntries(p))
  }

  /** Whatever the input, the two sentinels are exactly the triples `detect_emotion` returns. */
  lemma {:induction false} SentinelTriples(model: ModelHandle, inference: Inference)
    ensures var r := DetectEmotion(model, inference);
      model.Absent? ==> (r.Label(), r.Confidence(), r.Scores()) == ("Model Error", 0.0, [])
    ensures var r := DetectEmotion(model, inference);
      !r.Detected? && model.Loaded? ==> (r.Label(), r.Confidence(), r.Scores()) == ("Unknown", 0.0, [])
  {
  }

  /**
   A successful score dictionary has exactly the seven lower-cased labels as
   keys, each with its output times 100, and the dominant label's entry is
   the confidence times 100.
   */
  lemma {:induction false} ScoreMapShape(model: ModelHandle, inference: Inference)
    ensures var r := DetectEmotion(model, inference);
      r.Detected? ==>
      && ToMap(r.scores).Keys == (set k | 0 <= k < |Labels| :: Lower(Labels[k]))
      && (forall k :: 0 <= k < |Labels| ==> ToMap(r.scores)[Lower(Labels[k])] == inference.output[k] * 100.0)
      && Lower(r.emotion) in ToMap(r.scores)
      && ToMap(r.scores)[Lower(r.emotion)] == r.confidence * 100.0
  {
    var r := DetectEmotion(model, inference);
    if !r.Detected? {
      return;
    }
    var p := inference.output;
    var entries := ScoreEntries(p);
    LowerLabelsDistinct();
    assert DistinctKeys(entries);
    assert (set e | e in entries :: e.key) == set k | 0 <= k < |Labels| :: Lower(Labels[k]) by {
      forall k | 0 <= k < |Labels|
        ensures Lower(Labels[k]) in set e | e in entries :: e.key
      {
        assert entries[k] in entries;
      }
    }
    forall k | 0 <= k < |Labels|
      ensures ToMap(entries)[Lower(Labels[k])] == p[k] * 100.0
    {
      ToMapLookup(entries, k);
    }
  }

  /**
   The dominant label is the argmax of the score dictionary too, with the
   same first-occurrence tie-break over the label order.
   */
  lemma {:induction false} DominantIsScoreArgMax(model: ModelHandle, inference: Inference)
    ensures var r := DetectEmotion(model, inference);
      r.Detected? ==> exists i :: 0 <= i < |Labels| && Labels[i] == r.emotion && IsFirstMax(Percentages(r.scores), i)
  {
    var r := DetectEmotion(model, inference);
    if !r.Detected? {
      return;
    }
    var p := inference.output;
    var i := ArgMax(p);
    var q := Percentages(r.scores);
    forall j | 0 <= j < |q| ensures q[j] <= q[i] {
      assert p[j] <= p[i];
    }
    forall j | 0 <= j < i ensures q[j] < q[i] {
      assert p[j] < p[i];
    }
    assert IsFirstMax(q, i);
  }
}
