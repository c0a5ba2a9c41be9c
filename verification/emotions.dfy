/**
 The fixed emotion vocabulary of the classifier and the per-class score
 dictionary that `detect_emotion` builds from it (app.py).

 A Python dict keeps insertion order, and that order matters later: the
 overlay sorts the dict's items with a stable sort. So the dictionary is
 modelled as the sequence of its items, and `ToMap` gives its lookup view.
 */
module Emotions {

  /** The seven class names, in the order of the classifier's output vector. */
  const Labels: seq<string> := ["Angry", "Disgust", "Fear", "Happy", "Sad", "Surprise", "Neutral"]

  /** One item of the score dictionary: a lower-cased label and a percentage. */
  datatype ScoreEntry = ScoreEntry(key: string, score: real)

  /** `str.lower` on one character; the labels are plain ASCII. */
  function LowerChar(c: char): char {
    if 'A' <= c <= 'Z' then (c as int + 32) as char else c
  }

  function Lower(s: string): (r: string)
    ensures |r| == |s|
    ensures forall i :: 0 <= i < |s| ==> r[i] == LowerChar(s[i])
  {
    seq(|s|, i requires 0 <= i < |s| => LowerChar(s[i]))
  }

  /** No two items carry the same key: the sequence is the item list of a dict. */
  ghost predicate DistinctKeys(entries: seq<ScoreEntry>) {
    forall i, j :: 0 <= i < j < |entries| ==> entries[i].key != entries[j].key
  }

  /** The dictionary a comprehension over `entries` builds: a later key overwrites an earlier one. */
  function ToMap(entries: seq<ScoreEntry>): (m: map<string, real>)
    ensures m.Keys == set e | e in entries :: e.key
  {
    if entries == [] then map[]
    else
      var last := entries[|entries| - 1];
      var init := entries[..|entries| - 1];
      assert forall e :: e in entries <==> e in init || e == last;
      ToMap(init)[last.key := last.score]
  }

  /** Lower-casing keeps the seven labels apart, so the dictionary has seven keys. */
  lemma {:induction false} LowerLabelsDistinct()
    ensures forall i, j :: 0 <= i < j < |Labels| ==> Lower(Labels[i]) != Lower(Labels[j])
  {
    forall i, j | 0 <= i < j < |Labels|
      ensures Lower(Labels[i]) != Lower(Labels[j])
    {
      var a, b := Lower(Labels[i]), Lower(Labels[j]);
      if |Labels[i]| == |Labels[j]| {
        // Only Angry/Happy and Disgust/Neutral share a length; their initials differ.
        assert Labels[i][0] != Labels[j][0];
        assert a[0] != b[0];
      }
    }
  }

  /** In a dict item list every item is found again under its own key. */
  lemma {:induction false} ToMapLookup(entries: seq<ScoreEntry>, k: int)
    requires DistinctKeys(entries)
    requires 0 <= k < |entries|
    ensures entries[k].key in ToMap(entries)
    ensures ToMap(entries)[entries[k].key] == entries[k].score
    decreases |entries|
  {
    var n := |entries|;
    if k < n - 1 {
      var init := entries[..n - 1];
      assert init[k] == entries[k];
      ToMapLookup(init, k);
      assert entries[n - 1].key != entries[k].key;
    }
  }
}
