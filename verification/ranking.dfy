/**
 The order in which the overlay lists the score dictionary:
 `sorted(scores.items(), key=lambda x: x[1], reverse=True)[:3]` (app.py).

 Python's sort is stable, also with `reverse=True`: items with equal scores
 keep their dictionary order. The sort is modelled on item positions, so
 that the tie-break can be stated: position `i` comes before position `j`
 when it scores more, or scores the same and stood earlier.
 */
module Ranking {
  import opened Emotions

  /** How many items the overlay shows at most: the `[:3]` slice. */
  const ShownItems := 3

  function Min(a: int, b: int): int {
    if a <= b then a else b
  }

  /** Position `i` of `s` is listed before position `j`. */
  predicate Precedes(s: seq<ScoreEntry>, i: nat, j: nat)
    requires i < |s| && j < |s|
  {
    s[i].score > s[j].score || (s[i].score == s[j].score && i < j)
  }

  /** `t` lists positions of `s`, each before every later one (so none twice). */
  ghost predicate Ranked(s: seq<ScoreEntry>, t: seq<nat>) {
    && (forall k :: 0 <= k < |t| ==> t[k] < |s|)
    && (forall a, b :: 0 <= a < b < |t| ==> Precedes(s, t[a], t[b]))
  }

  /** `t` lists every position of `s`, in the order the stable descending sort gives. */
  ghost predicate IsRanking(s: seq<ScoreEntry>, t: seq<nat>) {
    && Ranked(s, t)
    && |t| == |s|
    && (forall k: nat :: k < |s| ==> k in t)
  }

  /** Insert position `i`, later than every position already in `t`, at its place. */
  function Insert(s: seq<ScoreEntry>, i: nat, t: seq<nat>): (r: seq<nat>)
    requires i < |s|
    requires Ranked(s, t)
    requires forall k :: 0 <= k < |t| ==> t[k] < i
    ensures |r| == |t| + 1
    ensures forall k: nat :: k in r <==> k == i || k in t
    ensures Ranked(s, r)
    decreases |t|
  {
    if t == [] then [i]
    else if Precedes(s, t[0], i) then
      var rest := Insert(s, i, t[1..]);
      assert forall k: nat :: k in t <==> k == t[0] || k in t[1..];
      assert forall b :: 0 <= b < |rest| ==> Precedes(s, t[0], rest[b]) by {
        forall b | 0 <= b < |rest| ensures Precedes(s, t[0], rest[b]) {
          assert rest[b] in rest;
          if rest[b] != i {
            var c :| 0 <= c < |t[1..]| && t[1..][c] == rest[b];
            assert t[c + 1] == rest[b];
          }
        }
      }
      [t[0]] + rest
    else
      // Precedes is total on distinct positions and transitive, so `i` leads.
      assert forall b :: 0 <= b < |t| ==> Precedes(s, i, t[b]) by {
        forall b | 0 <= b < |t| ensures Precedes(s, i, t[b]) {
          if b > 0 {
            assert Precedes(s, t[0], t[b]);
          }
        }
      }
      [i] + t
  }

  /** The stable descending sort of the first `n` positions of `s`. */
  function RankPrefix(s: seq<ScoreEntry>, n: nat): (r: seq<nat>)
    requires n <= |s|
    ensures |r| == n
    ensures Ranked(s, r)
    ensures forall k: nat :: k in r <==> k < n
    decreases n
  {
    if n == 0 then []
    else
      var t := RankPrefix(s, n - 1);
      assert forall k :: 0 <= k < |t| ==> t[k] < n - 1 by {
        forall k | 0 <= k < |t| ensures t[k] < n - 1 {
          assert t[k] in t;
        }
      }
      Insert(s, n - 1, t)
  }

  /** The positions of `s` in the order `sorted(..., reverse=True)` lists them. */
  function Rank(s: seq<ScoreEntry>): (r: seq<nat>)
    ensures IsRanking(s, r)
  {
    RankPrefix(s, |s|)
  }

  /** Two rankings that list the same positions are the same sequence. */
  lemma {:induction false} RankedUnique(s: seq<ScoreEntry>, t: seq<nat>, u: seq<nat>)
    requires Ranked(s, t) && Ranked(s, u)
    requires |t| == |u|
    requires forall k: nat :: k in t <==> k in u
    ensures t == u
    decreases |t|
  {
    if |t| > 0 {
      // Each head precedes every other listed position, so the heads agree.
      assert t[0] in u && u[0] in t;
      assert t[0] == u[0] || Precedes(s, u[0], t[0]);
      assert u[0] == t[0] || Precedes(s, t[0], u[0]);
      forall c | 0 <= c < |t[1..]| ensures t[1..][c] != t[0] {
        assert Precedes(s, t[0], t[c + 1]);
      }
      forall c | 0 <= c < |u[1..]| ensures u[1..][c] != u[0] {
        assert Precedes(s, u[0], u[c + 1]);
      }
      assert t[0] !in t[1..] && u[0] !in u[1..];
      forall k: nat ensures k in t[1..] <==> k in u[1..] {
        assert k in t <==> k == t[0] || k in t[1..];
        assert k in u <==> k == u[0] || k in u[1..];
      }
      RankedUnique(s, t[1..], u[1..]);
    }
  }

  /** Any sequence that lists every position in the stable descending order is `Rank(s)`. */
  lemma {:induction false} RankUnique(s: seq<ScoreEntry>, t: seq<nat>)
    requires IsRanking(s, t)
    ensures t == Rank(s)
  {
    var r := Rank(s);
    forall k: nat ensures k in t <==> k in r {
      if k in t {
        var c :| 0 <= c < |t| && t[c] == k;
      }
      if k in r {
        var c :| 0 <= c < |r| && r[c] == k;
      }
    }
    RankedUnique(s, t, r);
  }

  /**
   The positions of the at most three items the overlay shows: they come in
   the stable descending order, and every position left out is listed after
   every one shown.
   */
  function TopIndices(s: seq<ScoreEntry>): (r: seq<nat>)
    ensures |r| == Min(ShownItems, |s|)
    ensures Ranked(s, r)
    ensures forall j: nat :: j < |s| && j !in r ==>
      forall k :: 0 <= k < |r| ==> Precedes(s, r[k], j)
  {
    var t := Rank(s);
    var r := t[..Min(ShownItems, |s|)];
    assert forall j: nat :: j < |s| && j !in r ==>
      forall k :: 0 <= k < |r| ==> Precedes(s, r[k], j) by {
      forall j: nat, k | j < |s| && j !in r && 0 <= k < |r|
        ensures Precedes(s, r[k], j)
      {
        assert j in t;
        var c :| 0 <= c < |t| && t[c] == j;
        assert c >= |r|;
      }
    }
    r
  }

  /** The items the overlay shows, in the order it draws them. */
  function TopScores(s: seq<ScoreEntry>): (r: seq<ScoreEntry>)
    ensures |r| == Min(ShownItems, |s|)
    ensures forall k :: 0 <= k < |r| ==> r[k] == s[TopIndices(s)[k]]
  {
    var idx := TopIndices(s);
    seq(|idx|, k requires 0 <= k < |idx| => s[idx[k]])
  }

  /**
   In score terms: the shown items are items of the dictionary, with
   non-increasing scores; no item left out scores more than one shown, and
   among equal scores an item left out stood later than every one shown.
   */
  lemma {:induction false} TopScoresOrder(s: seq<ScoreEntry>)
    ensures var r := TopScores(s);
      && (forall k :: 0 <= k < |r| ==> r[k] in s)
      && (forall a, b :: 0 <= a < b < |r| ==> r[a].score >= r[b].score)
      && (forall j: nat :: j < |s| && j !in TopIndices(s) ==>
            forall k :: 0 <= k < |r| ==> s[j].score <= r[k].score)
  {
    var r := TopScores(s);
    var idx := TopIndices(s);
    forall k | 0 <= k < |r| ensures r[k] in s {
      assert r[k] == s[idx[k]];
    }
    forall a, b | 0 <= a < b < |r| ensures r[a].score >= r[b].score {
      assert Precedes(s, idx[a], idx[b]);
    }
  }
}
