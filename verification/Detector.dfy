/** From class scores to the one detection a chunk acts on.

    The program ranks the top 20 classes into a zero-padded table, reads it until
    a score falls below the lowest near-miss threshold, and takes the first row
    that passes every test.  `DirectSearch` has none of those shortcuts. */
module Detector {
  import opened Util
  import opened Sources

  const TOP: nat := 20
  const FLOOR := 0.01
  const NEAR_MISS := 0.2

  datatype Row = Row(classId: int, score: real)
  datatype Detection = Detection(sound: string, score: real)

  /** What `argpartition` followed by `argsort` may return: 20 distinct classes, best
      first, none of the others scoring higher.  Ties may fall either way. */
  ghost predicate ValidRanking(scores: seq<real>, ids: seq<nat>) {
    && |ids| == TOP && NoDuplicates(ids)
    && (forall i :: 0 <= i < |ids| ==> ids[i] < |scores|)
    && (forall i, j :: 0 <= i < j < |ids| ==> scores[ids[i]] >= scores[ids[j]])
    && (forall c, i :: 0 <= c < |scores| && c !in ids && 0 <= i < |ids| ==> scores[c] <= scores[ids[i]])
  }

  ghost predicate Labelled(labels: map<int, string>, scores: seq<real>) {
    forall c :: 0 <= c < |scores| ==> c in labels
  }

  // -- the table --------------------------------------------------------------

  function TableRow(scores: seq<real>, c: nat): (row: Row)
    requires c < |scores|
    ensures 0 <= row.classId < |scores|
  {
    if scores[c] > 0.0 then Row(c, scores[c]) else Row(0, 0.0)
  }

  ghost function Table(scores: seq<real>, ids: seq<nat>): (rows: seq<Row>)
    requires ValidRanking(scores, ids)
    ensures |rows| == TOP && forall i :: 0 <= i < TOP ==> rows[i] == TableRow(scores, ids[i])
  {
    seq(TOP, i requires 0 <= i < TOP => TableRow(scores, ids[i]))
  }

  /** `_detect_raw`: keep the classes with a positive score, write them to the top
      of a zeroed 20-row table. */
  method DetectRaw(scores: seq<real>, ids: seq<nat>) returns (rows: seq<Row>)
    requires ValidRanking(scores, ids)
    ensures rows == Table(scores, ids)
  {
    var positive: seq<nat> := [];
    for k := 0 to |ids|
      invariant |positive| <= k
      invariant forall i :: 0 <= i < |positive| ==> positive[i] == ids[i] && scores[ids[i]] > 0.0
      invariant forall i :: |positive| <= i < k ==> scores[ids[i]] <= 0.0
    {
      assert |positive| < k ==> scores[ids[|positive|]] >= scores[ids[k]];
      if scores[ids[k]] > 0.0 { positive := positive + [ids[k]]; }
    }
    var detections := new Row[TOP](_ => Row(0, 0.0));
    for i := 0 to |positive|
      invariant forall j :: 0 <= j < i ==> detections[j] == Row(positive[j], scores[positive[j]])
      invariant forall j :: i <= j < TOP ==> detections[j] == Row(0, 0.0)
    {
      detections[i] := Row(positive[i], scores[positive[i]]);
    }
    rows := detections[..];
  }

  function Reported(labels: map<int, string>, rows: seq<Row>, threshold: real): seq<Detection>
    requires forall i :: 0 <= i < |rows| ==> rows[i].classId in labels
  {
    if rows == [] || rows[0].score < threshold then []
    else [Detection(labels[rows[0].classId], rows[0].score)] + Reported(labels, rows[1..], threshold)
  }

  lemma {:induction false} ReportedPrefix(labels: map<int, string>, rows: seq<Row>, threshold: real, n: nat)
    requires n <= |rows| && forall i :: 0 <= i < |rows| ==> rows[i].classId in labels
    requires forall i :: 0 <= i < n ==> rows[i].score >= threshold
    requires n < |rows| ==> rows[n].score < threshold
    ensures |Reported(labels, rows, threshold)| == n
    ensures forall i :: 0 <= i < n ==>
      Reported(labels, rows, threshold)[i] == Detection(labels[rows[i].classId], rows[i].score)
  {
    if n > 0 { ReportedPrefix(labels, rows[1..], threshold, n - 1); }
  }

  /** `detect`: report rows from the top, stopping at the first score below the threshold. */
  method Detect(labels: map<int, string>, scores: seq<real>, ids: seq<nat>, threshold: real)
    returns (detections: seq<Detection>)
    requires ValidRanking(scores, ids) && Labelled(labels, scores)
    ensures detections == Reported(labels, Table(scores, ids), threshold)
    ensures forall i :: 0 <= i < |detections| ==> detections[i].score >= threshold
  {
    var raw := DetectRaw(scores, ids);
    assert raw == Table(scores, ids);
    detections := [];
    var i := 0;
    while i < |raw|
      invariant 0 <= i <= |raw| && |detections| == i
      invariant forall j :: 0 <= j < i ==>
        raw[j].score >= threshold && detections[j] == Detection(labels[raw[j].classId], raw[j].score)
    {
      if raw[i].score < threshold {
        break;
      }
      detections := detections + [Detection(labels[raw[i].classId], raw[i].score)];
      i := i + 1;
    }
    ReportedPrefix(labels, raw, threshold, i);
  }

  // -- the selection -----------------------------------------------------------

  predicate Compatible(src: SourceConfig, active: Option<string>, sound: string) {
    sound in src.listen && (active.None? || active.value == sound)
  }

  predicate Passes(src: SourceConfig, active: Option<string>, d: Detection) {
    Compatible(src, active, d.sound) && d.score >= src.DetectionThresholdFor(d.sound)
  }

  /** The first reported detection that passes. */
  function Select(src: SourceConfig, active: Option<string>, detections: seq<Detection>): Option<Detection> {
    if detections == [] then None
    else if Passes(src, active, detections[0]) then Some(detections[0])
    else Select(src, active, detections[1..])
  }

  function NearMissFloor(src: SourceConfig, sound: string): real {
    MaxReal(FLOOR, src.DetectionThresholdFor(sound) - NEAR_MISS)
  }

  function LowestFloor(src: SourceConfig, listen: seq<string>): real
    requires listen != []
  {
    if |listen| == 1 then NearMissFloor(src, listen[0])
    else
      var rest := LowestFloor(src, listen[1..]);
      if NearMissFloor(src, listen[0]) <= rest then NearMissFloor(src, listen[0]) else rest
  }

  /** The classifier cut-off of one chunk. */
  function MinThreshold(src: SourceConfig): real {
    if src.listen == [] then 1.0 else LowestFloor(src, src.listen)
  }

  lemma {:induction false} LowestFloorIsMinimum(src: SourceConfig, listen: seq<string>)
    requires listen != []
    ensures forall sound :: sound in listen ==> LowestFloor(src, listen) <= NearMissFloor(src, sound)
    ensures exists sound :: sound in listen && LowestFloor(src, listen) == NearMissFloor(src, sound)
  {
    if |listen| == 1 {
      assert listen[0] in listen;
    } else {
      LowestFloorIsMinimum(src, listen[1..]);
      assert listen == [listen[0]] + listen[1..];
      if LowestFloor(src, listen) == NearMissFloor(src, listen[0]) { assert listen[0] in listen; }
    }
  }

  /** The direct search: the best-ranked of the top 20 classes, from rank `k` on, whose
      score is positive and whose label is listened for, compatible with the
      capture in progress, and at its own detection threshold. */
  ghost function DirectSearch(
    src: SourceConfig, active: Option<string>, labels: map<int, string>,
    scores: seq<real>, ids: seq<nat>, k: nat): Option<Detection>
    requires ValidRanking(scores, ids) && Labelled(labels, scores) && k <= TOP
    decreases TOP - k
  {
    if k == TOP then None
    else if scores[ids[k]] > 0.0 && Passes(src, active, Detection(labels[ids[k]], scores[ids[k]])) then
      Some(Detection(labels[ids[k]], scores[ids[k]]))
    else DirectSearch(src, active, labels, scores, ids, k + 1)
  }

  /** What the program picks from one chunk's class scores. */
  ghost function Pick(
    src: SourceConfig, active: Option<string>, labels: map<int, string>,
    scores: seq<real>, ids: seq<nat>): Option<Detection>
    requires ValidRanking(scores, ids) && Labelled(labels, scores)
  {
    Select(src, active, Reported(labels, Table(scores, ids), MinThreshold(src)))
  }

  ghost predicate NoneBelowFloor(src: SourceConfig, labels: map<int, string>, classes: nat) {
    forall c :: 0 <= c < classes && c in labels && labels[c] in src.listen ==>
      src.DetectionThresholdFor(labels[c]) >= 0.01
  }

  lemma {:induction false} PickFrom(
    src: SourceConfig, active: Option<string>, labels: map<int, string>,
    scores: seq<real>, ids: seq<nat>, k: nat)
    requires ValidRanking(scores, ids) && Labelled(labels, scores) && k <= TOP
    requires NoneBelowFloor(src, labels, |scores|)
    ensures Select(src, active, Reported(labels, Table(scores, ids)[k..], MinThreshold(src))) ==
            DirectSearch(src, active, labels, scores, ids, k)
    decreases TOP - k
  {
    if k < TOP {
      var rows, cut := Table(scores, ids), MinThreshold(src);
      assert rows[k..][0] == rows[k] && rows[k..][1..] == rows[k + 1..];
      if rows[k].score < cut {
        NothingBelowCut(src, active, labels, scores, ids, k);
      } else {
        CutIsPositive(src);
        PickFrom(src, active, labels, scores, ids, k + 1);
      }
    }
  }

  lemma CutIsPositive(src: SourceConfig)
    ensures MinThreshold(src) >= FLOOR
    ensures forall sound :: sound in src.listen && src.DetectionThresholdFor(sound) >= FLOOR ==>
      MinThreshold(src) <= src.DetectionThresholdFor(sound)
  {
    if src.listen != [] { LowestFloorIsMinimum(src, src.listen); }
  }

  /** Below the cut-off no row can pass, and scores only fall further down the ranking. */
  lemma {:induction false} NothingBelowCut(
    src: SourceConfig, active: Option<string>, labels: map<int, string>,
    scores: seq<real>, ids: seq<nat>, k: nat)
    requires ValidRanking(scores, ids) && Labelled(labels, scores) && k <= TOP
    requires NoneBelowFloor(src, labels, |scores|)
    requires k < TOP ==> scores[ids[k]] < MinThreshold(src)
    ensures DirectSearch(src, active, labels, scores, ids, k) == None
    decreases TOP - k
  {
    if k < TOP {
      CutIsPositive(src);
      if k + 1 < TOP { assert scores[ids[k]] >= scores[ids[k + 1]]; }
      NothingBelowCut(src, active, labels, scores, ids, k + 1);
    }
  }

  /** The shortcuts never change the pick, whatever the scores and the capture in
      progress, exactly when every listened label of the model has a detection
      threshold of at least 0.01.  (Validation only demands a positive one.) */
  lemma PickIsDirectSearchIff(src: SourceConfig, labels: map<int, string>, classes: nat)
    requires src.Valid() && classes > TOP
    requires forall c :: 0 <= c < classes ==> c in labels
    ensures
      (forall active, scores, ids | |scores| == classes && ValidRanking(scores, ids) ::
         Pick(src, active, labels, scores, ids) == DirectSearch(src, active, labels, scores, ids, 0))
      <==> NoneBelowFloor(src, labels, classes)
  {
    if NoneBelowFloor(src, labels, classes) {
      forall active, scores, ids | |scores| == classes && ValidRanking(scores, ids)
        ensures Pick(src, active, labels, scores, ids) == DirectSearch(src, active, labels, scores, ids, 0)
      {
        PickFrom(src, active, labels, scores, ids, 0);
        assert Table(scores, ids)[0..] == Table(scores, ids);
      }
    } else {
      var c :| 0 <= c < classes && labels[c] in src.listen && src.DetectionThresholdFor(labels[c]) < 0.01;
      var scores, ids := FaintScores(src, labels, classes, c);
      assert Pick(src, None, labels, scores, ids) != DirectSearch(src, None, labels, scores, ids, 0);
    }
  }

  /** Scores on which a label with a threshold under 0.01 is missed: its class alone
      scores, exactly at the threshold. */
  lemma FaintScores(src: SourceConfig, labels: map<int, string>, classes: nat, c: nat)
    returns (scores: seq<real>, ids: seq<nat>)
    requires src.Valid() && classes > TOP && c < classes
    requires forall k :: 0 <= k < classes ==> k in labels
    requires labels[c] in src.listen && src.DetectionThresholdFor(labels[c]) < 0.01
    ensures |scores| == classes && ValidRanking(scores, ids)
    ensures Pick(src, None, labels, scores, ids) == None
    ensures DirectSearch(src, None, labels, scores, ids, 0) ==
      Some(Detection(labels[c], src.DetectionThresholdFor(labels[c])))
  {
    var d := src.DetectionThresholdFor(labels[c]);
    scores := seq(classes, k => if k == c then d else 0.0);
    ids := seq(TOP, k requires 0 <= k < TOP => if k == 0 then c else if k == c then 0 else k);
    assert ids[0] == c && scores[c] == d > 0.0;
    CutIsPositive(src);
    assert Table(scores, ids)[0].score < MinThreshold(src);
  }

  /** Scores on which a listened label is heard as loud as can be. */
  lemma LoudScores(src: SourceConfig, labels: map<int, string>, classes: nat, c: nat)
    returns (scores: seq<real>, ids: seq<nat>)
    requires src.Valid() && classes > TOP && c < classes && forall k :: 0 <= k < classes ==> k in labels
    requires labels[c] in src.listen
    ensures |scores| == classes && ValidRanking(scores, ids) && Labelled(labels, scores)
    ensures Pick(src, None, labels, scores, ids) == Some(Detection(labels[c], 1.0))
  {
    scores := seq(classes, k => if k == c then 1.0 else 0.0);
    ids := seq(TOP, k requires 0 <= k < TOP => if k == 0 then c else if k == c then 0 else k);
    assert ids[0] == c && scores[c] == 1.0;
    LowestFloorIsMinimum(src, src.listen);
    assert src.DetectionThresholdFor(labels[c]) <= 1.0;
    assert Table(scores, ids)[0] == Row(c, 1.0);
  }

  // -- what the pick means over all classes ------------------------------------------

  ghost predicate Qualifies(
    src: SourceConfig, active: Option<string>, labels: map<int, string>, scores: seq<real>, c: int)
    requires Labelled(labels, scores)
  {
    0 <= c < |scores| && scores[c] > 0.0 && Passes(src, active, Detection(labels[c], scores[c]))
  }

  lemma {:induction false} DirectSearchIsBest(
    src: SourceConfig, active: Option<string>, labels: map<int, string>,
    scores: seq<real>, ids: seq<nat>, k: nat)
    returns (rank: nat)
    requires ValidRanking(scores, ids) && Labelled(labels, scores) && k <= TOP
    ensures var r := DirectSearch(src, active, labels, scores, ids, k);
      && k <= rank <= TOP && (r.Some? <==> rank < TOP)
      && (rank < TOP ==> Qualifies(src, active, labels, scores, ids[rank]))
      && (rank < TOP ==> r == Some(Detection(labels[ids[rank]], scores[ids[rank]])))
      && forall i :: k <= i < rank ==> !Qualifies(src, active, labels, scores, ids[i])
    decreases TOP - k
  {
    rank := k;
    if k < TOP && !Qualifies(src, active, labels, scores, ids[k]) {
      rank := DirectSearchIsBest(src, active, labels, scores, ids, k + 1);
    }
  }

  /** A pick has the highest score of every class that qualifies, in the top 20 or
      not; without a pick, 20 other classes outrank each class that qualifies.
      A padding row is never picked. */
  lemma PickIsBestOfAllClasses(
    src: SourceConfig, active: Option<string>, labels: map<int, string>, scores: seq<real>, ids: seq<nat>)
    requires ValidRanking(scores, ids) && Labelled(labels, scores)
    requires NoneBelowFloor(src, labels, |scores|)
    ensures var r := Pick(src, active, labels, scores, ids);
      && (r.Some? ==>
            (exists c :: Qualifies(src, active, labels, scores, c) && r.value == Detection(labels[c], scores[c])) &&
            forall c :: Qualifies(src, active, labels, scores, c) ==> scores[c] <= r.value.score)
      && (r.None? ==> forall c, i :: Qualifies(src, active, labels, scores, c) && 0 <= i < TOP ==>
            ids[i] != c && scores[c] <= scores[ids[i]])
  {
    PickFrom(src, active, labels, scores, ids, 0);
    assert Table(scores, ids)[0..] == Table(scores, ids);
    var rank := DirectSearchIsBest(src, active, labels, scores, ids, 0);
    forall c | Qualifies(src, active, labels, scores, c) && rank < TOP
      ensures scores[c] <= scores[ids[rank]]
    {
      if c in ids {
        var i :| 0 <= i < |ids| && ids[i] == c;
        assert i >= rank;
      }
    }
    if rank < TOP { assert Qualifies(src, active, labels, scores, ids[rank]); }
  }
}
