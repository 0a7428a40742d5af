/** What one chunk does to a worker's captures, with every test of the program spelled out: the
    volume gate, the score, the listened labels, the capture in progress, the threshold. */
module WorkerRules {
  import opened Util
  import opened AudioFormat
  import opened Sources
  import opened Detector
  import opened Snippet
  import opened WorkerSpec
  import SnippetFacts

  /** The class of rank `i` may be heard: its score is at least 0.01, its label is listened for, is
      that of the capture in progress if there is one, and is met in its threshold. */
  ghost predicate Meets(src: SourceConfig, active: Option<string>, labels: map<int, string>,
                        scores: seq<real>, ids: seq<nat>, i: int)
    requires ValidRanking(scores, ids) && Labelled(labels, scores) && 0 <= i < 20
  {
    && scores[ids[i]] >= 0.01 && labels[ids[i]] in src.listen
    && (active.None? || active.value == labels[ids[i]])
    && scores[ids[i]] >= src.DetectionThresholdFor(labels[ids[i]])
  }

  /** The class of rank `i` is the first of the top 20 that may be heard. */
  ghost predicate PicksAt(src: SourceConfig, active: Option<string>, labels: map<int, string>,
                          scores: seq<real>, ids: seq<nat>, i: int)
    requires ValidRanking(scores, ids) && Labelled(labels, scores)
  {
    && 0 <= i < 20 && Meets(src, active, labels, scores, ids, i)
    && forall j :: 0 <= j < i ==> !Meets(src, active, labels, scores, ids, j)
  }

  /** The first of the top 20 classes that may be heard is picked, whatever the thresholds; nothing
      is picked exactly when there is none. */
  lemma PickIff(src: SourceConfig, active: Option<string>, labels: map<int, string>, scores: seq<real>, ids: seq<nat>)
    requires ValidRanking(scores, ids) && Labelled(labels, scores)
    ensures Pick(src, active, labels, scores, ids).None? <==>
      forall i :: 0 <= i < 20 ==> !Meets(src, active, labels, scores, ids, i)
    ensures Pick(src, active, labels, scores, ids).Some? ==>
      exists i :: PicksAt(src, active, labels, scores, ids, i) &&
        Pick(src, active, labels, scores, ids) == Some(Detection(labels[ids[i]], scores[ids[i]]))
  {
    assert Table(scores, ids)[0..] == Table(scores, ids);
    var rank := PickRank(src, active, labels, scores, ids, 0);
    if rank < 20 { assert PicksAt(src, active, labels, scores, ids, rank); }
  }

  lemma {:induction false} PickRank(src: SourceConfig, active: Option<string>, labels: map<int, string>,
                                    scores: seq<real>, ids: seq<nat>, k: nat) returns (rank: nat)
    requires ValidRanking(scores, ids) && Labelled(labels, scores) && k <= 20
    ensures k <= rank <= 20 && forall i :: k <= i < rank ==> !Meets(src, active, labels, scores, ids, i)
    ensures var d := Select(src, active, Reported(labels, Table(scores, ids)[k..], MinThreshold(src)));
      if rank == 20 then d.None?
      else Meets(src, active, labels, scores, ids, rank) && d == Some(Detection(labels[ids[rank]], scores[ids[rank]]))
    decreases 20 - k
  {
    rank := 20;
    if k < 20 {
      var rows := Table(scores, ids);
      assert rows[k..][0] == rows[k] && rows[k..][1..] == rows[k + 1..];
      CutAllows(src);
      if rows[k].score < MinThreshold(src) {
        NoneUnderCut(src, active, labels, scores, ids, k);
      } else if Meets(src, active, labels, scores, ids, k) {
        rank := k;
      } else {
        rank := PickRank(src, active, labels, scores, ids, k + 1);
      }
    }
  }

  /** Below the cut-off no class may be heard, and scores only fall further down the ranking. */
  lemma NoneUnderCut(src: SourceConfig, active: Option<string>, labels: map<int, string>,
                     scores: seq<real>, ids: seq<nat>, k: nat)
    requires ValidRanking(scores, ids) && Labelled(labels, scores) && k < 20
    requires scores[ids[k]] < MinThreshold(src)
    ensures forall i :: k <= i < 20 ==> !Meets(src, active, labels, scores, ids, i)
  {
    CutAllows(src);
    forall i | k <= i < 20 ensures !Meets(src, active, labels, scores, ids, i) {
      assert scores[ids[i]] <= scores[ids[k]];
    }
  }

  /** The cut-off is at least 0.01, and no higher than that and each listened label's threshold. */
  lemma CutAllows(src: SourceConfig)
    ensures MinThreshold(src) >= 0.01
    ensures forall sound :: sound in src.listen ==>
      MinThreshold(src) <= MaxReal(0.01, src.DetectionThresholdFor(sound))
  {
    if src.listen != [] { LowestFloorIsMinimum(src, src.listen); }
  }

  /** The label being captured after some chunks. */
  ghost function Capturing(s: Setup, gs: seq<Group>, n: nat): Option<string> {
    if gs != [] && n < Last(gs).Close(s.post) then Some(Last(gs).first.sound) else None
  }

  /** The chunk is loud enough, and its class of rank `i` is the one heard. */
  ghost predicate HeardAt(src: SourceConfig, labels: map<int, string>, capturing: Option<string>, c: Input, i: int)
    requires ValidInput(labels, c)
  {
    c.rms >= src.minVolume && PicksAt(src, capturing, labels, c.scores, c.ids, i)
  }

  /** The triggers and notes of one heard class. */
  function HeardTrig(n: nat, labels: map<int, string>, c: Input, i: nat): Trig
    requires i < |c.ids| && c.ids[i] in labels && c.ids[i] < |c.scores|
  {
    Trig(n, labels[c.ids[i]], c.scores[c.ids[i]], c.heardAt, c.mintedId)
  }

  lemma GroupsBefore(s: Setup, src: SourceConfig, labels: map<int, string>, inputs: seq<Input>)
    requires s.Valid() && forall j :: j in inputs ==> ValidInput(labels, j)
    ensures var before := WorkerOps(s, src, labels, inputs);
      && |History(before)| == |inputs|
      && RunOps(s, before).rec.ActiveLabel() == Capturing(s, Groups(s.post, before), |inputs|)
  {
    WorkerGroupsFaithful(s, src, labels, inputs);
    ChunksLength(inputs);
    ActiveLabelOf(s, WorkerOps(s, src, labels, inputs));
  }

  lemma OneMoreChunk(s: Setup, src: SourceConfig, labels: map<int, string>, inputs: seq<Input>, c: Input)
    requires s.Valid() && ValidInput(labels, c) && forall j :: j in inputs ==> ValidInput(labels, j)
    ensures var before := WorkerOps(s, src, labels, inputs);
      WorkerOps(s, src, labels, inputs + [c]) ==
        before + StepOps(src, labels, Capturing(s, Groups(s.post, before), |inputs|), c)
  {
    GroupsBefore(s, src, labels, inputs);
    assert Front(inputs + [c]) == inputs;
  }

  lemma PickedIsHeard(src: SourceConfig, labels: map<int, string>, capturing: Option<string>, c: Input)
    requires ValidInput(labels, c)
    ensures Picked(src, labels, capturing, c).Some? ==> exists i :: HeardAt(src, labels, capturing, c, i)
  {
    PickIff(src, capturing, labels, c.scores, c.ids);
    if Picked(src, labels, capturing, c).Some? {
      var i :| PicksAt(src, capturing, labels, c.scores, c.ids, i);
      assert HeardAt(src, labels, capturing, c, i);
    }
  }

  /** A chunk on which nothing is heard leaves the captures as they are. */
  lemma UnheardChunk(s: Setup, src: SourceConfig, labels: map<int, string>, inputs: seq<Input>, c: Input,
                     gs: seq<Group>)
    requires s.Valid() && ValidInput(labels, c) && forall j :: j in inputs ==> ValidInput(labels, j)
    requires gs == Groups(s.post, WorkerOps(s, src, labels, inputs))
    requires !exists i :: HeardAt(src, labels, Capturing(s, gs, |inputs|), c, i)
    ensures Groups(s.post, WorkerOps(s, src, labels, inputs + [c])) == gs
  {
    OneMoreChunk(s, src, labels, inputs, c);
    PickedIsHeard(src, labels, Capturing(s, gs, |inputs|), c);
    QuietStep(s.post, WorkerOps(s, src, labels, inputs), c);
  }

  lemma OnePick(src: SourceConfig, active: Option<string>, labels: map<int, string>,
                scores: seq<real>, ids: seq<nat>, i: int, j: int)
    requires ValidRanking(scores, ids) && Labelled(labels, scores)
    requires PicksAt(src, active, labels, scores, ids, i) && PicksAt(src, active, labels, scores, ids, j)
    ensures i == j
  {
  }

  lemma PickedAt(src: SourceConfig, labels: map<int, string>, capturing: Option<string>, c: Input, i: nat)
    requires ValidInput(labels, c)
    requires HeardAt(src, labels, capturing, c, i)
    ensures Picked(src, labels, capturing, c) == Some(Detection(labels[c.ids[i]], c.scores[c.ids[i]]))
  {
    PickIff(src, capturing, labels, c.scores, c.ids);
    var j :| PicksAt(src, capturing, labels, c.scores, c.ids, j) &&
      Pick(src, capturing, labels, c.scores, c.ids) == Some(Detection(labels[c.ids[j]], c.scores[c.ids[j]]));
    OnePick(src, capturing, labels, c.scores, c.ids, i, j);
  }

  /** A chunk on which something is heard during a capture extends that capture: the chunk becomes
      its newest trigger, so it closes the post-roll length later, and its score counts for the
      peak; it is announced if the score meets the notify threshold. */
  lemma HeardChunkExtends(s: Setup, src: SourceConfig, labels: map<int, string>, inputs: seq<Input>, c: Input, i: nat)
    requires s.Valid() && ValidInput(labels, c) && forall j :: j in inputs ==> ValidInput(labels, j)
    requires var gs := Groups(s.post, WorkerOps(s, src, labels, inputs));
      && gs != [] && |inputs| < Last(gs).Close(s.post)
      && HeardAt(src, labels, Some(Last(gs).first.sound), c, i)
    ensures var gs := Groups(s.post, WorkerOps(s, src, labels, inputs));
      var gs' := Groups(s.post, WorkerOps(s, src, labels, inputs + [c]));
      var score := c.scores[c.ids[i]];
      && |gs'| == |gs| && Front(gs') == Front(gs)
      && Last(gs').first == Last(gs).first && Last(gs').rest == Last(gs).rest + [HeardTrig(|inputs|, labels, c, i)]
      && Last(gs').Newest().at == |inputs| && Last(gs').Close(s.post) == |inputs| + s.post
      && Last(gs').PeakScore() == (if score > Last(gs).PeakScore() then score else Last(gs).PeakScore())
      && Last(gs').notes == Last(gs).notes +
           if score >= src.NotifyThresholdFor(labels[c.ids[i]]) then [Note(score, c.notedAt)] else []
  {
    var before := WorkerOps(s, src, labels, inputs);
    var gs := Groups(s.post, before);
    GroupsBefore(s, src, labels, inputs);
    OneMoreChunk(s, src, labels, inputs, c);
    PickedAt(src, labels, Some(Last(gs).first.sound), c, i);
    StepGroups(s, src, before, Detection(labels[c.ids[i]], c.scores[c.ids[i]]), c);
    var t := HeardTrig(|inputs|, labels, c, i);
    assert Front(Last(gs).rest + [t]) == Last(gs).rest;
    assert Front(Front(gs) + [Grown(src, Last(gs), t, Note(t.score, c.notedAt))]) == Front(gs);
  }

  /** While nothing is captured, a chunk on which something is heard opens a capture with it. */
  lemma HeardChunkOpens(s: Setup, src: SourceConfig, labels: map<int, string>, inputs: seq<Input>, c: Input, i: nat)
    requires s.Valid() && ValidInput(labels, c) && forall j :: j in inputs ==> ValidInput(labels, j)
    requires var gs := Groups(s.post, WorkerOps(s, src, labels, inputs));
      (gs == [] || Last(gs).Close(s.post) <= |inputs|) && HeardAt(src, labels, None, c, i)
    ensures var score := c.scores[c.ids[i]];
      Groups(s.post, WorkerOps(s, src, labels, inputs + [c])) ==
        Groups(s.post, WorkerOps(s, src, labels, inputs)) +
        [Group(HeardTrig(|inputs|, labels, c, i), [],
               if score >= src.NotifyThresholdFor(labels[c.ids[i]]) then [Note(score, c.notedAt)] else [])]
  {
    var before := WorkerOps(s, src, labels, inputs);
    GroupsBefore(s, src, labels, inputs);
    OneMoreChunk(s, src, labels, inputs, c);
    PickedAt(src, labels, None, c, i);
    StepGroups(s, src, before, Detection(labels[c.ids[i]], c.scores[c.ids[i]]), c);
  }

  // -- a finished snippet, in the user's terms ------------------------------------------------------

  /** A saved snippet of a source's worker: named after source, label and second, at least as long
      before its first trigger as asked for (or from the start of the stream) and after its last,
      and described as it is. */
  lemma SnippetAsConfigured(src: SourceConfig, dir: string, ops: seq<Op>, clip: Clip) returns (i: nat)
    requires var s := MakeSetup(src.name, dir, src.preCapture, src.postCapture);
      clip in SnippetFacts.Clips(RunOps(s, ops).out) && clip.timestamp >= 0.0
    ensures var s := MakeSetup(src.name, dir, src.preCapture, src.postCapture);
      var gs, h, e := Groups(s.post, ops), History(ops), EventOf(s, clip);
      && i < |gs|
      && (exists lo, hi :: Covers(src, gs[i], lo, hi) && 0 <= lo <= hi <= |h| && clip.audio == h[lo..hi])
      && e.id == gs[i].first.id && e.source == src.name && e.sound == gs[i].first.sound
      && e.timestamp == gs[i].first.now && e.score == gs[i].PeakScore() && (e.notified <==> gs[i].notes != [])
      && e.duration == |clip.audio| as real * 0.975
      && e.file == (if dir == "" || dir[|dir| - 1] == '/' then dir else dir + "/") +
           (src.name + "_" + e.sound + "_" + Digits(e.timestamp.Floor) + ".wav")
  {
    var s := MakeSetup(src.name, dir, src.preCapture, src.postCapture);
    SnippetFacts.ChunksCoverRequest(src.preCapture);
    SnippetFacts.ChunksCoverRequest(src.postCapture);
    RecorderRefinesGroups(s, ops);
    SnippetFacts.FlatOutClips(s, History(ops), Groups(s.post, ops));
    i := SnippetFacts.ClipComesFromGroup(s, History(ops), Groups(s.post, ops), clip);
    var g := Groups(s.post, ops)[i];
    ChunksOfSeconds(g.first.at, s.pre, src.preCapture);
    assert Covers(src, g, g.Start(s.pre), g.Close(s.post));
    FilePath(s, clip);
  }

  /** From the asked-for time before the first trigger, or the start of the stream, to the asked-for
      time after the last. */
  ghost predicate Covers(src: SourceConfig, g: Group, lo: int, hi: int) {
    && 0 <= lo <= g.first.at && g.Newest().at < hi
    && (lo == 0 || (g.first.at - lo) as real * 0.975 >= src.preCapture)
    && (hi - g.Newest().at) as real * 0.975 >= src.postCapture
  }

  lemma ChunksOfSeconds(at: nat, pre: nat, seconds: real)
    requires pre as real * AUDIO_DURATION >= seconds
    ensures at > pre ==> (at - (at - pre)) as real * 0.975 >= seconds
  {
  }

  lemma FilePath(s: Setup, clip: Clip)
    requires clip.timestamp >= 0.0
    ensures EventOf(s, clip).file ==
      (if s.dir == "" || s.dir[|s.dir| - 1] == '/' then s.dir else s.dir + "/") +
      (s.source + "_" + clip.sound + "_" + Digits(clip.timestamp.Floor) + ".wav")
  {
  }
}
