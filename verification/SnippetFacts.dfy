/** What the grouping of trigger calls means for the saved files: how the
    windows lie in the stream, how long the audio is, and when two snippets can
    share a filename. */
module SnippetFacts {
  import opened Util
  import opened AudioFormat
  import opened Snippet

  // -- windows ---------------------------------------------------------------------

  function Triggers(ops: seq<Op>): seq<Trig> {
    if ops == [] then []
    else
      Triggers(Front(ops)) +
      match Last(ops)
      case Trigger(sound, score, now, id) => [Trig(|History(Front(ops))|, sound, score, now, id)]
      case _ => []
  }

  lemma Snoc(post: nat, ops: seq<Op>, op: Op)
    ensures History(ops + [op]) == Heard(History(ops), op)
    ensures Groups(post, ops + [op]) == GroupStep(post, |History(ops)|, Groups(post, ops), op)
    ensures Triggers(ops + [op]) == Triggers(ops) +
      match op
      case Trigger(sound, score, now, id) => [Trig(|History(ops)|, sound, score, now, id)]
      case _ => []
  {
    assert Front(ops + [op]) == ops;
  }

  /** The calls of one chunk that is heard, announced and fed. */
  function HeardChunk(t: Op, n: Op, c: Chunk): seq<Op> {
    [t] + [n] + [Feed(c)]
  }

  lemma HeardStep(post: nat, before: seq<Op>, t: Op, n: Op, c: Chunk)
    requires t.Trigger? && n.Notify?
    ensures var ops := before + HeardChunk(t, n, c);
      && History(ops) == History(before) + [c]
      && Groups(post, ops) ==
           GroupStep(post, |History(before)|, GroupStep(post, |History(before)|, Groups(post, before), t), n)
      && Triggers(ops) == Triggers(before) + [Trig(|History(before)|, t.sound, t.score, t.now, t.id)]
  {
    InTurn(before, t, n, Feed(c));
    Snoc(post, before, t);
    Snoc(post, before + [t], n);
    Snoc(post, before + [t] + [n], Feed(c));
  }

  lemma InTurn(before: seq<Op>, a: Op, b: Op, c: Op)
    ensures before + ([a] + [b] + [c]) == before + [a] + [b] + [c]
  {
    Associates(before, [a] + [b], [c]);
    Associates(before, [a], [b]);
  }

  function AllTrigs(gs: seq<Group>): seq<Trig> {
    if gs == [] then [] else AllTrigs(Front(gs)) + Last(gs).Trigs()
  }

  lemma AllTrigsSnoc(gs: seq<Group>, g: Group)
    ensures AllTrigs(gs + [g]) == AllTrigs(gs) + g.Trigs()
  {
    assert Front(gs + [g]) == gs;
  }

  /** Grouping loses no trigger call, invents none, and keeps their order. */
  lemma {:induction false} GroupsPartitionTriggers(post: nat, ops: seq<Op>)
    ensures AllTrigs(Groups(post, ops)) == Triggers(ops)
  {
    if ops != [] {
      var prev, n := Front(ops), |History(Front(ops))|;
      GroupsPartitionTriggers(post, prev);
      var gs := Groups(post, prev);
      if gs != [] {
        assert gs == Front(gs) + [Last(gs)];
        AllTrigsSnoc(Front(gs), Last(gs));
      }
      match Last(ops) {
        case Trigger(sound, score, now, id) =>
          var t := Trig(n, sound, score, now, id);
          if Live(post, n, gs) {
            var g := Last(gs).(rest := Last(gs).rest + [t]);
            AllTrigsSnoc(Front(gs), g);
            assert g.Trigs() == Last(gs).Trigs() + [t];
          } else {
            AllTrigsSnoc(gs, Group(t, [], []));
          }
        case Notify(_, score, now) =>
          if gs != [] {
            AllTrigsSnoc(Front(gs), Last(gs).(notes := Last(gs).notes + [Note(score, now)]));
          }
        case Feed(_) =>
      }
    }
  }

  lemma {:induction false} MemberOfAllTrigs(gs: seq<Group>, i: nat, t: Trig)
    requires i < |gs| && t in gs[i].Trigs()
    ensures t in AllTrigs(gs)
  {
    if i < |gs| - 1 { MemberOfAllTrigs(Front(gs), i, t); }
  }

  /** The post-roll window of a group: from its opening chunk to its last one. */
  predicate InWindow(post: nat, g: Group, chunk: nat) {
    g.first.at <= chunk < g.Close(post)
  }

  /** Windows of one recorder are disjoint and in order; a trigger lies in the
      window of its own group and of no other; a snippet reaches back over an
      earlier one by at most the pre-roll length. */
  lemma WindowsDisjoint(s: Setup, ops: seq<Op>)
    requires s.Valid()
    ensures var gs := Groups(s.post, ops);
      && (forall i, chunk | 0 <= i < |gs| && (exists t :: t in gs[i].Trigs() && t.at == chunk) ::
            InWindow(s.post, gs[i], chunk) &&
            forall j | 0 <= j < |gs| && j != i :: !InWindow(s.post, gs[j], chunk))
      && (forall i, j | 0 <= i < j < |gs| ::
            gs[i].Close(s.post) <= gs[j].first.at && gs[i].Close(s.post) <= gs[j].Start(s.pre) + s.pre)
  {
    GroupsShaped(s.post, ops);
    var gs, n := Groups(s.post, ops), |History(ops)|;
    forall i, t | 0 <= i < |gs| && t in gs[i].Trigs()
      ensures InWindow(s.post, gs[i], t.at)
    {
      assert Chained(s.post, n, gs[i]);
    }
  }

  /** Successive triggers inside one snippet are less than the post-roll apart. */
  lemma TriggersInOneSnippetAreClose(s: Setup, ops: seq<Op>, i: nat, j: nat)
    requires s.Valid() && i < |Groups(s.post, ops)|
    requires j + 1 < |Groups(s.post, ops)[i].Trigs()|
    ensures var trigs := Groups(s.post, ops)[i].Trigs();
      trigs[j].at <= trigs[j + 1].at < trigs[j].at + s.post
  {
    GroupsShaped(s.post, ops);
    var g := Groups(s.post, ops)[i];
    assert Chained(s.post, |History(ops)|, g);
    assert g.Trigs()[j] == g.Before(j) && g.Trigs()[j + 1] == g.rest[j];
  }

  // -- saved clips in order -------------------------------------------------------

  function Clips(out: seq<Out>): seq<Clip> {
    if out == [] then []
    else Clips(Front(out)) + if Last(out).Saved? then [Last(out).clip] else []
  }

  lemma {:induction false} ClipsConcat(a: seq<Out>, b: seq<Out>)
    ensures Clips(a + b) == Clips(a) + Clips(b)
  {
    if b == [] {
      assert a + b == a;
    } else {
      assert Front(a + b) == a + Front(b);
      ClipsConcat(a, Front(b));
    }
  }

  function GroupClips(s: Setup, h: seq<Chunk>, gs: seq<Group>): seq<Clip> {
    if gs == [] then []
    else
      var g := Last(gs);
      GroupClips(s, h, Front(gs)) +
      if g.Start(s.pre) <= g.Close(s.post) <= |h| then [GroupClip(s, h, g)] else []
  }

  lemma {:induction false} FlatOutClips(s: Setup, h: seq<Chunk>, gs: seq<Group>)
    ensures Clips(FlatOut(s, h, gs)) == GroupClips(s, h, gs)
  {
    if gs != [] {
      FlatOutClips(s, h, Front(gs));
      ClipsConcat(FlatOut(s, h, Front(gs)), GroupOut(s, h, Last(gs)));
      ClipsConcat(AlertOut(s, Last(gs)), SavedOut(s, h, Last(gs)));
      if AlertOut(s, Last(gs)) != [] { assert Front(AlertOut(s, Last(gs))) == []; }
    }
  }

  lemma {:induction false} ClipComesFromGroup(s: Setup, h: seq<Chunk>, gs: seq<Group>, c: Clip)
    returns (i: nat)
    requires c in GroupClips(s, h, gs)
    ensures i < |gs| && gs[i].Start(s.pre) <= gs[i].Close(s.post) <= |h|
    ensures c == GroupClip(s, h, gs[i])
  {
    if c in GroupClips(s, h, Front(gs)) {
      i := ClipComesFromGroup(s, h, Front(gs), c);
    } else {
      i := |gs| - 1;
    }
  }

  /** Every saved clip is one contiguous slice of the stream, from `pre` chunks
      before its first trigger to `post` chunks after its last. */
  lemma SnippetIsSlice(s: Setup, ops: seq<Op>, clip: Clip) returns (i: nat)
    requires s.Valid() && clip in Clips(RunOps(s, ops).out)
    ensures var gs, h := Groups(s.post, ops), History(ops);
      && i < |gs|
      && clip.id == gs[i].first.id && clip.sound == gs[i].first.sound
      && (var lo, hi := Max(gs[i].first.at - s.pre), gs[i].Newest().at + s.post;
          lo <= hi <= |h| && clip.audio == h[lo..hi])
  {
    RecorderRefinesGroups(s, ops);
    FlatOutClips(s, History(ops), Groups(s.post, ops));
    i := ClipComesFromGroup(s, History(ops), Groups(s.post, ops), clip);
  }

  function Max(n: int): nat { if n < 0 then 0 else n }

  // -- duration --------------------------------------------------------------------

  function Join(chunks: seq<Chunk>): seq<Byte> {
    if chunks == [] then [] else Join(Front(chunks)) + Last(chunks)
  }

  lemma {:induction false} JoinLength(chunks: seq<Chunk>)
    requires forall c :: c in chunks ==> |c| == CHUNK_BYTES
    ensures |Join(chunks)| == |chunks| * CHUNK_BYTES
  {
    if chunks != [] {
      JoinLength(Front(chunks));
      assert |chunks| * CHUNK_BYTES == |Front(chunks)| * CHUNK_BYTES + CHUNK_BYTES;
      assert |Join(chunks)| == |Join(Front(chunks))| + |Last(chunks)|;
    }
  }

  lemma {:induction false} HistoryChunks(ops: seq<Op>, c: Chunk)
    requires c in History(ops)
    ensures Feed(c) in ops
  {
    if c in History(Front(ops)) { HistoryChunks(Front(ops), c); }
  }

  /** The duration an event reports, in samples, is the number of 16-bit frames in its WAV file. */
  lemma DurationCountsFrames(s: Setup, ops: seq<Op>, clip: Clip)
    requires s.Valid() && clip in Clips(RunOps(s, ops).out)
    requires forall c :: Feed(c) in ops ==> |c| == CHUNK_BYTES
    ensures EventOf(s, clip).duration * AUDIO_SAMPLE_RATE as real == (|Join(clip.audio)| / 2) as real
    ensures |Join(clip.audio)| % 2 == 0
  {
    var i := SnippetIsSlice(s, ops, clip);
    forall c | c in clip.audio ensures |c| == CHUNK_BYTES {
      HistoryChunks(ops, c);
    }
    JoinLength(clip.audio);
    FrameArithmetic(|clip.audio|);
    assert EventOf(s, clip).duration == |clip.audio| as real * AUDIO_DURATION;
  }

  lemma FrameArithmetic(n: nat)
    ensures n as real * AUDIO_DURATION * AUDIO_SAMPLE_RATE as real == (n * CHUNK_BYTES / 2) as real
    ensures n * CHUNK_BYTES % 2 == 0
  {
    assert n * CHUNK_BYTES == 2 * (n * CHUNK_SAMPLES);
    assert n as real * AUDIO_DURATION * AUDIO_SAMPLE_RATE as real == n as real * CHUNK_SAMPLES as real;
  }

  /** Rounding up to whole chunks never records less than was asked for. */
  lemma ChunksCoverRequest(seconds: real)
    ensures ChunksFor(seconds) as real * AUDIO_DURATION >= seconds
    ensures ChunksFor(seconds) > 1 ==> (ChunksFor(seconds) - 1) as real * AUDIO_DURATION < seconds
    ensures ChunksFor(seconds) >= 1
  {
    var q := seconds / AUDIO_DURATION;
    assert seconds == q * AUDIO_DURATION;
    assert (Ceiling(q) - 1) as real == Ceiling(q) as real - 1.0;
  }

  // -- filenames ----------------------------------------------------------------------

  lemma UnderscoreSplit(a: string, b: string, d: string, e: string)
    requires a + "_" + d == b + "_" + e
    requires forall i :: 0 <= i < |d| ==> d[i] != '_'
    requires forall i :: 0 <= i < |e| ==> e[i] != '_'
    ensures d == e
  {
    var x, y := a + "_" + d, b + "_" + e;
    assert x[|a|] == '_' && y[|b|] == '_';
    assert forall i :: |a| < i < |x| ==> x[i] == d[i - |a| - 1];
    assert forall i :: |b| < i < |y| ==> y[i] == e[i - |b| - 1];
    assert |a| == |b|;
    assert x[|a| + 1..] == d && y[|b| + 1..] == e;
  }

  /** The filename determines the whole second at which the capture opened. */
  lemma FileNameTellsSecond(s: Setup, sound1: string, t1: real, sound2: string, t2: real)
    requires t1 >= 0.0 && t2 >= 0.0
    requires JoinPath(s.dir, FileName(s, sound1, t1)) == JoinPath(s.dir, FileName(s, sound2, t2))
    ensures t1.Floor == t2.Floor
  {
    var f1, f2 := FileName(s, sound1, t1), FileName(s, sound2, t2);
    var prefix := if s.dir == "" || Last(s.dir) == '/' then s.dir else s.dir + "/";
    assert JoinPath(s.dir, f1) == prefix + f1 && JoinPath(s.dir, f2) == prefix + f2;
    assert f1 == (prefix + f1)[|prefix|..] == (prefix + f2)[|prefix|..] == f2;
    var a, b := s.source + "_" + sound1, s.source + "_" + sound2;
    var d, e := Digits(t1.Floor), Digits(t2.Floor);
    assert f1 == (a + "_" + d) + ".wav" && f2 == (b + "_" + e) + ".wav";
    assert a + "_" + d == f1[..|f1| - 4] == f2[..|f2| - 4] == b + "_" + e;
    UnderscoreSplit(a, b, d, e);
    DigitsInjective(t1.Floor, t2.Floor);
  }

  /** The clock moves at least one chunk length between chunks. */
  ghost predicate Paced(trigs: seq<Trig>) {
    && (forall i :: 0 <= i < |trigs| ==> trigs[i].now >= 0.0)
    && (forall i, j :: 0 <= i < |trigs| && 0 <= j < |trigs| && trigs[i].at <= trigs[j].at ==>
          trigs[j].now - trigs[i].now >= (trigs[j].at - trigs[i].at) as real * AUDIO_DURATION)
  }

  ghost predicate DistinctFiles(s: Setup, gs: seq<Group>) {
    forall i, j :: 0 <= i < j < |gs| ==>
      JoinPath(s.dir, FileName(s, gs[i].first.sound, gs[i].first.now)) !=
      JoinPath(s.dir, FileName(s, gs[j].first.sound, gs[j].first.now))
  }

  lemma GroupStartsApart(s: Setup, ops: seq<Op>, i: nat, j: nat)
    requires s.Valid() && Paced(Triggers(ops)) && i < j < |Groups(s.post, ops)|
    ensures var gs := Groups(s.post, ops);
      gs[i].first.now >= 0.0 && gs[j].first.now - gs[i].first.now >= s.post as real * AUDIO_DURATION
  {
    GroupsShaped(s.post, ops);
    GroupsPartitionTriggers(s.post, ops);
    var gs, ts := Groups(s.post, ops), Triggers(ops);
    MemberOfAllTrigs(gs, i, gs[i].first);
    MemberOfAllTrigs(gs, j, gs[j].first);
    var p :| 0 <= p < |ts| && ts[p] == gs[i].first;
    var q :| 0 <= q < |ts| && ts[q] == gs[j].first;
    assert Chained(s.post, |History(ops)|, gs[i]);
    assert gs[j].first.at - gs[i].first.at >= s.post;
    assert ts[q].now - ts[p].now >= (ts[q].at - ts[p].at) as real * AUDIO_DURATION;
  }

  lemma TwoChunksKeepFilesApart(s: Setup, ops: seq<Op>)
    requires s.Valid() && s.post >= 2 && Paced(Triggers(ops))
    ensures DistinctFiles(s, Groups(s.post, ops))
  {
    var gs := Groups(s.post, ops);
    forall i, j | 0 <= i < j < |gs|
      ensures JoinPath(s.dir, FileName(s, gs[i].first.sound, gs[i].first.now)) !=
              JoinPath(s.dir, FileName(s, gs[j].first.sound, gs[j].first.now))
    {
      GroupStartsApart(s, ops, i, j);
      if JoinPath(s.dir, FileName(s, gs[i].first.sound, gs[i].first.now)) ==
         JoinPath(s.dir, FileName(s, gs[j].first.sound, gs[j].first.now)) {
        FileNameTellsSecond(s, gs[i].first.sound, gs[i].first.now, gs[j].first.sound, gs[j].first.now);
      }
    }
  }

  /** Two captures of one paced recorder never share a file, whatever the run,
      exactly when the post-roll is at least two chunks. */
  lemma FileNamesDistinctIffTwoChunks(s: Setup)
    requires s.Valid()
    ensures (forall ops :: Paced(Triggers(ops)) ==> DistinctFiles(s, Groups(s.post, ops))) <==> s.post >= 2
  {
    if s.post >= 2 {
      forall ops | Paced(Triggers(ops)) ensures DistinctFiles(s, Groups(s.post, ops)) {
        TwoChunksKeepFilesApart(s, ops);
      }
    } else {
      var ops := SharedFileRun(s);
      assert !DistinctFiles(s, Groups(s.post, ops));
    }
  }

  lemma SharedFileRun(s: Setup) returns (ops: seq<Op>)
    requires s.Valid() && s.post == 1
    ensures Paced(Triggers(ops)) && !DistinctFiles(s, Groups(s.post, ops))
  {
    var first, second;
    ops, first, second := SameSecondRun(s);
    if DistinctFiles(s, Groups(s.post, ops)) { DistinctFilesSurvive(s, ops, first); }
  }

  lemma SameSecondSameFile(s: Setup, sound: string, t1: real, t2: real)
    requires t1.Floor == t2.Floor && t1 >= 0.0 && t2 >= 0.0
    ensures JoinPath(s.dir, FileName(s, sound, t1)) == JoinPath(s.dir, FileName(s, sound, t2))
  {
  }

  // -- nothing is overwritten ----------------------------------------------------------

  function ClipFile(s: Setup, c: Clip): string {
    EventOf(s, c).file
  }

  function FileOf(s: Setup): Clip -> string {
    c => ClipFile(s, c)
  }

  /** The snippet directory after some clips: a later one replaces a file of the same name. */
  function Disk(file: Clip -> string, clips: seq<Clip>): map<string, seq<Chunk>> {
    if clips == [] then map[]
    else Disk(file, Front(clips))[file(Last(clips)) := Last(clips).audio]
  }

  function DiskAfter(s: Setup, out: seq<Out>): map<string, seq<Chunk>> {
    Disk(FileOf(s), Clips(out))
  }

  lemma DiskSnoc(s: Setup, out: seq<Out>, clip: Clip)
    ensures Clips(out + [Saved(clip)]) == Clips(out) + [clip]
    ensures DiskAfter(s, out + [Saved(clip)]) == DiskAfter(s, out)[EventOf(s, clip).file := clip.audio]
  {
    assert Front(out + [Saved(clip)]) == out && Front(Clips(out) + [clip]) == Clips(out);
  }

  /** At the end of the run the clip's file holds the clip's audio. */
  predicate Survives(s: Setup, ops: seq<Op>, clip: Clip) {
    var disk := DiskAfter(s, RunOps(s, ops).out);
    EventOf(s, clip).file in disk && disk[EventOf(s, clip).file] == clip.audio
  }

  lemma {:induction false} ClipFilesDistinct(s: Setup, h: seq<Chunk>, gs: seq<Group>)
    requires DistinctFiles(s, gs)
    ensures forall c, d | c in GroupClips(s, h, gs) && d in GroupClips(s, h, gs) ::
              ClipFile(s, c) == ClipFile(s, d) ==> c == d
  {
    forall c, d | c in GroupClips(s, h, gs) && d in GroupClips(s, h, gs) && ClipFile(s, c) == ClipFile(s, d)
      ensures c == d
    {
      var i := ClipComesFromGroup(s, h, gs, c);
      var j := ClipComesFromGroup(s, h, gs, d);
      if i < j {
        assert false;
      } else if j < i {
        assert false;
      }
    }
  }

  lemma {:induction false} DiskKeeps(file: Clip -> string, clips: seq<Clip>, c: Clip)
    requires c in clips
    requires forall d :: d in clips && file(c) == file(d) ==> c == d
    ensures file(c) in Disk(file, clips) && Disk(file, clips)[file(c)] == c.audio
  {
    if file(Last(clips)) != file(c) {
      DiskKeeps(file, Front(clips), c);
    }
  }

  lemma DistinctFilesSurvive(s: Setup, ops: seq<Op>, clip: Clip)
    requires s.Valid() && DistinctFiles(s, Groups(s.post, ops)) && clip in Clips(RunOps(s, ops).out)
    ensures Survives(s, ops, clip)
  {
    RecorderRefinesGroups(s, ops);
    var h, gs := History(ops), Groups(s.post, ops);
    FlatOutClips(s, h, gs);
    ClipFilesDistinct(s, h, gs);
    DiskKeeps(FileOf(s), GroupClips(s, h, gs), clip);
  }

  /** A chunk heard while idle, with a one-chunk post-roll: the capture opens and is saved at once. */
  lemma HeardWhileIdle(s: Setup, before: seq<Op>, t: Op, n: Op, c: Chunk)
    requires s.post == 1 && RunOps(s, before).rec.active == None
    requires t.Trigger? && n.Notify? && n.sound == t.sound
    ensures var run, run' := RunOps(s, before), RunOps(s, before + HeardChunk(t, n, c));
      var clip := Clip(t.id, t.sound, t.score, t.now, run.rec.preBuffer + [c], true);
      && run'.rec == Recorder(Pushed(run.rec.preBuffer, c, s.pre), None)
      && Clips(run'.out) == Clips(run.out) + [clip]
      && DiskAfter(s, run'.out) == DiskAfter(s, run.out)[EventOf(s, clip).file := clip.audio]
  {
    RunOfHeard(s, before, t, n, c);
    var run := RunOps(s, before);
    var out := HeardOut(s, run, t, n, c);
    DiskSnoc(s, out, Clip(t.id, t.sound, t.score, t.now, run.rec.preBuffer + [c], true));
  }

  lemma RunOfHeard(s: Setup, before: seq<Op>, t: Op, n: Op, c: Chunk)
    ensures RunOps(s, before + HeardChunk(t, n, c)) ==
      Apply(s, Apply(s, Apply(s, RunOps(s, before), t), n), Feed(c))
  {
    InTurn(before, t, n, Feed(c));
    RunSnoc(s, before, t);
    RunSnoc(s, before + [t], n);
    RunSnoc(s, before + [t] + [n], Feed(c));
  }

  lemma HeardOut(s: Setup, run: Run, t: Op, n: Op, c: Chunk) returns (out: seq<Out>)
    requires s.post == 1 && run.rec.active == None && t.Trigger? && n.Notify? && n.sound == t.sound
    ensures Clips(out) == Clips(run.out)
    ensures Apply(s, Apply(s, Apply(s, run, t), n), Feed(c)) ==
      Run(Recorder(Pushed(run.rec.preBuffer, c, s.pre), None),
          out + [Saved(Clip(t.id, t.sound, t.score, t.now, run.rec.preBuffer + [c], true))])
  {
    var alert := Alert(DetectionTrigger(t.id, s.source, t.sound, n.score, n.now));
    out := run.out + [alert];
    assert Front(out) == run.out && Last(out) == alert;
    assert Clips(run.out) + [] == Clips(run.out);
    assert [] + [c] == [c];
  }

  /** Two chunks heard in a row, with a one-chunk post-roll and both openings in one second:
      the second snippet takes the first one's file. */
  lemma SecondReplacesFirst(s: Setup, t1: Op, n1: Op, c: Chunk, t2: Op, n2: Op, d: Chunk)
    returns (first: Clip, second: Clip)
    requires s.Valid() && s.post == 1
    requires t1.Trigger? && n1.Notify? && t2.Trigger? && n2.Notify? && t1.sound == n1.sound == t2.sound == n2.sound
    requires t1.now >= 0.0 && t2.now >= 0.0 && t1.now.Floor == t2.now.Floor
    ensures var ops := [] + HeardChunk(t1, n1, c) + HeardChunk(t2, n2, d);
      && Clips(RunOps(s, ops).out) == [first, second]
      && first.audio == [c] && second.audio == [c, d]
      && EventOf(s, first).file in DiskAfter(s, RunOps(s, ops).out)
      && DiskAfter(s, RunOps(s, ops).out)[EventOf(s, first).file] == second.audio
      && !Survives(s, ops, first)
  {
    var one := [] + HeardChunk(t1, n1, c);
    HeardWhileIdle(s, [], t1, n1, c);
    HeardWhileIdle(s, one, t2, n2, d);
    assert RunOps(s, one).rec.preBuffer == [c];
    first := Clip(t1.id, t1.sound, t1.score, t1.now, [] + [c], true);
    second := Clip(t2.id, t2.sound, t2.score, t2.now, [c] + [d], true);
    SameSecondSameFile(s, t1.sound, t1.now, t2.now);
  }

  /** With a one-chunk post-roll, two captures 0.975 s apart land in the same second, and the
      second overwrites the first. */
  lemma SameSecondRun(s: Setup) returns (ops: seq<Op>, first: Clip, second: Clip)
    requires s.Valid() && s.post == 1
    ensures Paced(Triggers(ops)) && forall c :: Feed(c) in ops ==> |c| == CHUNK_BYTES
    ensures Clips(RunOps(s, ops).out) == [first, second] && first.audio != second.audio
    ensures EventOf(s, first).file in DiskAfter(s, RunOps(s, ops).out)
    ensures DiskAfter(s, RunOps(s, ops).out)[EventOf(s, first).file] == second.audio
    ensures !Survives(s, ops, first)
  {
    var silence: Chunk := seq(CHUNK_BYTES, _ => 0);
    ops, first, second := QuickRun(s, silence);
    forall c | Feed(c) in ops ensures |c| == CHUNK_BYTES {
      assert c == silence;
    }
  }

  lemma QuickRun(s: Setup, c: Chunk) returns (ops: seq<Op>, first: Clip, second: Clip)
    requires s.Valid() && s.post == 1
    ensures Paced(Triggers(ops)) && forall d :: Feed(d) in ops ==> d == c
    ensures Clips(RunOps(s, ops).out) == [first, second] && first.audio == [c] && second.audio == [c, c]
    ensures EventOf(s, first).file in DiskAfter(s, RunOps(s, ops).out)
    ensures DiskAfter(s, RunOps(s, ops).out)[EventOf(s, first).file] == second.audio
    ensures !Survives(s, ops, first)
  {
    var t1, n1 := Trigger("bark", 1.0, 0.0, "a"), Notify("bark", 1.0, 0.0);
    var t2, n2 := Trigger("bark", 1.0, AUDIO_DURATION, "b"), Notify("bark", 1.0, AUDIO_DURATION);
    ops := [] + HeardChunk(t1, n1, c) + HeardChunk(t2, n2, c);
    first, second := SecondReplacesFirst(s, t1, n1, c, t2, n2, c);
    QuickIsPaced(t1, n1, c, t2, n2, c);
    QuickFeeds(t1, n1, c, t2, n2, c);
  }

  lemma QuickFeeds(t1: Op, n1: Op, c: Chunk, t2: Op, n2: Op, d: Chunk)
    requires t1.Trigger? && n1.Notify? && t2.Trigger? && n2.Notify?
    ensures forall x :: Feed(x) in [] + HeardChunk(t1, n1, c) + HeardChunk(t2, n2, d) ==> x == c || x == d
  {
  }

  lemma QuickIsPaced(t1: Op, n1: Op, c: Chunk, t2: Op, n2: Op, d: Chunk)
    requires t1.Trigger? && n1.Notify? && t2.Trigger? && n2.Notify?
    requires t1.now >= 0.0 && t2.now == t1.now + AUDIO_DURATION
    ensures Paced(Triggers([] + HeardChunk(t1, n1, c) + HeardChunk(t2, n2, d)))
  {
    HeardStep(1, [], t1, n1, c);
    HeardStep(1, [] + HeardChunk(t1, n1, c), t2, n2, d);
    PairPaced(Trig(0, t1.sound, t1.score, t1.now, t1.id), Trig(1, t2.sound, t2.score, t2.now, t2.id));
  }

  lemma PairPaced(t: Trig, u: Trig)
    requires t.at == 0 && u.at == 1 && t.now >= 0.0 && u.now == t.now + AUDIO_DURATION
    ensures Paced([] + [t] + [u])
  {
  }

  /** At the end of every paced run each event's file holds that event's audio, exactly when
      the post-roll is at least two chunks. */
  lemma NoSnippetOverwrittenIff(s: Setup)
    requires s.Valid()
    ensures (forall ops, clip | Paced(Triggers(ops)) && clip in Clips(RunOps(s, ops).out) ::
               Survives(s, ops, clip)) <==>
      s.post >= 2
  {
    if s.post >= 2 {
      forall ops, clip | Paced(Triggers(ops)) && clip in Clips(RunOps(s, ops).out) ensures Survives(s, ops, clip) {
        TwoChunksKeepFilesApart(s, ops);
        DistinctFilesSurvive(s, ops, clip);
      }
    } else {
      var ops, first, second := SameSecondRun(s);
      assert first in Clips(RunOps(s, ops).out) && !Survives(s, ops, first);
    }
  }
}
