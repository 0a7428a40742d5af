/** Audio format shared by the capture pipeline: one inference chunk is 0.975 s
    of 16 kHz 16-bit mono PCM. */
module AudioFormat {
  newtype Byte = b: int | 0 <= b < 256
  type Chunk = seq<Byte>

  const AUDIO_SAMPLE_RATE := 16000
  const AUDIO_DURATION := 0.975
  const CHUNK_SAMPLES := 15600
  const CHUNK_BYTES := CHUNK_SAMPLES * 2
}

/** The recorder: a bounded pre-roll buffer plus one capture that opens, is
    extended, is announced at most once, and is written out.

    `RunOps` is what the code does, operation by operation.  `Groups` is what it is
    for: trigger calls fall into groups wherever two of them are at least
    `post` chunks apart, and each group is one snippet cut out of the whole
    chunk history.  `RecorderRefinesGroups` says the two agree. */
module Snippet {
  import opened Util
  import opened AudioFormat

  datatype DetectionTrigger = DetectionTrigger(
    id: string, source: string, sound: string, score: real, timestamp: real)

  datatype DetectionEvent = DetectionEvent(
    id: string, source: string, sound: string, score: real, timestamp: real,
    file: string, duration: real, notified: bool)

  /** The constructor arguments, with both lengths already in chunks. */
  datatype Setup = Setup(source: string, dir: string, pre: nat, post: nat) {
    ghost predicate Valid() { pre >= 1 && post >= 1 }
  }

  function ChunksFor(seconds: real): nat {
    var n := Ceiling(seconds / AUDIO_DURATION);
    if n >= 1 then n else 1
  }

  function MakeSetup(source: string, dir: string, preCapture: real, postCapture: real): Setup {
    Setup(source, dir, ChunksFor(preCapture), ChunksFor(postCapture))
  }

  datatype Capture = Capture(
    id: string, sound: string, score: real, timestamp: real,
    preChunks: seq<Chunk>, postChunks: seq<Chunk>, chunksRemaining: int, notified: bool)

  datatype Recorder = Recorder(preBuffer: seq<Chunk>, active: Option<Capture>) {
    function ActiveLabel(): Option<string> {
      if active.Some? then Some(active.value.sound) else None
    }
  }

  const IDLE := Recorder([], None)

  // -- one operation at a time ---------------------------------------------

  datatype Op =
    | Trigger(sound: string, score: real, now: real, id: string)
    | Notify(sound: string, score: real, now: real)
    | Feed(chunk: Chunk)

  /** A finished capture with its audio; `EventOf` names the file it goes to. */
  datatype Clip = Clip(
    id: string, sound: string, score: real, timestamp: real, audio: seq<Chunk>, notified: bool)

  /** Everything the recorder hands out: a notification to announce, or a
      finished capture. */
  datatype Out =
    | Alert(trigger: DetectionTrigger)
    | Saved(clip: Clip)

  function Extended(c: Capture, post: nat, score: real): Capture {
    c.(chunksRemaining := post, score := MaxReal(c.score, score))
  }

  function Fed(c: Capture, chunk: Chunk): Capture {
    c.(postChunks := c.postChunks + [chunk], chunksRemaining := c.chunksRemaining - 1)
  }

  function NotifyResult(s: Setup, r: Recorder, sound: string, score: real, now: real): Option<DetectionTrigger> {
    if r.active.None? || r.active.value.notified || r.active.value.sound != sound then None
    else Some(DetectionTrigger(r.active.value.id, s.source, r.active.value.sound, score, now))
  }

  /** `deque(maxlen=...)`: append on the right, drop from the left when over-full. */
  function Pushed(buffer: seq<Chunk>, chunk: Chunk, max: nat): seq<Chunk> {
    Suffix(buffer + [chunk], max)
  }

  function Suffix(h: seq<Chunk>, k: nat): seq<Chunk> {
    if |h| <= k then h else h[|h| - k..]
  }

  function FileName(s: Setup, sound: string, timestamp: real): string {
    s.source + "_" + sound + "_" + IntText(Truncate(timestamp)) + ".wav"
  }

  function JoinPath(dir: string, file: string): string {
    if dir == "" || Last(dir) == '/' then dir + file else dir + "/" + file
  }

  function Finalize(c: Capture): Clip {
    Clip(c.id, c.sound, c.score, c.timestamp, c.preChunks + c.postChunks, c.notified)
  }

  function EventOf(s: Setup, clip: Clip): DetectionEvent {
    DetectionEvent(clip.id, s.source, clip.sound, clip.score, clip.timestamp,
      JoinPath(s.dir, FileName(s, clip.sound, clip.timestamp)),
      |clip.audio| as real * AUDIO_DURATION, clip.notified)
  }

  datatype Run = Run(rec: Recorder, out: seq<Out>)

  function Apply(s: Setup, run: Run, op: Op): Run {
    var r := run.rec;
    match op
    case Trigger(sound, score, now, id) =>
      if r.active.None? then
        run.(rec := r.(active := Some(Capture(id, sound, score, now, r.preBuffer, [], s.post, false))))
      else
        run.(rec := r.(active := Some(Extended(r.active.value, s.post, score))))
    case Notify(sound, score, now) =>
      var t := NotifyResult(s, r, sound, score, now);
      if t.None? then run
      else Run(r.(active := Some(r.active.value.(notified := true))), run.out + [Alert(t.value)])
    case Feed(chunk) =>
      var buffer := Pushed(r.preBuffer, chunk, s.pre);
      if r.active.None? then run.(rec := r.(preBuffer := buffer))
      else
        var c := Fed(r.active.value, chunk);
        if c.chunksRemaining > 0 then run.(rec := Recorder(buffer, Some(c)))
        else Run(Recorder(buffer, None), run.out + [Saved(Finalize(c))])
  }

  function RunOps(s: Setup, ops: seq<Op>): Run {
    if ops == [] then Run(IDLE, []) else Apply(s, RunOps(s, Front(ops)), Last(ops))
  }

  lemma RunSnoc(s: Setup, ops: seq<Op>, op: Op)
    ensures RunOps(s, ops + [op]) == Apply(s, RunOps(s, ops), op)
  {
    assert Front(ops + [op]) == ops;
  }

  // -- the specification over the whole history --------------------------------

  function History(ops: seq<Op>): seq<Chunk> {
    if ops == [] then []
    else History(Front(ops)) + if Last(ops).Feed? then [Last(ops).chunk] else []
  }

  /** A trigger call; `at` is the number of chunks fed before it. */
  datatype Trig = Trig(at: nat, sound: string, score: real, now: real, id: string)
  datatype Note = Note(score: real, now: real)

  /** Trigger calls that share one snippet (the first one opened it), and the
      notify calls made for its sound while it was open. */
  datatype Group = Group(first: Trig, rest: seq<Trig>, notes: seq<Note>) {
    function Trigs(): seq<Trig> { [first] + rest }
    function Newest(): Trig { if rest == [] then first else Last(rest) }

    /** The trigger just before `rest[j]`. */
    function Before(j: nat): Trig
      requires j <= |rest|
    {
      if j == 0 then first else rest[j - 1]
    }

    /** The history length at which the snippet is complete. */
    function Close(post: nat): nat { Newest().at + post }

    function Start(pre: nat): nat { if first.at <= pre then 0 else first.at - pre }

    function PeakScore(): real { Peak(first.score, rest) }
  }

  function Peak(score: real, rest: seq<Trig>): real {
    if rest == [] then score else MaxReal(Peak(score, Front(rest)), Last(rest).score)
  }

  predicate Live(post: nat, n: nat, gs: seq<Group>) {
    gs != [] && n < Last(gs).Close(post)
  }

  function GroupStep(post: nat, n: nat, gs: seq<Group>, op: Op): seq<Group> {
    match op
    case Trigger(sound, score, now, id) =>
      var t := Trig(n, sound, score, now, id);
      if Live(post, n, gs) then Front(gs) + [Last(gs).(rest := Last(gs).rest + [t])]
      else gs + [Group(t, [], [])]
    case Notify(sound, score, now) =>
      if Live(post, n, gs) && sound == Last(gs).first.sound then
        Front(gs) + [Last(gs).(notes := Last(gs).notes + [Note(score, now)])]
      else gs
    case Feed(_) => gs
  }

  function Groups(post: nat, ops: seq<Op>): seq<Group> {
    if ops == [] then []
    else GroupStep(post, |History(Front(ops))|, Groups(post, Front(ops)), Last(ops))
  }

  /** The snippet of a group: one contiguous slice of the history. */
  function GroupClip(s: Setup, h: seq<Chunk>, g: Group): Clip
    requires g.Start(s.pre) <= g.Close(s.post) <= |h|
  {
    Clip(g.first.id, g.first.sound, g.PeakScore(), g.first.now,
      h[g.Start(s.pre)..g.Close(s.post)], g.notes != [])
  }

  /** What one group contributes to the output once `h` has been heard. */
  function GroupOut(s: Setup, h: seq<Chunk>, g: Group): seq<Out> {
    AlertOut(s, g) + SavedOut(s, h, g)
  }

  function AlertOut(s: Setup, g: Group): seq<Out> {
    if g.notes == [] then []
    else [Alert(DetectionTrigger(g.first.id, s.source, g.first.sound, g.notes[0].score, g.notes[0].now))]
  }

  function SavedOut(s: Setup, h: seq<Chunk>, g: Group): seq<Out> {
    if g.Start(s.pre) <= g.Close(s.post) <= |h| then
      [Saved(GroupClip(s, h, g))]
    else []
  }

  function FlatOut(s: Setup, h: seq<Chunk>, gs: seq<Group>): seq<Out> {
    if gs == [] then [] else FlatOut(s, h, Front(gs)) + GroupOut(s, h, Last(gs))
  }

  function OpenCapture(s: Setup, h: seq<Chunk>, g: Group): Capture
    requires g.first.at <= |h|
  {
    Capture(g.first.id, g.first.sound, g.PeakScore(), g.first.now,
      h[g.Start(s.pre)..g.first.at], h[g.first.at..], g.Close(s.post) - |h|, g.notes != [])
  }

  // -- shape of the groups -----------------------------------------------------

  /** Within a group consecutive triggers are less than `post` chunks apart; a new
      group only opens once the previous snippet is complete. */
  ghost predicate Shaped(post: nat, n: nat, gs: seq<Group>) {
    && (forall i :: 0 <= i < |gs| ==> Chained(post, n, gs[i]))
    && (forall i, j :: 0 <= i < j < |gs| ==> gs[i].Close(post) <= gs[j].first.at)
  }

  ghost predicate Chained(post: nat, n: nat, g: Group) {
    && g.first.at <= g.Newest().at <= n
    && (forall t :: t in g.rest ==> g.first.at <= t.at <= g.Newest().at)
    && (forall j :: 0 <= j < |g.rest| ==> g.Before(j).at <= g.rest[j].at < g.Before(j).at + post)
  }

  lemma ChainedExtends(post: nat, n: nat, g: Group, t: Trig)
    requires Chained(post, n, g) && n < g.Close(post) && t.at == n
    ensures Chained(post, n, g.(rest := g.rest + [t]))
  {
    var g' := g.(rest := g.rest + [t]);
    forall j | 0 <= j < |g'.rest| ensures g'.Before(j).at <= g'.rest[j].at < g'.Before(j).at + post {
      if j < |g.rest| {
        assert g'.rest[j] == g.rest[j] && g'.Before(j) == g.Before(j);
      } else {
        assert g'.Before(j) == g.Newest();
      }
    }
  }

  lemma ChainedLater(post: nat, n: nat, m: nat, g: Group, notes: seq<Note>)
    requires Chained(post, n, g) && n <= m
    ensures Chained(post, m, g.(notes := notes))
  {
    var g' := g.(notes := notes);
    forall j | 0 <= j < |g'.rest| ensures g'.Before(j).at <= g'.rest[j].at < g'.Before(j).at + post {
      assert g'.Before(j) == g.Before(j);
    }
  }

  lemma ShapedAppend(post: nat, n: nat, gs: seq<Group>, g: Group)
    requires Shaped(post, n, gs) && Chained(post, n, g)
    requires forall i :: 0 <= i < |gs| ==> gs[i].Close(post) <= g.first.at
    ensures Shaped(post, n, gs + [g])
  {
    var all := gs + [g];
    forall i | 0 <= i < |all| ensures Chained(post, n, all[i]) {
      assert all[i] == if i < |gs| then gs[i] else g;
    }
    forall i, j | 0 <= i < j < |all| ensures all[i].Close(post) <= all[j].first.at {
      assert all[i] == gs[i];
      assert all[j] == if j < |gs| then gs[j] else g;
    }
  }

  lemma ShapedReplace(post: nat, n: nat, gs: seq<Group>, g: Group)
    requires Shaped(post, n, gs) && gs != [] && g.first == Last(gs).first && Chained(post, n, g)
    ensures Shaped(post, n, Front(gs) + [g])
  {
    var init, k := Front(gs), |gs| - 1;
    forall i | 0 <= i < k ensures Chained(post, n, init[i]) && init[i].Close(post) <= g.first.at {
      assert init[i] == gs[i] && gs[i].Close(post) <= gs[k].first.at;
    }
    forall i, j | 0 <= i < j < k ensures init[i].Close(post) <= init[j].first.at {
      assert init[i] == gs[i] && init[j] == gs[j];
    }
    ShapedAppend(post, n, init, g);
  }

  lemma ShapedExtends(post: nat, n: nat, gs: seq<Group>, t: Trig)
    requires Shaped(post, n, gs) && t.at == n && Live(post, n, gs)
    ensures Shaped(post, n, Front(gs) + [Last(gs).(rest := Last(gs).rest + [t])])
  {
    ChainedExtends(post, n, gs[|gs| - 1], t);
    ShapedReplace(post, n, gs, Last(gs).(rest := Last(gs).rest + [t]));
  }

  lemma ShapedOpens(post: nat, n: nat, gs: seq<Group>, t: Trig)
    requires Shaped(post, n, gs) && t.at == n && !Live(post, n, gs)
    ensures Shaped(post, n, gs + [Group(t, [], [])])
  {
    ShapedSettled(post, n, gs);
    if gs != [] { assert gs[|gs| - 1].Close(post) <= n; }
    ShapedAppend(post, n, gs, Group(t, [], []));
  }

  lemma ShapedNotes(post: nat, n: nat, gs: seq<Group>, notes: seq<Note>)
    requires Shaped(post, n, gs) && gs != []
    ensures Shaped(post, n, Front(gs) + [Last(gs).(notes := notes)])
  {
    ChainedLater(post, n, n, gs[|gs| - 1], notes);
    ShapedReplace(post, n, gs, Last(gs).(notes := notes));
  }

  lemma ShapedLater(post: nat, n: nat, gs: seq<Group>)
    requires Shaped(post, n, gs)
    ensures Shaped(post, n + 1, gs)
  {
    forall i | 0 <= i < |gs| ensures Chained(post, n + 1, gs[i]) {
      ChainedLater(post, n, n + 1, gs[i], gs[i].notes);
    }
  }

  lemma ShapedStep(post: nat, n: nat, gs: seq<Group>, op: Op)
    requires post >= 1 && Shaped(post, n, gs)
    ensures Shaped(post, if op.Feed? then n + 1 else n, GroupStep(post, n, gs, op))
  {
    match op
    case Trigger(sound, score, now, id) =>
      var t := Trig(n, sound, score, now, id);
      if Live(post, n, gs) { ShapedExtends(post, n, gs, t); } else { ShapedOpens(post, n, gs, t); }
    case Notify(sound, score, now) => if gs != [] { ShapedNotes(post, n, gs, Last(gs).notes + [Note(score, now)]); }
    case Feed(_) => ShapedLater(post, n, gs);
  }

  lemma {:induction false} GroupsShaped(post: nat, ops: seq<Op>)
    requires post >= 1
    ensures Shaped(post, |History(ops)|, Groups(post, ops))
  {
    if ops != [] {
      GroupsShaped(post, Front(ops));
      ShapedStep(post, |History(Front(ops))|, Groups(post, Front(ops)), Last(ops));
    }
  }

  /** All groups but the last are complete. */
  ghost predicate Settled(post: nat, n: nat, gs: seq<Group>) {
    && (gs != [] ==> Last(gs).first.at <= n)
    && forall i :: 0 <= i < |gs| - 1 ==> gs[i].Close(post) <= n
  }

  lemma ShapedSettled(post: nat, n: nat, gs: seq<Group>)
    requires Shaped(post, n, gs)
    ensures Settled(post, n, gs)
  {
    forall i | 0 <= i < |gs| - 1 ensures gs[i].Close(post) <= n {
      assert gs[i].Close(post) <= gs[|gs| - 1].first.at;
      assert Chained(post, n, gs[|gs| - 1]);
    }
    if gs != [] { assert Chained(post, n, gs[|gs| - 1]); }
  }

  lemma SavedOutStable(s: Setup, h: seq<Chunk>, c: Chunk, g: Group)
    requires g.Close(s.post) <= |h|
    ensures GroupOut(s, h + [c], g) == GroupOut(s, h, g)
  {
    if g.Start(s.pre) <= g.Close(s.post) {
      assert (h + [c])[g.Start(s.pre)..g.Close(s.post)] == h[g.Start(s.pre)..g.Close(s.post)];
    }
  }

  lemma {:induction false} FlatOutStable(s: Setup, h: seq<Chunk>, c: Chunk, gs: seq<Group>)
    requires forall i :: 0 <= i < |gs| ==> gs[i].Close(s.post) <= |h|
    ensures FlatOut(s, h + [c], gs) == FlatOut(s, h, gs)
  {
    if gs != [] {
      FlatOutStable(s, h, c, Front(gs));
      SavedOutStable(s, h, c, Last(gs));
    }
  }

  lemma FlatOutSnoc(s: Setup, h: seq<Chunk>, gs: seq<Group>, g: Group)
    ensures FlatOut(s, h, gs + [g]) == FlatOut(s, h, gs) + GroupOut(s, h, g)
  {
    assert Front(gs + [g]) == gs;
  }

  // -- the refinement ------------------------------------------------------------

  function ActiveOf(s: Setup, h: seq<Chunk>, gs: seq<Group>): Option<Capture> {
    if Live(s.post, |h|, gs) && Last(gs).first.at <= |h| then Some(OpenCapture(s, h, Last(gs))) else None
  }

  /** The state and output that the groups call for. */
  function Expected(s: Setup, h: seq<Chunk>, gs: seq<Group>): Run {
    Run(Recorder(Suffix(h, s.pre), ActiveOf(s, h, gs)), FlatOut(s, h, gs))
  }

  function Heard(h: seq<Chunk>, op: Op): seq<Chunk> {
    if op.Feed? then h + [op.chunk] else h
  }

  lemma TriggerStep(s: Setup, h: seq<Chunk>, gs: seq<Group>, op: Op)
    requires s.Valid() && Settled(s.post, |h|, gs) && op.Trigger?
    ensures Apply(s, Expected(s, h, gs), op) == Expected(s, h, GroupStep(s.post, |h|, gs, op))
  {
    var t := Trig(|h|, op.sound, op.score, op.now, op.id);
    if Live(s.post, |h|, gs) {
      assert gs == Front(gs) + [Last(gs)];
      TriggerLive(s, h, Front(gs), Last(gs), op);
    } else {
      TriggerOpens(s, h, gs, t);
    }
  }

  lemma TriggerLive(s: Setup, h: seq<Chunk>, gs: seq<Group>, g: Group, op: Op)
    requires s.Valid() && op.Trigger? && g.first.at <= |h| < g.Close(s.post)
    ensures Apply(s, Expected(s, h, gs + [g]), op) ==
      Expected(s, h, gs + [g.(rest := g.rest + [Trig(|h|, op.sound, op.score, op.now, op.id)])])
  {
    TriggerExtends(s, h, gs, g, Trig(|h|, op.sound, op.score, op.now, op.id));
  }

  lemma TriggerExtends(s: Setup, h: seq<Chunk>, gs: seq<Group>, g: Group, t: Trig)
    requires s.Valid() && t.at == |h| && g.first.at <= |h| < g.Close(s.post)
    ensures var g' := g.(rest := g.rest + [t]);
      FlatOut(s, h, gs + [g']) == FlatOut(s, h, gs + [g]) &&
      OpenCapture(s, h, g') == Extended(OpenCapture(s, h, g), s.post, t.score)
  {
    var g' := g.(rest := g.rest + [t]);
    FlatOutSnoc(s, h, gs, g);
    FlatOutSnoc(s, h, gs, g');
    assert Front(g'.rest) == g.rest;
    assert SavedOut(s, h, g) == SavedOut(s, h, g') == [];
  }

  lemma TriggerOpens(s: Setup, h: seq<Chunk>, gs: seq<Group>, t: Trig)
    requires s.Valid() && t.at == |h|
    ensures var g := Group(t, [], []);
      FlatOut(s, h, gs + [g]) == FlatOut(s, h, gs) &&
      OpenCapture(s, h, g) == Capture(t.id, t.sound, t.score, t.now, Suffix(h, s.pre), [], s.post, false)
  {
    var g := Group(t, [], []);
    FlatOutSnoc(s, h, gs, g);
    assert h[g.Start(s.pre)..|h|] == Suffix(h, s.pre);
  }

  lemma NotifyStep(s: Setup, h: seq<Chunk>, gs: seq<Group>, op: Op)
    requires s.Valid() && Settled(s.post, |h|, gs) && op.Notify?
    ensures Apply(s, Expected(s, h, gs), op) == Expected(s, h, GroupStep(s.post, |h|, gs, op))
  {
    if Live(s.post, |h|, gs) && op.sound == Last(gs).first.sound {
      assert gs == Front(gs) + [Last(gs)];
      NotifyLive(s, h, Front(gs), Last(gs), op);
    }
  }

  lemma NotifyLive(s: Setup, h: seq<Chunk>, gs: seq<Group>, g: Group, op: Op)
    requires op.Notify? && op.sound == g.first.sound && g.first.at <= |h| < g.Close(s.post)
    ensures Apply(s, Expected(s, h, gs + [g]), op) ==
      Expected(s, h, gs + [g.(notes := g.notes + [Note(op.score, op.now)])])
  {
    NotifyLands(s, h, gs, g, Note(op.score, op.now));
    if g.notes != [] { assert FlatOut(s, h, gs + [g]) + [] == FlatOut(s, h, gs + [g]); }
  }

  function FirstNote(s: Setup, g: Group, n: Note): seq<Out> {
    if g.notes != [] then []
    else [Alert(DetectionTrigger(g.first.id, s.source, g.first.sound, n.score, n.now))]
  }

  lemma NotifyLands(s: Setup, h: seq<Chunk>, gs: seq<Group>, g: Group, n: Note)
    requires g.first.at <= |h| < g.Close(s.post)
    ensures FlatOut(s, h, gs + [g.(notes := g.notes + [n])]) == FlatOut(s, h, gs + [g]) + FirstNote(s, g, n)
  {
    var g' := g.(notes := g.notes + [n]);
    var before := FlatOut(s, h, gs);
    calc {
      FlatOut(s, h, gs + [g']);
      { FlatOutSnoc(s, h, gs, g'); UnfinishedOut(s, h, g'); }
      before + AlertOut(s, g');
      { assert g'.notes[0] == if g.notes == [] then n else g.notes[0];
        assert AlertOut(s, g') == AlertOut(s, g) + FirstNote(s, g, n); }
      before + (AlertOut(s, g) + FirstNote(s, g, n));
      (before + AlertOut(s, g)) + FirstNote(s, g, n);
      { FlatOutSnoc(s, h, gs, g); UnfinishedOut(s, h, g); }
      FlatOut(s, h, gs + [g]) + FirstNote(s, g, n);
    }
  }

  lemma UnfinishedOut(s: Setup, h: seq<Chunk>, g: Group)
    requires |h| < g.Close(s.post)
    ensures GroupOut(s, h, g) == AlertOut(s, g)
  {
  }

  lemma FeedStep(s: Setup, h: seq<Chunk>, gs: seq<Group>, op: Op)
    requires s.Valid() && Settled(s.post, |h|, gs) && op.Feed?
    ensures Apply(s, Expected(s, h, gs), op) == Expected(s, h + [op.chunk], gs)
  {
    assert Pushed(Suffix(h, s.pre), op.chunk, s.pre) == Suffix(h + [op.chunk], s.pre);
    if Live(s.post, |h|, gs) {
      var g := Last(gs);
      assert gs == Front(gs) + [g];
      FeedCapture(s, h, g, op.chunk);
      FeedOut(s, h, Front(gs), g, op.chunk);
    } else {
      if gs != [] { assert gs[|gs| - 1].Close(s.post) <= |h|; }
      FlatOutStable(s, h, op.chunk, gs);
    }
  }

  lemma FeedCapture(s: Setup, h: seq<Chunk>, g: Group, c: Chunk)
    requires g.first.at <= |h| < g.Close(s.post)
    ensures OpenCapture(s, h + [c], g) == Fed(OpenCapture(s, h, g), c)
  {
    var h' := h + [c];
    assert h'[g.Start(s.pre)..g.first.at] == h[g.Start(s.pre)..g.first.at];
    assert h'[g.first.at..] == h[g.first.at..] + [c];
  }

  lemma FinishedOut(s: Setup, h: seq<Chunk>, g: Group, c: Chunk)
    requires g.first.at <= |h| && |h| + 1 == g.Close(s.post)
    ensures GroupOut(s, h + [c], g) == AlertOut(s, g) + [Saved(Finalize(Fed(OpenCapture(s, h, g), c)))]
  {
    var h' := h + [c];
    FeedCapture(s, h, g, c);
    var cap := OpenCapture(s, h', g);
    assert cap.preChunks + cap.postChunks == h'[g.Start(s.pre)..g.Close(s.post)];
  }

  lemma FeedOut(s: Setup, h: seq<Chunk>, gs: seq<Group>, g: Group, c: Chunk)
    requires g.first.at <= |h| < g.Close(s.post)
    requires forall i :: 0 <= i < |gs| ==> gs[i].Close(s.post) <= |h|
    ensures FlatOut(s, h + [c], gs + [g]) == FlatOut(s, h, gs + [g]) +
      if |h| + 1 < g.Close(s.post) then [] else [Saved(Finalize(Fed(OpenCapture(s, h, g), c)))]
  {
    FlatOutStable(s, h, c, gs);
    FlatOutSnoc(s, h, gs, g);
    FlatOutSnoc(s, h + [c], gs, g);
    UnfinishedOut(s, h, g);
    if |h| + 1 == g.Close(s.post) {
      FinishedOut(s, h, g, c);
    } else {
      UnfinishedOut(s, h + [c], g);
    }
  }

  /** For every sequence of calls, in any order, the recorder's state and output
      are exactly what the grouping of its trigger calls over the whole chunk
      history says they should be. */
  lemma {:induction false} RecorderRefinesGroups(s: Setup, ops: seq<Op>)
    requires s.Valid()
    ensures RunOps(s, ops) == Expected(s, History(ops), Groups(s.post, ops))
  {
    if ops != [] {
      var prev, op := Front(ops), Last(ops);
      RecorderRefinesGroups(s, prev);
      GroupsShaped(s.post, prev);
      RefinementStep(s, History(prev), Groups(s.post, prev), op);
      assert History(ops) == Heard(History(prev), op);
    }
  }

  lemma RefinementStep(s: Setup, h: seq<Chunk>, gs: seq<Group>, op: Op)
    requires s.Valid() && Shaped(s.post, |h|, gs)
    ensures Apply(s, Expected(s, h, gs), op) == Expected(s, Heard(h, op), GroupStep(s.post, |h|, gs, op))
  {
    ShapedSettled(s.post, |h|, gs);
    match op
    case Trigger(_, _, _, _) => TriggerStep(s, h, gs, op);
    case Notify(_, _, _) => NotifyStep(s, h, gs, op);
    case Feed(_) => FeedStep(s, h, gs, op);
  }
}
