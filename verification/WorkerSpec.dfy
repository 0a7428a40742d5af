/** Whole runs of one source's worker: which recorder calls a chunk leads to, and
    which messages go out over any sequence of chunks. */
module WorkerSpec {
  import opened Util
  import opened AudioFormat
  import opened Sources
  import opened Detector
  import opened Snippet
  import SnippetFacts

  /** One chunk with what the model and the clocks say about it: its volume, its class
      scores in ranked order, the two wall-clock readings, and the id that
      would be minted if a capture opens. */
  datatype Input = Input(
    chunk: Chunk, rms: real, scores: seq<real>, ids: seq<nat>,
    heardAt: real, notedAt: real, mintedId: string)

  ghost predicate ValidInput(labels: map<int, string>, i: Input) {
    ValidRanking(i.scores, i.ids) && Labelled(labels, i.scores)
  }

  ghost function Picked(src: SourceConfig, labels: map<int, string>, active: Option<string>, i: Input)
    : Option<Detection>
    requires ValidInput(labels, i)
  {
    if i.rms >= src.minVolume then Pick(src, active, labels, i.scores, i.ids) else None
  }

  function DetectionOps(src: SourceConfig, d: Detection, i: Input): seq<Op> {
    [Trigger(d.sound, d.score, i.heardAt, i.mintedId)] +
    if d.score >= src.NotifyThresholdFor(d.sound) then [Notify(d.sound, d.score, i.notedAt)] else []
  }

  ghost function StepOps(src: SourceConfig, labels: map<int, string>, active: Option<string>, i: Input): seq<Op>
    requires ValidInput(labels, i)
  {
    (var d := Picked(src, labels, active, i); if d.Some? then DetectionOps(src, d.value, i) else []) +
    [Feed(i.chunk)]
  }

  ghost function WorkerOps(s: Setup, src: SourceConfig, labels: map<int, string>, inputs: seq<Input>): seq<Op>
    requires forall i :: i in inputs ==> ValidInput(labels, i)
  {
    if inputs == [] then []
    else
      var before := WorkerOps(s, src, labels, Front(inputs));
      before + StepOps(src, labels, RunOps(s, before).rec.ActiveLabel(), Last(inputs))
  }

  // -- messages ------------------------------------------------------------------

  datatype Message = TriggerMessage(trigger: DetectionTrigger) | EventMessage(event: DetectionEvent)

  function MessageOf(s: Setup, o: Out): seq<Message> {
    match o
    case Alert(t) => [TriggerMessage(t)]
    case Saved(clip) => if clip.notified then [EventMessage(EventOf(s, clip))] else []
  }

  /** What the worker asks the publisher to send. */
  function Published(s: Setup, out: seq<Out>): seq<Message> {
    if out == [] then [] else Published(s, Front(out)) + MessageOf(s, Last(out))
  }

  /** What the worker offers to the event store. */
  function Offered(s: Setup, clips: seq<Clip>): seq<DetectionEvent> {
    if clips == [] then [] else Offered(s, Front(clips)) + [EventOf(s, Last(clips))]
  }

  /** Messages come in pairs: a trigger, then the event of the same capture with at
      least that score, before anything else is sent. */
  ghost predicate Paired(src: SourceConfig, msgs: seq<Message>) {
    forall i :: 0 <= i < |msgs| ==> InPlace(src, msgs, i)
  }

  predicate InPlace(src: SourceConfig, msgs: seq<Message>, i: nat)
    requires i < |msgs|
  {
    if i % 2 == 0 then IsLoudTrigger(src, msgs[i]) else Answers(msgs[i], msgs[i - 1])
  }

  predicate IsLoudTrigger(src: SourceConfig, m: Message) {
    m.TriggerMessage? && m.trigger.score >= src.NotifyThresholdFor(m.trigger.sound)
  }

  predicate Answers(e: Message, t: Message) {
    && e.EventMessage? && t.TriggerMessage?
    && e.event.id == t.trigger.id && e.event.source == t.trigger.source
    && e.event.sound == t.trigger.sound && e.event.score >= t.trigger.score
  }

  // -- groups a worker can produce ---------------------------------------------------

  /** The score of the first trigger call that reaches the limit. */
  function FirstLoud(limit: real, trigs: seq<Trig>): Option<real> {
    if trigs == [] then None
    else
      var earlier := FirstLoud(limit, Front(trigs));
      if earlier.Some? then earlier
      else if Last(trigs).score >= limit then Some(Last(trigs).score) else None
  }

  lemma {:induction false} FirstLoudIsUnderPeak(limit: real, first: Trig, rest: seq<Trig>)
    ensures FirstLoud(limit, [first] + rest).Some? <==> Peak(first.score, rest) >= limit
    ensures var x := FirstLoud(limit, [first] + rest); x.Some? ==> limit <= x.value <= Peak(first.score, rest)
  {
    var trigs := [first] + rest;
    if rest == [] {
      assert Front(trigs) == [];
    } else {
      assert Front(trigs) == [first] + Front(rest);
      FirstLoudIsUnderPeak(limit, first, Front(rest));
    }
  }

  ghost predicate HeardAs(src: SourceConfig, sound: string, t: Trig) {
    t.sound == sound && sound in src.listen && t.score >= src.DetectionThresholdFor(sound)
  }

  /** Every trigger of the group is a passing detection of its one label, and the
      group was announced with the first score that reached the notify threshold. */
  ghost predicate Faithful(src: SourceConfig, g: Group) {
    && (forall t :: t in g.Trigs() ==> HeardAs(src, g.first.sound, t))
    && FirstLoud(src.NotifyThresholdFor(g.first.sound), g.Trigs()) ==
       if g.notes == [] then None else Some(g.notes[0].score)
  }

  ghost predicate AllFaithful(src: SourceConfig, gs: seq<Group>) {
    forall k :: 0 <= k < |gs| ==> Faithful(src, gs[k])
  }

  /** The group that a passing detection leaves behind. */
  function Grown(src: SourceConfig, g: Group, t: Trig, note: Note): Group {
    Group(g.first, g.rest + [t], g.notes + if t.score >= src.NotifyThresholdFor(t.sound) then [note] else [])
  }

  function Opened(src: SourceConfig, t: Trig, note: Note): Group {
    Group(t, [], if t.score >= src.NotifyThresholdFor(t.sound) then [note] else [])
  }

  lemma GrownFaithful(src: SourceConfig, g: Group, t: Trig, note: Note)
    requires Faithful(src, g) && HeardAs(src, g.first.sound, t) && note.score == t.score
    ensures Faithful(src, Grown(src, g, t, note))
  {
    var g' := Grown(src, g, t, note);
    assert g'.Trigs() == g.Trigs() + [t];
    assert Front(g'.Trigs()) == g.Trigs();
    if g.notes != [] { assert g'.notes[0] == g.notes[0]; }
  }

  lemma OpenedFaithful(src: SourceConfig, t: Trig, note: Note)
    requires HeardAs(src, t.sound, t) && note.score == t.score
    ensures Faithful(src, Opened(src, t, note))
  {
    var g := Opened(src, t, note);
    assert g.Trigs() == [t] && Front(g.Trigs()) == [];
  }

  function DetectionTrig(n: nat, d: Detection, i: Input): Trig {
    Trig(n, d.sound, d.score, i.heardAt, i.mintedId)
  }

  function AfterDetection(src: SourceConfig, post: nat, n: nat, gs: seq<Group>, d: Detection, i: Input): seq<Group> {
    var t, note := DetectionTrig(n, d, i), Note(d.score, i.notedAt);
    if Live(post, n, gs) then Front(gs) + [Grown(src, Last(gs), t, note)] else gs + [Opened(src, t, note)]
  }

  lemma DetectionGroups(src: SourceConfig, post: nat, n: nat, gs: seq<Group>, d: Detection, i: Input)
    requires post >= 1 && (Live(post, n, gs) ==> d.sound == Last(gs).first.sound)
    ensures var heard := GroupStep(post, n, gs, Trigger(d.sound, d.score, i.heardAt, i.mintedId));
      AfterDetection(src, post, n, gs, d, i) ==
        if d.score >= src.NotifyThresholdFor(d.sound)
        then GroupStep(post, n, heard, Notify(d.sound, d.score, i.notedAt)) else heard
  {
    var heard := GroupStep(post, n, gs, Trigger(d.sound, d.score, i.heardAt, i.mintedId));
    var t, note := DetectionTrig(n, d, i), Note(d.score, i.notedAt);
    if Live(post, n, gs) {
      assert Last(heard) == Last(gs).(rest := Last(gs).rest + [t]);
      assert Front(heard) == Front(gs);
      assert Last(gs).notes + [] == Last(gs).notes;
    } else {
      assert Last(heard) == Group(t, [], []) && Front(heard) == gs;
      assert [] + [note] == [note];
    }
  }

  lemma AfterDetectionFaithful(src: SourceConfig, post: nat, n: nat, gs: seq<Group>, d: Detection, i: Input)
    requires AllFaithful(src, gs)
    requires d.sound in src.listen && d.score >= src.DetectionThresholdFor(d.sound)
    requires Live(post, n, gs) ==> d.sound == Last(gs).first.sound
    ensures AllFaithful(src, AfterDetection(src, post, n, gs, d, i))
  {
    var t, note := DetectionTrig(n, d, i), Note(d.score, i.notedAt);
    if Live(post, n, gs) {
      GrownFaithful(src, gs[|gs| - 1], t, note);
    } else {
      OpenedFaithful(src, t, note);
    }
  }

  lemma QuietStep(post: nat, before: seq<Op>, i: Input)
    ensures History(before + ([] + [Feed(i.chunk)])) == History(before) + [i.chunk]
    ensures Groups(post, before + ([] + [Feed(i.chunk)])) == Groups(post, before)
    ensures SnippetFacts.Triggers(before + ([] + [Feed(i.chunk)])) == SnippetFacts.Triggers(before)
  {
    SnippetFacts.Snoc(post, before, Feed(i.chunk));
    assert [] + [Feed(i.chunk)] == [Feed(i.chunk)];
  }

  lemma SoftStep(post: nat, before: seq<Op>, t: Op, i: Input)
    requires t.Trigger?
    ensures var ops := before + ([t] + [] + [Feed(i.chunk)]);
      && History(ops) == History(before) + [i.chunk]
      && Groups(post, ops) == GroupStep(post, |History(before)|, Groups(post, before), t)
      && SnippetFacts.Triggers(ops) ==
           SnippetFacts.Triggers(before) + [Trig(|History(before)|, t.sound, t.score, t.now, t.id)]
  {
    SnippetFacts.Snoc(post, before, t);
    SnippetFacts.Snoc(post, before + [t], Feed(i.chunk));
    assert before + ([t] + [] + [Feed(i.chunk)]) == before + [t] + [Feed(i.chunk)];
  }

  /** Groups and history after the calls that one detection leads to. */
  lemma StepGroups(s: Setup, src: SourceConfig, before: seq<Op>, d: Detection, i: Input)
    requires s.Valid()
    requires var gs := Groups(s.post, before);
      Live(s.post, |History(before)|, gs) ==> d.sound == Last(gs).first.sound
    ensures var ops := before + (DetectionOps(src, d, i) + [Feed(i.chunk)]);
      && History(ops) == History(before) + [i.chunk]
      && Groups(s.post, ops) == AfterDetection(src, s.post, |History(before)|, Groups(s.post, before), d, i)
  {
    var t, n := Trigger(d.sound, d.score, i.heardAt, i.mintedId), Notify(d.sound, d.score, i.notedAt);
    DetectionGroups(src, s.post, |History(before)|, Groups(s.post, before), d, i);
    if d.score >= src.NotifyThresholdFor(d.sound) {
      SnippetFacts.HeardStep(s.post, before, t, n, i.chunk);
    } else {
      SoftStep(s.post, before, t, i);
    }
  }

  lemma {:induction false} SelectPasses(src: SourceConfig, active: Option<string>, ds: seq<Detection>)
    ensures var r := Select(src, active, ds); r.Some? ==> Passes(src, active, r.value)
  {
    if ds != [] { SelectPasses(src, active, ds[1..]); }
  }

  /** The label a recorder run is capturing is that of its last, unfinished group. */
  lemma ActiveLabelOf(s: Setup, ops: seq<Op>)
    requires s.Valid()
    ensures var gs, n := Groups(s.post, ops), |History(ops)|;
      RunOps(s, ops).rec.ActiveLabel() == if Live(s.post, n, gs) then Some(Last(gs).first.sound) else None
  {
    RecorderRefinesGroups(s, ops);
    GroupsShaped(s.post, ops);
    ShapedSettled(s.post, |History(ops)|, Groups(s.post, ops));
  }

  lemma ChunkFaithful(s: Setup, src: SourceConfig, labels: map<int, string>, before: seq<Op>, i: Input)
    requires s.Valid() && ValidInput(labels, i) && AllFaithful(src, Groups(s.post, before))
    ensures var ops := before + StepOps(src, labels, RunOps(s, before).rec.ActiveLabel(), i);
      AllFaithful(src, Groups(s.post, ops)) && History(ops) == History(before) + [i.chunk]
  {
    var active := RunOps(s, before).rec.ActiveLabel();
    ActiveLabelOf(s, before);
    var d := Picked(src, labels, active, i);
    if d.Some? {
      SelectPasses(src, active, Reported(labels, Table(i.scores, i.ids), MinThreshold(src)));
      AfterDetectionFaithful(src, s.post, |History(before)|, Groups(s.post, before), d.value, i);
      StepGroups(s, src, before, d.value, i);
    } else {
      QuietStep(s.post, before, i);
    }
  }

  /** The chunks a run has fed, in order. */
  function Chunks(inputs: seq<Input>): seq<Chunk> {
    if inputs == [] then [] else Chunks(Front(inputs)) + [Last(inputs).chunk]
  }

  lemma {:induction false} ChunksLength(inputs: seq<Input>)
    ensures |Chunks(inputs)| == |inputs|
  {
    if inputs != [] { ChunksLength(Front(inputs)); }
  }

  /** Every group of every run of a worker is faithful. */
  lemma {:induction false} WorkerGroupsFaithful(
    s: Setup, src: SourceConfig, labels: map<int, string>, inputs: seq<Input>)
    requires s.Valid() && forall i :: i in inputs ==> ValidInput(labels, i)
    ensures AllFaithful(src, Groups(s.post, WorkerOps(s, src, labels, inputs)))
    ensures History(WorkerOps(s, src, labels, inputs)) == Chunks(inputs)
  {
    if inputs != [] {
      WorkerGroupsFaithful(s, src, labels, Front(inputs));
      ChunkFaithful(s, src, labels, WorkerOps(s, src, labels, Front(inputs)), Last(inputs));
    }
  }

  // -- the messages of a run --------------------------------------------------------------

  lemma {:induction false} PublishedConcat(s: Setup, a: seq<Out>, b: seq<Out>)
    ensures Published(s, a + b) == Published(s, a) + Published(s, b)
  {
    if b == [] {
      assert a + b == a;
    } else {
      var init, o := Front(b), Last(b);
      PublishedConcat(s, a, init);
      assert Front(a + b) == a + init && Last(a + b) == o;
      Associates(Published(s, a), Published(s, init), MessageOf(s, o));
    }
  }

  lemma PublishedOne(s: Setup, o: Out)
    ensures Published(s, [o]) == MessageOf(s, o)
  {
    assert Front([o]) == [];
  }

  function SavedMessages(s: Setup, h: seq<Chunk>, g: Group): seq<Message> {
    if g.Start(s.pre) <= g.Close(s.post) <= |h| then [EventMessage(EventOf(s, GroupClip(s, h, g)))] else []
  }

  /** What one capture says: nothing unless it was announced; then one trigger and, once
      it is finished, one event. */
  function Exchange(s: Setup, h: seq<Chunk>, g: Group): seq<Message> {
    if g.notes == [] then []
    else
      [TriggerMessage(DetectionTrigger(g.first.id, s.source, g.first.sound, g.notes[0].score, g.notes[0].now))] +
      SavedMessages(s, h, g)
  }

  function Exchanges(s: Setup, h: seq<Chunk>, gs: seq<Group>): seq<Message> {
    if gs == [] then [] else Exchanges(s, h, Front(gs)) + Exchange(s, h, Last(gs))
  }

  lemma PublishedGroup(s: Setup, h: seq<Chunk>, g: Group)
    ensures Published(s, GroupOut(s, h, g)) == Exchange(s, h, g)
  {
    PublishedConcat(s, AlertOut(s, g), SavedOut(s, h, g));
    if g.notes != [] { PublishedOne(s, AlertOut(s, g)[0]); }
    if SavedOut(s, h, g) != [] { PublishedOne(s, SavedOut(s, h, g)[0]); }
  }

  lemma {:induction false} PublishedExchanges(s: Setup, h: seq<Chunk>, gs: seq<Group>)
    ensures Published(s, FlatOut(s, h, gs)) == Exchanges(s, h, gs)
  {
    if gs != [] {
      PublishedExchanges(s, h, Front(gs));
      FlatPublished(s, h, gs);
      PublishedGroup(s, h, Last(gs));
    }
  }

  /** Over any run, the messages are those of each capture in turn: at most one trigger,
      and an event exactly for each finished capture that sent its trigger. */
  lemma MessagesByCapture(s: Setup, src: SourceConfig, labels: map<int, string>, inputs: seq<Input>)
    requires s.Valid() && forall i :: i in inputs ==> ValidInput(labels, i)
    ensures var ops := WorkerOps(s, src, labels, inputs);
      Published(s, RunOps(s, ops).out) == Exchanges(s, Chunks(inputs), Groups(s.post, ops))
  {
    var ops := WorkerOps(s, src, labels, inputs);
    WorkerGroupsFaithful(s, src, labels, inputs);
    RecorderRefinesGroups(s, ops);
    PublishedExchanges(s, Chunks(inputs), Groups(s.post, ops));
  }

  lemma GroupPaired(s: Setup, src: SourceConfig, h: seq<Chunk>, g: Group)
    requires Faithful(src, g)
    ensures Block(src, g, SavedOut(s, h, g) == [], Published(s, GroupOut(s, h, g)))
  {
    PublishedGroup(s, h, g);
    FirstLoudIsUnderPeak(src.NotifyThresholdFor(g.first.sound), g.first, g.rest);
    if g.notes != [] {
      var t := Exchange(s, h, g)[0];
      assert IsLoudTrigger(src, t);
      if SavedOut(s, h, g) != [] {
        assert Answers(EventMessage(EventOf(s, GroupClip(s, h, g))), t);
      }
    }
  }

  ghost predicate Block(src: SourceConfig, g: Group, unfinished: bool, m: seq<Message>) {
    && Paired(src, m)
    && |m| == (if g.notes == [] then 0 else if unfinished then 1 else 2)
    && (m != [] ==> m[0].TriggerMessage? && m[0].trigger.id == g.first.id)
  }

  /** All messages up to and including those of `g`. */
  ghost predicate Outgoing(src: SourceConfig, g: Group, unfinished: bool, m: seq<Message>) {
    && Paired(src, m)
    && |m| % 2 == (if g.notes != [] && unfinished then 1 else 0)
    && (|m| % 2 == 1 ==> Last(m).TriggerMessage? && Last(m).trigger.id == g.first.id)
  }

  lemma AppendBlock(src: SourceConfig, g: Group, unfinished: bool, a: seq<Message>, b: seq<Message>)
    requires Paired(src, a) && |a| % 2 == 0 && Block(src, g, unfinished, b)
    ensures Outgoing(src, g, unfinished, a + b)
  {
    PairedConcat(src, a, b);
    if |b| == 1 { assert Last(a + b) == b[0]; }
  }

  lemma PairedConcat(src: SourceConfig, a: seq<Message>, b: seq<Message>)
    requires Paired(src, a) && Paired(src, b) && |a| % 2 == 0
    ensures Paired(src, a + b)
  {
    var m := a + b;
    forall i | 0 <= i < |m|
      ensures InPlace(src, m, i)
    {
      if i < |a| {
        assert InPlace(src, a, i);
      } else {
        assert InPlace(src, b, i - |a|) && (i - |a|) % 2 == i % 2;
      }
    }
  }

  lemma FlatPublished(s: Setup, h: seq<Chunk>, gs: seq<Group>)
    requires gs != []
    ensures Published(s, FlatOut(s, h, gs)) ==
      Published(s, FlatOut(s, h, Front(gs))) + Published(s, GroupOut(s, h, Last(gs)))
  {
    PublishedConcat(s, FlatOut(s, h, Front(gs)), GroupOut(s, h, Last(gs)));
  }

  lemma OneMoreGroup(s: Setup, src: SourceConfig, h: seq<Chunk>, gs: seq<Group>)
    requires gs != [] && Faithful(src, Last(gs)) && EvenlyPaired(src, Published(s, FlatOut(s, h, Front(gs))))
    ensures Outgoing(src, Last(gs), SavedOut(s, h, Last(gs)) == [], Published(s, FlatOut(s, h, gs)))
  {
    var g := Last(gs);
    FlatPublished(s, h, gs);
    GroupPaired(s, src, h, g);
    AppendBlock(src, g, SavedOut(s, h, g) == [],
      Published(s, FlatOut(s, h, Front(gs))), Published(s, GroupOut(s, h, g)));
  }

  ghost predicate EvenlyPaired(src: SourceConfig, m: seq<Message>) {
    Paired(src, m) && |m| % 2 == 0
  }

  lemma {:induction false} FinishedGroupsPaired(s: Setup, src: SourceConfig, h: seq<Chunk>, gs: seq<Group>)
    requires AllFaithful(src, gs)
    requires forall k :: 0 <= k < |gs| ==> SavedOut(s, h, gs[k]) != []
    ensures EvenlyPaired(src, Published(s, FlatOut(s, h, gs)))
  {
    if gs != [] {
      FinishedGroupsPaired(s, src, h, Front(gs));
      assert Faithful(src, gs[|gs| - 1]) && SavedOut(s, h, gs[|gs| - 1]) != [];
      OneMoreGroup(s, src, h, gs);
    }
  }

  /** Everything before the last group is finished; the last is finished once its window closes. */
  lemma SavedIffFinished(s: Setup, h: seq<Chunk>, gs: seq<Group>)
    requires s.Valid() && gs != [] && Shaped(s.post, |h|, gs)
    ensures forall k :: 0 <= k < |gs| - 1 ==> SavedOut(s, h, gs[k]) != []
    ensures SavedOut(s, h, Last(gs)) == [] <==> |h| < Last(gs).Close(s.post)
  {
    ShapedSettled(s.post, |h|, gs);
    ShapedStarts(s, |h|, gs);
    assert gs[|gs| - 1].Start(s.pre) <= gs[|gs| - 1].Close(s.post);
  }

  lemma MessagesOfGroups(s: Setup, src: SourceConfig, h: seq<Chunk>, gs: seq<Group>)
    requires s.Valid() && gs != [] && Shaped(s.post, |h|, gs) && AllFaithful(src, gs)
    ensures Outgoing(src, Last(gs), |h| < Last(gs).Close(s.post), Published(s, FlatOut(s, h, gs)))
  {
    SavedIffFinished(s, h, gs);
    FinishedGroupsPaired(s, src, h, Front(gs));
    assert Faithful(src, gs[|gs| - 1]);
    OneMoreGroup(s, src, h, gs);
  }

  lemma MessagesOfRun(s: Setup, src: SourceConfig, ops: seq<Op>)
    requires s.Valid() && AllFaithful(src, Groups(s.post, ops)) && Groups(s.post, ops) != []
    ensures var g := Last(Groups(s.post, ops));
      Outgoing(src, g, |History(ops)| < g.Close(s.post), Published(s, RunOps(s, ops).out))
  {
    GroupsShaped(s.post, ops);
    RecorderRefinesGroups(s, ops);
    MessagesOfGroups(s, src, History(ops), Groups(s.post, ops));
  }

  lemma ActiveOfRun(s: Setup, ops: seq<Op>)
    requires s.Valid()
    ensures var gs, active := Groups(s.post, ops), RunOps(s, ops).rec.active;
      && (gs == [] ==> active == None && RunOps(s, ops).out == [])
      && (gs != [] ==> (active.Some? <==> |History(ops)| < Last(gs).Close(s.post)))
      && (active.Some? ==> active.value.id == Last(gs).first.id && (active.value.notified <==> Last(gs).notes != []))
  {
    RecorderRefinesGroups(s, ops);
    GroupsShaped(s.post, ops);
    ShapedSettled(s.post, |History(ops)|, Groups(s.post, ops));
  }

  /** Messages are paired; one is unanswered exactly while an announced capture is in
      progress, and then it is the last and carries that capture's id. */
  ghost predicate MessagesMatch(src: SourceConfig, run: Run, msgs: seq<Message>) {
    && Paired(src, msgs)
    && (|msgs| % 2 == 1 <==> run.rec.active.Some? && run.rec.active.value.notified)
    && (|msgs| % 2 == 1 ==> Last(msgs).TriggerMessage? && Last(msgs).trigger.id == run.rec.active.value.id)
  }

  /** Over any run: triggers and events alternate, each event answering the trigger
      just before it; an unanswered trigger is the last message, and belongs to the
      capture still in progress. */
  lemma MessagesPaired(s: Setup, src: SourceConfig, labels: map<int, string>, inputs: seq<Input>)
    requires s.Valid() && forall i :: i in inputs ==> ValidInput(labels, i)
    ensures var run := RunOps(s, WorkerOps(s, src, labels, inputs));
      MessagesMatch(src, run, Published(s, run.out))
  {
    WorkerGroupsFaithful(s, src, labels, inputs);
    FaithfulRunMatches(s, src, WorkerOps(s, src, labels, inputs));
  }

  lemma FaithfulRunMatches(s: Setup, src: SourceConfig, ops: seq<Op>)
    requires s.Valid() && AllFaithful(src, Groups(s.post, ops))
    ensures MessagesMatch(src, RunOps(s, ops), Published(s, RunOps(s, ops).out))
  {
    ActiveOfRun(s, ops);
    if Groups(s.post, ops) != [] {
      MessagesOfRun(s, src, ops);
      OutgoingMatches(src, Last(Groups(s.post, ops)), RunOps(s, ops), Published(s, RunOps(s, ops).out));
    }
  }

  lemma OutgoingMatches(src: SourceConfig, g: Group, run: Run, msgs: seq<Message>)
    requires Outgoing(src, g, run.rec.active.Some?, msgs)
    requires run.rec.active.Some? ==>
      run.rec.active.value.id == g.first.id && (run.rec.active.value.notified <==> g.notes != [])
    ensures MessagesMatch(src, run, msgs)
  {
  }

  lemma ShapedStarts(s: Setup, n: nat, gs: seq<Group>)
    requires Shaped(s.post, n, gs)
    ensures forall k :: 0 <= k < |gs| ==> gs[k].Start(s.pre) <= gs[k].Close(s.post)
  {
    forall k | 0 <= k < |gs| ensures gs[k].Start(s.pre) <= gs[k].Close(s.post) {
      assert Chained(s.post, n, gs[k]);
    }
  }

  /** Between chunks a capture is marked notified exactly when its peak score has
      reached the notify threshold of its label; so is every saved clip. */
  lemma NotifiedIffLoud(s: Setup, src: SourceConfig, labels: map<int, string>, inputs: seq<Input>)
    requires s.Valid() && forall i :: i in inputs ==> ValidInput(labels, i)
    ensures var run := RunOps(s, WorkerOps(s, src, labels, inputs));
      && (run.rec.active.Some? ==> var c := run.rec.active.value;
            c.notified <==> c.score >= src.NotifyThresholdFor(c.sound))
      && (forall clip :: clip in SnippetFacts.Clips(run.out) ==>
            (clip.notified <==> clip.score >= src.NotifyThresholdFor(clip.sound)) &&
            clip.sound in src.listen && clip.score >= src.DetectionThresholdFor(clip.sound))
  {
    var ops := WorkerOps(s, src, labels, inputs);
    WorkerGroupsFaithful(s, src, labels, inputs);
    RecorderRefinesGroups(s, ops);
    var h, gs := History(ops), Groups(s.post, ops);
    SnippetFacts.FlatOutClips(s, h, gs);
    forall k | 0 <= k < |gs|
      ensures gs[k].notes != [] <==> gs[k].PeakScore() >= src.NotifyThresholdFor(gs[k].first.sound)
      ensures gs[k].first.sound in src.listen && gs[k].PeakScore() >= src.DetectionThresholdFor(gs[k].first.sound)
    {
      assert Faithful(src, gs[k]);
      var g := gs[k];
      FirstLoudIsUnderPeak(src.NotifyThresholdFor(g.first.sound), g.first, g.rest);
      PeakAtLeastFirst(g.first.score, g.rest);
      assert g.first in g.Trigs();
    }
    forall clip | clip in SnippetFacts.Clips(RunOps(s, ops).out)
      ensures clip.notified <==> clip.score >= src.NotifyThresholdFor(clip.sound)
      ensures clip.sound in src.listen && clip.score >= src.DetectionThresholdFor(clip.sound)
    {
      var k := SnippetFacts.ClipComesFromGroup(s, h, gs, clip);
    }
  }

  lemma {:induction false} PeakAtLeastFirst(score: real, rest: seq<Trig>)
    ensures Peak(score, rest) >= score
  {
    if rest != [] { PeakAtLeastFirst(score, Front(rest)); }
  }

  /** The events of the finished groups, one each, in order. */
  ghost predicate OneEventEach(events: seq<DetectionEvent>, gs: seq<Group>) {
    |events| == |gs| &&
    forall k :: 0 <= k < |gs| ==> events[k].id == gs[k].first.id && events[k].score == gs[k].PeakScore()
  }

  /** Each finished group is offered to the store once, in order, and nothing else is. */
  lemma OfferedOncePerCapture(s: Setup, src: SourceConfig, labels: map<int, string>, inputs: seq<Input>)
    requires s.Valid() && forall i :: i in inputs ==> ValidInput(labels, i)
    ensures var ops := WorkerOps(s, src, labels, inputs);
      var gs := Groups(s.post, ops);
      OneEventEach(Offered(s, SnippetFacts.Clips(RunOps(s, ops).out)),
                   if Live(s.post, |inputs|, gs) then Front(gs) else gs)
  {
    var ops := WorkerOps(s, src, labels, inputs);
    WorkerGroupsFaithful(s, src, labels, inputs);
    RecorderRefinesGroups(s, ops);
    GroupsShaped(s.post, ops);
    ChunksLength(inputs);
    OfferedGroups(s, History(ops), Groups(s.post, ops));
  }

  lemma OfferedGroups(s: Setup, h: seq<Chunk>, gs: seq<Group>)
    requires Shaped(s.post, |h|, gs)
    ensures OneEventEach(Offered(s, SnippetFacts.Clips(FlatOut(s, h, gs))),
                         if Live(s.post, |h|, gs) then Front(gs) else gs)
  {
    var finished := if Live(s.post, |h|, gs) then Front(gs) else gs;
    SnippetFacts.FlatOutClips(s, h, gs);
    UnfinishedClips(s, h, gs);
    forall k | 0 <= k < |finished| ensures finished[k].Start(s.pre) <= finished[k].Close(s.post) <= |h| {
      ShapedSettled(s.post, |h|, gs);
      ShapedStarts(s, |h|, gs);
    }
    OfferedClosed(s, h, finished);
  }

  lemma UnfinishedClips(s: Setup, h: seq<Chunk>, gs: seq<Group>)
    ensures Live(s.post, |h|, gs) ==> SnippetFacts.GroupClips(s, h, gs) == SnippetFacts.GroupClips(s, h, Front(gs))
  {
  }

  lemma OneMoreEvent(events: seq<DetectionEvent>, gs: seq<Group>, e: DetectionEvent)
    requires gs != [] && OneEventEach(events, Front(gs)) && e.id == Last(gs).first.id && e.score == Last(gs).PeakScore()
    ensures OneEventEach(events + [e], gs)
  {
    forall k | 0 <= k < |gs|
      ensures (events + [e])[k].id == gs[k].first.id && (events + [e])[k].score == gs[k].PeakScore()
    {
      if k < |gs| - 1 { assert Front(gs)[k] == gs[k]; }
    }
  }

  lemma {:induction false} OfferedClosed(s: Setup, h: seq<Chunk>, gs: seq<Group>)
    requires forall k :: 0 <= k < |gs| ==> gs[k].Start(s.pre) <= gs[k].Close(s.post) <= |h|
    ensures OneEventEach(Offered(s, SnippetFacts.GroupClips(s, h, gs)), gs)
  {
    if gs != [] {
      OfferedClosed(s, h, Front(gs));
      assert gs[|gs| - 1].Start(s.pre) <= gs[|gs| - 1].Close(s.post) <= |h|;
      var e := OfferedGroup(s, h, gs);
      OneMoreEvent(Offered(s, SnippetFacts.GroupClips(s, h, Front(gs))), gs, e);
    }
  }

  lemma OfferedGroup(s: Setup, h: seq<Chunk>, gs: seq<Group>) returns (e: DetectionEvent)
    requires gs != [] && Last(gs).Start(s.pre) <= Last(gs).Close(s.post) <= |h|
    ensures Offered(s, SnippetFacts.GroupClips(s, h, gs)) == Offered(s, SnippetFacts.GroupClips(s, h, Front(gs))) + [e]
    ensures e.id == Last(gs).first.id && e.score == Last(gs).PeakScore()
  {
    OfferedSnoc(s, SnippetFacts.GroupClips(s, h, Front(gs)), GroupClip(s, h, Last(gs)));
    e := EventOf(s, GroupClip(s, h, Last(gs)));
  }

  lemma OfferedSnoc(s: Setup, clips: seq<Clip>, c: Clip)
    ensures Offered(s, clips + [c]) == Offered(s, clips) + [EventOf(s, c)]
  {
    assert Front(clips + [c]) == clips;
  }

  // -- files over a whole run ------------------------------------------------------------------

  ghost predicate ClockAdvances(inputs: seq<Input>) {
    && (forall k :: 0 <= k < |inputs| ==> inputs[k].heardAt >= 0.0)
    && (forall k, m :: 0 <= k < m < |inputs| && m == k + 1 ==>
          inputs[m].heardAt - inputs[k].heardAt >= AUDIO_DURATION)
  }

  lemma {:induction false} ClockGap(inputs: seq<Input>, i: nat, j: nat)
    requires ClockAdvances(inputs) && i <= j < |inputs|
    ensures inputs[j].heardAt - inputs[i].heardAt >= (j - i) as real * AUDIO_DURATION
    decreases j
  {
    if i < j {
      ClockGap(inputs, i, j - 1);
      assert (j - i) as real == (j - 1 - i) as real + 1.0;
    }
  }

  lemma StepTriggers(before: seq<Op>, src: SourceConfig, d: Option<Detection>, i: Input)
    ensures
      SnippetFacts.Triggers(before + ((if d.Some? then DetectionOps(src, d.value, i) else []) + [Feed(i.chunk)])) ==
      SnippetFacts.Triggers(before) + if d.Some? then [DetectionTrig(|History(before)|, d.value, i)] else []
  {
    if d.None? {
      QuietStep(0, before, i);
    } else {
      var t := Trigger(d.value.sound, d.value.score, i.heardAt, i.mintedId);
      var n := Notify(d.value.sound, d.value.score, i.notedAt);
      if d.value.score >= src.NotifyThresholdFor(d.value.sound) {
        SnippetFacts.HeardStep(0, before, t, n, i.chunk);
      } else {
        SoftStep(0, before, t, i);
      }
    }
  }

  /** A trigger carries the clock reading of the chunk it was heard on. */
  ghost predicate OnTheClock(inputs: seq<Input>, t: Trig) {
    t.at < |inputs| && t.now == inputs[t.at].heardAt
  }

  lemma {:induction false} TriggersOnTheClock(s: Setup, src: SourceConfig, labels: map<int, string>, inputs: seq<Input>)
    requires s.Valid() && forall i :: i in inputs ==> ValidInput(labels, i)
    ensures forall t :: t in SnippetFacts.Triggers(WorkerOps(s, src, labels, inputs)) ==> OnTheClock(inputs, t)
  {
    if inputs != [] {
      var before, i := WorkerOps(s, src, labels, Front(inputs)), Last(inputs);
      TriggersOnTheClock(s, src, labels, Front(inputs));
      WorkerGroupsFaithful(s, src, labels, Front(inputs));
      ChunksLength(Front(inputs));
      StepTriggers(before, src, Picked(src, labels, RunOps(s, before).rec.ActiveLabel(), i), i);
      forall t | t in SnippetFacts.Triggers(before) ensures OnTheClock(inputs, t) {
        assert OnTheClock(Front(inputs), t);
      }
    }
  }

  lemma PacedWorker(s: Setup, src: SourceConfig, labels: map<int, string>, inputs: seq<Input>)
    requires s.Valid() && (forall i :: i in inputs ==> ValidInput(labels, i)) && ClockAdvances(inputs)
    ensures SnippetFacts.Paced(SnippetFacts.Triggers(WorkerOps(s, src, labels, inputs)))
  {
    TriggersOnTheClock(s, src, labels, inputs);
    var trigs := SnippetFacts.Triggers(WorkerOps(s, src, labels, inputs));
    forall i, j | 0 <= i < |trigs| && 0 <= j < |trigs| && trigs[i].at <= trigs[j].at
      ensures trigs[j].now - trigs[i].now >= (trigs[j].at - trigs[i].at) as real * AUDIO_DURATION
    {
      assert OnTheClock(inputs, trigs[i]) && OnTheClock(inputs, trigs[j]);
      ClockGap(inputs, trigs[i].at, trigs[j].at);
    }
    forall i | 0 <= i < |trigs| ensures trigs[i].now >= 0.0 {
      assert OnTheClock(inputs, trigs[i]);
    }
  }

  /** A run of the worker with the clock advancing a chunk length per chunk, and one of its clips. */
  ghost predicate PacedClip(s: Setup, src: SourceConfig, labels: map<int, string>, inputs: seq<Input>, clip: Clip) {
    && (forall i :: i in inputs ==> ValidInput(labels, i))
    && ClockAdvances(inputs)
    && clip in SnippetFacts.Clips(RunOps(s, WorkerOps(s, src, labels, inputs)).out)
  }

  lemma SetupLengths(src: SourceConfig, dir: string)
    ensures var s := MakeSetup(src.name, dir, src.preCapture, src.postCapture);
      s.Valid() && (s.post >= 2 <==> src.postCapture > AUDIO_DURATION)
  {
    SnippetFacts.ChunksCoverRequest(src.postCapture);
    SnippetFacts.ChunksCoverRequest(src.preCapture);
    var n := ChunksFor(src.postCapture);
    if n >= 2 { assert (n - 1) as real * AUDIO_DURATION >= AUDIO_DURATION; }
  }

  /** A worker that listens to some label of the model never replaces an earlier snippet,
      whatever it hears while the clock advances a chunk length per chunk, exactly when its
      post-capture time is longer than one chunk. */
  lemma WorkerNeverOverwritesIff(src: SourceConfig, dir: string, labels: map<int, string>, classes: nat, c: nat)
    requires src.Valid() && classes > TOP && c < classes && forall k :: 0 <= k < classes ==> k in labels
    requires labels[c] in src.listen
    ensures var s := MakeSetup(src.name, dir, src.preCapture, src.postCapture);
      (forall inputs, clip | PacedClip(s, src, labels, inputs, clip) ::
         SnippetFacts.Survives(s, WorkerOps(s, src, labels, inputs), clip)) <==>
      src.postCapture > AUDIO_DURATION
  {
    var s := MakeSetup(src.name, dir, src.preCapture, src.postCapture);
    SetupLengths(src, dir);
    if src.postCapture > AUDIO_DURATION {
      forall inputs, clip | PacedClip(s, src, labels, inputs, clip)
        ensures SnippetFacts.Survives(s, WorkerOps(s, src, labels, inputs), clip)
      {
        PacedWorker(s, src, labels, inputs);
        SnippetFacts.NoSnippetOverwrittenIff(s);
      }
    } else {
      var inputs, first := TwoLoudChunks(s, src, labels, classes, c);
      assert PacedClip(s, src, labels, inputs, first);
    }
  }

  function LoudInput(src: SourceConfig, chunk: Chunk, scores: seq<real>, ids: seq<nat>, at: real, id: string): Input {
    Input(chunk, src.minVolume, scores, ids, at, at, id)
  }

  lemma LoudStepOps(src: SourceConfig, labels: map<int, string>, sound: string, i: Input)
    requires src.Valid() && sound in src.listen && ValidInput(labels, i) && i.rms >= src.minVolume
    requires Pick(src, None, labels, i.scores, i.ids) == Some(Detection(sound, 1.0))
    ensures StepOps(src, labels, None, i) ==
      SnippetFacts.HeardChunk(Trigger(sound, 1.0, i.heardAt, i.mintedId), Notify(sound, 1.0, i.notedAt), i.chunk)
  {
    assert src.NotifyThresholdFor(sound) <= 1.0;
  }

  lemma TwoLoudChunks(s: Setup, src: SourceConfig, labels: map<int, string>, classes: nat, c: nat)
    returns (inputs: seq<Input>, first: Clip)
    requires s.Valid() && s.post == 1
    requires src.Valid() && classes > TOP && c < classes && forall k :: 0 <= k < classes ==> k in labels
    requires labels[c] in src.listen
    ensures PacedClip(s, src, labels, inputs, first)
    ensures !SnippetFacts.Survives(s, WorkerOps(s, src, labels, inputs), first)
  {
    var scores, ids := LoudScores(src, labels, classes, c);
    var silence: Chunk := seq(CHUNK_BYTES, _ => 0);
    inputs, first := TwoLoudInputs(s, src, labels, labels[c], silence, scores, ids);
  }

  lemma TwoLoudInputs(s: Setup, src: SourceConfig, labels: map<int, string>, sound: string, chunk: Chunk,
                      scores: seq<real>, ids: seq<nat>)
    returns (inputs: seq<Input>, first: Clip)
    requires s.Valid() && s.post == 1 && src.Valid() && sound in src.listen
    requires ValidRanking(scores, ids) && Labelled(labels, scores)
    requires Pick(src, None, labels, scores, ids) == Some(Detection(sound, 1.0))
    ensures PacedClip(s, src, labels, inputs, first)
    ensures !SnippetFacts.Survives(s, WorkerOps(s, src, labels, inputs), first)
  {
    var i, j := LoudInput(src, chunk, scores, ids, 0.0, "a"), LoudInput(src, chunk, scores, ids, AUDIO_DURATION, "b");
    inputs := [i, j];
    LoudStepOps(src, labels, sound, i);
    LoudStepOps(src, labels, sound, j);
    first := TwoLoudRun(s, src, labels, sound, i, j);
  }

  lemma TwoLoudRun(s: Setup, src: SourceConfig, labels: map<int, string>, sound: string, i: Input, j: Input)
    returns (first: Clip)
    requires s.Valid() && s.post == 1 && ValidInput(labels, i) && ValidInput(labels, j)
    requires StepOps(src, labels, None, i) ==
      SnippetFacts.HeardChunk(Trigger(sound, 1.0, i.heardAt, i.mintedId), Notify(sound, 1.0, i.notedAt), i.chunk)
    requires StepOps(src, labels, None, j) ==
      SnippetFacts.HeardChunk(Trigger(sound, 1.0, j.heardAt, j.mintedId), Notify(sound, 1.0, j.notedAt), j.chunk)
    requires i.heardAt == 0.0 && j.heardAt == AUDIO_DURATION
    ensures first in SnippetFacts.Clips(RunOps(s, WorkerOps(s, src, labels, [i, j])).out)
    ensures !SnippetFacts.Survives(s, WorkerOps(s, src, labels, [i, j]), first)
  {
    var t1, n1 := Trigger(sound, 1.0, i.heardAt, i.mintedId), Notify(sound, 1.0, i.notedAt);
    var t2, n2 := Trigger(sound, 1.0, j.heardAt, j.mintedId), Notify(sound, 1.0, j.notedAt);
    var one := [] + SnippetFacts.HeardChunk(t1, n1, i.chunk);
    assert Front([i]) == [] && Front([i, j]) == [i];
    assert WorkerOps(s, src, labels, []) == [];
    assert WorkerOps(s, src, labels, [i]) == one;
    SnippetFacts.HeardWhileIdle(s, [], t1, n1, i.chunk);
    assert WorkerOps(s, src, labels, [i, j]) == one + SnippetFacts.HeardChunk(t2, n2, j.chunk);
    var second;
    first, second := SnippetFacts.SecondReplacesFirst(s, t1, n1, i.chunk, t2, n2, j.chunk);
  }
}
