/** The per-source worker object: classify a chunk, drive the recorder, publish and
    store what comes out of it. */
module Worker {
  import opened Util
  import opened AudioFormat
  import opened Sources
  import opened Detector
  import opened Snippet
  import opened Recording
  import opened WorkerSpec
  import SnippetFacts

  class SourceWorker {
    const source: SourceConfig
    const labels: map<int, string>
    const recorder: SnippetRecorder

    /** Attempted MQTT messages and events offered to the store, oldest first.  A
        failing publisher or store is logged and ignored, so these are attempts. */
    var published: seq<Message>
    var offered: seq<DetectionEvent>

    ghost var inputs: seq<Input>

    ghost predicate Valid()
      reads this, recorder, recorder.active
    {
      && recorder.setup.Valid() && recorder.setup.source == source.name
      && (forall i :: i in inputs ==> ValidInput(labels, i))
      && recorder.Now() == RunOps(recorder.setup, WorkerOps(recorder.setup, source, labels, inputs))
      && InStep()
    }

    constructor (source: SourceConfig, labels: map<int, string>, snippetDir: string)
      ensures Valid() && this.source == source && this.labels == labels && inputs == []
      ensures recorder.setup == MakeSetup(source.name, snippetDir, source.preCapture, source.postCapture)
    {
      this.source, this.labels := source, labels;
      recorder := new SnippetRecorder(source.name, snippetDir, source.preCapture, source.postCapture);
      published, offered, inputs := [], [], [];
    }

    /** `_process_chunk` */
    method ProcessChunk(i: Input)
      requires Valid() && ValidInput(labels, i)
      modifies this`published, this`offered, this`inputs, recorder, recorder.active
      ensures Valid() && inputs == old(inputs) + [i]
      ensures recorder.active == old(recorder.active) || recorder.active == null || fresh(recorder.active)
    {
      Listen(i);
      Deliver(i.chunk);
      WorkerRunSnoc(recorder.setup, source, labels, inputs, i);
      inputs := inputs + [i];
    }

    /** Below the volume gate the classifier is not run. */
    method Listen(i: Input)
      requires InStep() && ValidInput(labels, i)
      modifies this`published, recorder, recorder.active
      ensures InStep()
      ensures var run := old(recorder.Now());
        recorder.Now() == AfterHeard(recorder.setup, source, run, Picked(source, labels, run.rec.ActiveLabel(), i), i)
      ensures recorder.active == old(recorder.active) || fresh(recorder.active)
    {
      if i.rms >= source.minVolume {
        var detections := Detect(labels, i.scores, i.ids, MinThreshold(source));
        var heard := Consider(detections, i);
      }
    }

    ghost predicate InStep()
      reads this, recorder, recorder.active
    {
      && published == Published(recorder.setup, recorder.log)
      && offered == Offered(recorder.setup, SnippetFacts.Clips(recorder.log))
      && recorder.disk == SnippetFacts.DiskAfter(recorder.setup, recorder.log)
    }

    /** The loop over the reported detections: act on the first that passes. */
    method Consider(detections: seq<Detection>, i: Input) returns (ghost heard: Option<Detection>)
      requires InStep()
      modifies this`published, recorder, recorder.active
      ensures InStep()
      ensures heard == Select(source, old(recorder.Now()).rec.ActiveLabel(), detections)
      ensures heard.None? <==> forall d :: d in detections ==>
        !(d.sound in source.listen && (old(recorder.active) == null || old(recorder.active).sound == d.sound)
          && d.score >= source.DetectionThresholdFor(d.sound))
      ensures recorder.Now() == AfterHeard(recorder.setup, source, old(recorder.Now()), heard, i)
      ensures recorder.active == old(recorder.active) || fresh(recorder.active)
    {
      heard := None;
      for k := 0 to |detections|
        invariant unchanged(this) && unchanged(recorder)
        invariant recorder.active != null ==> unchanged(recorder.active)
        invariant forall j :: 0 <= j < k ==>
          !(detections[j].sound in source.listen
            && (recorder.active == null || recorder.active.sound == detections[j].sound)
            && detections[j].score >= source.DetectionThresholdFor(detections[j].sound))
        invariant Select(source, recorder.Now().rec.ActiveLabel(), detections) ==
                  Select(source, recorder.Now().rec.ActiveLabel(), detections[k..])
      {
        var d := detections[k];
        assert detections[k..][0] == d && detections[k..][1..] == detections[k + 1..];
        if d.sound !in source.listen {
          continue;
        }
        if recorder.active != null && d.sound != recorder.active.sound {
          continue;
        }
        if d.score < source.DetectionThresholdFor(d.sound) {
          continue;
        }
        heard := Some(d);
        Act(d, i);
        return;
      }
    }

    /** Start or extend the capture, and announce it once it is loud enough. */
    method Act(d: Detection, i: Input)
      requires InStep()
      modifies this`published, recorder, recorder.active
      ensures InStep()
      ensures recorder.Now() == AfterHeard(recorder.setup, source, old(recorder.Now()), Some(d), i)
      ensures recorder.active == old(recorder.active) || fresh(recorder.active)
    {
      ghost var logBefore := recorder.log;
      var _ := recorder.Trigger(d.sound, d.score, i.heardAt, i.mintedId);
      var trigger := None;
      if d.score >= source.NotifyThresholdFor(d.sound) {
        trigger := recorder.Notify(d.sound, d.score, i.notedAt);
      }
      AlertLogged(recorder.setup, logBefore, recorder.log, trigger);
      if trigger.Some? {
        published := published + [TriggerMessage(trigger.value)];
      }
    }

    /** Feed the chunk; store and publish the event if it finishes a capture. */
    method Deliver(chunk: Chunk)
      requires InStep()
      modifies this`published, this`offered, recorder, recorder.active
      ensures InStep() && recorder.Now() == Apply(recorder.setup, old(recorder.Now()), Feed(chunk))
      ensures recorder.active == old(recorder.active) || recorder.active == null
    {
      ghost var outBefore := recorder.log;
      var event := recorder.AddChunk(chunk);
      if event.Some? {
        PublishedSnoc(recorder.setup, outBefore, Last(recorder.log));
        OfferedSnoc(recorder.setup, SnippetFacts.Clips(outBefore), Last(recorder.log).clip);
        SnippetFacts.DiskSnoc(recorder.setup, outBefore, Last(recorder.log).clip);
        offered := offered + [event.value];
        if event.value.notified {
          published := published + [EventMessage(event.value)];
        }
      }
    }
  }

  /** The recorder after the calls one detection leads to. */
  function AfterHeard(s: Setup, src: SourceConfig, run: Run, heard: Option<Detection>, i: Input): Run {
    if heard.None? then run
    else
      var d := heard.value;
      var triggered := Apply(s, run, Trigger(d.sound, d.score, i.heardAt, i.mintedId));
      if d.score >= src.NotifyThresholdFor(d.sound) then Apply(s, triggered, Notify(d.sound, d.score, i.notedAt))
      else triggered
  }

  lemma RunOfDetection(s: Setup, src: SourceConfig, before: seq<Op>, heard: Option<Detection>, i: Input)
    ensures RunOps(s, before + ((if heard.Some? then DetectionOps(src, heard.value, i) else []) + [Feed(i.chunk)])) ==
      Apply(s, AfterHeard(s, src, RunOps(s, before), heard, i), Feed(i.chunk))
  {
    if heard.None? {
      assert [] + [Feed(i.chunk)] == [Feed(i.chunk)];
      RunSnoc(s, before, Feed(i.chunk));
    } else {
      var d := heard.value;
      var t, n := Trigger(d.sound, d.score, i.heardAt, i.mintedId), Notify(d.sound, d.score, i.notedAt);
      if d.score >= src.NotifyThresholdFor(d.sound) {
        RunOfThree(s, before, t, n, Feed(i.chunk));
      } else {
        RunOfTwo(s, before, t, Feed(i.chunk));
      }
    }
  }

  lemma RunOfTwo(s: Setup, before: seq<Op>, a: Op, b: Op)
    ensures RunOps(s, before + ([a] + [] + [b])) == Apply(s, Apply(s, RunOps(s, before), a), b)
  {
    Regroup(before, [a], [], b);
    assert before + ([a] + []) == before + [a];
    RunSnoc(s, before, a);
    RunSnoc(s, before + [a], b);
  }

  lemma RunOfThree(s: Setup, before: seq<Op>, a: Op, b: Op, c: Op)
    ensures RunOps(s, before + ([a] + [b] + [c])) == Apply(s, Apply(s, Apply(s, RunOps(s, before), a), b), c)
  {
    Regroup(before, [a], [b], c);
    Associates(before, [a], [b]);
    RunSnoc(s, before, a);
    RunSnoc(s, before + [a], b);
    RunSnoc(s, before + [a] + [b], c);
  }

  lemma Regroup<T>(x: seq<T>, y: seq<T>, z: seq<T>, last: T)
    ensures x + (y + z + [last]) == x + (y + z) + [last]
  {
  }

  lemma WorkerRunSnoc(s: Setup, src: SourceConfig, labels: map<int, string>, inputs: seq<Input>, i: Input)
    requires ValidInput(labels, i) && forall j :: j in inputs ==> ValidInput(labels, j)
    ensures var run := RunOps(s, WorkerOps(s, src, labels, inputs));
      RunOps(s, WorkerOps(s, src, labels, inputs + [i])) ==
      Apply(s, AfterHeard(s, src, run, Picked(src, labels, run.rec.ActiveLabel(), i), i), Feed(i.chunk))
  {
    assert Front(inputs + [i]) == inputs;
    var before := WorkerOps(s, src, labels, inputs);
    RunOfDetection(s, src, before, Picked(src, labels, RunOps(s, before).rec.ActiveLabel(), i), i);
  }

  lemma AlertLogged(s: Setup, log: seq<Out>, log': seq<Out>, t: Option<DetectionTrigger>)
    requires log' == log + if t.Some? then [Alert(t.value)] else []
    ensures Published(s, log') == if t.Some? then Published(s, log) + [TriggerMessage(t.value)] else Published(s, log)
    ensures SnippetFacts.Clips(log') == SnippetFacts.Clips(log)
  {
    if t.Some? {
      PublishedSnoc(s, log, Alert(t.value));
    } else {
      assert log' == log;
    }
  }

  lemma PublishedSnoc(s: Setup, out: seq<Out>, o: Out)
    ensures Published(s, out + [o]) == Published(s, out) + MessageOf(s, o)
    ensures SnippetFacts.Clips(out + [o]) ==
      if o.Saved? then SnippetFacts.Clips(out) + [o.clip] else SnippetFacts.Clips(out)
  {
    assert Front(out + [o]) == out;
  }
}
