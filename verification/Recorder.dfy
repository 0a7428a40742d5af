/** The recorder as the program runs it: an object holding the pre-roll buffer and
    the active capture, both updated in place.  Each method is tied to one `Op` of
    `Snippet`, so everything proved there holds of the object. */
module Recording {
  import opened Util
  import opened AudioFormat
  import opened Snippet

  class ActiveCapture {
    const id: string
    const sound: string
    var score: real
    const timestamp: real
    const preChunks: seq<Chunk>
    var postChunks: seq<Chunk>
    var chunksRemaining: int
    var notified: bool

    constructor (id: string, sound: string, score: real, timestamp: real,
                 preChunks: seq<Chunk>, chunksRemaining: int)
      ensures Value() == Capture(id, sound, score, timestamp, preChunks, [], chunksRemaining, false)
    {
      this.id, this.sound, this.score, this.timestamp := id, sound, score, timestamp;
      this.preChunks, this.postChunks := preChunks, [];
      this.chunksRemaining, this.notified := chunksRemaining, false;
    }

    ghost function Value(): Capture
      reads this
    {
      Capture(id, sound, score, timestamp, preChunks, postChunks, chunksRemaining, notified)
    }
  }

  class SnippetRecorder {
    const setup: Setup
    var preBuffer: seq<Chunk>
    var active: ActiveCapture?
    /** The WAV files written so far, by path. */
    var disk: map<string, seq<Chunk>>

    /** Everything handed out so far. */
    ghost var log: seq<Out>

    /** The recorder as a value of the specification. */
    ghost function Now(): Run
      reads this, active
    {
      Run(Recorder(preBuffer, if active == null then None else Some(active.Value())), log)
    }

    constructor (source: string, dir: string, preCapture: real, postCapture: real)
      ensures setup == MakeSetup(source, dir, preCapture, postCapture)
      ensures Now() == RunOps(setup, []) && disk == map[] && active == null
    {
      setup := MakeSetup(source, dir, preCapture, postCapture);
      preBuffer, active, disk, log := [], null, map[], [];
    }

    method Trigger(sound: string, score: real, now: real, freshId: string)
      returns (trigger: Option<DetectionTrigger>)
      modifies this`active, active
      ensures Now() == Apply(setup, old(Now()), Op.Trigger(sound, score, now, freshId))
      ensures active == old(active) || fresh(active)
      ensures trigger ==
        if old(active) != null then None else Some(DetectionTrigger(freshId, setup.source, sound, score, now))
    {
      if active == null {
        active := new ActiveCapture(freshId, sound, score, now, preBuffer, setup.post);
        trigger := Some(DetectionTrigger(freshId, setup.source, sound, score, now));
      } else {
        active.chunksRemaining := setup.post;
        active.score := MaxReal(active.score, score);
        trigger := None;
      }
    }

    method Notify(sound: string, score: real, now: real) returns (trigger: Option<DetectionTrigger>)
      modifies this`log, active
      ensures Now() == Apply(setup, old(Now()), Op.Notify(sound, score, now))
      ensures log == old(log) + if trigger.Some? then [Alert(trigger.value)] else []
      ensures trigger.Some? <==> old(active != null && !active.notified && active.sound == sound)
    {
      if active == null || active.notified || active.sound != sound {
        return None;
      }
      active.notified := true;
      trigger := Some(DetectionTrigger(active.id, setup.source, active.sound, score, now));
      log := log + [Alert(trigger.value)];
    }

    method AddChunk(chunk: Chunk) returns (event: Option<DetectionEvent>)
      modifies this`preBuffer, this`active, this`disk, this`log, active
      ensures Now() == Apply(setup, old(Now()), Feed(chunk))
      ensures active == old(active) || active == null
      ensures event.None? ==> log == old(log) && disk == old(disk)
      ensures event.Some? ==> log != [] && Last(log).Saved? && log == old(log) + [Last(log)]
      ensures event.Some? ==> event.value == EventOf(setup, Last(log).clip)
      ensures event.Some? ==> disk == old(disk)[event.value.file := Last(log).clip.audio]
    {
      preBuffer := Pushed(preBuffer, chunk, setup.pre);
      if active == null {
        return None;
      }
      active.postChunks := active.postChunks + [chunk];
      active.chunksRemaining := active.chunksRemaining - 1;
      if active.chunksRemaining > 0 {
        return None;
      }
      event := WriteOut();
      active := null;
    }

    /** `_finalize`: name the file, write the audio, describe the event. */
    method WriteOut() returns (event: Option<DetectionEvent>)
      requires active != null
      modifies this`disk, this`log
      ensures var clip := Finalize(active.Value());
        && event == Some(EventOf(setup, clip))
        && disk == old(disk)[event.value.file := clip.audio]
        && log == old(log) + [Saved(clip)]
    {
      var allChunks := active.preChunks + active.postChunks;
      var path := JoinPath(setup.dir, FileName(setup, active.sound, active.timestamp));
      disk := disk[path := allChunks];
      event := Some(DetectionEvent(active.id, setup.source, active.sound, active.score, active.timestamp,
        path, |allChunks| as real * AUDIO_DURATION, active.notified));
      log := log + [Saved(Finalize(active.Value()))];
    }
  }
}
