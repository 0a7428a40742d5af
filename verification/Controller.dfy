/** The application controller: source list, source directory, worker table and retained
    discovery messages, moved together by each settings call.  Calls here run one at a
    time; `Interleaving` says what overlapping ones can do. */
module Controller {
  import opened Util
  import opened Sources
  import opened SourceRules
  import opened Directory
  import opened Registry
  import opened SourceFiles
  import opened WorkerTable
  import opened Discovery
  import opened Publisher
  import opened Worlds

  class AppController {
    var sources: seq<SourceConfig>
    const dir: SourceDirectory
    const publisher: MqttPublisher
    var workers: map<string, Entry>
    var nextSerial: nat

    ghost const defaults: SourceDefaults
    ghost var trace: seq<Life>
    /** The broker's discovery messages are known to match the sources. */
    ghost var mirrored: bool

    ghost function Reg(): Catalog
      reads this, dir
    {
      Catalog(sources, dir.files)
    }

    ghost function Tab(): Table
      reads this
    {
      Table(workers, nextSerial, trace)
    }

    ghost function Now(): World
      reads this, dir, publisher.broker
    {
      World(Reg(), Tab(), publisher.broker.retained)
    }

    ghost predicate Valid()
      reads this, dir, publisher, publisher.broker
    {
      dir.Valid() && Sound(publisher.config, defaults, mirrored, Now())
    }

    /** `__init__` and `start`: one worker per loaded source. */
    constructor (sources: seq<SourceConfig>, dir: SourceDirectory, publisher: MqttPublisher,
                 ghost defaults: SourceDefaults)
      requires dir.Valid() && Inv(Catalog(sources, dir.files), defaults)
      ensures Valid() && this.sources == sources && this.dir == dir && this.publisher == publisher
      ensures Tab() == StartAll(sources) && !mirrored
    {
      this.sources, this.dir, this.publisher, this.defaults := sources, dir, publisher, defaults;
      workers, nextSerial, trace, mirrored := map[], 0, [], false;
      new;
      for i := 0 to |sources|
        invariant this.sources == sources && !mirrored && Tab() == StartAll(sources[..i])
      {
        StartWorker(sources[i]);
        assert Front(sources[..i + 1]) == sources[..i];
      }
      assert sources[..|sources|] == sources;
      StartAllMatches(sources);
    }

    // -- workers ------------------------------------------------------------------------

    method StartWorker(source: SourceConfig)
      modifies this`workers, this`nextSerial, this`trace
      ensures Tab() == Start(old(Tab()), source)
    {
      workers := workers[source.name := Entry(nextSerial, source)];
      trace := trace + [Started(nextSerial)];
      nextSerial := nextSerial + 1;
    }

    /** Take the worker out of the table, set its stop flag, then stop its audio source. */
    method StopWorker(name: string)
      modifies this`workers, this`trace
      ensures Tab() == Stop(old(Tab()), name)
    {
      if name !in workers {
        return;
      }
      var entry := workers[name];
      workers := workers - {name};
      trace := trace + [FlagSet(entry.serial)];
      trace := trace + [AudioStopped(entry.serial)];
      assert trace == old(trace) + [FlagSet(entry.serial), AudioStopped(entry.serial)];
    }

    // -- the lock-held edits ---------------------------------------------------------------

    method FindIndex(name: string) returns (index: Option<nat>)
      ensures index.None? <==> !HasName(sources, name)
      ensures index.Some? ==> index.value == IndexOf(sources, name)
    {
      for i := 0 to |sources|
        invariant forall j :: 0 <= j < i ==> sources[j].name != name
      {
        if sources[i].name == name {
          assert HasName(sources, name);
          return Some(i);
        }
      }
      index := None;
    }

    /** `save_source` while every source file parses. */
    method WriteSource(source: SourceConfig, tmp: string)
      requires dir.Valid() && Good(dir.files, ReaderFor(defaults)) && TempName(tmp) && tmp !in dir.files
      modifies dir
      ensures dir.Valid() && dir.files == Save(old(dir.files), source)
      ensures old(dir.history) <= dir.history
      ensures forall k :: |old(dir.history)| <= k < |dir.history| ==>
        CrashedSave(old(dir.files), source, dir.history[k])
    {
      ghost var before := dir.files;
      NoneJunk(before, ReaderFor(defaults));
      var saved, p := dir.SaveSource(source, tmp);
      NameUnique(before, ReaderFor(defaults), source.name);
      assert p == SavePath(before, source.name);
    }

    /** `delete_source_file` while every source file parses. */
    method EraseSource(name: string)
      requires dir.Valid() && Good(dir.files, ReaderFor(defaults))
      modifies dir
      ensures dir.Valid() && dir.files == Remove(old(dir.files), name)
      ensures dir.history == old(dir.history) || dir.history == old(dir.history) + [dir.files]
    {
      NoneJunk(dir.files, ReaderFor(defaults));
      NameUnique(dir.files, ReaderFor(defaults), name);
      var erased := dir.DeleteSourceFile(name);
    }

    /** Wherever it stops, the directory is one that `AddCrashSafe` covers. */
    method EditAdd(raw: RawSource, minted: string, tmp: string) returns (r: Result<SourceConfig, Error>)
      requires dir.Valid() && Good(dir.files, ReaderFor(defaults)) && TempName(tmp) && tmp !in dir.files
      modifies this`sources, dir
      ensures dir.Valid() && Done(old(Reg()), Add(old(Reg()), raw, minted), Reg(), r)
      ensures old(dir.history) <= dir.history && (r.Err? ==> dir.history == old(dir.history))
      ensures r.Ok? ==> forall k :: |old(dir.history)| <= k < |dir.history| ==>
        CrashedSave(old(dir.files), r.value, dir.history[k])
      ensures r.Ok? ==> FieldsFrom(raw, NO_DEFAULTS, r.value)
    {
      EditFields(Add(Reg(), raw, minted), Reg(), "", raw, minted);
      if raw.name.Some? {
        var clash := FindIndex(raw.name.value);
        if clash.Some? {
          return Err(AlreadyExists(raw.name.value));
        }
      }
      r := Build(raw, NO_DEFAULTS, minted);
      if r.Ok? {
        sources := sources + [r.value];
        WriteSource(r.value, tmp);
      }
    }

    /** Save the new version; on a rename, then delete the old file. */
    method StoreUpdate(source: SourceConfig, name: string, tmp: string)
      requires dir.Valid() && Good(dir.files, ReaderFor(defaults)) && TempName(tmp) && tmp !in dir.files
      requires Good(Save(dir.files, source), ReaderFor(defaults))
      modifies dir
      ensures dir.Valid() && old(dir.history) <= dir.history
      ensures dir.files == Stored(old(dir.files), name, source)
      ensures forall k :: |old(dir.history)| <= k < |dir.history| ==>
        CrashedSave(old(dir.files), source, dir.history[k]) || dir.history[k] == dir.files
    {
      WriteSource(source, tmp);
      if source.name != name {
        EraseSource(name);
      }
    }

    /** The checks of an edit: where the source is, and what it becomes. */
    method PrepareUpdate(name: string, raw: RawSource, minted: string) returns (r: Result<(nat, SourceConfig), Error>)
      ensures r.Err? ==> Update(Reg(), name, raw, minted) == Err(r.error)
      ensures r.Ok? ==>
        && r.value.0 < |sources| && FieldsFrom(raw, NO_DEFAULTS, r.value.1)
        && Update(Reg(), name, raw, minted) ==
             Ok((Catalog(sources[r.value.0 := r.value.1], Stored(dir.files, name, r.value.1)), r.value.1))
    {
      EditFields(Update(Reg(), name, raw, minted), Reg(), name, raw, minted);
      var index := FindIndex(name);
      if index.None? {
        return Err(NotFound(name));
      }
      var built := Build(Merged(raw, name, sources[index.value].id), NO_DEFAULTS, minted);
      if built.Err? {
        return Err(built.error);
      }
      if built.value.name != name {
        var clash := FindIndex(built.value.name);
        if clash.Some? {
          return Err(AlreadyExists(built.value.name));
        }
      }
      r := Ok((index.value, built.value));
    }

    /** Wherever it stops, the directory is one that `UpdateCrashSafe` covers. */
    method EditUpdate(name: string, raw: RawSource, minted: string, tmp: string)
      returns (r: Result<SourceConfig, Error>)
      requires Valid() && TempName(tmp) && tmp !in dir.files
      modifies this`sources, dir
      ensures dir.Valid() && Done(old(Reg()), Update(old(Reg()), name, raw, minted), Reg(), r)
      ensures old(dir.history) <= dir.history && (r.Err? ==> dir.history == old(dir.history))
      ensures r.Ok? ==> forall k :: |old(dir.history)| <= k < |dir.history| ==>
        CrashedUpdate(old(Reg()), name, raw, minted, dir.history[k])
      ensures r.Ok? ==> FieldsFrom(raw, NO_DEFAULTS, r.value)
    {
      var prepared := PrepareUpdate(name, raw, minted);
      if prepared.Err? {
        return Err(prepared.error);
      }
      var (i, source) := prepared.value;
      UpdateSavesGood(Reg(), defaults, name, raw, minted);
      sources := sources[i := source];
      StoreUpdate(source, name, tmp);
      r := Ok(source);
    }

    /** Wherever it stops, the directory is the old or the new one. */
    method EditDelete(name: string) returns (r: Result<SourceConfig, Error>)
      requires dir.Valid() && Good(dir.files, ReaderFor(defaults))
      modifies this`sources, dir
      ensures dir.Valid() && Done(old(Reg()), Delete(old(Reg()), name), Reg(), r)
      ensures dir.history == old(dir.history) || dir.history == old(dir.history) + [dir.files]
    {
      var index := FindIndex(name);
      if index.None? {
        return Err(NotFound(name));
      }
      r := Ok(sources[index.value]);
      sources := Without(sources, name);
      EraseSource(name);
    }

    // -- the calls ----------------------------------------------------------------------------

    /** `add_source` */
    method AddSource(raw: RawSource, minted: string, tmp: string) returns (r: Result<SourceConfig, Error>)
      requires Valid() && TempName(tmp) && tmp !in dir.files
      modifies this, dir, publisher.broker
      ensures Done(old(Reg()), Add(old(Reg()), raw, minted), Reg(), r)
      ensures Now() == After(publisher.config, old(Now()), Call(Action.AddSource(raw, minted)))
      ensures r.Ok? ==> FieldsFrom(raw, NO_DEFAULTS, r.value)
      ensures mirrored == old(mirrored)
      ensures r.Err? || IdFree(old(sources), r.value.id) ==> Valid()
    {
      r := EditAdd(raw, minted, tmp);
      if r.Ok? {
        StartWorker(r.value);
        publisher.PublishDiscoveryForSource(r.value);
        if IdFree(old(sources), r.value.id) {
          AddKeepsSound(publisher.config, defaults, mirrored, old(Now()), raw, minted);
        }
      }
    }

    /** The part of an update after the lock: replace the worker, announce the source. */
    method Restart(name: string, source: SourceConfig)
      modifies this`workers, this`nextSerial, this`trace, publisher.broker
      ensures Tab() == Start(Stop(old(Tab()), name), source)
      ensures publisher.broker.retained == Publish(publisher.config, source, old(publisher.broker.retained))
    {
      StopWorker(name);
      StartWorker(source);
      publisher.PublishDiscoveryForSource(source);
    }

    /** `update_source` */
    method UpdateSource(name: string, raw: RawSource, minted: string, tmp: string)
      returns (r: Result<SourceConfig, Error>)
      requires Valid() && TempName(tmp) && tmp !in dir.files
      modifies this, dir, publisher.broker
      ensures Done(old(Reg()), Update(old(Reg()), name, raw, minted), Reg(), r)
      ensures Now() == After(publisher.config, old(Now()), Call(Action.UpdateSource(name, raw, minted)))
      ensures r.Ok? ==> FieldsFrom(raw, NO_DEFAULTS, r.value)
      ensures mirrored == old(mirrored)
      ensures Valid()
    {
      r := EditUpdate(name, raw, minted, tmp);
      if r.Ok? {
        Restart(name, r.value);
        UpdatedSound(publisher.config, defaults, mirrored, old(Now()), name, raw, minted, Reg(), r.value);
      }
    }

    /** The part of a delete after the lock: stop the worker, clear the source's messages. */
    method Retire(name: string, source: SourceConfig)
      modifies this`workers, this`trace, publisher.broker
      ensures Tab() == Stop(old(Tab()), name)
      ensures publisher.broker.retained == Clear(publisher.config, source.id, old(publisher.broker.retained))
    {
      StopWorker(name);
      publisher.RemoveDiscoveryForSource(source.id);
    }

    /** `delete_source` */
    method DeleteSource(name: string) returns (r: Result<SourceConfig, Error>)
      requires Valid()
      modifies this, dir, publisher.broker
      ensures Done(old(Reg()), Delete(old(Reg()), name), Reg(), r)
      ensures Now() == After(publisher.config, old(Now()), Call(Action.DeleteSource(name)))
      ensures mirrored == old(mirrored)
      ensures Valid()
    {
      r := EditDelete(name);
      if r.Ok? {
        Retire(name, r.value);
        DeletedSound(publisher.config, defaults, mirrored, old(Now()), name, Reg(), r.value);
      }
    }

    // -- MQTT -----------------------------------------------------------------------------------

    /** Every successful connect republishes all discovery messages.  With discovery on, the
        broker then mirrors the sources exactly if it retained nothing of any other source. */
    method OnConnect()
      requires Valid()
      modifies this`mirrored, publisher.broker
      ensures Valid()
      ensures Now() == After(publisher.config, old(Now()), Reconnect)
      ensures old(mirrored) ==> mirrored && publisher.broker.retained == old(publisher.broker.retained)
      ensures On(publisher.config) ==>
        (mirrored <==> NoStrangers(publisher.config, sources, old(publisher.broker.retained)))
      ensures On(publisher.config) ==>
        (mirrored <==> Mirrors(publisher.config, sources, publisher.broker.retained))
    {
      publisher.PublishAllDiscovery(sources);
      if mirrored {
        RepublishChangesNothing(publisher.config, sources, sources, old(publisher.broker.retained));
      } else if On(publisher.config) {
        ConnectMirrorsIff(publisher.config, sources, old(publisher.broker.retained));
        mirrored := NoStrangers(publisher.config, sources, old(publisher.broker.retained));
      }
    }

    /** The publisher side of `update_mqtt`: take the new settings; if discovery was just
        turned off, remove every discovery message. */
    method ApplyMqtt(newConfig: Mqtt)
      requires Valid()
      modifies this`mirrored, publisher, publisher.broker
      ensures Valid() && publisher.config == newConfig && !mirrored
      ensures publisher.broker.retained ==
        if old(publisher.config).discovery && !newConfig.discovery
        then ClearAll(newConfig, sources, old(publisher.broker.retained)) else old(publisher.broker.retained)
      ensures old(mirrored) && !newConfig.discovery ==>
        (publisher.broker.retained == map[] <==>
           newConfig.enabled && newConfig.discoveryPrefix == old(publisher.config).discoveryPrefix)
    {
      var oldConfig := publisher.config;
      publisher.Reconfigure(newConfig);
      if oldConfig.discovery && !newConfig.discovery {
        publisher.RemoveAllDiscovery(sources);
        if mirrored {
          TurningOffClearsIff(oldConfig, newConfig, sources, old(publisher.broker.retained));
        }
      }
      mirrored := false;
    }
  }

  /** A call did what the edit says: the new registry and the source, or the error and
      nothing changed. */
  ghost predicate Done(before: Catalog, edit: Result<(Catalog, SourceConfig), Error>, after: Catalog,
                       r: Result<SourceConfig, Error>)
  {
    if edit.Ok? then r == Ok(edit.value.1) && after == edit.value.0
    else r == Err(edit.error) && after == before
  }

  lemma NoneJunk(files: Files, read: Reader)
    requires Good(files, read)
    ensures forall f :: f in files && IsYaml(f) ==> !files[f].Junk?
  {
    forall f | f in files && IsYaml(f) ensures !files[f].Junk? {
      assert Source(files, f) && Readable(files[f], read);
    }
  }

  lemma NameUnique(files: Files, read: Reader, name: string)
    requires Good(files, read)
    ensures forall f, g :: Names(files, f, name) && Names(files, g, name) ==> f == g
  {
    forall f, g | Names(files, f, name) && Names(files, g, name) ensures f == g {
      assert Source(files, f) && Source(files, g);
    }
  }

  /** After an update has saved, the directory is good for the removal that may follow. */
  lemma UpdateSavesGood(r: Catalog, defaults: SourceDefaults, name: string, raw: RawSource, minted: string)
    requires Inv(r, defaults) && Update(r, name, raw, minted).Ok?
    ensures Good(Save(r.files, Update(r, name, raw, minted).value.1), ReaderFor(defaults))
  {
    UpdateOutcome(r, defaults, name, raw, minted);
    var s := Update(r, name, raw, minted).value.1;
    DumpReadable(defaults, s);
    SaveReplaces(r.files, ReaderFor(defaults), s);
  }
}
