/** Whole runs of settings calls, one at a time: registry, worker table and retained
    discovery messages together. */
module AppRuns {
  import opened Sources
  import opened Directory
  import opened Registry
  import opened WorkerTable
  import opened Discovery
  import opened Worlds

  ghost function AfterAll(m: Mqtt, w: World, events: seq<Event>): World
    decreases |events|
  {
    if events == [] then w else AfterAll(m, After(m, w, events[0]), events[1..])
  }

  ghost predicate InSync(m: Mqtt, defaults: SourceDefaults, w: World) {
    Sound(m, defaults, true, w)
  }

  /** Added sources bring no id of their own, and minted ids are new. */
  ghost predicate MintsNew(m: Mqtt, w: World, events: seq<Event>)
    decreases |events|
  {
    events != [] ==>
      && (events[0].Call? && events[0].action.AddSource? ==>
            !HasId(events[0].action.raw) && IdFree(w.reg.sources, events[0].action.minted))
      && MintsNew(m, After(m, w, events[0]), events[1..])
  }

  /** After every run of non-overlapping calls and reconnects with discovery on: the
      directory reloads to the sources in memory, each source has its worker and no worker
      was lost or stopped out of order, and the broker retains exactly the discovery
      messages of the current sources. */
  lemma {:induction false} RunsStayInSync(m: Mqtt, defaults: SourceDefaults, w: World, events: seq<Event>)
    requires On(m) && InSync(m, defaults, w) && MintsNew(m, w, events)
    ensures InSync(m, defaults, AfterAll(m, w, events))
    decreases |events|
  {
    if events != [] {
      EventKeepsSync(m, defaults, w, events[0]);
      RunsStayInSync(m, defaults, After(m, w, events[0]), events[1..]);
    }
  }

  lemma EventKeepsSync(m: Mqtt, defaults: SourceDefaults, w: World, e: Event)
    requires On(m) && InSync(m, defaults, w)
    requires e.Call? && e.action.AddSource? ==> !HasId(e.action.raw) && IdFree(w.reg.sources, e.action.minted)
    ensures InSync(m, defaults, After(m, w, e))
  {
    match e
    case Reconnect => RepublishChangesNothing(m, w.reg.sources, w.reg.sources, w.retained);
    case Call(AddSource(raw, minted)) =>
      var added := Add(w.reg, raw, minted);
      if added.Ok? {
        BuildIsValid(raw, NO_DEFAULTS, minted, minted);
        AddKeepsSound(m, defaults, true, w, raw, minted);
      }
    case Call(UpdateSource(name, raw, minted)) => UpdateKeepsSound(m, defaults, true, w, name, raw, minted);
    case Call(DeleteSource(name)) => DeleteKeepsSound(m, defaults, true, w, name);
  }

  /** A directory that loaded, its workers started, and the first connect to a broker that may
      still retain messages: all in sync exactly when no source file has an empty id, the
      files' ids, given or minted, are all different, and the broker retains nothing of
      any other source. */
  lemma StartInSyncIff(m: Mqtt, files: Files, defaults: SourceDefaults, mint: string -> string, r: Retained)
    requires On(m) && GoodMint(mint) && Load(files, defaults, mint).Ok?
    ensures var (list, files') := Load(files, defaults, mint).value;
      InSync(m, defaults, World(Catalog(list, files'), StartAll(list), PublishAll(m, list, r))) <==>
        NoEmptyIds(files) && IdsApart(files, mint) && NoStrangers(m, list, r)
  {
    var (list, files') := Load(files, defaults, mint).value;
    StartEstablishesInvIff(files, defaults, mint);
    if Inv(Catalog(list, files'), defaults) {
      StartAllMatches(list);
      ConnectMirrorsIff(m, list, r);
    }
  }
}
