/** Registry, worker table and retained discovery messages as one value, and what each
    settings call makes of it. */
module Worlds {
  import opened Util
  import opened Sources
  import opened Registry
  import opened WorkerTable
  import opened Discovery

  datatype World = World(reg: Catalog, table: Table, retained: Retained)

  /** A call of the settings API, or a reconnect to the broker. */
  datatype Event = Call(action: Action) | Reconnect

  /** The state after one whole call, or after a reconnect. */
  ghost function After(m: Mqtt, w: World, e: Event): World {
    match e
    case Reconnect => w.(retained := PublishAll(m, w.reg.sources, w.retained))
    case Call(AddSource(raw, minted)) =>
      var added := Add(w.reg, raw, minted);
      if added.Err? then w
      else World(added.value.0, Start(w.table, added.value.1), Publish(m, added.value.1, w.retained))
    case Call(UpdateSource(name, raw, minted)) =>
      var updated := Update(w.reg, name, raw, minted);
      if updated.Err? then w
      else World(updated.value.0, Start(Stop(w.table, name), updated.value.1), Publish(m, updated.value.1, w.retained))
    case Call(DeleteSource(name)) =>
      var deleted := Delete(w.reg, name);
      if deleted.Err? then w
      else World(deleted.value.0, Stop(w.table, name), Clear(m, deleted.value.1.id, w.retained))
  }

  /** The directory reloads to the sources in memory, each source has its worker, and, where
      the broker is known to mirror the sources, it does. */
  ghost predicate Sound(m: Mqtt, defaults: SourceDefaults, mirrored: bool, w: World) {
    && Inv(w.reg, defaults)
    && Matches(w.reg.sources, w.table)
    && (mirrored ==> On(m) && Mirrors(m, w.reg.sources, w.retained))
  }

  lemma AddKeepsSound(m: Mqtt, defaults: SourceDefaults, mirrored: bool, w: World, raw: RawSource, minted: string)
    requires Sound(m, defaults, mirrored, w)
    requires Add(w.reg, raw, minted).Ok? && IdFree(w.reg.sources, Add(w.reg, raw, minted).value.1.id)
    ensures Sound(m, defaults, mirrored, After(m, w, Call(AddSource(raw, minted))))
  {
    var (r', s) := Add(w.reg, raw, minted).value;
    AddKeepsAll(w.reg, defaults, raw, minted, w.table);
    if mirrored { PublishKeepsMirror(m, w.reg.sources, r'.sources, s, w.retained); }
  }

  lemma UpdateKeepsSound(m: Mqtt, defaults: SourceDefaults, mirrored: bool, w: World,
                         name: string, raw: RawSource, minted: string)
    requires Sound(m, defaults, mirrored, w)
    ensures Sound(m, defaults, mirrored, After(m, w, Call(UpdateSource(name, raw, minted))))
  {
    var updated := Update(w.reg, name, raw, minted);
    if updated.Ok? {
      UpdatedSound(m, defaults, mirrored, w, name, raw, minted, updated.value.0, updated.value.1);
    }
  }

  lemma UpdatedSound(m: Mqtt, defaults: SourceDefaults, mirrored: bool, w: World,
                     name: string, raw: RawSource, minted: string, r': Catalog, s: SourceConfig)
    requires Sound(m, defaults, mirrored, w) && Update(w.reg, name, raw, minted) == Ok((r', s))
    ensures Sound(m, defaults, mirrored, World(r', Start(Stop(w.table, name), s), Publish(m, s, w.retained)))
  {
    UpdateKeepsAll(w.reg, defaults, name, raw, minted, w.table, r', s);
    if mirrored { PublishKeepsMirror(m, w.reg.sources, r'.sources, s, w.retained); }
  }

  lemma DeleteKeepsSound(m: Mqtt, defaults: SourceDefaults, mirrored: bool, w: World, name: string)
    requires Sound(m, defaults, mirrored, w)
    ensures Sound(m, defaults, mirrored, After(m, w, Call(DeleteSource(name))))
  {
    var deleted := Delete(w.reg, name);
    if deleted.Ok? { DeletedSound(m, defaults, mirrored, w, name, deleted.value.0, deleted.value.1); }
  }

  lemma DeletedSound(m: Mqtt, defaults: SourceDefaults, mirrored: bool, w: World,
                     name: string, r': Catalog, s: SourceConfig)
    requires Sound(m, defaults, mirrored, w) && Delete(w.reg, name) == Ok((r', s))
    ensures Sound(m, defaults, mirrored, World(r', Stop(w.table, name), Clear(m, s.id, w.retained)))
  {
    DeleteKeepsAll(w.reg, defaults, name, w.table, r', s);
    if mirrored { ClearKeepsMirror(m, w.reg.sources, r'.sources, s, w.retained); }
  }

  /** What the mirror lemmas need of the source lists around an edit. */
  ghost predicate Replaces(before: seq<SourceConfig>, after: seq<SourceConfig>, s: SourceConfig) {
    && UniqueIds(after) && s in after
    && (forall x :: x in after && x != s ==> x in before)
    && (forall x :: x in before && x !in after ==> x.id == s.id)
  }

  lemma AddKeepsAll(r: Catalog, defaults: SourceDefaults, raw: RawSource, minted: string, t: Table)
    requires Inv(r, defaults) && Add(r, raw, minted).Ok? && IdFree(r.sources, Add(r, raw, minted).value.1.id)
    requires Matches(r.sources, t)
    ensures var (r', s) := Add(r, raw, minted).value;
      Inv(r', defaults) && Matches(r'.sources, Start(t, s)) && Replaces(r.sources, r'.sources, s)
  {
    var (r', s) := Add(r, raw, minted).value;
    BuildIsValid(raw, NO_DEFAULTS, minted, minted);
    AddKeepsInvIff(r, defaults, raw, minted);
    forall x | x in r.sources ensures x.name != s.name {
      var i :| 0 <= i < |r.sources| && r.sources[i] == x;
    }
    StartMatches(r.sources, r'.sources, t, s);
  }

  lemma UpdateKeepsAll(r: Catalog, defaults: SourceDefaults, name: string, raw: RawSource, minted: string, t: Table,
                       r': Catalog, s: SourceConfig)
    requires Inv(r, defaults) && Matches(r.sources, t) && Update(r, name, raw, minted) == Ok((r', s))
    ensures Inv(r', defaults) && Matches(r'.sources, Start(Stop(t, name), s)) && Replaces(r.sources, r'.sources, s)
  {
    UpdateKeepsInv(r, defaults, name, raw, minted);
    RenameTarget(r, name, raw, minted);
    RestartMatches(r.sources, r'.sources, t, name, s);
    ReplacesById(r.sources, r'.sources, IndexOf(r.sources, name), s);
  }

  lemma RestartMatches(before: seq<SourceConfig>, after: seq<SourceConfig>, t: Table, name: string, s: SourceConfig)
    requires Matches(before, t)
    requires forall x :: x in after <==> (x == s || (x in before && x.name != name))
    requires s.name != name ==> forall x :: x in before ==> x.name != s.name
    ensures Matches(after, Start(Stop(t, name), s))
  {
    var kept := Without(before, name);
    StopMatches(before, kept, t, name);
    StartMatches(kept, after, Stop(t, name), s);
  }

  lemma ReplacesById(before: seq<SourceConfig>, after: seq<SourceConfig>, i: nat, s: SourceConfig)
    requires UniqueNames(before) && UniqueIds(after) && i < |before| && s.id == before[i].id
    requires forall x :: x in after <==> (x == s || (x in before && x.name != before[i].name))
    ensures Replaces(before, after, s)
  {
    OneOfThatName(before, i);
  }

  lemma DeleteKeepsAll(r: Catalog, defaults: SourceDefaults, name: string, t: Table, r': Catalog, s: SourceConfig)
    requires Inv(r, defaults) && Matches(r.sources, t) && Delete(r, name) == Ok((r', s))
    ensures Inv(r', defaults) && Matches(r'.sources, Stop(t, name))
    ensures UniqueIds(r.sources) && s in r.sources && forall x :: x in r'.sources <==> x in r.sources && x != s
  {
    DeleteKeepsInv(r, defaults, name);
    StopMatches(r.sources, r'.sources, t, name);
  }
}
