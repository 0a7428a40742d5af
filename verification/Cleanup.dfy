/** The event store and the clean-up pass as objects: rows are deleted from the store,
    files from the snippet directory. */
module Cleanup {
  import opened Util
  import opened Retention

  class EventStore {
    var rows: seq<Row>
    var next: nat

    ghost function Value(): EventTable
      reads this
    {
      EventTable(rows, next)
    }

    constructor ()
      ensures Value() == EventTable([], 0) && Value().Valid()
    {
      rows, next := [], 0;
    }

    method Add(e: NewEvent) returns (id: nat)
      requires Value().Valid()
      modifies this
      ensures Value() == Insert(old(Value()), e) && Value().Valid()
      ensures id == old(next) && forall r :: r in old(rows) ==> r.id != id
      ensures rows == old(rows) + [Row(id := id, source := e.source, sound := e.sound, score := e.score,
                                       timestamp := e.timestamp, duration := e.duration, file := e.file)]
    {
      id := next;
      rows := rows + [Row(next, e.source, e.sound, e.score, e.timestamp, e.duration, e.file)];
      next := next + 1;
    }

    /** `ORDER BY timestamp ASC` */
    method ListByAge() returns (out: seq<Row>)
      ensures Listing(Value(), out)
    {
      out := [];
      for i := 0 to |rows|
        invariant ByAge(out) && multiset(out) == multiset(rows[..i])
      {
        assert rows[..i + 1] == rows[..i] + [rows[i]];
        out := InsertByAge(out, rows[i]);
      }
      assert rows[..|rows|] == rows;
    }

    static method InsertByAge(sorted: seq<Row>, r: Row) returns (out: seq<Row>)
      requires ByAge(sorted)
      ensures ByAge(out) && multiset(out) == multiset(sorted) + multiset{r}
    {
      var k := |sorted|;
      while k > 0 && sorted[k - 1].timestamp > r.timestamp
        invariant 0 <= k <= |sorted|
        invariant forall j :: k <= j < |sorted| ==> sorted[j].timestamp > r.timestamp
      {
        k := k - 1;
      }
      out := sorted[..k] + [r] + sorted[k..];
      InsertedMultiset(sorted, k, r);
      InsertedByAge(sorted, k, r);
    }

    method DeleteIds(ids: set<nat>)
      modifies this`rows
      ensures Value() == Retention.DeleteIds(old(Value()), ids)
    {
      rows := Keep(rows, ids);
    }
  }

  lemma InsertedMultiset(sorted: seq<Row>, k: nat, r: Row)
    requires k <= |sorted|
    ensures multiset(sorted[..k] + [r] + sorted[k..]) == multiset(sorted) + multiset{r}
  {
    assert sorted == sorted[..k] + sorted[k..];
  }

  lemma InsertedByAge(sorted: seq<Row>, k: nat, r: Row)
    requires ByAge(sorted) && k <= |sorted|
    requires k > 0 ==> sorted[k - 1].timestamp <= r.timestamp
    requires forall j :: k <= j < |sorted| ==> sorted[j].timestamp > r.timestamp
    ensures ByAge(sorted[..k] + [r] + sorted[k..])
  {
    assert forall j :: 0 <= j < k ==> sorted[j].timestamp <= r.timestamp;
  }

  /** The snippet directory: file sizes, and the files that cannot be removed. */
  class SnippetDir {
    var files: Disk
    const stuck: set<string>

    constructor (files: Disk, stuck: set<string>)
      ensures this.files == files && this.stuck == stuck
    {
      this.files, this.stuck := files, stuck;
    }

    /** `os.remove`; a failure is logged and ignored. */
    method TryRemove(file: string)
      modifies this
      ensures files == if file in stuck then old(files) else old(files) - {file}
    {
      if file !in stuck {
        files := files - {file};
      }
    }
  }

  /** `_delete_rows`: remove each row's file, then the rows. */
  method DeleteRows(store: EventStore, dir: SnippetDir, victims: seq<Row>)
    modifies store, dir
    ensures store.Value() == Retention.DeleteIds(old(store.Value()), Ids(victims))
    ensures dir.files == RemoveFiles(old(dir.files), victims, dir.stuck)
  {
    var ids: set<nat> := {};
    for i := 0 to |victims|
      invariant store.Value() == old(store.Value())
      invariant ids == Ids(victims[..i])
      invariant RemoveFiles(dir.files, victims[i..], dir.stuck) == RemoveFiles(old(dir.files), victims, dir.stuck)
    {
      assert victims[i..][0] == victims[i] && victims[i..][1..] == victims[i + 1..];
      assert victims[..i + 1] == victims[..i] + [victims[i]];
      ids := ids + {victims[i].id};
      dir.TryRemove(victims[i].file);
    }
    assert victims[..|victims|] == victims;
    store.DeleteIds(ids);
  }

  method CleanupByAge(store: EventStore, dir: SnippetDir, now: real, limits: Limits) returns (ghost listing: seq<Row>)
    modifies store, dir
    ensures Listing(old(store.Value()), listing)
    ensures Outcome(store.Value(), dir.files, None) ==
      AgePass(old(store.Value()), old(dir.files), listing, now, limits, dir.stuck)
  {
    var rows := store.ListByAge();
    listing := rows;
    if !Active(limits.maxAgeDays) {
      return;
    }
    var victims := Expired(rows, Cutoff(now, limits));
    DeleteRows(store, dir, victims);
  }

  method CleanupBySpace(store: EventStore, dir: SnippetDir, limits: Limits)
    returns (alert: Option<Alert>, ghost listing: seq<Row>, ghost k: nat)
    modifies store, dir
    ensures Listing(old(store.Value()), listing)
    ensures SpacePass(old(store.Value()), old(dir.files), listing, limits, dir.stuck, k,
                      Outcome(store.Value(), dir.files, alert))
  {
    var rows := store.ListByAge();
    listing, k, alert := rows, 0, None;
    if !Active(limits.maxSpaceMb) {
      return;
    }
    var victims, usedBefore := PickVictims(rows, dir.files, Cap(limits));
    if usedBefore as real <= Cap(limits) {
      return;
    }
    k := victims;
    DeleteRows(store, dir, rows[..victims]);
    alert := Some(SpaceAlert(usedBefore, Truncate(Cap(limits)), |rows[..victims]|));
  }

  /** `run_cleanup` */
  method RunCleanup(store: EventStore, dir: SnippetDir, now: real, limits: Limits)
    returns (alert: Option<Alert>, ghost byAge: seq<Row>, ghost bySpace: seq<Row>, ghost k: nat)
    requires store.Value().Valid()
    modifies store, dir
    ensures store.Value().Valid()
    ensures Pass(old(store.Value()), old(dir.files), now, limits, dir.stuck, byAge, bySpace, k,
                 Outcome(store.Value(), dir.files, alert))
  {
    byAge := CleanupByAge(store, dir, now, limits);
    AgePassFacts(old(store.Value()), old(dir.files), byAge, now, limits, dir.stuck);
    alert, bySpace, k := CleanupBySpace(store, dir, limits);
    PassKeepsNewest(old(store.Value()), old(dir.files), now, limits, dir.stuck, byAge, bySpace, k,
                    Outcome(store.Value(), dir.files, alert));
  }
}
