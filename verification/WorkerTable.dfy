/** The controller's worker table as a value, with the trace of what was done to each
    worker. */
module WorkerTable {
  import opened Util
  import opened Sources

  /** One worker thread: its serial number and the configuration it was started with. */
  datatype Entry = Entry(serial: nat, source: SourceConfig)

  datatype Life = Started(serial: nat) | FlagSet(serial: nat) | AudioStopped(serial: nat)

  datatype Table = Table(workers: map<string, Entry>, next: nat, trace: seq<Life>)

  const EMPTY_TABLE := Table(map[], 0, [])

  /** `_start_worker` */
  function Start(t: Table, s: SourceConfig): Table {
    Table(t.workers[s.name := Entry(t.next, s)], t.next + 1, t.trace + [Started(t.next)])
  }

  /** `_stop_worker`: out of the table, stop flag, audio source. */
  function Stop(t: Table, name: string): Table {
    if name !in t.workers then t
    else
      var k := t.workers[name].serial;
      Table(t.workers - {name}, t.next, t.trace + [FlagSet(k), AudioStopped(k)])
  }

  /** The audio source of worker `k` was stopped, after its stop flag had been set. */
  ghost predicate ProperlyStopped(trace: seq<Life>, k: nat) {
    exists i, j :: 0 <= i < j < |trace| && trace[i] == FlagSet(k) && trace[j] == AudioStopped(k)
  }

  /** Each source has a worker running exactly it, there are no other workers, and every
      worker that is not in the table was stopped in the right order. */
  ghost predicate Matches(sources: seq<SourceConfig>, t: Table) {
    && (forall s :: s in sources ==> s.name in t.workers && t.workers[s.name].source == s)
    && (forall n :: n in t.workers ==> (exists s :: s in sources && s.name == n) && t.workers[n].serial < t.next)
    && (forall k: nat :: k < t.next ==> ProperlyStopped(t.trace, k) || InTable(t, k))
    && (forall k: nat, j :: 0 <= j < |t.trace| && t.trace[j] == AudioStopped(k) ==> ProperlyStopped(t.trace, k))
  }

  ghost predicate InTable(t: Table, k: nat) {
    exists n :: n in t.workers && t.workers[n].serial == k
  }

  lemma StillStopped(trace: seq<Life>, more: seq<Life>, k: nat)
    requires ProperlyStopped(trace, k)
    ensures ProperlyStopped(trace + more, k)
  {
    var i, j :| 0 <= i < j < |trace| && trace[i] == FlagSet(k) && trace[j] == AudioStopped(k);
    assert (trace + more)[i] == FlagSet(k) && (trace + more)[j] == AudioStopped(k);
  }

  /** Starting a worker under a name that has none. */
  lemma StartMatches(before: seq<SourceConfig>, after: seq<SourceConfig>, t: Table, s: SourceConfig)
    requires Matches(before, t) && s.name !in t.workers
    requires forall x :: x in after <==> x == s || x in before
    ensures Matches(after, Start(t, s))
  {
    var t' := Start(t, s);
    forall k: nat | k < t'.next ensures ProperlyStopped(t'.trace, k) || InTable(t', k) {
      if k == t.next {
        assert t'.workers[s.name].serial == k;
      } else if ProperlyStopped(t.trace, k) {
        StillStopped(t.trace, [Started(t.next)], k);
      } else {
        var n :| n in t.workers && t.workers[n].serial == k;
        assert t'.workers[n] == t.workers[n];
      }
    }
    forall k: nat, j | 0 <= j < |t'.trace| && t'.trace[j] == AudioStopped(k) ensures ProperlyStopped(t'.trace, k) {
      assert t.trace[j] == AudioStopped(k);
      StillStopped(t.trace, [Started(t.next)], k);
    }
    forall x | x in after ensures x.name in t'.workers && t'.workers[x.name].source == x {
      if x != s { assert x in before; }
    }
    forall n | n in t'.workers ensures exists x :: x in after && x.name == n {
      if n == s.name {
        assert s in after;
      } else {
        var x :| x in before && x.name == n;
        assert x in after;
      }
    }
  }

  /** Stopping the worker of the one source that has gone. */
  lemma StopMatches(before: seq<SourceConfig>, after: seq<SourceConfig>, t: Table, name: string)
    requires Matches(before, t)
    requires forall x :: x in after <==> x in before && x.name != name
    ensures Matches(after, Stop(t, name)) && name !in Stop(t, name).workers
  {
    var t' := Stop(t, name);
    if name in t.workers {
      var gone := t.workers[name].serial;
      var more := [FlagSet(gone), AudioStopped(gone)];
      assert t'.trace[|t.trace|] == FlagSet(gone) && t'.trace[|t.trace| + 1] == AudioStopped(gone);
      forall k: nat | k < t'.next ensures ProperlyStopped(t'.trace, k) || InTable(t', k) {
        if ProperlyStopped(t.trace, k) {
          StillStopped(t.trace, more, k);
        } else if k != gone {
          var n :| n in t.workers && t.workers[n].serial == k;
          assert n in t'.workers && t'.workers[n].serial == k;
        }
      }
      forall k: nat, j | 0 <= j < |t'.trace| && t'.trace[j] == AudioStopped(k) ensures ProperlyStopped(t'.trace, k) {
        if j < |t.trace| {
          assert t.trace[j] == AudioStopped(k);
          StillStopped(t.trace, more, k);
        }
      }
    }
    forall n | n in t'.workers ensures exists x :: x in after && x.name == n {
      var x :| x in before && x.name == n;
      assert x in after;
    }
  }

  /** `start`: a worker for each loaded source in turn. */
  function StartAll(sources: seq<SourceConfig>): Table {
    if sources == [] then EMPTY_TABLE else Start(StartAll(Front(sources)), Last(sources))
  }

  lemma {:induction false} StartAllMatches(sources: seq<SourceConfig>)
    requires UniqueNames(sources)
    ensures Matches(sources, StartAll(sources))
  {
    if sources != [] {
      var before, s := Front(sources), Last(sources);
      StartAllMatches(before);
      assert sources == before + [s];
      forall x | x in before ensures x.name != s.name {
        var i :| 0 <= i < |before| && before[i] == x;
        assert sources[i].name != sources[|sources| - 1].name;
      }
      StartMatches(before, sources, StartAll(before), s);
    }
  }
}
