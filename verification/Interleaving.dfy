/** Overlapping settings calls, the worker table and the discovery messages.

    `add_source`, `update_source` and `delete_source` edit the source list under the lock
    (add starts its worker there too), release it, and only then stop and start workers and
    publish or clear discovery messages; other calls can run in between.  `Step` is one
    such section, and a run is any interleaving of them. */
module Interleaving {
  import opened Sources

  type ByName = map<string, SourceConfig>

  /** The rest of a call that has done its edit. */
  datatype Pending =
    | Restarting(old_: string, source: SourceConfig)
    | Starting(old_: string, source: SourceConfig)
    | Announcing(old_: string, source: SourceConfig)
    | Removing(source: SourceConfig)
    | Clearing(source: SourceConfig)
  {
    function Touched(): set<string> {
      if Removing? || Clearing? then {source.name} else {old_, source.name}
    }
  }

  /** Sources by name, the worker table (which source each entry runs), the source last
      announced under each id, and the calls in progress.  `leaked` counts workers dropped
      from the table without being stopped. */
  datatype State = State(
    sources: ByName, workers: ByName, announced: map<string, SourceConfig>, calls: map<nat, Pending>, leaked: nat)

  datatype Section =
    | AddEdit(call: nat, source: SourceConfig)
    | UpdateEdit(call: nat, name: string, source: SourceConfig)
    | UpdateStop(call: nat)
    | UpdateStart(call: nat)
    | Announce(call: nat)
    | DeleteEdit(call: nat, source: SourceConfig)
    | DeleteStop(call: nat)
    | Clear(call: nat)

  /** `_start_worker` replaces whatever entry the name had. */
  function Started(st: State, source: SourceConfig): State {
    st.(workers := st.workers[source.name := source],
        leaked := st.leaked + if source.name in st.workers then 1 else 0)
  }

  function Stopped(st: State, name: string): State {
    st.(workers := st.workers - {name})
  }

  /** An update keeps the id of the source it edits. */
  predicate Enabled(st: State, x: Section) {
    match x
    case AddEdit(c, s) => c !in st.calls && s.name !in st.sources
    case UpdateEdit(c, name, s) =>
      c !in st.calls && name in st.sources && (s.name == name || s.name !in st.sources) && s.id == st.sources[name].id
    case UpdateStop(c) => c in st.calls && st.calls[c].Restarting?
    case UpdateStart(c) => c in st.calls && st.calls[c].Starting?
    case Announce(c) => c in st.calls && st.calls[c].Announcing?
    case DeleteEdit(c, s) => c !in st.calls && s.name in st.sources && st.sources[s.name] == s
    case DeleteStop(c) => c in st.calls && st.calls[c].Removing?
    case Clear(c) => c in st.calls && st.calls[c].Clearing?
  }

  function Step(st: State, x: Section): State
    requires Enabled(st, x)
  {
    match x
    case AddEdit(c, s) =>
      Started(st.(sources := st.sources[s.name := s], calls := st.calls[c := Announcing(s.name, s)]), s)
    case UpdateEdit(c, name, s) =>
      st.(sources := (st.sources - {name})[s.name := s], calls := st.calls[c := Restarting(name, s)])
    case UpdateStop(c) =>
      Stopped(st, st.calls[c].old_).(calls := st.calls[c := Starting(st.calls[c].old_, st.calls[c].source)])
    case UpdateStart(c) =>
      Started(st, st.calls[c].source).(calls := st.calls[c := Announcing(st.calls[c].old_, st.calls[c].source)])
    case Announce(c) =>
      st.(announced := st.announced[st.calls[c].source.id := st.calls[c].source], calls := st.calls - {c})
    case DeleteEdit(c, s) => st.(sources := st.sources - {s.name}, calls := st.calls[c := Removing(s)])
    case DeleteStop(c) =>
      Stopped(st, st.calls[c].source.name).(calls := st.calls[c := Clearing(st.calls[c].source)])
    case Clear(c) => st.(announced := st.announced - {st.calls[c].source.id}, calls := st.calls - {c})
  }

  // -- calls that do not get in each other's way --------------------------------------

  ghost predicate Free(st: State, name: string) {
    forall c :: c in st.calls ==> name !in st.calls[c].Touched()
  }

  ghost predicate FreeId(st: State, id: string) {
    forall c :: c in st.calls ==> st.calls[c].source.id != id
  }

  /** A minted id: no source, no call in progress and no message has it. */
  ghost predicate NewId(st: State, id: string) {
    && FreeId(st, id) && id !in st.announced
    && forall n :: n in st.sources ==> st.sources[n].id != id
  }

  /** A call starts only on names no call in progress touches; an added source's id is new. */
  ghost predicate Apart(st: State, x: Section) {
    match x
    case AddEdit(_, s) => Free(st, s.name) && NewId(st, s.id)
    case UpdateEdit(_, name, s) => Free(st, name) && Free(st, s.name)
    case DeleteEdit(_, s) => Free(st, s.name)
    case _ => true
  }

  ghost predicate SameAt(st: State, name: string) {
    && (name in st.workers <==> name in st.sources)
    && (name in st.workers ==> st.workers[name] == st.sources[name])
  }

  ghost predicate CallInOrder(st: State, p: Pending) {
    match p
    case Restarting(o, s) =>
      && s.name in st.sources && st.sources[s.name] == s
      && (s.name != o ==> o !in st.sources && s.name !in st.workers)
    case Starting(o, s) =>
      && s.name in st.sources && st.sources[s.name] == s && s.name !in st.workers && o !in st.workers
      && (s.name != o ==> o !in st.sources)
    case Announcing(o, s) =>
      && s.name in st.sources && st.sources[s.name] == s && s.name in st.workers && st.workers[s.name] == s
      && (s.name != o ==> o !in st.sources && o !in st.workers)
    case Removing(s) => s.name !in st.sources
    case Clearing(s) => s.name !in st.sources && s.name !in st.workers
  }

  /** Away from the names in transition each source has its worker and each worker its
      source; the calls in progress touch disjoint names; no worker was leaked. */
  ghost predicate WorkersAgree(st: State) {
    && st.leaked == 0
    && (forall n :: n in st.sources ==> st.sources[n].name == n)
    && (forall n :: Free(st, n) ==> SameAt(st, n))
    && (forall c, d :: c in st.calls && d in st.calls && c != d ==> st.calls[c].Touched() !! st.calls[d].Touched())
    && (forall c :: c in st.calls ==> CallInOrder(st, st.calls[c]))
  }

  ghost predicate ToldAt(st: State, id: string) {
    && (forall n :: n in st.sources && st.sources[n].id == id ==>
          id in st.announced && st.announced[id] == st.sources[n])
    && (id in st.announced ==> UsesId(st.sources, id))
  }

  ghost predicate UsesId(sources: ByName, id: string) {
    exists n :: n in sources && sources[n].id == id
  }

  ghost predicate IdsDiffer(sources: ByName) {
    forall n, m :: n in sources && m in sources && sources[n].id == sources[m].id ==> n == m
  }

  /** The same for ids and what was announced under them. */
  ghost predicate NewsAgree(st: State) {
    && IdsDiffer(st.sources)
    && (forall id :: FreeId(st, id) ==> ToldAt(st, id))
    && (forall c, d :: c in st.calls && d in st.calls && c != d ==> st.calls[c].source.id != st.calls[d].source.id)
    && (forall c :: c in st.calls && (st.calls[c].Removing? || st.calls[c].Clearing?) ==>
          !UsesId(st.sources, st.calls[c].source.id))
  }

  ghost predicate Agree(st: State) {
    WorkersAgree(st) && NewsAgree(st)
  }

  predicate IsEdit(x: Section) { x.AddEdit? || x.UpdateEdit? || x.DeleteEdit? }

  predicate IsRest(x: Section) { x.UpdateStop? || x.UpdateStart? || x.DeleteStop? }

  predicate IsLast(x: Section) { x.Announce? || x.Clear? }

  /** The names an edit touches. */
  function EditNames(x: Section): set<string>
    requires IsEdit(x)
  {
    if x.UpdateEdit? then {x.name, x.source.name} else {x.source.name}
  }

  lemma EditAddsCall(st: State, x: Section)
    requires IsEdit(x) && Enabled(st, x) && Apart(st, x)
    ensures var st' := Step(st, x);
      && st'.calls == st.calls[x.call := st'.calls[x.call]]
      && st'.calls[x.call].Touched() == EditNames(x) && st'.calls[x.call].source == x.source
    ensures forall c :: c in st.calls ==> st.calls[c].Touched() !! EditNames(x)
  {
    forall c | c in st.calls ensures st.calls[c].Touched() !! EditNames(x) {
      assert x.source.name !in st.calls[c].Touched();
      if x.UpdateEdit? { assert x.name !in st.calls[c].Touched(); }
    }
  }

  lemma EditSettles(st: State, x: Section, n: string)
    requires IsEdit(x) && WorkersAgree(st) && Enabled(st, x) && Apart(st, x) && Free(Step(st, x), n)
    ensures SameAt(Step(st, x), n)
  {
    var st' := Step(st, x);
    EditAddsCall(st, x);
    assert n !in st'.calls[x.call].Touched();
    forall c | c in st.calls ensures n !in st.calls[c].Touched() {
      assert c in st'.calls && st'.calls[c] == st.calls[c];
    }
    assert SameAt(st, n);
  }

  lemma EditInOrder(st: State, x: Section)
    requires IsEdit(x) && WorkersAgree(st) && Enabled(st, x) && Apart(st, x)
    ensures CallInOrder(Step(st, x), Step(st, x).calls[x.call])
  {
    assert SameAt(st, x.source.name);
    if x.UpdateEdit? { assert SameAt(st, x.name); }
  }

  lemma OtherInOrder(st: State, x: Section, c: nat)
    requires IsEdit(x) && WorkersAgree(st) && Enabled(st, x) && Apart(st, x) && c in st.calls
    ensures CallInOrder(Step(st, x), st.calls[c])
  {
    EditAddsCall(st, x);
    assert CallInOrder(st, st.calls[c]) && st.calls[c].Touched() !! EditNames(x);
  }

  lemma EditAgrees(st: State, x: Section)
    requires IsEdit(x) && WorkersAgree(st) && Enabled(st, x) && Apart(st, x)
    ensures WorkersAgree(Step(st, x))
  {
    var st' := Step(st, x);
    EditAddsCall(st, x);
    assert SameAt(st, x.source.name);
    EditInOrder(st, x);
    forall n | Free(st', n) ensures SameAt(st', n) {
      EditSettles(st, x, n);
    }
    forall c | c in st'.calls ensures CallInOrder(st', st'.calls[c]) {
      if c != x.call { OtherInOrder(st, x, c); }
    }
  }

  /** A call that goes on stays within the names it touches. */
  lemma RestMovesCall(st: State, x: Section)
    requires IsRest(x) && Enabled(st, x)
    ensures var st' := Step(st, x);
      && st'.calls == st.calls[x.call := st'.calls[x.call]]
      && st'.calls[x.call].Touched() == st.calls[x.call].Touched()
      && st'.calls[x.call].source == st.calls[x.call].source
      && st'.sources == st.sources && st'.announced == st.announced
    ensures forall n :: n !in st.calls[x.call].Touched() ==>
      (n in Step(st, x).workers <==> n in st.workers) &&
      (n in st.workers ==> Step(st, x).workers[n] == st.workers[n])
  {
  }

  lemma RestInOrder(st: State, x: Section)
    requires IsRest(x) && WorkersAgree(st) && Enabled(st, x)
    ensures Step(st, x).leaked == 0 && CallInOrder(Step(st, x), Step(st, x).calls[x.call])
  {
    assert CallInOrder(st, st.calls[x.call]);
  }

  lemma RestAgrees(st: State, x: Section)
    requires IsRest(x) && WorkersAgree(st) && Enabled(st, x)
    ensures WorkersAgree(Step(st, x))
  {
    var st', p := Step(st, x), st.calls[x.call];
    RestMovesCall(st, x);
    RestInOrder(st, x);
    SameFree(st, st');
    forall n | Free(st', n) ensures SameAt(st', n) {
      assert SameAt(st, n) && n !in p.Touched();
    }
    forall c | c in st'.calls ensures CallInOrder(st', st'.calls[c]) {
      if c != x.call { RestLeavesOthers(st, x, c); }
    }
  }

  lemma RestLeavesOthers(st: State, x: Section, c: nat)
    requires IsRest(x) && WorkersAgree(st) && Enabled(st, x) && c in st.calls && c != x.call
    ensures CallInOrder(Step(st, x), st.calls[c])
  {
    RestMovesCall(st, x);
    assert st.calls[c].Touched() !! st.calls[x.call].Touched() && CallInOrder(st, st.calls[c]);
  }

  lemma SameFree(st: State, st': State)
    requires st'.calls.Keys == st.calls.Keys
    requires forall c :: c in st.calls ==>
      st'.calls[c].Touched() == st.calls[c].Touched() && st'.calls[c].source == st.calls[c].source
    ensures forall n :: Free(st', n) <==> Free(st, n)
    ensures forall id :: FreeId(st', id) <==> FreeId(st, id)
  {
    forall n ensures Free(st', n) <==> Free(st, n) {
      if Free(st', n) {
        forall c | c in st.calls ensures n !in st.calls[c].Touched() { assert n !in st'.calls[c].Touched(); }
      }
    }
    forall id ensures FreeId(st', id) <==> FreeId(st, id) {
      if FreeId(st', id) {
        forall c | c in st.calls ensures st.calls[c].source.id != id { assert st'.calls[c].source.id != id; }
      }
    }
  }

  lemma LastAgrees(st: State, x: Section)
    requires IsLast(x) && WorkersAgree(st) && Enabled(st, x)
    ensures WorkersAgree(Step(st, x))
  {
    var st', p := Step(st, x), st.calls[x.call];
    assert CallInOrder(st, p);
    forall n | Free(st', n) ensures SameAt(st', n) {
      if n !in p.Touched() {
        forall c | c in st.calls ensures n !in st.calls[c].Touched() {
          if c != x.call { assert c in st'.calls; }
        }
        assert SameAt(st, n);
      }
    }
    forall c | c in st'.calls ensures CallInOrder(st', st'.calls[c]) {
      assert CallInOrder(st, st.calls[c]);
    }
  }

  lemma EditTold(st: State, x: Section, id: string)
    requires IsEdit(x) && Agree(st) && Enabled(st, x) && Apart(st, x) && FreeId(Step(st, x), id)
    ensures ToldAt(Step(st, x), id)
  {
    var st' := Step(st, x);
    EditAddsCall(st, x);
    assert st'.calls[x.call].source.id != id;
    forall c | c in st.calls ensures st.calls[c].source.id != id {
      assert c in st'.calls && st'.calls[c] == st.calls[c];
    }
    assert FreeId(st, id) && ToldAt(st, id);
    if id in st.announced {
      var n :| n in st.sources && st.sources[n].id == id;
      assert n in st'.sources && st'.sources[n].id == id;
    }
  }

  lemma EditIds(st: State, x: Section)
    requires IsEdit(x) && Agree(st) && Enabled(st, x) && Apart(st, x)
    ensures IdsDiffer(Step(st, x).sources)
    ensures forall id :: UsesId(Step(st, x).sources, id) ==> UsesId(st.sources, id) || id == x.source.id
    ensures x.DeleteEdit? ==> !UsesId(Step(st, x).sources, x.source.id)
  {
    var st' := Step(st, x);
    forall id | UsesId(st'.sources, id) ensures UsesId(st.sources, id) || id == x.source.id {
      var n :| n in st'.sources && st'.sources[n].id == id;
      if n != x.source.name { assert n in st.sources; }
    }
  }

  lemma NewsAfterEdit(st: State, x: Section)
    requires IsEdit(x) && Agree(st) && Enabled(st, x) && Apart(st, x)
    ensures NewsAgree(Step(st, x))
  {
    var st' := Step(st, x);
    EditAddsCall(st, x);
    EditIds(st, x);
    forall c | c in st.calls ensures st.calls[c].source.id != x.source.id {
      EditedIdFree(st, x, c);
    }
    forall id | FreeId(st', id) ensures ToldAt(st', id) {
      EditTold(st, x, id);
    }
    forall c | c in st'.calls && (st'.calls[c].Removing? || st'.calls[c].Clearing?)
      ensures !UsesId(st'.sources, st'.calls[c].source.id)
    {
      if c != x.call { assert !UsesId(st.sources, st.calls[c].source.id); }
    }
  }

  /** The source an edit is about has an id that no call in progress is about. */
  lemma EditedIdFree(st: State, x: Section, c: nat)
    requires IsEdit(x) && Agree(st) && Enabled(st, x) && Apart(st, x) && c in st.calls
    ensures st.calls[c].source.id != x.source.id
  {
    var p := st.calls[c];
    assert CallInOrder(st, p);
    if !x.AddEdit? {
      var n := if x.UpdateEdit? then x.name else x.source.name;
      assert n in st.sources && st.sources[n].id == x.source.id && n !in p.Touched();
    }
  }

  lemma NewsAfterRest(st: State, x: Section)
    requires IsRest(x) && NewsAgree(st) && Enabled(st, x)
    ensures NewsAgree(Step(st, x))
  {
    var st' := Step(st, x);
    RestMovesCall(st, x);
    SameFree(st, st');
    forall id | FreeId(st', id) ensures ToldAt(st', id) {
      assert ToldAt(st, id);
    }
    forall c | c in st'.calls && (st'.calls[c].Removing? || st'.calls[c].Clearing?)
      ensures !UsesId(st'.sources, st'.calls[c].source.id)
    {
      assert !UsesId(st.sources, st.calls[c].source.id);
    }
  }

  lemma NewsAfterLast(st: State, x: Section)
    requires IsLast(x) && Agree(st) && Enabled(st, x)
    ensures NewsAgree(Step(st, x))
  {
    var st', p := Step(st, x), st.calls[x.call];
    assert CallInOrder(st, p);
    forall id | FreeId(st', id) ensures ToldAt(st', id) {
      if id != p.source.id {
        forall c | c in st.calls ensures st.calls[c].source.id != id {
          if c != x.call { assert c in st'.calls; }
        }
        assert FreeId(st, id) && ToldAt(st, id);
      } else if x.Announce? {
        assert p.source.name in st.sources && st.sources[p.source.name] == p.source;
      } else {
        assert !UsesId(st.sources, id);
      }
    }
  }

  lemma StepKeepsAgreement(st: State, x: Section)
    requires Agree(st) && Enabled(st, x) && Apart(st, x)
    ensures Agree(Step(st, x))
  {
    if IsEdit(x) {
      EditAgrees(st, x);
      NewsAfterEdit(st, x);
    } else if IsRest(x) {
      RestAgrees(st, x);
      NewsAfterRest(st, x);
    } else {
      LastAgrees(st, x);
      NewsAfterLast(st, x);
    }
  }

  /** The discovery messages tell of each source as it is now, and of nothing else. */
  ghost predicate Told(sources: ByName, announced: map<string, SourceConfig>) {
    && (forall n :: n in sources ==> sources[n].id in announced && announced[sources[n].id] == sources[n])
    && (forall id :: id in announced ==> UsesId(sources, id))
  }

  /** With no call in progress, the table and the source list are the same map, and the
      messages are those of the sources. */
  lemma QuietAgrees(st: State)
    requires Agree(st) && st.calls == map[]
    ensures st.workers == st.sources && Told(st.sources, st.announced)
  {
    forall n ensures SameAt(st, n) {
      assert Free(st, n);
    }
    forall n ensures n in st.workers <==> n in st.sources {
      assert SameAt(st, n);
    }
    forall n | n in st.workers ensures st.workers[n] == st.sources[n] {
      assert SameAt(st, n);
    }
    forall id ensures ToldAt(st, id) {
      assert FreeId(st, id);
    }
    forall n | n in st.sources
      ensures st.sources[n].id in st.announced && st.announced[st.sources[n].id] == st.sources[n]
    {
      assert ToldAt(st, st.sources[n].id);
    }
    forall id | id in st.announced ensures UsesId(st.sources, id) {
      assert ToldAt(st, id);
    }
  }

  ghost predicate Runs(st: State, xs: seq<Section>)
    decreases |xs|
  {
    xs != [] ==> Enabled(st, xs[0]) && Apart(st, xs[0]) && Runs(Step(st, xs[0]), xs[1..])
  }

  ghost function After(st: State, xs: seq<Section>): State
    requires Runs(st, xs)
    decreases |xs|
  {
    if xs == [] then st else After(Step(st, xs[0]), xs[1..])
  }

  /** In every interleaving of calls that touch different names, no worker is leaked, and
      whenever no call is in progress every source has a worker running exactly its current
      configuration, there are no others, and the same holds of the discovery messages. */
  lemma {:induction false} DisjointCallsAgree(st: State, xs: seq<Section>)
    requires Agree(st) && Runs(st, xs)
    ensures Agree(After(st, xs))
    ensures var r := After(st, xs);
      r.calls == map[] ==> r.workers == r.sources && Told(r.sources, r.announced)
    decreases |xs|
  {
    if xs == [] {
      if st.calls == map[] { QuietAgrees(st); }
    } else {
      StepKeepsAgreement(st, xs[0]);
      DisjointCallsAgree(Step(st, xs[0]), xs[1..]);
    }
  }
}
