/** One whole settings call inside another: exactly when the worker table and the discovery
    messages end up right, and when a worker is left running unmanaged. */
module Overlaps {
  import opened Sources
  import opened Interleaving

  datatype Call =
    | Add(source: SourceConfig)
    | Update(name: string, source: SourceConfig)
    | Delete(source: SourceConfig)

  function EditOf(call: Call, c: nat): Section {
    match call
    case Add(s) => AddEdit(c, s)
    case Update(name, s) => UpdateEdit(c, name, s)
    case Delete(s) => DeleteEdit(c, s)
  }

  /** The call is not refused; an added source has a new id. */
  ghost predicate Allowed(st: State, call: Call) {
    Enabled(st, EditOf(call, 0)) && (call.Add? ==> NewId(st, call.source.id))
  }

  /** What a whole call makes of the source list, and of a worker table. */
  function Edited(m: ByName, call: Call): ByName {
    match call
    case Add(s) => m[s.name := s]
    case Update(name, s) => (m - {name})[s.name := s]
    case Delete(s) => m - {s.name}
  }

  function News(announced: map<string, SourceConfig>, call: Call): map<string, SourceConfig> {
    if call.Delete? then announced - {call.source.id} else announced[call.source.id := call.source]
  }

  /** Whether a whole call starts a worker over one that was not stopped. */
  predicate Overwrites(workers: ByName, call: Call) {
    match call
    case Add(s) => s.name in workers
    case Update(name, s) => s.name != name && s.name in workers
    case Delete(_) => false
  }

  // -- one call from its edit to its last section ---------------------------------------------

  function RunUpdate(st: State, c: nat, name: string, s: SourceConfig): (r: State)
    requires Enabled(st, UpdateEdit(c, name, s))
    ensures r == State(Edited(st.sources, Update(name, s)), Edited(st.workers, Update(name, s)),
      News(st.announced, Update(name, s)), st.calls,
      st.leaked + if Overwrites(st.workers, Update(name, s)) then 1 else 0)
  {
    var r := Step(Step(Step(Step(st, UpdateEdit(c, name, s)), UpdateStop(c)), UpdateStart(c)), Announce(c));
    assert r.calls == st.calls;
    r
  }

  function RunAdd(st: State, c: nat, s: SourceConfig): (r: State)
    requires Enabled(st, AddEdit(c, s))
    ensures r == State(Edited(st.sources, Add(s)), Edited(st.workers, Add(s)),
      News(st.announced, Add(s)), st.calls, st.leaked + if Overwrites(st.workers, Add(s)) then 1 else 0)
  {
    var r := Step(Step(st, AddEdit(c, s)), Announce(c));
    assert r.calls == st.calls;
    r
  }

  function RunDelete(st: State, c: nat, s: SourceConfig): (r: State)
    requires Enabled(st, DeleteEdit(c, s))
    ensures r == State(Edited(st.sources, Delete(s)), Edited(st.workers, Delete(s)),
      News(st.announced, Delete(s)), st.calls, st.leaked)
  {
    var r := Step(Step(Step(st, DeleteEdit(c, s)), DeleteStop(c)), Clear(c));
    assert r.calls == st.calls;
    r
  }

  function RunCall(st: State, c: nat, call: Call): (r: State)
    requires Enabled(st, EditOf(call, c))
    ensures r == State(Edited(st.sources, call), Edited(st.workers, call),
      News(st.announced, call), st.calls, st.leaked + if Overwrites(st.workers, call) then 1 else 0)
  {
    match call
    case Add(s) => RunAdd(st, c, s)
    case Update(name, s) => RunUpdate(st, c, name, s)
    case Delete(s) => RunDelete(st, c, s)
  }

  // -- a call inside another -----------------------------------------------------------------------

  /** How far the outer call has come when the inner one runs. */
  datatype Place = AfterEdit | AfterStop | BeforeNews

  predicate Fits(outer: Call, place: Place) {
    match outer
    case Add(_) => place == BeforeNews
    case Update(_, _) => true
    case Delete(_) => place != AfterStop
  }

  /** What is pending of the outer call at that place. */
  function PendingAt(outer: Call, place: Place): Pending {
    match outer
    case Add(s) => Announcing(s.name, s)
    case Update(name, s) =>
      if place == AfterEdit then Restarting(name, s)
      else if place == AfterStop then Starting(name, s) else Announcing(name, s)
    case Delete(s) => if place == AfterEdit then Removing(s) else Clearing(s)
  }

  /** The outer call up to the place. */
  function Begun(st: State, outer: Call, place: Place): State
    requires st.calls == map[] && Enabled(st, EditOf(outer, 1)) && Fits(outer, place)
  {
    var a := Step(st, EditOf(outer, 1));
    match outer
    case Add(_) => a
    case Update(_, _) =>
      if place == AfterEdit then a
      else if place == AfterStop then Step(a, UpdateStop(1))
      else Step(Step(a, UpdateStop(1)), UpdateStart(1))
    case Delete(_) => if place == AfterEdit then a else Step(a, DeleteStop(1))
  }

  /** The rest of the outer call. */
  function Finished(st: State, outer: Call, place: Place): State
    requires Fits(outer, place) && st.calls == map[1 := PendingAt(outer, place)]
  {
    match outer
    case Add(_) => Step(st, Announce(1))
    case Update(_, _) =>
      if place == AfterEdit then Step(Step(Step(st, UpdateStop(1)), UpdateStart(1)), Announce(1))
      else if place == AfterStop then Step(Step(st, UpdateStart(1)), Announce(1))
      else Step(st, Announce(1))
    case Delete(_) => if place == AfterEdit then Step(Step(st, DeleteStop(1)), Clear(1)) else Step(st, Clear(1))
  }

  /** The table before the inner call. */
  function TableThen(m: ByName, outer: Call, place: Place): ByName {
    if place == BeforeNews then Edited(m, outer)
    else if place == AfterStop && outer.Update? then m - {outer.name}
    else m
  }

  /** What is left to do to the table after it. */
  function TableRest(m: ByName, outer: Call, place: Place): ByName {
    match place
    case AfterEdit => Edited(m, outer)
    case AfterStop => if outer.Update? then m[outer.source.name := outer.source] else m
    case BeforeNews => m
  }

  /** Whether that starts a worker over one that was not stopped. */
  predicate OverwritesLate(m: ByName, outer: Call, place: Place) {
    match place
    case AfterEdit => Overwrites(m, outer)
    case AfterStop => outer.Update? && outer.source.name in m
    case BeforeNews => false
  }

  lemma BegunForm(st: State, outer: Call, place: Place)
    requires st.calls == map[] && Enabled(st, EditOf(outer, 1)) && Fits(outer, place)
    ensures var b := Begun(st, outer, place);
      && b.sources == Edited(st.sources, outer) && b.workers == TableThen(st.workers, outer, place)
      && b.announced == st.announced && b.calls == map[1 := PendingAt(outer, place)]
      && b.leaked == st.leaked + if place == BeforeNews && Overwrites(st.workers, outer) then 1 else 0
  {
  }

  lemma FinishedForm(st: State, outer: Call, place: Place)
    requires Fits(outer, place) && st.calls == map[1 := PendingAt(outer, place)]
    ensures var f := Finished(st, outer, place);
      && f.calls == map[] && f.sources == st.sources && f.announced == News(st.announced, outer)
      && f.workers == TableRest(st.workers, outer, place)
      && f.leaked == st.leaked + if OverwritesLate(st.workers, outer, place) then 1 else 0
  {
  }

  function Nested(st: State, outer: Call, place: Place, inner: Call): State
    requires st.calls == map[] && Enabled(st, EditOf(outer, 1)) && Fits(outer, place)
    requires Enabled(Begun(st, outer, place), EditOf(inner, 2))
  {
    BegunForm(st, outer, place);
    Finished(RunCall(Begun(st, outer, place), 2, inner), outer, place)
  }

  lemma NestedForm(st: State, outer: Call, place: Place, inner: Call)
    requires st.calls == map[] && Enabled(st, EditOf(outer, 1)) && Fits(outer, place)
    requires Enabled(Begun(st, outer, place), EditOf(inner, 2))
    ensures var r := Nested(st, outer, place, inner);
      var between := Edited(TableThen(st.workers, outer, place), inner);
      && r.calls == map[] && r.sources == Edited(Edited(st.sources, outer), inner)
      && r.workers == TableRest(between, outer, place)
      && r.announced == News(News(st.announced, inner), outer)
      && (r.leaked > st.leaked <==>
            || (place == BeforeNews && Overwrites(st.workers, outer))
            || Overwrites(TableThen(st.workers, outer, place), inner)
            || OverwritesLate(between, outer, place))
  {
    BegunForm(st, outer, place);
    FinishedForm(RunCall(Begun(st, outer, place), 2, inner), outer, place);
  }

  // -- the tables ----------------------------------------------------------------------------------

  /** The worker table ends up right. */
  predicate TableFits(outer: Call, place: Place, inner: Call) {
    || place == BeforeNews
    || match outer
       case Add(_) => true
       case Update(name, s) =>
         (match inner
          case Add(x) => place == AfterStop || x.name != name
          case Update(other, t) => t == s || (other != s.name && (place == AfterStop || t.name != name))
          case Delete(g) => g.name != s.name)
       case Delete(g) => inner.Delete? || inner.source.name != g.name
  }

  /** Some worker is dropped from the table without being stopped. */
  predicate TableLeaks(outer: Call, place: Place, inner: Call) {
    && place != BeforeNews
    && match outer
       case Add(_) => false
       case Update(name, s) =>
         (match inner
          case Add(x) => place == AfterEdit && x.name == name
          case Update(other, t) =>
            if place == AfterEdit then (t.name == name && other != name) || (t.name == s.name && s.name != name)
            else other == t.name == s.name
          case Delete(_) => false)
       case Delete(g) => !inner.Delete? && inner.source.name == g.name
  }

  /** The edits go through on this source list. */
  predicate Editable(m: ByName, call: Call) {
    match call
    case Add(s) => s.name !in m
    case Update(name, s) => name in m && (s.name == name || s.name !in m)
    case Delete(s) => s.name in m && m[s.name] == s
  }

  lemma UpdateTable(m: ByName, outer: Call, place: Place, inner: Call)
    requires outer.Update? && Editable(m, outer) && Editable(Edited(m, outer), inner)
    ensures TableRest(Edited(TableThen(m, outer, place), inner), outer, place) == Edited(Edited(m, outer), inner) <==>
      TableFits(outer, place, inner)
  {
    var workers := TableRest(Edited(TableThen(m, outer, place), inner), outer, place);
    var sources := Edited(Edited(m, outer), inner);
    if TableFits(outer, place, inner) {
      assert workers == sources;
    } else if inner.Add? || (inner.Update? && inner.name != outer.source.name) {
      assert outer.name in sources && outer.name !in workers;
    } else {
      assert outer.source.name in workers && workers[outer.source.name] == outer.source;
      assert outer.source.name in sources ==> sources[outer.source.name] == inner.source;
    }
  }

  lemma DeleteTable(m: ByName, outer: Call, place: Place, inner: Call)
    requires outer.Delete? && Editable(m, outer) && Editable(Edited(m, outer), inner) && Fits(outer, place)
    ensures TableRest(Edited(TableThen(m, outer, place), inner), outer, place) == Edited(Edited(m, outer), inner) <==>
      TableFits(outer, place, inner)
  {
    var workers := TableRest(Edited(TableThen(m, outer, place), inner), outer, place);
    var sources := Edited(Edited(m, outer), inner);
    if TableFits(outer, place, inner) {
      assert workers == sources;
    } else {
      assert outer.source.name in sources && outer.source.name !in workers;
    }
  }

  lemma LeaksIff(m: ByName, outer: Call, place: Place, inner: Call)
    requires Editable(m, outer) && Editable(Edited(m, outer), inner) && Fits(outer, place)
    ensures
      (|| (place == BeforeNews && Overwrites(m, outer))
       || Overwrites(TableThen(m, outer, place), inner)
       || OverwritesLate(Edited(TableThen(m, outer, place), inner), outer, place)) <==>
      TableLeaks(outer, place, inner)
  {
  }

  // -- the messages -----------------------------------------------------------------------------------

  /** The discovery messages end up right: the outer call does not announce what the inner one
      has changed or deleted. */
  predicate NewsFit(outer: Call, inner: Call) {
    || outer.Delete?
    || match inner
       case Add(_) => true
       case Update(other, t) => other != outer.source.name || t == outer.source
       case Delete(g) => g.name != outer.source.name
  }

  ghost predicate KeepsIds(m: ByName, call: Call) {
    match call
    case Add(s) => !UsesId(m, s.id)
    case Update(name, s) => name in m && s.id == m[name].id
    case Delete(_) => true
  }

  lemma CallTells(m: ByName, announced: map<string, SourceConfig>, call: Call)
    requires Editable(m, call) && KeepsIds(m, call) && IdsDiffer(m) && Told(m, announced)
    requires forall n :: n in m ==> m[n].name == n
    ensures Told(Edited(m, call), News(announced, call)) && IdsDiffer(Edited(m, call))
    ensures forall n :: n in Edited(m, call) ==> Edited(m, call)[n].name == n
  {
    var m', a' := Edited(m, call), News(announced, call);
    forall id | id in a' ensures UsesId(m', id) {
      if id == call.source.id {
        assert m'[call.source.name].id == id;
      } else {
        assert UsesId(m, id);
        var n :| n in m && m[n].id == id;
        assert n in m' && m'[n].id == id;
      }
    }
  }

  lemma SameIdSameName(m: ByName, outer: Call, inner: Call)
    requires Editable(m, outer) && KeepsIds(m, outer) && IdsDiffer(m)
    requires forall n :: n in m ==> m[n].name == n
    requires Editable(Edited(m, outer), inner) && KeepsIds(Edited(m, outer), inner)
    requires IdsDiffer(Edited(m, outer)) && (inner.Add? ==> inner.source.id != outer.source.id)
    ensures inner.source.id == outer.source.id <==>
      !outer.Delete? && !inner.Add? && (if inner.Update? then inner.name else inner.source.name) == outer.source.name
  {
    var e := Edited(m, outer);
    if !outer.Delete? { assert outer.source.name in e && e[outer.source.name] == outer.source; }
  }

  lemma NewsIff(m: ByName, announced: map<string, SourceConfig>, outer: Call, inner: Call)
    requires Editable(m, outer) && KeepsIds(m, outer) && IdsDiffer(m) && Told(m, announced)
    requires forall n :: n in m ==> m[n].name == n
    requires Editable(Edited(m, outer), inner) && KeepsIds(Edited(m, outer), inner)
    requires inner.Add? ==> inner.source.id != outer.source.id
    ensures Told(Edited(Edited(m, outer), inner), News(News(announced, inner), outer)) <==> NewsFit(outer, inner)
  {
    var e := Edited(m, outer);
    CallTells(m, announced, outer);
    CallTells(e, News(announced, outer), inner);
    SameIdSameName(m, outer, inner);
    if inner.source.id != outer.source.id || (inner.Update? && inner.source == outer.source) {
      NewsCommute(announced, outer, inner);
    } else {
      StaleNews(Edited(e, inner), announced, outer, inner);
    }
  }

  lemma NewsCommute(announced: map<string, SourceConfig>, outer: Call, inner: Call)
    requires inner.source.id != outer.source.id || (inner.Update? && !outer.Delete? && inner.source == outer.source)
    ensures News(News(announced, inner), outer) == News(News(announced, outer), inner)
  {
  }

  lemma StaleNews(sources: ByName, announced: map<string, SourceConfig>, outer: Call, inner: Call)
    requires !outer.Delete? && !inner.Add? && inner.source.id == outer.source.id
    requires inner.Update? ==>
      inner.source != outer.source && inner.source.name in sources && sources[inner.source.name] == inner.source
    requires Told(sources, News(News(announced, outer), inner))
    ensures !Told(sources, News(News(announced, inner), outer))
  {
    var id := outer.source.id;
    var news := News(News(announced, inner), outer);
    assert news[id] == outer.source;
    if inner.Delete? {
      assert id !in News(News(announced, outer), inner);
      forall n | n in sources ensures sources[n].id != id {}
    }
  }

  /** One whole call inside another, at any place: the table ends up equal to the source list,
      a worker is leaked, and the messages end up right, each exactly in these cases. */
  lemma NestedIff(st: State, outer: Call, place: Place, inner: Call)
    requires st.calls == map[] && Agree(st) && Allowed(st, outer) && Fits(outer, place)
    requires Enabled(Begun(st, outer, place), EditOf(inner, 2))
    requires inner.Add? ==> NewId(Begun(st, outer, place), inner.source.id)
    ensures var r := Nested(st, outer, place, inner);
      && r.calls == map[]
      && (r.workers == r.sources <==> TableFits(outer, place, inner))
      && (r.leaked > 0 <==> TableLeaks(outer, place, inner))
      && (Told(r.sources, r.announced) <==> NewsFit(outer, inner))
  {
    QuietAgrees(st);
    NestedEdits(st, outer, place, inner);
    NestedForm(st, outer, place, inner);
    LeaksIff(st.sources, outer, place, inner);
    TableIff(st.sources, outer, place, inner);
    NewsIff(st.sources, st.announced, outer, inner);
  }

  lemma TableIff(m: ByName, outer: Call, place: Place, inner: Call)
    requires Editable(m, outer) && Editable(Edited(m, outer), inner) && Fits(outer, place)
    ensures TableRest(Edited(TableThen(m, outer, place), inner), outer, place) == Edited(Edited(m, outer), inner) <==>
      TableFits(outer, place, inner)
  {
    if outer.Update? {
      UpdateTable(m, outer, place, inner);
    } else if outer.Delete? {
      DeleteTable(m, outer, place, inner);
    }
  }

  lemma NestedEdits(st: State, outer: Call, place: Place, inner: Call)
    requires st.calls == map[] && Agree(st) && Allowed(st, outer) && Fits(outer, place)
    requires Enabled(Begun(st, outer, place), EditOf(inner, 2))
    requires inner.Add? ==> NewId(Begun(st, outer, place), inner.source.id)
    ensures Editable(st.sources, outer) && KeepsIds(st.sources, outer)
    ensures Editable(Edited(st.sources, outer), inner) && KeepsIds(Edited(st.sources, outer), inner)
    ensures inner.Add? ==> inner.source.id != outer.source.id
  {
    BegunForm(st, outer, place);
    if inner.Add? { assert FreeId(Begun(st, outer, place), inner.source.id); }
  }

  /** A rename of `a` to `b` with a new `a` added between its edit and its stop. */
  lemma RenameThenReuse() returns (st: State, outer: Call, inner: Call)
    ensures st.calls == map[] && Agree(st) && Allowed(st, outer) && outer.Update?
    ensures Enabled(Begun(st, outer, AfterEdit), EditOf(inner, 2))
    ensures var r := Nested(st, outer, AfterEdit, inner); r.workers != r.sources && r.leaked > 0
  {
    var s := Bare("a", "x");
    st := State(map["a" := s], map["a" := s], map["x" := s], map[], 0);
    outer, inner := Update("a", Bare("b", "x")), Add(Bare("a", "y"));
    assert UsesId(st.sources, "x") by { assert "a" in st.sources; }
    NestedIff(st, outer, AfterEdit, inner);
  }
}
