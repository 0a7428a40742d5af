/** Snippet retention: the event table, and the age and space clean-up over it. */
module Retention {
  import opened Util

  datatype Row = Row(id: nat, source: string, sound: string, score: real, timestamp: real, duration: real, file: string)

  /** The columns of an event that is about to be stored. */
  datatype NewEvent = NewEvent(
    source: string, sound: string, score: real, timestamp: real, duration: real, file: string)

  // -- the event table as a value -------------------------------------------------------

  /** Rows in insertion order, and the next id: an id is never used twice. */
  datatype EventTable = EventTable(rows: seq<Row>, next: nat) {
    ghost predicate Valid() {
      && (forall i :: 0 <= i < |rows| ==> rows[i].id < next)
      && DistinctIds(rows)
    }
  }

  function Insert(t: EventTable, e: NewEvent): EventTable {
    EventTable(t.rows + [Row(t.next, e.source, e.sound, e.score, e.timestamp, e.duration, e.file)], t.next + 1)
  }

  function Keep(rows: seq<Row>, ids: set<nat>): (r: seq<Row>)
    ensures forall x :: x in r <==> x in rows && x.id !in ids
  {
    if rows == [] then []
    else if rows[0].id in ids then Keep(rows[1..], ids) else [rows[0]] + Keep(rows[1..], ids)
  }

  function DeleteIds(t: EventTable, ids: set<nat>): EventTable {
    EventTable(Keep(t.rows, ids), t.next)
  }

  ghost predicate DistinctIds(rows: seq<Row>) {
    forall i, j :: 0 <= i < j < |rows| ==> rows[i].id != rows[j].id
  }

  lemma {:induction false} KeepKeepsDistinct(rows: seq<Row>, ids: set<nat>)
    requires DistinctIds(rows)
    ensures DistinctIds(Keep(rows, ids))
  {
    if rows != [] {
      KeepKeepsDistinct(rows[1..], ids);
      forall x | x in rows[1..] ensures x.id != rows[0].id {
        var j :| 0 <= j < |rows| - 1 && rows[j + 1] == x;
      }
      forall x | x in Keep(rows[1..], ids) ensures x.id != rows[0].id {
        assert x in rows[1..];
      }
    }
  }

  lemma {:induction false} KeepAll(rows: seq<Row>, ids: set<nat>)
    requires forall x :: x in rows ==> x.id !in ids
    ensures Keep(rows, ids) == rows
  {
    if rows != [] { KeepAll(rows[1..], ids); }
  }

  /** Oldest first; rows of the same age in any order. */
  ghost predicate ByAge(rows: seq<Row>) {
    forall i, j :: 0 <= i < j < |rows| ==> rows[i].timestamp <= rows[j].timestamp
  }

  /** What `list_all_ordered_by_age_asc` may return. */
  ghost predicate Listing(t: EventTable, rows: seq<Row>) {
    multiset(rows) == multiset(t.rows) && ByAge(rows)
  }

  lemma ListingFacts(t: EventTable, rows: seq<Row>)
    requires t.Valid() && Listing(t, rows)
    ensures forall x :: x in rows <==> x in t.rows
    ensures DistinctIds(rows)
  {
    forall x ensures x in rows <==> x in t.rows {
      assert x in rows <==> x in multiset(rows);
      assert x in t.rows <==> x in multiset(t.rows);
    }
    PermutedDistinct(t.rows, rows);
  }

  lemma PermutedDistinct(a: seq<Row>, b: seq<Row>)
    requires DistinctIds(a) && multiset(a) == multiset(b)
    ensures DistinctIds(b)
  {
    forall i, j | 0 <= i < j < |b| ensures b[i].id != b[j].id {
      assert b[i] in multiset(b) && b[j] in multiset(b);
      assert b[i] in a && b[j] in a;
      CountOfDistinct(a, b[i]);
      if b[i] == b[j] { CountedTwice(b, i, j); }
    }
  }

  lemma CountedTwice(b: seq<Row>, i: nat, j: nat)
    requires i < j < |b| && b[i] == b[j]
    ensures multiset(b)[b[i]] >= 2
  {
    assert b == b[..i] + [b[i]] + b[i + 1..j] + [b[j]] + b[j + 1..];
  }

  // -- space: how many of the oldest rows have to go -----------------------------------------

  type Disk = map<string, nat>

  /** `_safe_size`: a missing file counts as empty. */
  function SizeOf(disk: Disk, file: string): nat {
    if file in disk then disk[file] else 0
  }

  function Total(rows: seq<Row>, disk: Disk): nat {
    if rows == [] then 0 else SizeOf(disk, rows[0].file) + Total(rows[1..], disk)
  }

  /** The fewest oldest rows whose removal brings the rest to the cap (all of them if
      nothing less does). */
  ghost predicate Fewest(rows: seq<Row>, disk: Disk, cap: real, k: nat) {
    && k <= |rows|
    && (k < |rows| ==> Total(rows[k..], disk) as real <= cap)
    && (forall j :: 0 <= j < k ==> Total(rows[j..], disk) as real > cap)
  }

  /** `_cleanup_by_space`: subtract from the total, oldest first, until it is under the cap. */
  method PickVictims(rows: seq<Row>, disk: Disk, cap: real) returns (k: nat, usedBefore: nat)
    ensures usedBefore == Total(rows, disk)
    ensures Fewest(rows, disk, cap, k)
    ensures k == 0 <==> rows == [] || usedBefore as real <= cap
  {
    var total := SumSizes(rows, disk);
    usedBefore := total;
    k := 0;
    assert rows[0..] == rows;
    while k < |rows|
      invariant 0 <= k <= |rows| && total == Total(rows[k..], disk)
      invariant forall j :: 0 <= j < k ==> Total(rows[j..], disk) as real > cap
    {
      if total as real <= cap {
        break;
      }
      assert rows[k..][1..] == rows[k + 1..];
      total := total - SizeOf(disk, rows[k].file);
      k := k + 1;
    }
    if k > 0 { assert rows[0..] == rows && Total(rows[0..], disk) as real > cap; }
  }

  method SumSizes(rows: seq<Row>, disk: Disk) returns (total: nat)
    ensures total == Total(rows, disk)
  {
    total := 0;
    for i := 0 to |rows|
      invariant total + Total(rows[i..], disk) == Total(rows, disk)
    {
      assert rows[i..][1..] == rows[i + 1..];
      total := total + SizeOf(disk, rows[i].file);
    }
  }

  // -- a pass, as a relation on tables ---------------------------------------------------------

  datatype Limits = Limits(maxAgeDays: Option<real>, maxSpaceMb: Option<real>)

  /** A limit of zero counts as no limit. */
  predicate Active(limit: Option<real>) {
    limit.Some? && limit.value != 0.0
  }

  function Cutoff(now: real, limits: Limits): real
    requires limits.maxAgeDays.Some?
  {
    now - limits.maxAgeDays.value * 86400.0
  }

  function Cap(limits: Limits): real
    requires limits.maxSpaceMb.Some?
  {
    limits.maxSpaceMb.value * 1000000.0
  }

  function Ids(rows: seq<Row>): set<nat> {
    set r | r in rows :: r.id
  }

  function Expired(rows: seq<Row>, cutoff: real): (old_: seq<Row>)
    ensures forall r :: r in old_ <==> r in rows && r.timestamp < cutoff
    ensures (forall r :: r in rows ==> r.timestamp >= cutoff) ==> old_ == []
  {
    if rows == [] then []
    else if rows[0].timestamp < cutoff then [rows[0]] + Expired(rows[1..], cutoff) else Expired(rows[1..], cutoff)
  }

  /** `os.remove` on each file in turn; a file in `stuck` cannot be removed. */
  function RemoveFiles(disk: Disk, rows: seq<Row>, stuck: set<string>): Disk {
    if rows == [] then disk
    else RemoveFiles(if rows[0].file in stuck then disk else disk - {rows[0].file}, rows[1..], stuck)
  }

  datatype Alert = SpaceAlert(used: nat, max: int, deleted: nat)

  /** Table, disk and the alert sent, if any. */
  datatype Outcome = Outcome(table: EventTable, disk: Disk, alert: Option<Alert>)

  function Evict(t: EventTable, disk: Disk, victims: seq<Row>, stuck: set<string>, alert: Option<Alert>): Outcome {
    Outcome(DeleteIds(t, Ids(victims)), RemoveFiles(disk, victims, stuck), alert)
  }

  /** `_cleanup_by_age` on the listing it got. */
  function AgePass(t: EventTable, disk: Disk, listing: seq<Row>, now: real, limits: Limits, stuck: set<string>)
    : Outcome
  {
    if !Active(limits.maxAgeDays) then Outcome(t, disk, None)
    else Evict(t, disk, Expired(listing, Cutoff(now, limits)), stuck, None)
  }

  /** `_cleanup_by_space` on the listing it got, with `k` victims. */
  ghost predicate SpacePass(t: EventTable, disk: Disk, listing: seq<Row>, limits: Limits, stuck: set<string>,
                            k: nat, out: Outcome)
  {
    if !Active(limits.maxSpaceMb) || Total(listing, disk) as real <= Cap(limits) then
      k == 0 && out == Outcome(t, disk, None)
    else
      && Fewest(listing, disk, Cap(limits), k)
      && out == Evict(t, disk, listing[..k], stuck, Some(SpaceAlert(Total(listing, disk), Truncate(Cap(limits)), k)))
  }

  /** One `run_cleanup`: what the two listings were, and how many rows went for space. */
  ghost predicate Pass(t: EventTable, disk: Disk, now: real, limits: Limits, stuck: set<string>,
                       byAge: seq<Row>, bySpace: seq<Row>, k: nat, out: Outcome)
  {
    var mid := AgePass(t, disk, byAge, now, limits, stuck);
    && Listing(t, byAge)
    && Listing(mid.table, bySpace)
    && SpacePass(mid.table, mid.disk, bySpace, limits, stuck, k, out)
  }

  // -- what a pass leaves -------------------------------------------------------------------------

  lemma AgePassFacts(t: EventTable, disk: Disk, listing: seq<Row>, now: real, limits: Limits, stuck: set<string>)
    requires t.Valid() && Listing(t, listing)
    ensures var mid := AgePass(t, disk, listing, now, limits, stuck);
      && mid.table.Valid() && mid.table.next == t.next
      && (forall x :: x in mid.table.rows <==>
            x in t.rows && (Active(limits.maxAgeDays) ==> x.timestamp >= Cutoff(now, limits)))
  {
    ListingFacts(t, listing);
    if Active(limits.maxAgeDays) {
      var old_ := Expired(listing, Cutoff(now, limits));
      EvictFacts(t, old_);
      forall x | x in t.rows ensures x.id in Ids(old_) <==> x in old_ {
        VictimById(t, old_, x);
      }
    }
  }

  lemma VictimById(t: EventTable, victims: seq<Row>, x: Row)
    requires t.Valid() && x in t.rows && forall v :: v in victims ==> v in t.rows
    ensures x.id in Ids(victims) <==> x in victims
  {
    if x.id in Ids(victims) {
      var v :| v in victims && v.id == x.id;
      assert v == x;
    }
  }

  lemma EvictFacts(t: EventTable, victims: seq<Row>)
    requires t.Valid() && forall v :: v in victims ==> v in t.rows
    ensures var t' := DeleteIds(t, Ids(victims));
      t'.Valid() && forall x :: x in t'.rows <==> x in t.rows && x !in victims
  {
    var t' := DeleteIds(t, Ids(victims));
    KeepKeepsDistinct(t.rows, Ids(victims));
    forall i | 0 <= i < |t'.rows| ensures t'.rows[i].id < t'.next {
      assert t'.rows[i] in t.rows;
    }
    forall x ensures x in t'.rows <==> x in t.rows && x !in victims {
      if x in t.rows { VictimById(t, victims, x); }
    }
  }

  /** Cutting a listing: no row is on both sides. */
  lemma SplitListing(listing: seq<Row>, k: nat)
    requires DistinctIds(listing) && k <= |listing|
    ensures forall x :: x in listing && x !in listing[..k] <==> x in listing[k..]
  {
    assert listing == listing[..k] + listing[k..];
    forall x, y | x in listing[..k] && y in listing[k..] ensures x != y {
      var i :| 0 <= i < k && listing[i] == x;
      var j :| k <= j < |listing| && listing[j] == y;
      assert listing[i].id != listing[j].id;
    }
  }

  lemma NothingEvicted(t: EventTable, disk: Disk, stuck: set<string>)
    ensures Evict(t, disk, [], stuck, None) == Outcome(t, disk, None)
  {
    KeepAll(t.rows, Ids([]));
  }

  /** A space pass drops the first `k` rows of its listing, and their files. */
  lemma SpacePassEvicts(t: EventTable, disk: Disk, listing: seq<Row>, limits: Limits, stuck: set<string>,
                        k: nat, out: Outcome)
    requires SpacePass(t, disk, listing, limits, stuck, k, out)
    ensures k <= |listing|
    ensures out.table == DeleteIds(t, Ids(listing[..k])) && out.disk == RemoveFiles(disk, listing[..k], stuck)
  {
    if !Active(limits.maxSpaceMb) || Total(listing, disk) as real <= Cap(limits) {
      assert listing[..k] == [];
      NothingEvicted(t, disk, stuck);
    }
  }

  lemma SpacePassFacts(t: EventTable, disk: Disk, listing: seq<Row>, limits: Limits, stuck: set<string>,
                       k: nat, out: Outcome)
    requires t.Valid() && Listing(t, listing) && SpacePass(t, disk, listing, limits, stuck, k, out)
    ensures k <= |listing| && out.table.Valid()
    ensures forall x :: x in out.table.rows <==> x in listing[k..]
    ensures forall x :: x in t.rows <==> x in listing
  {
    SpacePassEvicts(t, disk, listing, limits, stuck, k, out);
    ListingFacts(t, listing);
    SplitListing(listing, k);
    EvictFacts(t, listing[..k]);
  }

  /** A pass keeps a newest suffix: nothing it keeps is older than anything it removes,
      nothing kept is past the age limit, and no row is altered. */
  lemma PassKeepsNewest(t: EventTable, disk: Disk, now: real, limits: Limits, stuck: set<string>,
                        byAge: seq<Row>, bySpace: seq<Row>, k: nat, out: Outcome)
    requires t.Valid() && Pass(t, disk, now, limits, stuck, byAge, bySpace, k, out)
    ensures out.table.Valid() && forall x :: x in out.table.rows ==> x in t.rows
    ensures forall x, y :: x in out.table.rows && y in t.rows && y !in out.table.rows ==> y.timestamp <= x.timestamp
    ensures Active(limits.maxAgeDays) ==> forall x :: x in out.table.rows ==> x.timestamp >= Cutoff(now, limits)
  {
    var mid := AgePass(t, disk, byAge, now, limits, stuck);
    AgePassFacts(t, disk, byAge, now, limits, stuck);
    SpacePassFacts(mid.table, mid.disk, bySpace, limits, stuck, k, out);
    assert bySpace == bySpace[..k] + bySpace[k..];
    forall x, y | x in out.table.rows && y in t.rows && y !in out.table.rows ensures y.timestamp <= x.timestamp {
      if y in mid.table.rows { OlderFirst(bySpace, k, y, x); }
    }
  }

  lemma OlderFirst(listing: seq<Row>, k: nat, y: Row, x: Row)
    requires ByAge(listing) && k <= |listing| && y in listing[..k] && x in listing[k..]
    ensures y.timestamp <= x.timestamp
  {
    var i :| 0 <= i < k && listing[..k][i] == y;
    var j :| 0 <= j < |listing| - k && listing[k..][j] == x;
    assert listing[i] == y && listing[k + j] == x;
  }

  // -- size after a pass ------------------------------------------------------------------------------

  lemma {:induction false} RemovingShrinks(disk: Disk, rows: seq<Row>, stuck: set<string>)
    ensures forall f :: SizeOf(RemoveFiles(disk, rows, stuck), f) <= SizeOf(disk, f)
  {
    if rows != [] {
      RemovingShrinks(if rows[0].file in stuck then disk else disk - {rows[0].file}, rows[1..], stuck);
    }
  }

  lemma {:induction false} TotalShrinks(rows: seq<Row>, a: Disk, b: Disk)
    requires forall f :: SizeOf(b, f) <= SizeOf(a, f)
    ensures Total(rows, b) <= Total(rows, a)
  {
    if rows != [] { TotalShrinks(rows[1..], a, b); }
  }

  lemma {:induction false} TotalSplit(a: seq<Row>, b: seq<Row>, disk: Disk)
    ensures Total(a + b, disk) == Total(a, disk) + Total(b, disk)
  {
    if a == [] {
      assert a + b == b;
    } else {
      assert (a + b)[1..] == a[1..] + b;
      TotalSplit(a[1..], b, disk);
    }
  }

  lemma TakeOut(b: seq<Row>, i: nat, disk: Disk)
    requires i < |b|
    ensures multiset(b[..i] + b[i + 1..]) == multiset(b) - multiset{b[i]}
    ensures Total(b, disk) == SizeOf(disk, b[i].file) + Total(b[..i] + b[i + 1..], disk)
  {
    assert b == b[..i] + ([b[i]] + b[i + 1..]);
    TotalSplit(b[..i], [b[i]] + b[i + 1..], disk);
    TotalSplit(b[..i], b[i + 1..], disk);
    assert ([b[i]] + b[i + 1..])[1..] == b[i + 1..];
  }

  lemma NoRows(b: seq<Row>)
    requires multiset(b) == multiset{}
    ensures b == []
  {
    assert |multiset(b)| == |b|;
  }

  lemma HeadTakenOut(a: seq<Row>, b: seq<Row>, i: nat, disk: Disk)
    requires multiset(a) == multiset(b) && a != [] && i < |b| && b[i] == a[0]
    ensures multiset(a[1..]) == multiset(b[..i] + b[i + 1..])
    ensures Total(b, disk) == SizeOf(disk, a[0].file) + Total(b[..i] + b[i + 1..], disk)
  {
    TakeOut(b, i, disk);
    assert a == [a[0]] + a[1..];
  }

  /** The total does not depend on the order of the rows. */
  lemma {:induction false} TotalOfPermutation(a: seq<Row>, b: seq<Row>, disk: Disk)
    requires multiset(a) == multiset(b)
    ensures Total(a, disk) == Total(b, disk)
  {
    if a == [] {
      NoRows(b);
    } else {
      assert a[0] in multiset(b);
      var i :| 0 <= i < |b| && b[i] == a[0];
      HeadTakenOut(a, b, i, disk);
      TotalOfPermutation(a[1..], b[..i] + b[i + 1..], disk);
    }
  }

  /** After a pass with a cap that is not negative, the files of the remaining rows fit
      under the cap, in whatever order they are listed. */
  lemma PassFitsCap(t: EventTable, disk: Disk, now: real, limits: Limits, stuck: set<string>,
                    byAge: seq<Row>, bySpace: seq<Row>, k: nat, out: Outcome, later: seq<Row>)
    requires t.Valid() && Active(limits.maxSpaceMb) && Cap(limits) >= 0.0
    ensures Pass(t, disk, now, limits, stuck, byAge, bySpace, k, out) && Listing(out.table, later) ==>
      Total(later, out.disk) as real <= Cap(limits)
  {
    if Pass(t, disk, now, limits, stuck, byAge, bySpace, k, out) && Listing(out.table, later) {
      var mid := AgePass(t, disk, byAge, now, limits, stuck);
      AgePassFacts(t, disk, byAge, now, limits, stuck);
      SpacePassFacts(mid.table, mid.disk, bySpace, limits, stuck, k, out);
      SameRows(mid.table, bySpace, k, out.table, later);
      TotalOfPermutation(later, bySpace[k..], out.disk);
      RemovingShrinks(mid.disk, bySpace[..k], stuck);
      TotalShrinks(bySpace[k..], mid.disk, out.disk);
      assert bySpace[0..] == bySpace;
    }
  }

  lemma SameRows(t: EventTable, listing: seq<Row>, k: nat, t': EventTable, later: seq<Row>)
    requires t.Valid() && Listing(t, listing) && k <= |listing|
    requires t'.Valid() && Listing(t', later) && forall x :: x in t'.rows <==> x in listing[k..]
    ensures multiset(later) == multiset(listing[k..])
  {
    ListingFacts(t, listing);
    ListingFacts(t', later);
    SameElementsPermute(later, listing[k..]);
  }

  /** A second pass at the same time, however the first pass's removals went, deletes
      nothing and sends no alert, exactly when the space cap is absent or not negative.
      (Under a negative cap an empty table still counts as over it.) */
  lemma SecondPassDoesNothing(t: EventTable, disk: Disk, now: real, limits: Limits, stuck: set<string>,
                              byAge: seq<Row>, bySpace: seq<Row>, k: nat, out: Outcome,
                              stuck2: set<string>, byAge2: seq<Row>, bySpace2: seq<Row>, k2: nat, out2: Outcome)
    requires t.Valid()
    ensures
      Pass(t, disk, now, limits, stuck, byAge, bySpace, k, out) &&
      Pass(out.table, out.disk, now, limits, stuck2, byAge2, bySpace2, k2, out2) ==>
        (out2 == Outcome(out.table, out.disk, None) <==> (Active(limits.maxSpaceMb) ==> Cap(limits) >= 0.0))
  {
    if Pass(t, disk, now, limits, stuck, byAge, bySpace, k, out) &&
       Pass(out.table, out.disk, now, limits, stuck2, byAge2, bySpace2, k2, out2)
    {
      PassKeepsNewest(t, disk, now, limits, stuck, byAge, bySpace, k, out);
      NothingExpired(out.table, out.disk, byAge2, now, limits, stuck2);
      if Active(limits.maxSpaceMb) && Cap(limits) >= 0.0 {
        PassFitsCap(t, disk, now, limits, stuck, byAge, bySpace, k, out, bySpace2);
      }
    }
  }

  lemma NothingExpired(t: EventTable, disk: Disk, listing: seq<Row>, now: real, limits: Limits, stuck: set<string>)
    requires t.Valid() && Listing(t, listing)
    requires Active(limits.maxAgeDays) ==> forall x :: x in t.rows ==> x.timestamp >= Cutoff(now, limits)
    ensures AgePass(t, disk, listing, now, limits, stuck) == Outcome(t, disk, None)
  {
    if Active(limits.maxAgeDays) {
      ListingFacts(t, listing);
      var old_ := Expired(listing, Cutoff(now, limits));
      KeepAll(t.rows, Ids(old_));
    }
  }

  /** An alert goes out exactly when the rows left by the age pass exceed the cap; it
      counts the rows then removed, and one row fewer would not have been enough. */
  lemma AlertIffOverCap(t: EventTable, disk: Disk, now: real, limits: Limits, stuck: set<string>,
                        byAge: seq<Row>, bySpace: seq<Row>, k: nat, out: Outcome)
    requires t.Valid() && Pass(t, disk, now, limits, stuck, byAge, bySpace, k, out) && Active(limits.maxSpaceMb)
    ensures var mid := AgePass(t, disk, byAge, now, limits, stuck);
      && (out.alert.Some? <==> Total(mid.table.rows, mid.disk) as real > Cap(limits))
      && (out.alert.Some? ==>
            && out.alert.value.used == Total(mid.table.rows, mid.disk)
            && out.alert.value.deleted == |mid.table.rows| - |out.table.rows|
            && (out.alert.value.deleted > 0 ==> Total(bySpace[k - 1..], mid.disk) as real > Cap(limits)))
  {
    var mid := AgePass(t, disk, byAge, now, limits, stuck);
    AgePassFacts(t, disk, byAge, now, limits, stuck);
    SpacePassFacts(mid.table, mid.disk, bySpace, limits, stuck, k, out);
    TotalOfPermutation(bySpace, mid.table.rows, mid.disk);
    Survivors(mid.table, bySpace, k, out.table);
    assert |multiset(bySpace)| == |multiset(mid.table.rows)|;
  }

  lemma Survivors(t: EventTable, listing: seq<Row>, k: nat, t': EventTable)
    requires t.Valid() && Listing(t, listing) && k <= |listing|
    requires t'.Valid() && forall x :: x in t'.rows <==> x in listing[k..]
    ensures |t'.rows| == |listing| - k
  {
    ListingFacts(t, listing);
    SameElementsPermute(t'.rows, listing[k..]);
    assert |multiset(t'.rows)| == |multiset(listing[k..])|;
  }

  /** Under a negative cap an empty table is over it: a pass sends an alert, and leaves what
      it found, so the next one sends it again. */
  lemma NegativeCapAlertsAgain(disk: Disk, now: real, limits: Limits, stuck: set<string>)
    requires limits.maxAgeDays.None? && limits.maxSpaceMb == Some(-1.0)
    ensures var t := EventTable([], 0);
      var out := Outcome(t, disk, Some(SpaceAlert(0, -1000000, 0)));
      && t.Valid() && Pass(t, disk, now, limits, stuck, [], [], 0, out)
      && Pass(out.table, out.disk, now, limits, stuck, [], [], 0, out)
  {
    var t := EventTable([], 0);
    KeepAll(t.rows, Ids([]));
    assert Cap(limits) == -1000000.0 && Truncate(Cap(limits)) == -1000000;
    assert Ids([]) == {} && DeleteIds(t, {}) == t;
    var none: seq<Row> := [];
    assert none[..0] == none;
  }

  // -- the limits in the user's units --------------------------------------------------------------------

  /** The total adds up the sizes of the files that are there. */
  lemma TotalCounts(a: seq<Row>, x: Row, b: seq<Row>, disk: Disk)
    ensures Total([], disk) == 0
    ensures Total(a + [x] + b, disk) == Total(a + b, disk) + if x.file in disk then disk[x.file] else 0
  {
    TotalSplit(a + [x], b, disk);
    TotalSplit(a, [x], disk);
    TotalSplit(a, b, disk);
    assert [x][1..] == [];
  }

  /** More than the allowed number of days old; no limit, or zero, allows any age. */
  predicate TooOld(x: Row, now: real, limits: Limits) {
    limits.maxAgeDays.Some? && limits.maxAgeDays.value != 0.0 &&
    now - x.timestamp > limits.maxAgeDays.value * 86400.0
  }

  predicate NoLimit(limit: Option<real>) {
    limit.None? || limit.value == 0.0
  }

  /** A pass in days and megabytes: it keeps nothing that is too old, and everything else unless
      it sends an alert, which it does only over the cap; without limits it changes nothing. */
  lemma PassInUnits(t: EventTable, disk: Disk, now: real, limits: Limits, stuck: set<string>,
                    byAge: seq<Row>, bySpace: seq<Row>, k: nat, out: Outcome)
    requires t.Valid() && Pass(t, disk, now, limits, stuck, byAge, bySpace, k, out)
    ensures forall x :: x in out.table.rows ==> x in t.rows && !TooOld(x, now, limits)
    ensures out.alert.None? ==> forall x :: x in t.rows && !TooOld(x, now, limits) ==> x in out.table.rows
    ensures out.alert.Some? ==>
      && !NoLimit(limits.maxSpaceMb) && out.alert.value.used as real > limits.maxSpaceMb.value * 1000000.0
    ensures NoLimit(limits.maxAgeDays) && NoLimit(limits.maxSpaceMb) ==> out == Outcome(t, disk, None)
  {
    var mid := AgePass(t, disk, byAge, now, limits, stuck);
    AgePassFacts(t, disk, byAge, now, limits, stuck);
    SpacePassFacts(mid.table, mid.disk, bySpace, limits, stuck, k, out);
  }

  /** After a pass with a cap of so many megabytes the files of the rows left fit into them; and
      an alert tells the cap in bytes. */
  lemma PassFitsMegabytes(t: EventTable, disk: Disk, now: real, limits: Limits, stuck: set<string>,
                          byAge: seq<Row>, bySpace: seq<Row>, k: nat, out: Outcome, mb: real, later: seq<Row>)
    requires t.Valid() && Pass(t, disk, now, limits, stuck, byAge, bySpace, k, out) && Listing(out.table, later)
    requires limits.maxSpaceMb == Some(mb) && mb > 0.0
    ensures Total(later, out.disk) as real <= mb * 1000000.0
    ensures out.alert.Some? ==> out.alert.value.max == (mb * 1000000.0).Floor
  {
    PassFitsCap(t, disk, now, limits, stuck, byAge, bySpace, k, out, later);
  }

  // -- files after a pass ----------------------------------------------------------------------------------

  ghost predicate Named(rows: seq<Row>, file: string) {
    exists x :: x in rows && x.file == file
  }

  lemma {:induction false} RemovedFiles(disk: Disk, rows: seq<Row>, stuck: set<string>, file: string)
    ensures var left := RemoveFiles(disk, rows, stuck);
      && (file in left <==> file in disk && (file in stuck || !Named(rows, file)))
      && (file in left ==> left[file] == disk[file])
  {
    if rows != [] {
      RemovedFiles(if rows[0].file in stuck then disk else disk - {rows[0].file}, rows[1..], stuck, file);
      assert rows == [rows[0]] + rows[1..];
      if rows[0].file == file { assert rows[0] in rows; }
    }
  }

  /** Some row of the table is gone that names the file. */
  ghost predicate LostRowNames(t: EventTable, t': EventTable, file: string) {
    exists x :: x in t.rows && x !in t'.rows && x.file == file
  }

  /** A pass takes a file off the disk exactly when it can be removed and a removed row
      names it; every other file stays as it is, a surviving row's among them. */
  lemma PassTakesFilesIff(t: EventTable, disk: Disk, now: real, limits: Limits, stuck: set<string>,
                          byAge: seq<Row>, bySpace: seq<Row>, k: nat, out: Outcome, file: string)
    requires t.Valid()
    ensures Pass(t, disk, now, limits, stuck, byAge, bySpace, k, out) ==>
      && (file in out.disk <==> file in disk && (file in stuck || !LostRowNames(t, out.table, file)))
      && (file in out.disk ==> out.disk[file] == disk[file])
  {
    if Pass(t, disk, now, limits, stuck, byAge, bySpace, k, out) {
      var mid := AgePass(t, disk, byAge, now, limits, stuck);
      AgePassFacts(t, disk, byAge, now, limits, stuck);
      SpacePassFacts(mid.table, mid.disk, bySpace, limits, stuck, k, out);
      AgePassFiles(t, disk, byAge, now, limits, stuck, file);
      SpacePassFiles(mid.table, mid.disk, bySpace, limits, stuck, k, out, file);
      LostInTwo(t, mid.table, out.table, file);
    }
  }

  lemma LostInTwo(t: EventTable, mid: EventTable, t': EventTable, file: string)
    requires forall x :: x in mid.rows ==> x in t.rows
    requires forall x :: x in t'.rows ==> x in mid.rows
    ensures LostRowNames(t, t', file) <==> LostRowNames(t, mid, file) || LostRowNames(mid, t', file)
  {
  }

  lemma AgePassFiles(t: EventTable, disk: Disk, listing: seq<Row>, now: real, limits: Limits, stuck: set<string>,
                     file: string)
    requires t.Valid() && Listing(t, listing)
    ensures var mid := AgePass(t, disk, listing, now, limits, stuck);
      && (file in mid.disk <==> file in disk && (file in stuck || !LostRowNames(t, mid.table, file)))
      && (file in mid.disk ==> mid.disk[file] == disk[file])
  {
    if Active(limits.maxAgeDays) {
      var old_ := Expired(listing, Cutoff(now, limits));
      ListingFacts(t, listing);
      AgePassFacts(t, disk, listing, now, limits, stuck);
      RemovedFiles(disk, old_, stuck, file);
      assert Named(old_, file) <==> LostRowNames(t, DeleteIds(t, Ids(old_)), file);
    }
  }

  lemma SpacePassFiles(t: EventTable, disk: Disk, listing: seq<Row>, limits: Limits, stuck: set<string>,
                       k: nat, out: Outcome, file: string)
    requires t.Valid() && Listing(t, listing) && SpacePass(t, disk, listing, limits, stuck, k, out)
    ensures file in out.disk <==> file in disk && (file in stuck || !LostRowNames(t, out.table, file))
    ensures file in out.disk ==> out.disk[file] == disk[file]
  {
    SpacePassEvicts(t, disk, listing, limits, stuck, k, out);
    ListingFacts(t, listing);
    EvictFacts(t, listing[..k]);
    RemovedFiles(disk, listing[..k], stuck, file);
    assert Named(listing[..k], file) <==> LostRowNames(t, out.table, file);
  }

  // -- events stored while a pass runs ---------------------------------------------------------------------

  datatype TableOp = Stored(event: NewEvent) | Deleted(ids: set<nat>)

  function RunTable(t: EventTable, ops: seq<TableOp>): EventTable
    decreases |ops|
  {
    if ops == [] then t
    else RunTable(if ops[0].Stored? then Insert(t, ops[0].event) else DeleteIds(t, ops[0].ids), ops[1..])
  }

  /** Ids are never used again: whatever was stored and deleted meanwhile, a row with an
      id from before is a row from before. */
  lemma {:induction false} IdsNeverReused(t: EventTable, ops: seq<TableOp>)
    requires t.Valid()
    ensures RunTable(t, ops).Valid() && RunTable(t, ops).next >= t.next
    ensures forall x :: x in RunTable(t, ops).rows && x.id < t.next ==> x in t.rows
    decreases |ops|
  {
    if ops != [] {
      if ops[0].Stored? {
        IdsNeverReused(Insert(t, ops[0].event), ops[1..]);
      } else {
        var t' := DeleteIds(t, ops[0].ids);
        KeepKeepsDistinct(t.rows, ops[0].ids);
        forall i | 0 <= i < |t'.rows| ensures t'.rows[i].id < t'.next { assert t'.rows[i] in t.rows; }
        IdsNeverReused(t', ops[1..]);
      }
    }
  }

  /** Deleting victims of an earlier listing never deletes a row stored since: what it
      removes from the table as it now stands is victims and nothing else. */
  lemma LaterRowsSurvive(t: EventTable, victims: seq<Row>, ops: seq<TableOp>)
    requires t.Valid() && forall v :: v in victims ==> v in t.rows
    ensures var now := RunTable(t, ops);
      forall x :: x in now.rows ==> (x in DeleteIds(now, Ids(victims)).rows <==> x !in victims)
  {
    IdsNeverReused(t, ops);
    var now := RunTable(t, ops);
    forall x | x in now.rows ensures x.id in Ids(victims) <==> x in victims {
      if x.id in Ids(victims) {
        var v :| v in victims && v.id == x.id;
        assert x in t.rows;
      }
    }
  }
}
