/** Bringing the stored platform templates in line with their definitions: app/db/seed/seeder.py. */
module Seeder {
  import opened Prelude

  datatype Row = Row(
    title: string, category: string, canvas: string, thumbnail: Option<string>, active: bool, made: nat)

  datatype Seed = Seed(title: string, category: string, canvas: string, thumbnail: Option<string>)

  type Table = map<nat, Row>

  /** Titles to a row that bears them; of rows with one title, whichever was read last. */
  type Index = map<string, nat>

  ghost predicate IsIndex(existing: Index, rows: Table) {
    && (forall id :: id in rows ==> rows[id].title in existing)
    && (forall title :: title in existing ==> existing[title] in rows && rows[existing[title]].title == title)
  }

  predicate Chosen(existing: Index, rows: Table, id: nat)
    requires id in rows
  {
    rows[id].title in existing && existing[rows[id].title] == id
  }

  // ----- What a run does -----

  /** A definition without a thumbnail leaves the stored one alone. */
  function Sync(row: Row, seed: Seed): Row {
    row.(canvas := seed.canvas, category := seed.category,
         thumbnail := if seed.thumbnail.Some? then seed.thumbnail else row.thumbnail)
  }

  function Synced(row: Row, seeds: seq<Seed>): Row {
    if seeds == [] then row else
      var (rest, last) := (seeds[..|seeds| - 1], seeds[|seeds| - 1]);
      if last.title == row.title then Sync(Synced(row, rest), last) else Synced(row, rest)
  }

  function FromSeed(seed: Seed): Row {
    Row(seed.title, seed.category, seed.canvas, seed.thumbnail, true, 0)
  }

  function Kept(rows: Table, existing: Index, legacy: set<string>): Table {
    map id | id in rows && !(Chosen(existing, rows, id) && rows[id].title in legacy) :: rows[id]
  }

  function Pruned(existing: Index, legacy: set<string>): Index {
    map title | title in existing && title !in legacy :: existing[title]
  }

  datatype Outcome = Outcome(rows: Table, next: nat, inserted: nat, updated: nat, deleted: nat)

  /** One definition: the chosen row with its title is synced, or a row is added. */
  function Apply(o: Outcome, existing: Index, seed: Seed): Outcome
    requires seed.title in existing ==> existing[seed.title] in o.rows
  {
    if seed.title in existing then
      var id := existing[seed.title];
      var synced := Sync(o.rows[id], seed);
      o.(rows := o.rows[id := synced], updated := o.updated + if synced != o.rows[id] then 1 else 0)
    else
      o.(rows := o.rows[o.next := FromSeed(seed)], next := o.next + 1, inserted := o.inserted + 1)
  }

  function Run(rows: Table, next: nat, existing: Index, legacy: set<string>, seeds: seq<Seed>): (o: Outcome)
    requires forall title :: title in existing ==> existing[title] in rows && rows[existing[title]].title == title
    ensures forall title :: title in Pruned(existing, legacy) ==> Pruned(existing, legacy)[title] in o.rows
  {
    if seeds == [] then
      Outcome(Kept(rows, existing, legacy), next, 0, 0, |existing.Keys * legacy|)
    else
      Apply(Run(rows, next, existing, legacy, seeds[..|seeds| - 1]), Pruned(existing, legacy), seeds[|seeds| - 1])
  }

  // ----- The operation -----

  lemma DeletesOne(rows: Table, existing: Index, gone: set<string>, title: string)
    requires IsIndex(existing, rows) && title in existing && title !in gone
    ensures Kept(rows, existing, gone + {title}) == Kept(rows, existing, gone) - {existing[title]}
    ensures title in Pruned(existing, gone) && Pruned(existing, gone)[title] == existing[title]
    ensures Pruned(existing, gone + {title}) == Pruned(existing, gone) - {title}
  {}

  lemma KeepsTheSame(rows: Table, existing: Index, gone: set<string>, legacy: set<string>)
    requires IsIndex(existing, rows) && gone == existing.Keys * legacy
    ensures Kept(rows, existing, gone) == Kept(rows, existing, legacy)
    ensures Pruned(existing, gone) == Pruned(existing, legacy)
    ensures forall id :: id in Kept(rows, existing, legacy) ==> id in rows
  {}

  lemma NothingGone(rows: Table, existing: Index)
    ensures Kept(rows, existing, {}) == rows && Pruned(existing, {}) == existing
  {}

  class Templates {
    var rows: Table
    var next: nat

    ghost predicate Valid()
      reads this
    {
      forall id :: id in rows ==> id < next
    }

    constructor ()
      ensures Valid() && rows == map[]
    {
      rows, next := map[], 0;
    }

    /** Reads the rows in no particular order. */
    method LoadExisting() returns (existing: Index)
      ensures IsIndex(existing, rows)
    {
      existing := map[];
      var rest := rows.Keys;
      while rest != {}
        invariant rest <= rows.Keys
        invariant forall id :: id in rows && id !in rest ==> rows[id].title in existing
        invariant forall title :: title in existing ==> existing[title] in rows && rows[existing[title]].title == title
        decreases rest
      {
        var id :| id in rest;
        existing := existing[rows[id].title := id];
        rest := rest - {id};
      }
    }

    method DeleteLegacy(existing: Index, legacy: set<string>) returns (left: Index, deleted: nat)
      requires Valid() && IsIndex(existing, rows)
      modifies `rows
      ensures Valid() && rows == Kept(old(rows), existing, legacy)
      ensures left == Pruned(existing, legacy) && deleted == |existing.Keys * legacy|
    {
      left, deleted := existing, 0;
      ghost var before := rows;
      ghost var gone: set<string> := {};
      hide Pruned, Kept, Chosen, IsIndex;
      NothingGone(rows, existing);
      var rest := existing.Keys;
      while rest != {}
        invariant forall t :: t in gone <==> t in existing && t in legacy && t !in rest
        invariant rest <= existing.Keys && deleted == |gone|
        invariant left == Pruned(existing, gone)
        invariant rows == Kept(before, existing, gone)
        decreases rest
      {
        var title :| title in rest;
        if title in legacy {
          DeletesOne(before, existing, gone, title);
          rows := rows - {left[title]};
          left := left - {title};
          deleted := deleted + 1;
          gone := gone + {title};
        }
        rest := rest - {title};
      }
      assert gone == existing.Keys * legacy;
      KeepsTheSame(before, existing, gone, legacy);
    }

    /** Inserts a row, or overwrites the fields that differ. */
    method SeedOne(existing: Index, seed: Seed) returns (inserted: bool, updated: bool)
      requires Valid() && (seed.title in existing ==> existing[seed.title] in rows)
      modifies this
      ensures Valid()
      ensures inserted <==> seed.title !in existing
      ensures if inserted then
                rows == old(rows)[old(next) := FromSeed(seed)] && next == old(next) + 1 && !updated
              else
                var id := existing[seed.title];
                && rows == old(rows)[id := Sync(old(rows)[id], seed)] && next == old(next)
                && (updated <==> Sync(old(rows)[id], seed) != old(rows)[id])
    {
      inserted, updated := false, false;
      if seed.title in existing {
        var id := existing[seed.title];
        var row := rows[id];
        if row.canvas != seed.canvas {
          row := row.(canvas := seed.canvas);
          updated := true;
        }
        if row.category != seed.category {
          row := row.(category := seed.category);
          updated := true;
        }
        if seed.thumbnail.Some? && row.thumbnail != seed.thumbnail {
          row := row.(thumbnail := seed.thumbnail);
          updated := true;
        }
        rows := rows[id := row];
      } else {
        rows := rows[next := FromSeed(seed)];
        next := next + 1;
        inserted := true;
      }
    }

    method SeedTemplates(legacy: set<string>, seeds: seq<Seed>)
      returns (inserted: nat, updated: nat, deleted: nat, ghost existing: Index)
      requires Valid()
      modifies this
      ensures Valid() && IsIndex(existing, old(rows))
      ensures Outcome(rows, next, inserted, updated, deleted) == Run(old(rows), old(next), existing, legacy, seeds)
    {
      hide Kept, Chosen, Pruned, Sync, FromSeed;
      ghost var before, first := rows, next;
      var left := LoadExisting();
      existing := left;
      left, deleted := DeleteLegacy(left, legacy);
      inserted, updated := 0, 0;
      for j := 0 to |seeds|
        invariant Valid()
        invariant Outcome(rows, next, inserted, updated, deleted) == Run(before, first, existing, legacy, seeds[..j])
      {
        assert seeds[..j + 1][..j] == seeds[..j];
        var isNew, changed := SeedOne(left, seeds[j]);
        if isNew {
          inserted := inserted + 1;
        } else if changed {
          updated := updated + 1;
        }
      }
      assert seeds[..|seeds|] == seeds;
    }
  }

  // ----- What a run achieves -----

  ghost predicate DistinctTitles(rows: Table) {
    forall i, j :: i in rows && j in rows && rows[i].title == rows[j].title ==> i == j
  }

  ghost predicate UniqueSeeds(seeds: seq<Seed>) {
    forall i, j :: 0 <= i < j < |seeds| ==> seeds[i].title != seeds[j].title
  }

  ghost predicate NoLegacySeed(seeds: seq<Seed>, legacy: set<string>) {
    forall i :: 0 <= i < |seeds| ==> seeds[i].title !in legacy
  }

  predicate Matches(row: Row, seed: Seed) {
    && row.title == seed.title && row.category == seed.category && row.canvas == seed.canvas
    && (seed.thumbnail.Some? ==> row.thumbnail == seed.thumbnail)
  }

  ghost predicate IsPresent(rows: Table, seed: Seed) {
    exists id :: id in rows && Matches(rows[id], seed)
  }

  ghost predicate HasTitle(rows: Table, title: string) {
    exists id :: id in rows && rows[id].title == title
  }

  /** No legacy title is stored, and each definition is. */
  ghost predicate Settled(rows: Table, legacy: set<string>, seeds: seq<Seed>) {
    && NoneStored(rows, legacy)
    && (forall j :: 0 <= j < |seeds| ==> IsPresent(rows, seeds[j]))
  }

  ghost predicate InUse(rows: Table, next: nat) {
    forall id :: id in rows ==> id < next
  }

  lemma SyncedIsSync(row: Row, seeds: seq<Seed>, j: nat)
    requires UniqueSeeds(seeds) && j < |seeds| && seeds[j].title == row.title
    ensures Synced(row, seeds) == Sync(row, seeds[j])
  {
    var n := |seeds| - 1;
    if j < n {
      assert seeds[n].title != row.title;
      SyncedIsSync(row, seeds[..n], j);
    } else {
      SyncedIsSame(row, seeds[..n]);
    }
  }

  lemma {:induction false} SyncedIsSame(row: Row, seeds: seq<Seed>)
    requires forall j :: 0 <= j < |seeds| ==> seeds[j].title != row.title
    ensures Synced(row, seeds) == row
  {
    if seeds != [] { SyncedIsSame(row, seeds[..|seeds| - 1]); }
  }

  lemma SyncedKeeps(row: Row, seeds: seq<Seed>)
    ensures var r := Synced(row, seeds); r.title == row.title && r.active == row.active && r.made == row.made
  {}

  /** What becomes of the rows that were there. */
  lemma {:induction false} StoredRows(rows: Table, next: nat, existing: Index, legacy: set<string>, seeds: seq<Seed>)
    requires IsIndex(existing, rows) && InUse(rows, next)
    ensures var o := Run(rows, next, existing, legacy, seeds);
            && o.next == next + o.inserted
            && (forall id :: id in o.rows ==> id in Kept(rows, existing, legacy) || next <= id < o.next)
            && (forall id :: id in Kept(rows, existing, legacy) ==>
                  id in o.rows
                  && o.rows[id] == if Chosen(existing, rows, id) then Synced(rows[id], seeds) else rows[id])
  {
    if seeds != [] {
      var rest, last := seeds[..|seeds| - 1], seeds[|seeds| - 1];
      StoredRows(rows, next, existing, legacy, rest);
      forall id | id in Kept(rows, existing, legacy) && Chosen(existing, rows, id)
        ensures last.title == rows[id].title <==>
                last.title in Pruned(existing, legacy) && Pruned(existing, legacy)[last.title] == id
      {}
      hide Chosen, Sync, FromSeed;
    }
  }

  /** A new row has the definition's fields, is active and was never used. */
  predicate IsFromSeed(row: Row, seed: Seed) {
    && row.title == seed.title && row.category == seed.category && row.canvas == seed.canvas
    && row.thumbnail == seed.thumbnail && row.active && row.made == 0
  }

  ghost predicate IsFromSeeds(row: Row, seeds: seq<Seed>) {
    exists j :: 0 <= j < |seeds| && IsFromSeed(row, seeds[j])
  }

  /** The rows that were added are definitions whose titles were missing. */
  lemma {:induction false} AddedAreSeeds(rows: Table, next: nat, existing: Index, legacy: set<string>, seeds: seq<Seed>)
    requires IsIndex(existing, rows) && InUse(rows, next)
    ensures var o := Run(rows, next, existing, legacy, seeds);
            forall id :: next <= id < o.next ==>
              id in o.rows && IsFromSeeds(o.rows[id], seeds) && o.rows[id].title !in Pruned(existing, legacy)
  {
    if seeds != [] {
      var rest, last := seeds[..|seeds| - 1], seeds[|seeds| - 1];
      AddedAreSeeds(rows, next, existing, legacy, rest);
      StoredRows(rows, next, existing, legacy, rest);
      var was, o := Run(rows, next, existing, legacy, rest), Run(rows, next, existing, legacy, seeds);
      hide Run, Sync, FromSeed, IsIndex;
      forall id | next <= id < was.next
        ensures IsFromSeeds(was.rows[id], seeds)
      {
        var j :| 0 <= j < |rest| && was.rows[id] == FromSeed(rest[j]);
        assert was.rows[id] == FromSeed(seeds[j]);
      }
      assert FromSeed(last) == FromSeed(seeds[|seeds| - 1]);
      AppliedRows(was, Pruned(existing, legacy), last, o, rows, next);
    }
  }

  /** Applying a definition leaves the added rows alone, or adds one more. */
  lemma AppliedRows(was: Outcome, existing: Index, seed: Seed, o: Outcome, rows: Table, next: nat)
    requires forall title :: title in existing ==> existing[title] in was.rows && existing[title] < next
    requires o == Apply(was, existing, seed) && next <= was.next
    ensures forall id :: next <= id < was.next && id in was.rows ==> id in o.rows && o.rows[id] == was.rows[id]
    ensures if seed.title in existing then o.next == was.next
            else o.next == was.next + 1 && was.next in o.rows && o.rows[was.next] == FromSeed(seed)
                 && FromSeed(seed).title == seed.title
  {}

  ghost predicate IsAdded(o: Outcome, next: nat, seed: Seed) {
    exists id :: next <= id < o.next && id in o.rows && o.rows[id] == FromSeed(seed)
  }

  lemma {:induction false} MissingAreAdded(
    rows: Table, next: nat, existing: Index, legacy: set<string>, seeds: seq<Seed>)
    requires IsIndex(existing, rows) && InUse(rows, next)
    ensures var o := Run(rows, next, existing, legacy, seeds);
            forall j :: 0 <= j < |seeds| && seeds[j].title !in Pruned(existing, legacy) ==> IsAdded(o, next, seeds[j])
  {
    if seeds != [] {
      var rest, last := seeds[..|seeds| - 1], seeds[|seeds| - 1];
      MissingAreAdded(rows, next, existing, legacy, rest);
      StoredRows(rows, next, existing, legacy, rest);
      var was, o := Run(rows, next, existing, legacy, rest), Run(rows, next, existing, legacy, seeds);
      AppliedRows(was, Pruned(existing, legacy), last, o, rows, next);
      hide Run, Sync, FromSeed, IsIndex;
      forall j | 0 <= j < |rest| && rest[j].title !in Pruned(existing, legacy)
        ensures IsAdded(o, next, seeds[j])
      {
        var id :| next <= id < was.next && id in was.rows && was.rows[id] == FromSeed(rest[j]);
        assert o.rows[id] == FromSeed(seeds[j]);
      }
    }
  }

  ghost predicate DistinctFrom(rows: Table, next: nat) {
    forall i, k :: i in rows && k in rows && next <= i < k ==> rows[i].title != rows[k].title
  }

  lemma {:induction false} AddedDistinct(rows: Table, next: nat, existing: Index, legacy: set<string>, seeds: seq<Seed>)
    requires IsIndex(existing, rows) && InUse(rows, next) && UniqueSeeds(seeds)
    ensures DistinctFrom(Run(rows, next, existing, legacy, seeds).rows, next)
  {
    if seeds != [] {
      var rest, last := seeds[..|seeds| - 1], seeds[|seeds| - 1];
      AddedDistinct(rows, next, existing, legacy, rest);
      AddedAreSeeds(rows, next, existing, legacy, rest);
      StoredRows(rows, next, existing, legacy, rest);
      StoredRows(rows, next, existing, legacy, seeds);
      var was, o := Run(rows, next, existing, legacy, rest), Run(rows, next, existing, legacy, seeds);
      AppliedRows(was, Pruned(existing, legacy), last, o, rows, next);
      forall id | next <= id < was.next
        ensures was.rows[id].title != last.title
      {
        var j :| 0 <= j < |rest| && was.rows[id] == FromSeed(rest[j]);
        assert rest[j] == seeds[j];
      }
      hide Run, Sync, FromSeed, Synced;
    }
  }

  /** With distinct titles every row is the one its title leads to. */
  lemma RowsAfter(rows: Table, next: nat, existing: Index, legacy: set<string>, seeds: seq<Seed>)
    requires IsIndex(existing, rows) && InUse(rows, next) && DistinctTitles(rows) && UniqueSeeds(seeds)
    ensures var o := Run(rows, next, existing, legacy, seeds);
            && o.next == next + o.inserted
            && (forall id :: id in o.rows <==>
                  (id in rows && rows[id].title !in legacy) || (next <= id < o.next && id in o.rows))
            && (forall id :: id in rows && rows[id].title !in legacy ==>
                  rows[id].title in Pruned(existing, legacy) && AsDefined(o.rows[id], rows[id], seeds))
  {
    StoredRows(rows, next, existing, legacy, seeds);
    hide Run, Sync;
    forall id | id in rows
      ensures Chosen(existing, rows, id) && AsDefined(Synced(rows[id], seeds), rows[id], seeds)
    {
      SyncedKeeps(rows[id], seeds);
      if j :| 0 <= j < |seeds| && seeds[j].title == rows[id].title {
        SyncedIsSync(rows[id], seeds, j);
      } else {
        SyncedIsSame(rows[id], seeds);
      }
    }
  }

  /** The row as it was, but for the fields a definition with its title prescribes. */
  ghost predicate AsDefined(after: Row, before: Row, seeds: seq<Seed>) {
    && after.title == before.title && after.active == before.active && after.made == before.made
    && (forall j :: 0 <= j < |seeds| && seeds[j].title == before.title ==>
          && after.category == seeds[j].category && after.canvas == seeds[j].canvas
          && after.thumbnail == if seeds[j].thumbnail.Some? then seeds[j].thumbnail else before.thumbnail)
    && ((forall j :: 0 <= j < |seeds| ==> seeds[j].title != before.title) ==> after == before)
  }

  ghost predicate NoneStored(rows: Table, legacy: set<string>) {
    forall title :: title in legacy ==> !HasTitle(rows, title)
  }

  ghost predicate LegacyStoredOnce(rows: Table, legacy: set<string>) {
    forall i, j :: i in rows && j in rows && rows[i].title == rows[j].title && rows[i].title in legacy ==> i == j
  }

  /** After one run every legacy title is gone if and only if none was stored twice. */
  lemma LegacyGoneIffOnce(rows: Table, next: nat, existing: Index, legacy: set<string>, seeds: seq<Seed>)
    requires IsIndex(existing, rows) && InUse(rows, next) && NoLegacySeed(seeds, legacy)
    ensures NoneStored(Run(rows, next, existing, legacy, seeds).rows, legacy) <==> LegacyStoredOnce(rows, legacy)
  {
    var o := Run(rows, next, existing, legacy, seeds);
    StoredRows(rows, next, existing, legacy, seeds);
    AddedAreSeeds(rows, next, existing, legacy, seeds);
    hide Run;
    if LegacyStoredOnce(rows, legacy) {
      forall id | id in o.rows
        ensures o.rows[id].title !in legacy
      {
        if id in Kept(rows, existing, legacy) { SyncedKeeps(rows[id], seeds); }
      }
    } else {
      var i, j :| i in rows && j in rows && rows[i].title == rows[j].title && rows[i].title in legacy && i != j;
      var spare := if Chosen(existing, rows, i) then j else i;
      assert o.rows[spare] == rows[spare];
      assert HasTitle(o.rows, rows[i].title);
    }
  }

  lemma AllPresent(rows: Table, next: nat, existing: Index, legacy: set<string>, seeds: seq<Seed>)
    requires IsIndex(existing, rows) && InUse(rows, next) && DistinctTitles(rows) && UniqueSeeds(seeds)
    ensures forall j :: 0 <= j < |seeds| ==> IsPresent(Run(rows, next, existing, legacy, seeds).rows, seeds[j])
  {
    var o := Run(rows, next, existing, legacy, seeds);
    RowsAfter(rows, next, existing, legacy, seeds);
    MissingAreAdded(rows, next, existing, legacy, seeds);
    forall j | 0 <= j < |seeds|
      ensures IsPresent(o.rows, seeds[j])
    {
      hide Run, Synced;
      if seeds[j].title in Pruned(existing, legacy) {
        var id := existing[seeds[j].title];
        assert AsDefined(o.rows[id], rows[id], seeds);
        assert Matches(Sync(rows[id], seeds[j]), seeds[j]);
      } else {
        var id :| next <= id < o.next && id in o.rows && o.rows[id] == FromSeed(seeds[j]);
        assert Matches(o.rows[id], seeds[j]);
      }
    }
  }

  lemma StayDistinct(rows: Table, next: nat, existing: Index, legacy: set<string>, seeds: seq<Seed>)
    requires IsIndex(existing, rows) && InUse(rows, next) && DistinctTitles(rows) && UniqueSeeds(seeds)
    ensures DistinctTitles(Run(rows, next, existing, legacy, seeds).rows)
  {
    var o := Run(rows, next, existing, legacy, seeds);
    RowsAfter(rows, next, existing, legacy, seeds);
    AddedAreSeeds(rows, next, existing, legacy, seeds);
    AddedDistinct(rows, next, existing, legacy, seeds);
    assert forall id :: id in rows && rows[id].title !in legacy ==> o.rows[id].title == rows[id].title;
    hide Run, Pruned, AsDefined;
  }

  /**
   After one run over distinct titles: no legacy title, every definition present,
   titles still distinct; a row with a title of neither kind is untouched, a row
   with a definition's title keeps its identity, status and count, and only
   definitions were added.
   */
  lemma OneRunSettles(rows: Table, next: nat, existing: Index, legacy: set<string>, seeds: seq<Seed>)
    requires IsIndex(existing, rows) && InUse(rows, next)
    requires DistinctTitles(rows) && UniqueSeeds(seeds) && NoLegacySeed(seeds, legacy)
    ensures var o := Run(rows, next, existing, legacy, seeds);
            && Settled(o.rows, legacy, seeds) && DistinctTitles(o.rows)
            && (forall id :: id in rows && rows[id].title !in legacy ==>
                  id in o.rows && AsDefined(o.rows[id], rows[id], seeds))
            && (forall id :: id in o.rows && id !in rows ==> IsFromSeeds(o.rows[id], seeds))
  {
    RowsAfter(rows, next, existing, legacy, seeds);
    LegacyGoneIffOnce(rows, next, existing, legacy, seeds);
    AddedAreSeeds(rows, next, existing, legacy, seeds);
    AllPresent(rows, next, existing, legacy, seeds);
    StayDistinct(rows, next, existing, legacy, seeds);
    hide Run, IsPresent, DistinctTitles, NoneStored, Pruned, AsDefined;
  }

  /** The definition finds its row, and finds nothing to change in it. */
  predicate UpToDate(rows: Table, existing: Index, seed: Seed) {
    && seed.title in existing && existing[seed.title] in rows
    && Sync(rows[existing[seed.title]], seed) == rows[existing[seed.title]]
  }

  lemma {:induction false} QuietIffUpToDate(
    rows: Table, next: nat, existing: Index, legacy: set<string>, seeds: seq<Seed>)
    requires IsIndex(existing, rows)
    ensures var o := Run(rows, next, existing, legacy, seeds);
            && (o.inserted == 0 && o.updated == 0 <==>
                  forall j :: 0 <= j < |seeds| ==> UpToDate(rows, Pruned(existing, legacy), seeds[j]))
            && (o.inserted == 0 && o.updated == 0 ==> o.rows == Kept(rows, existing, legacy))
  {
    if seeds != [] {
      var rest, last := seeds[..|seeds| - 1], seeds[|seeds| - 1];
      QuietIffUpToDate(rows, next, existing, legacy, rest);
      assert forall j :: 0 <= j < |rest| ==> seeds[j] == rest[j];
    }
  }

  lemma DeletesIffLegacy(rows: Table, existing: Index, legacy: set<string>)
    requires IsIndex(existing, rows)
    ensures |existing.Keys * legacy| == 0 <==> NoneStored(rows, legacy)
    ensures NoneStored(rows, legacy) ==> Pruned(existing, legacy) == existing && Kept(rows, existing, legacy) == rows
  {
    if |existing.Keys * legacy| != 0 {
      var title :| title in existing.Keys * legacy;
      assert HasTitle(rows, title);
    } else {
      assert forall title :: title in legacy ==> title !in existing.Keys * legacy;
    }
  }

  lemma PresentIffUpToDate(rows: Table, existing: Index, seed: Seed)
    requires IsIndex(existing, rows) && DistinctTitles(rows)
    ensures IsPresent(rows, seed) <==> UpToDate(rows, existing, seed)
  {
    if UpToDate(rows, existing, seed) {
      assert Matches(rows[existing[seed.title]], seed);
    }
  }

  /** A run inserts, updates and deletes nothing if and only if there is nothing to do; then no row changes. */
  lemma QuietIffSettled(rows: Table, next: nat, existing: Index, legacy: set<string>, seeds: seq<Seed>)
    requires IsIndex(existing, rows) && DistinctTitles(rows)
    ensures var o := Run(rows, next, existing, legacy, seeds);
            && (o.inserted == 0 && o.updated == 0 && o.deleted == 0 <==> Settled(rows, legacy, seeds))
            && (Settled(rows, legacy, seeds) ==> o.rows == rows)
  {
    QuietIffUpToDate(rows, next, existing, legacy, seeds);
    DeletesIffLegacy(rows, existing, legacy);
    DeletedCount(rows, next, existing, legacy, seeds);
    forall j | 0 <= j < |seeds|
      ensures IsPresent(rows, seeds[j]) <==> UpToDate(rows, existing, seeds[j])
    {
      PresentIffUpToDate(rows, existing, seeds[j]);
    }
    hide Run, Kept, Pruned, UpToDate, IsPresent, NoneStored, IsIndex, DistinctTitles;
  }

  lemma {:induction false} DeletedCount(
    rows: Table, next: nat, existing: Index, legacy: set<string>, seeds: seq<Seed>)
    requires IsIndex(existing, rows)
    ensures Run(rows, next, existing, legacy, seeds).deleted == |existing.Keys * legacy|
  {
    if seeds != [] { DeletedCount(rows, next, existing, legacy, seeds[..|seeds| - 1]); }
  }

  /** The second run does nothing, in whatever order it reads the rows. */
  lemma SecondRunDoesNothing(
    rows: Table, next: nat, existing: Index, again: Index, legacy: set<string>, seeds: seq<Seed>)
    requires IsIndex(existing, rows) && InUse(rows, next)
    requires DistinctTitles(rows) && UniqueSeeds(seeds) && NoLegacySeed(seeds, legacy)
    requires IsIndex(again, Run(rows, next, existing, legacy, seeds).rows)
    ensures var first := Run(rows, next, existing, legacy, seeds);
            Run(first.rows, first.next, again, legacy, seeds) == first.(inserted := 0, updated := 0, deleted := 0)
  {
    var first := Run(rows, next, existing, legacy, seeds);
    OneRunSettles(rows, next, existing, legacy, seeds);
    StoredRows(rows, next, existing, legacy, seeds);
    StoredRows(first.rows, first.next, again, legacy, seeds);
    QuietIffSettled(first.rows, first.next, again, legacy, seeds);
  }

  // ----- What a run counts -----

  /** The row has the definition's title but not all of its fields; no thumbnail asks for none. */
  predicate Differs(row: Row, seed: Seed) {
    && row.title == seed.title
    && (row.canvas != seed.canvas || row.category != seed.category
        || (seed.thumbnail.Some? && row.thumbnail != seed.thumbnail))
  }

  ghost predicate IsOutdated(rows: Table, seed: Seed) {
    exists id :: id in rows && Differs(rows[id], seed)
  }

  ghost function MissingSeeds(rows: Table, seeds: seq<Seed>): set<int> {
    set j | 0 <= j < |seeds| && !HasTitle(rows, seeds[j].title)
  }

  ghost function OutdatedSeeds(rows: Table, seeds: seq<Seed>): set<int> {
    set j | 0 <= j < |seeds| && IsOutdated(rows, seeds[j])
  }

  lemma DeletesExactly(rows: Table, existing: Index, legacy: set<string>)
    requires IsIndex(existing, rows)
    ensures existing.Keys * legacy == set title | title in legacy && HasTitle(rows, title)
  {
    forall title | title in existing
      ensures HasTitle(rows, title)
    {
      assert rows[existing[title]].title == title;
    }
  }

  lemma PrunedIffStored(rows: Table, existing: Index, legacy: set<string>, title: string)
    requires IsIndex(existing, rows) && title !in legacy
    ensures title in Pruned(existing, legacy) <==> HasTitle(rows, title)
  {
    if title in existing { assert rows[existing[title]].title == title; }
  }

  lemma OneMoreSeed(rows: Table, seeds: seq<Seed>)
    requires seeds != []
    ensures var n := |seeds| - 1;
            && MissingSeeds(rows, seeds)
               == MissingSeeds(rows, seeds[..n]) + (if HasTitle(rows, seeds[n].title) then {} else {n})
            && OutdatedSeeds(rows, seeds)
               == OutdatedSeeds(rows, seeds[..n]) + (if IsOutdated(rows, seeds[n]) then {n} else {})
  {
    hide HasTitle, IsOutdated;
  }

  /** At its turn a stored definition finds the row as it was when the run began. */
  lemma FindsTheRow(rows: Table, next: nat, existing: Index, legacy: set<string>, seeds: seq<Seed>)
    requires IsIndex(existing, rows) && InUse(rows, next) && DistinctTitles(rows) && UniqueSeeds(seeds) && seeds != []
    requires seeds[|seeds| - 1].title in Pruned(existing, legacy)
    ensures var (n, id) := (|seeds| - 1, existing[seeds[|seeds| - 1].title]);
            var o := Run(rows, next, existing, legacy, seeds[..n]);
            && id in rows && rows[id].title == seeds[n].title && id in o.rows && o.rows[id] == rows[id]
            && (IsOutdated(rows, seeds[n]) <==> Sync(rows[id], seeds[n]) != rows[id])
  {
    var (n, id) := (|seeds| - 1, existing[seeds[|seeds| - 1].title]);
    StoredRows(rows, next, existing, legacy, seeds[..n]);
    SyncedIsSame(rows[id], seeds[..n]);
    assert Differs(rows[id], seeds[n]) <==> Sync(rows[id], seeds[n]) != rows[id];
    hide Run;
  }

  /**
   A run counts exactly the legacy titles that were stored, the definitions that were
   missing, and those whose stored row differed.
   */
  lemma {:induction false} CountsAreExact(
    rows: Table, next: nat, existing: Index, legacy: set<string>, seeds: seq<Seed>)
    requires IsIndex(existing, rows) && InUse(rows, next)
    requires DistinctTitles(rows) && UniqueSeeds(seeds) && NoLegacySeed(seeds, legacy)
    ensures var o := Run(rows, next, existing, legacy, seeds);
            && o.deleted == |set title | title in legacy && HasTitle(rows, title)|
            && o.inserted == |MissingSeeds(rows, seeds)|
            && o.updated == |OutdatedSeeds(rows, seeds)|
  {
    DeletesExactly(rows, existing, legacy);
    if seeds != [] {
      var n := |seeds| - 1;
      CountsAreExact(rows, next, existing, legacy, seeds[..n]);
      OneMoreSeed(rows, seeds);
      PrunedIffStored(rows, existing, legacy, seeds[n].title);
      if seeds[n].title in Pruned(existing, legacy) {
        FindsTheRow(rows, next, existing, legacy, seeds);
        assert Pruned(existing, legacy)[seeds[n].title] == existing[seeds[n].title];
      } else {
        NoneOutdated(rows, seeds[n]);
      }
      hide IsIndex, Pruned, Sync, FromSeed, HasTitle, IsOutdated, MissingSeeds, OutdatedSeeds, Kept;
    }
  }

  lemma NoneOutdated(rows: Table, seed: Seed)
    requires !HasTitle(rows, seed.title)
    ensures !IsOutdated(rows, seed)
  {}
}
