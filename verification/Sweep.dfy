/**
 * One paged sweep (`sweepAuthType`, `sweepInvites`, `bulkDelete` in
 * api/src/couchdb/ttlCleanup.ts) over a store that nothing else changes meanwhile.
 */
module Sweep {
  import opened Prelude
  import opened Paging

  /** Per-document answer of `bulkDocs`: gone, a tolerated 404/409, or another error. */
  datatype BulkResult = Deleted | MissingOrConflict | Failed

  /** The counters of one document type, and the rows none of them counts. */
  datatype Stats = Stats(scanned: nat, deleted: nat, skipped: nat, errors: nat, ignored: nat)

  function NotIn<D>(gone: set<nat>): Row<D> -> bool {
    (row: Row<D>) => row.id !in gone
  }

  /** The rows left after deleting these ids. */
  function Without<D>(rows: seq<Row<D>>, gone: set<nat>): seq<Row<D>> {
    Filter(NotIn(gone), rows)
  }

  function DueTest<D>(source: Source, due: D -> bool): Row<D> -> bool {
    (row: Row<D>) => Kept(source, row) && due(row.content.doc)
  }

  function StaysTest<D>(source: Source, due: D -> bool): Row<D> -> bool {
    (row: Row<D>) => !(Kept(source, row) && due(row.content.doc))
  }

  lemma StaysMeans<D>(source: Source, due: D -> bool, row: Row<D>)
    ensures StaysTest(source, due)(row) <==> !(ToYield(source, row) && due(row.content.doc))
  {
    assert Kept(source, row) <==> ToYield(source, row);
    assert StaysTest(source, due)(row) <==> !(Kept(source, row) && due(row.content.doc));
  }

  /** How many of these rows are due. */
  function DueCount<D>(source: Source, due: D -> bool, rows: seq<Row<D>>): nat {
    |Filter(DueTest(source, due), rows)|
  }

  function Ids<D>(rows: seq<Row<D>>): (ids: seq<nat>)
    ensures |ids| == |rows|
  {
    if rows == [] then [] else [rows[0].id] + Ids(rows[1..])
  }

  function Gone(ids: seq<nat>, results: seq<BulkResult>): set<nat>
    requires |ids| == |results|
  {
    set i | 0 <= i < |ids| && results[i].Deleted? :: ids[i]
  }

  function Count(results: seq<BulkResult>, r: BulkResult): nat {
    if results == [] then 0 else (if results[0] == r then 1 else 0) + Count(results[1..], r)
  }

  predicate Increasing(ids: seq<nat>) {
    forall i, j :: 0 <= i < j < |ids| ==> ids[i] < ids[j]
  }

  // ----- facts about removal

  lemma {:induction false} IdsMeaning<D>(rows: seq<Row<D>>)
    ensures forall i :: 0 <= i < |rows| ==> Ids(rows)[i] == rows[i].id
  {
    if rows != [] {
      IdsMeaning(rows[1..]);
    }
  }

  lemma {:induction false} GoneCount(ids: seq<nat>, results: seq<BulkResult>)
    requires |ids| == |results| && Increasing(ids)
    ensures |Gone(ids, results)| == Count(results, Deleted)
  {
    if ids != [] {
      GoneCount(ids[1..], results[1..]);
      var rest := Gone(ids[1..], results[1..]);
      var first := if results[0].Deleted? then {ids[0]} else {};
      forall x | x in Gone(ids, results)
        ensures x in first + rest
      {
        var i :| 0 <= i < |ids| && results[i].Deleted? && ids[i] == x;
        if i > 0 {
          assert ids[1..][i - 1] == x && results[1..][i - 1].Deleted?;
        }
      }
      forall x | x in rest
        ensures x in Gone(ids, results) && x != ids[0]
      {
        var i :| 0 <= i < |ids[1..]| && results[1..][i].Deleted? && ids[1..][i] == x;
        assert ids[i + 1] == x;
      }
      assert Gone(ids, results) == first + rest;
    }
  }

  /** Every result is one of the three. */
  lemma {:induction false} CountsAddUp(results: seq<BulkResult>)
    ensures Count(results, Deleted) + Count(results, MissingOrConflict) + Count(results, Failed) == |results|
    ensures Count(results, Deleted) == |results| ==> forall i :: 0 <= i < |results| ==> results[i].Deleted?
  {
    if results != [] {
      CountsAddUp(results[1..]);
    }
  }

  lemma {:induction false} WithoutCount<D>(rows: seq<Row<D>>, gone: set<nat>)
    requires Sorted(rows)
    requires forall id :: id in gone ==> HasId(rows, id)
    ensures |Without(rows, gone)| == |rows| - |gone|
    ensures Sorted(Without(rows, gone))
  {
    FilterSorted(NotIn<D>(gone), rows);
    if rows != [] {
      var rest := gone - {rows[0].id};
      forall id | id in rest
        ensures HasId(rows[1..], id)
      {
        var i :| 0 <= i < |rows| && rows[i].id == id;
        assert rows[1..][i - 1].id == id;
      }
      WithoutCount(rows[1..], rest);
      forall row | row in rows[1..]
        ensures NotIn<D>(gone)(row) == NotIn<D>(rest)(row)
      {
      }
      FilterCongruence(NotIn<D>(gone), NotIn<D>(rest), rows[1..]);
      if rows[0].id in gone {
        assert |rest| == |gone| - 1;
      } else {
        assert rest == gone;
      }
    } else {
      assert gone == {};
    }
  }

  /** Rows beyond the frontier are as they were while only earlier rows were removed. */
  lemma AheadUntouched<D>(source: Source, rows: seq<Row<D>>, gone: set<nat>, lo: Option<nat>, hi: Option<nat>)
    requires forall id :: id in gone ==> !Beyond(id, lo)
    ensures Between(source, Without(rows, gone), lo, hi) == Between(source, rows, lo, hi)
  {
    FilterAbsorb(NotIn<D>(gone), RangeTest<D>(source, lo, hi), rows);
  }

  /** The kept rows up to hi are those up to lo and then those between. */
  lemma {:induction false} BetweenSplit<D>(source: Source, rows: seq<Row<D>>, lo: nat, hi: Option<nat>)
    requires Sorted(rows) && (hi.Some? ==> lo < hi.value)
    ensures Between(source, rows, None, hi) == Between(source, rows, None, Some(lo)) + Between(source, rows, Some(lo), hi)
  {
    if rows != [] {
      BetweenSplit(source, rows[1..], lo, hi);
      if Beyond(rows[0].id, Some(lo)) {
        FilterNone(RangeTest<D>(source, None, Some(lo)), rows[1..]);
      }
    }
  }

  lemma WithoutTwice<D>(rows: seq<Row<D>>, a: set<nat>, b: set<nat>)
    ensures Without(Without(rows, a), b) == Without(rows, a + b)
  {
    var both := NotIn<D>(a + b);
    FilterAbsorb(NotIn<D>(a), both, rows);
    FilterCongruence(NotIn<D>(b), both, Without(rows, a)) by {
      FilterElements(NotIn<D>(a), rows);
    }
  }

  // ----- the sweep

  class Database<D> {
    var rows: seq<Row<D>>
    /** Every deletion asked for, and how the store answered. */
    ghost var asked: seq<nat>
    ghost var answers: seq<BulkResult>

    constructor (rows: seq<Row<D>>)
      ensures this.rows == rows && asked == [] && answers == []
    {
      this.rows, asked, answers := rows, [], [];
    }

    /** Couch `bulkDocs` with deletions: each may succeed or not. */
    method BulkDocs(ids: seq<nat>) returns (results: seq<BulkResult>)
      modifies this
      ensures |results| == |ids| && rows == Without(old(rows), Gone(ids, results))
      ensures asked == old(asked) + ids && answers == old(answers) + results
    {
      results := [];
      while |results| < |ids|
        invariant |results| <= |ids| && rows == old(rows) && asked == old(asked) && answers == old(answers)
      {
        var answer: BulkResult := *;
        results := results + [answer];
      }
      rows := Without(rows, Gone(ids, results));
      asked, answers := asked + ids, answers + results;
    }
  }

  lemma {:induction false} CountAppend(results: seq<BulkResult>, more: BulkResult, r: BulkResult)
    ensures Count(results + [more], r) == Count(results, r) + (if more == r then 1 else 0)
  {
    if results != [] {
      assert (results + [more])[1..] == results[1..] + [more];
      CountAppend(results[1..], more, r);
    }
  }

  /** `bulkDelete`: asks for each document's deletion, unless it is a dry run, which counts every document as deleted; a 404 or 409 counts nowhere. */
  method BulkDelete<D>(db: Database<D>, docs: seq<Row<D>>, dryRun: bool)
    returns (deleted: nat, errors: nat, ghost results: seq<BulkResult>)
    modifies db
    ensures |results| == |docs|
    ensures dryRun ==> db.rows == old(db.rows) && deleted == |docs| && errors == 0
    ensures dryRun ==> db.asked == old(db.asked) && db.answers == old(db.answers)
    ensures !dryRun ==> db.asked == old(db.asked) + Ids(docs) && db.answers == old(db.answers) + results
    ensures !dryRun ==>
              && db.rows == Without(old(db.rows), Gone(Ids(docs), results))
              && deleted == Count(results, Deleted) && errors == Count(results, Failed)
  {
    IdsMeaning(docs);
    results := seq(|docs|, _ => Deleted);
    if |docs| == 0 {
      FilterAll(NotIn<D>(Gone(Ids(docs), results)), db.rows);
      assert Ids(docs) == [] && results == [] && db.asked + [] == db.asked && db.answers + [] == db.answers;
      return 0, 0, results;
    }
    if dryRun {
      return |docs|, 0, results;
    }
    var answers := db.BulkDocs(Ids(docs));
    deleted, errors := 0, 0;
    for i := 0 to |answers|
      invariant db.rows == Without(old(db.rows), Gone(Ids(docs), answers))
      invariant db.asked == old(db.asked) + Ids(docs) && db.answers == old(db.answers) + answers
      invariant deleted == Count(answers[..i], Deleted) && errors == Count(answers[..i], Failed)
    {
      CountAppend(answers[..i], answers[i], Deleted);
      CountAppend(answers[..i], answers[i], Failed);
      assert answers[..i + 1] == answers[..i] + [answers[i]];
      match answers[i]
      case Deleted => deleted := deleted + 1;
      case MissingOrConflict =>
      case Failed => errors := errors + 1;
    }
    assert answers[..|answers|] == answers;
    results := answers;
  }

  /** The part of the initial view up to a startkey. */
  function Seen<D>(source: Source, initial: seq<Row<D>>, lo: Option<nat>): seq<Row<D>> {
    if lo.None? then [] else Between(source, initial, None, lo)
  }

  /** Some row with this id is due. */
  predicate DueId<D>(source: Source, due: D -> bool, rows: seq<Row<D>>, id: nat) {
    exists i :: 0 <= i < |rows| && rows[i].id == id && DueTest(source, due)(rows[i])
  }

  /** The counters and the store agree with what was seen, and with the set of ids removed. */
  ghost predicate Accounts<D>(source: Source, due: D -> bool, initial: seq<Row<D>>, seen: seq<Row<D>>, dryRun: bool,
                              rows: seq<Row<D>>, stats: Stats, gone: set<nat>) {
    && stats.scanned == |seen|
    && stats.skipped + DueCount(source, due, seen) == |seen|
    && stats.deleted + stats.errors + stats.ignored == DueCount(source, due, seen)
    && rows == Without(initial, gone)
    && (forall id :: id in gone ==> DueId(source, due, seen, id))
    && (if dryRun then gone == {} && stats.errors == 0 && stats.ignored == 0 else stats.deleted == |gone|)
    && (!dryRun && stats.errors == 0 && stats.ignored == 0 ==>
          forall id: nat :: DueId(source, due, seen, id) ==> id in gone)
  }

  /** The ids handed to `bulkDocs` are increasing, and are those of the due rows of the chunk. */
  lemma DoomedIds<D>(source: Source, due: D -> bool, chunk: seq<Row<D>>)
    requires Sorted(chunk)
    ensures var ids := Ids(Filter(DueTest(source, due), chunk));
            && |ids| == DueCount(source, due, chunk) && Increasing(ids)
            && (forall i :: 0 <= i < |ids| ==> DueId(source, due, chunk, ids[i]))
            && (forall id: nat :: DueId(source, due, chunk, id) ==> exists i :: 0 <= i < |ids| && ids[i] == id)
  {
    var test := DueTest(source, due);
    var doomed := Filter(test, chunk);
    var ids := Ids(doomed);
    IdsMeaning(doomed);
    FilterSorted(test, chunk);
    FilterMembers(test, chunk);
    forall i | 0 <= i < |ids|
      ensures DueId(source, due, chunk, ids[i])
    {
      var k := FilterOrigin(test, chunk, i);
    }
    forall id: nat | DueId(source, due, chunk, id)
      ensures exists i :: 0 <= i < |ids| && ids[i] == id
    {
      var k :| 0 <= k < |chunk| && chunk[k].id == id && test(chunk[k]);
      assert chunk[k] in doomed;
      var i :| 0 <= i < |doomed| && doomed[i] == chunk[k];
      assert ids[i] == id;
    }
  }

  lemma DueIdAppend<D>(source: Source, due: D -> bool, seen: seq<Row<D>>, chunk: seq<Row<D>>, id: nat)
    ensures DueId(source, due, seen + chunk, id) <==> DueId(source, due, seen, id) || DueId(source, due, chunk, id)
  {
    if i :| 0 <= i < |seen| && seen[i].id == id && DueTest(source, due)(seen[i]) {
      assert (seen + chunk)[i] == seen[i];
    } else if i :| 0 <= i < |chunk| && chunk[i].id == id && DueTest(source, due)(chunk[i]) {
      assert (seen + chunk)[|seen| + i] == chunk[i];
    }
  }

  lemma {:induction false} IdsAppend<D>(a: seq<Row<D>>, b: seq<Row<D>>)
    ensures Ids(a + b) == Ids(a) + Ids(b)
  {
    if a == [] {
      assert a + b == b;
    } else {
      IdsAppend(a[1..], b);
      assert (a + b)[1..] == a[1..] + b && (a + b)[0] == a[0];
      assert [a[0].id] + (Ids(a[1..]) + Ids(b)) == ([a[0].id] + Ids(a[1..])) + Ids(b);
    }
  }

  lemma {:induction false} CountsAppend(a: seq<BulkResult>, b: seq<BulkResult>, r: BulkResult)
    ensures Count(a + b, r) == Count(a, r) + Count(b, r)
  {
    if a == [] {
      assert a + b == b;
    } else {
      CountsAppend(a[1..], b, r);
      assert (a + b)[1..] == a[1..] + b;
    }
  }

  lemma GoneAppend(ids: seq<nat>, results: seq<BulkResult>, more: seq<nat>, answers: seq<BulkResult>)
    requires |ids| == |results| && |more| == |answers|
    ensures Gone(ids + more, results + answers) == Gone(ids, results) + Gone(more, answers)
  {
    var all, both := ids + more, results + answers;
    forall id | id in Gone(ids, results) + Gone(more, answers)
      ensures id in Gone(all, both)
    {
      if id in Gone(ids, results) {
        var i :| 0 <= i < |ids| && results[i].Deleted? && ids[i] == id;
        assert all[i] == id && both[i].Deleted?;
      } else {
        var i :| 0 <= i < |more| && answers[i].Deleted? && more[i] == id;
        assert all[|ids| + i] == id && both[|ids| + i].Deleted?;
      }
    }
  }

  /**
   * What was asked for and answered since the sweep began: the deletion of every due document seen, once
   * each and in order; the counters count the answers, and what was answered as deleted is gone.
   */
  ghost predicate Asked<D>(source: Source, due: D -> bool, seen: seq<Row<D>>, dryRun: bool, stats: Stats, gone: set<nat>,
                           asked: seq<nat>, answers: seq<BulkResult>) {
    if dryRun then asked == [] && answers == []
    else
      && asked == Ids(Filter(DueTest(source, due), seen)) && |answers| == |asked| && gone == Gone(asked, answers)
      && stats.deleted == Count(answers, Deleted) && stats.errors == Count(answers, Failed)
      && stats.ignored == Count(answers, MissingOrConflict)
  }

  lemma AskedMore<D>(source: Source, due: D -> bool, seen: seq<Row<D>>, chunk: seq<Row<D>>, stats: Stats, gone: set<nat>,
                     asked: seq<nat>, answers: seq<BulkResult>, results: seq<BulkResult>, more: Stats)
    requires Asked(source, due, seen, false, stats, gone, asked, answers)
    requires |results| == DueCount(source, due, chunk)
    requires more.deleted == stats.deleted + Count(results, Deleted) && more.errors == stats.errors + Count(results, Failed)
    requires more.ignored == stats.ignored + Count(results, MissingOrConflict)
    ensures var ids := Ids(Filter(DueTest(source, due), chunk));
            Asked(source, due, seen + chunk, false, more, gone + Gone(ids, results), asked + ids, answers + results)
  {
    var test := DueTest(source, due);
    FilterAppend(test, seen, chunk);
    IdsAppend(Filter(test, seen), Filter(test, chunk));
    GoneAppend(asked, answers, Ids(Filter(test, chunk)), results);
    CountsAppend(answers, results, Deleted);
    CountsAppend(answers, results, Failed);
    CountsAppend(answers, results, MissingOrConflict);
  }

  /** A dry run adds the chunk to the counters and leaves the store alone. */
  lemma AccountsDry<D>(source: Source, due: D -> bool, initial: seq<Row<D>>, seen: seq<Row<D>>, chunk: seq<Row<D>>,
                       rows: seq<Row<D>>, stats: Stats, n: nat)
    requires Accounts(source, due, initial, seen, true, rows, stats, {})
    requires n == DueCount(source, due, chunk)
    ensures n <= |chunk|
    ensures Accounts(source, due, initial, seen + chunk, true, rows,
                     Stats(stats.scanned + |chunk|, stats.deleted + n, stats.skipped + |chunk| - n, stats.errors, stats.ignored), {})
  {
    FilterAppend(DueTest(source, due), seen, chunk);
    FilterMembers(DueTest(source, due), chunk);
  }

  /** A real run also removes what `bulkDocs` deleted, none of which was seen before. */
  lemma AccountsReal<D>(source: Source, due: D -> bool, initial: seq<Row<D>>, seen: seq<Row<D>>, chunk: seq<Row<D>>,
                        rows: seq<Row<D>>, stats: Stats, gone: set<nat>, results: seq<BulkResult>)
    requires Accounts(source, due, initial, seen, false, rows, stats, gone)
    requires Sorted(seen + chunk) && |results| == DueCount(source, due, chunk)
    ensures var ids := Ids(Filter(DueTest(source, due), chunk));
            |results| == |ids| <= |chunk| &&
            Accounts(source, due, initial, seen + chunk, false, Without(rows, Gone(ids, results)),
                     Stats(stats.scanned + |chunk|, stats.deleted + Count(results, Deleted), stats.skipped + |chunk| - |ids|,
                           stats.errors + Count(results, Failed), stats.ignored + Count(results, MissingOrConflict)),
                     gone + Gone(ids, results))
  {
    assert Sorted(chunk) by {
      assert chunk == (seen + chunk)[|seen|..];
    }
    DoomedIds(source, due, chunk);
    var ids := Ids(Filter(DueTest(source, due), chunk));
    FilterAppend(DueTest(source, due), seen, chunk);
    FilterMembers(DueTest(source, due), chunk);
    GoneCount(ids, results);
    CountsAddUp(results);
    WithoutTwice(initial, gone, Gone(ids, results));
    Disjoint(source, due, seen, chunk, gone, ids, results);
    GoneAreDue(source, due, seen, chunk, gone, ids, results);
  }

  /** All that is removed is due; and all that is due is removed, if it was and every answer says so. */
  lemma GoneAreDue<D>(source: Source, due: D -> bool, seen: seq<Row<D>>, chunk: seq<Row<D>>, gone: set<nat>,
                      ids: seq<nat>, results: seq<BulkResult>)
    requires |ids| == |results| && (forall id :: id in gone ==> DueId(source, due, seen, id))
    requires forall i :: 0 <= i < |ids| ==> DueId(source, due, chunk, ids[i])
    requires forall id: nat :: DueId(source, due, chunk, id) ==> exists i :: 0 <= i < |ids| && ids[i] == id
    ensures forall id :: id in gone + Gone(ids, results) ==> DueId(source, due, seen + chunk, id)
    ensures Count(results, Deleted) == |results| && (forall id: nat :: DueId(source, due, seen, id) ==> id in gone) ==>
              forall id: nat :: DueId(source, due, seen + chunk, id) ==> id in gone + Gone(ids, results)
  {
    hide DueId;
    CountsAddUp(results);
    forall id: nat
      ensures DueId(source, due, seen + chunk, id) <==> DueId(source, due, seen, id) || DueId(source, due, chunk, id)
    {
      DueIdAppend(source, due, seen, chunk, id);
    }
  }

  lemma Disjoint<D>(source: Source, due: D -> bool, seen: seq<Row<D>>, chunk: seq<Row<D>>,
                    gone: set<nat>, ids: seq<nat>, results: seq<BulkResult>)
    requires Sorted(seen + chunk) && |ids| == |results|
    requires forall id :: id in gone ==> DueId(source, due, seen, id)
    requires forall i :: 0 <= i < |ids| ==> DueId(source, due, chunk, ids[i])
    ensures gone !! Gone(ids, results)
    ensures |gone + Gone(ids, results)| == |gone| + |Gone(ids, results)|
  {
    forall i, j | 0 <= i < |seen| && 0 <= j < |chunk|
      ensures seen[i].id < chunk[j].id
    {
      assert (seen + chunk)[i].id < (seen + chunk)[|seen| + j].id;
    }
    assert gone !! Gone(ids, results);
  }

  lemma FilterHas<T>(keep: T -> bool, s: seq<T>, m: nat)
    requires m < |s| && keep(s[m])
    ensures s[m] in Filter(keep, s)
  {
    FilterMembers(keep, s);
  }

  /** An id removed is that of a row seen, and of no other listed row. */
  lemma GoneOrigin<D>(source: Source, due: D -> bool, initial: seq<Row<D>>, seen: seq<Row<D>>, missed: seq<Row<D>>, id: nat) returns (k: nat)
    requires seen + missed == Between(source, initial, None, None) && DueId(source, due, seen, id)
    ensures k < |initial| && initial[k].id == id && DueTest(source, due)(initial[k])
  {
    var i :| 0 <= i < |seen| && seen[i].id == id && DueTest(source, due)(seen[i]);
    assert (seen + missed)[i] == seen[i];
    k := FilterOrigin(RangeTest<D>(source, None, None), initial, i);
  }

  /** What the sweep missed stays. */
  lemma MissedStay<D>(source: Source, due: D -> bool, initial: seq<Row<D>>, seen: seq<Row<D>>, missed: seq<Row<D>>, gone: set<nat>)
    requires Sorted(initial) && seen + missed == Between(source, initial, None, None)
    requires forall id :: id in gone ==> DueId(source, due, seen, id)
    ensures forall i :: 0 <= i < |missed| ==> Lists(Without(initial, gone), missed[i])
  {
    hide Filter;
    var all := RangeTest<D>(source, None, None);
    FilterSorted(all, initial);
    forall i | 0 <= i < |missed|
      ensures Lists(Without(initial, gone), missed[i])
    {
      assert (seen + missed)[|seen| + i] == missed[i];
      assert forall j :: 0 <= j < |seen| ==> (seen + missed)[j] == seen[j];
      var m := FilterOrigin(all, initial, |seen| + i);
      FilterHas(NotIn<D>(gone), initial, m);
    }
  }

  /** Only due rows are removed; with every deletion done, exactly the rows that are not due are left. */
  lemma SweptStore<D>(source: Source, due: D -> bool, initial: seq<Row<D>>, seen: seq<Row<D>>, missed: seq<Row<D>>, gone: set<nat>)
    requires Sorted(initial) && seen + missed == Between(source, initial, None, None)
    requires forall id :: id in gone ==> DueId(source, due, seen, id)
    ensures Filter(StaysTest(source, due), Without(initial, gone)) == Filter(StaysTest(source, due), initial)
    ensures missed == [] && (forall id: nat :: DueId(source, due, seen, id) ==> id in gone) ==>
              Without(initial, gone) == Filter(StaysTest(source, due), initial)
    ensures forall id :: id in gone ==> HasId(initial, id)
  {
    hide Filter, Between, DueId;
    forall id | id in gone
      ensures HasId(initial, id)
    {
      var m := GoneOrigin(source, due, initial, seen, missed, id);
    }
    forall k | 0 <= k < |initial|
      ensures initial[k].id in gone ==> !StaysTest(source, due)(initial[k])
      ensures missed == [] && !StaysTest(source, due)(initial[k]) ==> DueId(source, due, seen, initial[k].id)
    {
      if initial[k].id in gone {
        var m := GoneOrigin(source, due, initial, seen, missed, initial[k].id);
        assert m == k;
      } else if missed == [] && DueTest(source, due)(initial[k]) {
        assert seen + missed == seen;
        DueSeen(source, due, initial, seen, k);
      }
    }
    FilterAbsorb(NotIn<D>(gone), StaysTest(source, due), initial);
    if missed == [] && forall id: nat :: DueId(source, due, seen, id) ==> id in gone {
      FilterCongruence(NotIn<D>(gone), StaysTest(source, due), initial);
    }
  }

  lemma DueSeen<D>(source: Source, due: D -> bool, initial: seq<Row<D>>, seen: seq<Row<D>>, k: nat)
    requires seen == Between(source, initial, None, None) && k < |initial| && DueTest(source, due)(initial[k])
    ensures DueId(source, due, seen, initial[k].id)
  {
    FilterHas(RangeTest<D>(source, None, None), initial, k);
    var i :| 0 <= i < |seen| && seen[i] == initial[k];
  }

  /** A view with rows removed is still sorted and, if it was, tolerable; it lists no other ids. */
  lemma WithoutView<D>(source: Source, rows: seq<Row<D>>, gone: set<nat>)
    requires Sorted(rows)
    ensures Sorted(Without(rows, gone))
    ensures Tolerable(source, rows) ==> Tolerable(source, Without(rows, gone))
    ensures forall id: nat :: HasId(Without(rows, gone), id) ==> HasId(rows, id)
  {
    FilterSorted(NotIn<D>(gone), rows);
    FewerUnkept(source, rows, gone);
    forall i | 0 <= i < |Without(rows, gone)|
      ensures exists k :: 0 <= k < |rows| && rows[k] == Without(rows, gone)[i]
    {
      var k := FilterOrigin(NotIn<D>(gone), rows, i);
    }
  }

  lemma {:induction false} FewerUnkept<D>(source: Source, rows: seq<Row<D>>, gone: set<nat>)
    ensures |Filter(UnkeptTest<D>(source), Without(rows, gone))| <= |Filter(UnkeptTest<D>(source), rows)|
  {
    if rows != [] {
      FewerUnkept(source, rows[1..], gone);
      FilterAppend(UnkeptTest<D>(source), if rows[0].id !in gone then [rows[0]] else [], Without(rows[1..], gone));
    }
  }

  /** What the next page yields, in terms of the initial view: the part up to hi, or all the rest of which the last part is missed. */
  lemma NextChunk<D>(source: Source, initial: seq<Row<D>>, gone: set<nat>, lo: Option<nat>, hi: Option<nat>,
                     chunk: seq<Row<D>>, missed: seq<Row<D>>)
    requires Sorted(initial) && (hi.Some? ==> Beyond(hi.value, lo) && missed == [])
    requires forall id :: id in gone ==> lo.Some? && !Beyond(id, lo)
    requires chunk + missed == Between(source, Without(initial, gone), lo, hi)
    ensures (Seen(source, initial, lo) + chunk) + missed == Between(source, initial, None, hi)
    ensures Sorted(Seen(source, initial, lo) + chunk)
    ensures hi.Some? ==> forall i :: 0 <= i < |Seen(source, initial, hi)| ==> !Beyond(Seen(source, initial, hi)[i].id, hi)
  {
    hide Filter, Between, Sorted;
    AheadUntouched(source, initial, gone, lo, hi);
    if lo.Some? {
      BetweenSplit(source, initial, lo.value, hi);
    }
    BetweenMeaning(source, initial, None, hi);
    var seen := Seen(source, initial, lo) + chunk;
    assert seen + missed == Seen(source, initial, lo) + (chunk + missed);
    SortedPrefix(seen, missed);
    assert hi.Some? ==> seen + missed == seen;
  }

  lemma SortedPrefix<D>(a: seq<Row<D>>, b: seq<Row<D>>)
    requires Sorted(a + b)
    ensures Sorted(a)
  {
    assert a == (a + b)[..|a|];
  }

  /** `shouldDelete` over one batch. */
  method PickDue<D>(source: Source, due: D -> bool, batch: seq<Row<D>>) returns (toDelete: seq<Row<D>>, skipped: nat)
    requires forall i :: 0 <= i < |batch| ==> Kept(source, batch[i])
    ensures toDelete == Filter(DueTest(source, due), batch)
    ensures skipped == |batch| - |toDelete|
  {
    toDelete, skipped := [], 0;
    for i := 0 to |batch|
      invariant toDelete == Filter(DueTest(source, due), batch[..i]) && skipped == i - |toDelete|
    {
      assert batch[..i + 1] == batch[..i] + [batch[i]];
      FilterAppend(DueTest(source, due), batch[..i], [batch[i]]);
      if due(batch[i].content.doc) {
        toDelete := toDelete + [batch[i]];
      } else {
        skipped := skipped + 1;
      }
    }
    assert batch[..|batch|] == batch;
  }

  /** One turn of the sweep's loop: delete what is due in the batch and count the rest. */
  method SweepBatch<D>(db: Database<D>, source: Source, due: D -> bool, dryRun: bool, batch: seq<Row<D>>, before: Stats,
                       ghost initial: seq<Row<D>>, ghost seen: seq<Row<D>>, ghost gone: set<nat>,
                       ghost asked: seq<nat>, ghost answers: seq<BulkResult>)
    returns (stats: Stats, ghost gone': set<nat>, ghost asked': seq<nat>, ghost answers': seq<BulkResult>)
    requires Accounts(source, due, initial, seen, dryRun, db.rows, before, gone) && Sorted(seen + batch)
    requires Asked(source, due, seen, dryRun, before, gone, asked, answers)
    requires forall i :: 0 <= i < |batch| ==> Kept(source, batch[i])
    modifies db
    ensures Accounts(source, due, initial, seen + batch, dryRun, db.rows, stats, gone')
    ensures Asked(source, due, seen + batch, dryRun, stats, gone', asked', answers')
    ensures exists more, results :: asked' == asked + more && answers' == answers + results
              && db.asked == old(db.asked) + more && db.answers == old(db.answers) + results
  {
    hide Asked, Filter, Gone, Without, Sorted, Ids;
    var toDelete, skipped := PickDue(source, due, batch);
    var deleted, errors, results := BulkDelete(db, toDelete, dryRun);
    CountsAddUp(results);
    stats := Stats(before.scanned + |batch|, before.deleted + deleted, before.skipped + skipped, before.errors + errors,
                   before.ignored + |toDelete| - deleted - errors);
    if dryRun {
      AccountsDry(source, due, initial, seen, batch, db.rows, before, |toDelete|);
      AskedDry(source, due, seen, batch, before, stats, gone, asked, answers);
      gone', asked', answers' := gone, asked, answers;
      assert asked' == asked + [] && answers' == answers + [] && db.asked == old(db.asked) + [] && db.answers == old(db.answers) + [];
    } else {
      AccountsReal(source, due, initial, seen, batch, Without(initial, gone), before, gone, results);
      AskedMore(source, due, seen, batch, before, gone, asked, answers, results, stats);
      gone', asked', answers' := gone + Gone(Ids(toDelete), results), asked + Ids(toDelete), answers + results;
    }
  }

  lemma AskedDry<D>(source: Source, due: D -> bool, seen: seq<Row<D>>, chunk: seq<Row<D>>, stats: Stats, more: Stats, gone: set<nat>,
                    asked: seq<nat>, answers: seq<BulkResult>)
    requires Asked(source, due, seen, true, stats, gone, asked, answers)
    ensures Asked(source, due, seen + chunk, true, more, gone, asked, answers)
  {
  }

  /** How much of the initial view a sweep at this point of its loop has dealt with. */
  ghost predicate Reached<D>(source: Source, initial: seq<Row<D>>, seen: seq<Row<D>>, missed: seq<Row<D>>, key: Option<nat>, more: bool) {
    if more then
      && missed == [] && seen == Seen(source, initial, key)
      && forall i :: 0 <= i < |seen| ==> key.Some? && !Beyond(seen[i].id, key)
    else seen + missed == Between(source, initial, None, None)
  }

  /** One page of the sweep, in terms of the initial view. */
  method NextBatch<D>(pager: Pager<D>, db: Database<D>, ghost initial: seq<Row<D>>, ghost seen: seq<Row<D>>, ghost gone: set<nat>)
    returns (batch: seq<Row<D>>, ghost missed: seq<Row<D>>)
    requires pager.Valid() && pager.hasMore && Sorted(initial) && db.rows == Without(initial, gone)
    requires Reached(pager.source, initial, seen, [], pager.startkey, true)
    requires forall id :: id in gone ==> HasId(seen, id)
    modifies pager
    ensures pager.Valid() && Sorted(seen + batch) && (forall i :: 0 <= i < |batch| ==> Kept(pager.source, batch[i]))
    ensures Reached(pager.source, initial, seen + batch, missed, pager.startkey, pager.hasMore)
    ensures pager.hasMore ==> Ahead(initial, pager.startkey) < Ahead(initial, old(pager.startkey))
    ensures pager.hasMore || Tolerable(pager.source, initial) ==> missed == []
  {
    hide Filter, Between, Without, TurnLoses, Tolerable, Ahead, Behind;
    var source := pager.source;
    ghost var lo := pager.startkey;
    WithoutView(source, initial, gone);
    batch := pager.Fetch(db.rows);
    ghost var hi := if pager.hasMore then pager.startkey else None;
    missed := if pager.hasMore then [] else Between(source, Behind(db.rows, lo, FetchLimit(source, pager.batchSize, lo)), lo, None);
    assert batch + [] == batch;
    Appended(batch, missed);
    NextChunk(source, initial, gone, lo, hi, batch, missed);
    assert (seen + batch) + [] == seen + batch;
    if pager.hasMore {
      AheadDrops(initial, lo, hi);
    } else if Tolerable(source, initial) {
      TolerableIsSafe(source, db.rows, lo, pager.batchSize);
    }
    BetweenMeaning(source, db.rows, lo, hi);
    forall i | 0 <= i < |batch|
      ensures Kept(source, batch[i])
    {
      assert (batch + missed)[i] == batch[i];
    }
  }

  /**
   * The sweep of one document type. Every listed document is scanned once, but for those the last
   * page missed, of which there are none if the listing is tolerable. A scanned document is either
   * skipped because it is not due, deleted, an error, or ignored as already gone or changed; the store
   * loses exactly as many rows as were deleted, all of them due and none of them missed. When nothing
   * fails or is missed it is left with exactly the documents that are not due. A dry run leaves it
   * unchanged and reports the counts a run without failures would.
   */
  method SweepType<D>(db: Database<D>, source: Source, due: D -> bool, batchSize: nat, dryRun: bool)
    returns (stats: Stats, ghost seen: seq<Row<D>>, ghost missed: seq<Row<D>>, ghost answers: seq<BulkResult>)
    requires batchSize >= 1 && Sorted(db.rows)
    modifies db
    ensures seen + missed == old(Between(source, db.rows, None, None))
    ensures old(Tolerable(source, db.rows)) ==> missed == []
    ensures stats.scanned == |seen| && stats.skipped == |seen| - DueCount(source, due, seen)
    ensures stats.scanned == stats.deleted + stats.skipped + stats.errors + stats.ignored
    ensures Filter(StaysTest(source, due), db.rows) == old(Filter(StaysTest(source, due), db.rows))
    ensures forall i :: 0 <= i < |missed| ==> Lists(db.rows, missed[i])
    ensures !dryRun ==> |db.rows| == |old(db.rows)| - stats.deleted
    ensures !dryRun && stats.errors == 0 && stats.ignored == 0 && missed == [] ==>
              db.rows == old(Filter(StaysTest(source, due), db.rows))
    ensures dryRun ==> db.rows == old(db.rows) && stats.errors == 0 && stats.ignored == 0
    ensures dryRun ==> db.asked == old(db.asked) && db.answers == old(db.answers)
    ensures !dryRun ==>
      var ids := Ids(Filter(DueTest(source, due), seen));
      && |answers| == |ids| && db.asked == old(db.asked) + ids && db.answers == old(db.answers) + answers
      && stats.deleted == Count(answers, Deleted) && stats.errors == Count(answers, Failed)
      && stats.ignored == Count(answers, MissingOrConflict) && db.rows == Without(old(db.rows), Gone(ids, answers))
  {
    hide Asked, Accounts, Reached, Filter, Without, Gone, Between, Tolerable, Sorted, Count, Ids;
    ghost var initial := db.rows;
    ghost var gone: set<nat> := {};
    ghost var asked: seq<nat> := [];
    seen, missed, answers := [], [], [];
    var pager := new Pager<D>(source, batchSize);
    stats := Stats(0, 0, 0, 0, 0);
    SweepBegins(source, due, initial, dryRun);
    while pager.hasMore
      invariant pager.Valid() && pager.source == source && pager.batchSize == batchSize && fresh(pager)
      invariant Reached(source, initial, seen, missed, pager.startkey, pager.hasMore)
      invariant Accounts(source, due, initial, seen, dryRun, db.rows, stats, gone)
      invariant pager.hasMore || Tolerable(source, initial) ==> missed == []
      invariant db.asked == old(db.asked) + asked && db.answers == old(db.answers) + answers
      invariant Asked(source, due, seen, dryRun, stats, gone, asked, answers)
      decreases if pager.hasMore then Ahead(initial, pager.startkey) + 1 else 0
    {
      AccountsFacts(source, due, initial, seen, dryRun, db.rows, stats, gone);
      var batch;
      batch, missed := NextBatch(pager, db, initial, seen, gone);
      stats, gone, asked, answers := SweepBatch(db, source, due, dryRun, batch, stats, initial, seen, gone, asked, answers);
      seen := seen + batch;
    }
    SweepEnds(source, due, initial, seen, missed, pager.startkey, dryRun, db.rows, stats, gone, asked, answers);
  }

  lemma SweepBegins<D>(source: Source, due: D -> bool, initial: seq<Row<D>>, dryRun: bool)
    ensures Accounts(source, due, initial, [], dryRun, initial, Stats(0, 0, 0, 0, 0), {})
    ensures Asked(source, due, [], dryRun, Stats(0, 0, 0, 0, 0), {}, [], [])
    ensures Reached(source, initial, [], [], None, true)
  {
    FilterAll(NotIn<D>({}), initial);
  }

  lemma AccountsFacts<D>(source: Source, due: D -> bool, initial: seq<Row<D>>, seen: seq<Row<D>>, dryRun: bool,
                         rows: seq<Row<D>>, stats: Stats, gone: set<nat>)
    requires Accounts(source, due, initial, seen, dryRun, rows, stats, gone)
    ensures rows == Without(initial, gone) && forall id :: id in gone ==> HasId(seen, id)
  {
    forall id | id in gone
      ensures HasId(seen, id)
    {
      assert DueId(source, due, seen, id);
    }
  }

  /** What the accounts come to when nothing is left to fetch. */
  lemma SweepEnds<D>(source: Source, due: D -> bool, initial: seq<Row<D>>, seen: seq<Row<D>>, missed: seq<Row<D>>,
                     key: Option<nat>, dryRun: bool, rows: seq<Row<D>>, stats: Stats, gone: set<nat>, asked: seq<nat>, answers: seq<BulkResult>)
    requires Sorted(initial) && Reached(source, initial, seen, missed, key, false)
    requires Accounts(source, due, initial, seen, dryRun, rows, stats, gone)
    requires Asked(source, due, seen, dryRun, stats, gone, asked, answers)
    ensures seen + missed == Between(source, initial, None, None)
    ensures stats.scanned == |seen| && stats.skipped == |seen| - DueCount(source, due, seen)
    ensures stats.scanned == stats.deleted + stats.skipped + stats.errors + stats.ignored
    ensures Filter(StaysTest(source, due), rows) == Filter(StaysTest(source, due), initial)
    ensures forall i :: 0 <= i < |missed| ==> Lists(rows, missed[i])
    ensures !dryRun ==> |rows| == |initial| - stats.deleted
    ensures !dryRun && stats.errors == 0 && stats.ignored == 0 && missed == [] ==> rows == Filter(StaysTest(source, due), initial)
    ensures dryRun ==> rows == initial && stats.errors == 0 && stats.ignored == 0 && asked == [] && answers == []
    ensures !dryRun ==>
      && asked == Ids(Filter(DueTest(source, due), seen)) && |answers| == |asked|
      && stats.deleted == Count(answers, Deleted) && stats.errors == Count(answers, Failed)
      && stats.ignored == Count(answers, MissingOrConflict) && rows == Without(initial, Gone(asked, answers))
  {
    hide Filter, Between;
    SweptStore(source, due, initial, seen, missed, gone);
    MissedStay(source, due, initial, seen, missed, gone);
    WithoutCount(initial, gone);
    if dryRun {
      FilterAll(NotIn<D>({}), initial);
    }
  }
}
