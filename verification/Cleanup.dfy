/**
 * `runTtlCleanup` (api/src/couchdb/ttlCleanup.ts): one sweep per document type at one clock sample,
 * then compaction when nothing failed.
 */
module Cleanup {
  import opened Prelude
  import opened Paging
  import opened Retention
  import opened Sweep

  function Due(now: int, g: Graces): Body -> bool {
    (body: Body) => ShouldDelete(body, now, g)
  }

  /** The document of this row is to go: nothing accepts or counts it, and its retention is over. */
  predicate Spent(source: Source, row: Row<Body>, now: int, g: Graces) {
    ToYield(source, row) && Dead(row.content.doc, now) && Overdue(row.content.doc, now, g)
  }

  /** Documents as the application writes them. */
  predicate Regular(rows: seq<Row<Body>>, emailLifetime: int) {
    forall i :: 0 <= i < |rows| && !rows[i].content.NoDocument? ==> Written(rows[i].content.doc, emailLifetime)
  }

  /** Only spent documents are gone; all of them, if no deletion failed or lost a race and the listing is tolerable. */
  ghost predicate Cleaned(source: Source, before: seq<Row<Body>>, after: seq<Row<Body>>, now: int, g: Graces, stats: Stats) {
    && (forall row :: row in after ==> row in before)
    && (forall row :: row in before && !Spent(source, row, now, g) ==> row in after)
    && (stats.errors == 0 && stats.ignored == 0 && Tolerable(source, before) ==> forall row :: row in after ==> !Spent(source, row, now, g))
  }

  lemma SpentIsDue(source: Source, rows: seq<Row<Body>>, i: nat, now: int, g: Graces, emailLifetime: int)
    requires Safe(g, emailLifetime) && Regular(rows, emailLifetime) && i < |rows|
    ensures StaysTest(source, Due(now, g))(rows[i]) <==> !Spent(source, rows[i], now, g)
  {
    var row := rows[i];
    StaysMeans(source, Due(now, g), row);
    if ToYield(source, row) {
      assert Due(now, g)(row.content.doc) == ShouldDelete(row.content.doc, now, g);
      assert Written(rows[i].content.doc, emailLifetime);
      DueExactly(row.content.doc, now, g, emailLifetime);
    }
  }

  lemma OnlyStays(source: Source, before: seq<Row<Body>>, after: seq<Row<Body>>, now: int, g: Graces, emailLifetime: int)
    requires Safe(g, emailLifetime) && Regular(before, emailLifetime)
    requires Filter(StaysTest(source, Due(now, g)), after) == Filter(StaysTest(source, Due(now, g)), before)
    ensures forall row :: row in before && !Spent(source, row, now, g) ==> row in after
  {
    hide StaysTest, Spent, Filter;
    var stays := StaysTest(source, Due(now, g));
    forall i | 0 <= i < |before| && !Spent(source, before[i], now, g)
      ensures before[i] in after
    {
      SpentIsDue(source, before, i, now, g, emailLifetime);
      FilterHas(stays, before, i);
      var k :| 0 <= k < |Filter(stays, after)| && Filter(stays, after)[k] == before[i];
      var m := FilterOrigin(stays, after, k);
    }
  }

  lemma NoSpentLeft(source: Source, before: seq<Row<Body>>, now: int, g: Graces, emailLifetime: int)
    requires Safe(g, emailLifetime) && Regular(before, emailLifetime)
    ensures var left := Filter(StaysTest(source, Due(now, g)), before);
            forall i :: 0 <= i < |left| ==> !Spent(source, left[i], now, g)
  {
    hide StaysTest, Spent, Filter;
    var stays := StaysTest(source, Due(now, g));
    forall i | 0 <= i < |Filter(stays, before)|
      ensures !Spent(source, Filter(stays, before)[i], now, g)
    {
      var k := FilterOrigin(stays, before, i);
      SpentIsDue(source, before, k, now, g, emailLifetime);
    }
  }

  lemma OnlyFromBefore(rows: seq<Row<Body>>, gone: set<nat>)
    ensures forall i :: 0 <= i < |Without(rows, gone)| ==> Without(rows, gone)[i] in rows
  {
    FilterElements(NotIn<Body>(gone), rows);
  }

  /** The sweep of one type, in terms of what is accepted, counted and retained. */
  method SweepBodies(db: Database<Body>, source: Source, g: Graces, now: int, batchSize: nat, dryRun: bool, ghost emailLifetime: int)
    returns (stats: Stats)
    requires batchSize >= 1 && Sorted(db.rows)
    requires Safe(g, emailLifetime) && Regular(db.rows, emailLifetime)
    modifies db
    ensures !dryRun ==> Cleaned(source, old(db.rows), db.rows, now, g, stats)
    ensures dryRun ==> db.rows == old(db.rows) && db.asked == old(db.asked)
  {
    hide Filter, Between, Without, Gone, Sorted, Tolerable;
    ghost var seen, missed, answers;
    stats, seen, missed, answers := SweepType(db, source, Due(now, g), batchSize, dryRun);
    if !dryRun {
      OnlyStays(source, old(db.rows), db.rows, now, g, emailLifetime);
      NoSpentLeft(source, old(db.rows), now, g, emailLifetime);
      OnlyFromBefore(old(db.rows), Gone(Ids(Filter(DueTest(source, Due(now, g)), seen)), answers));
    }
  }

  /** The six listings a cleanup goes through; deleting from one leaves the others alone. */
  class Stores {
    const refresh: Database<Body>
    const email: Database<Body>
    const verification: Database<Body>
    const grants: Database<Body>
    const invites: Database<Body>
    const longLived: Database<Body>

    constructor (refresh: Database<Body>, email: Database<Body>, verification: Database<Body>, grants: Database<Body>,
                 invites: Database<Body>, longLived: Database<Body>)
      ensures this.refresh == refresh && this.email == email && this.verification == verification
      ensures this.grants == grants && this.invites == invites && this.longLived == longLived
    {
      this.refresh, this.email, this.verification := refresh, email, verification;
      this.grants, this.invites, this.longLived := grants, invites, longLived;
    }

    function All(): seq<Database<Body>> {
      [refresh, email, verification, grants, invites, longLived]
    }

    ghost predicate Ready(emailLifetime: int)
      reads All()
    {
      && (forall i, j :: 0 <= i < j < 6 ==> All()[i] != All()[j])
      && forall i :: 0 <= i < 6 ==>
           Sorted(All()[i].rows) && Regular(All()[i].rows, emailLifetime)
    }
  }

  /** The invites are listed by `allDocs`, all else by views. */
  function SourceOf(i: nat): Source {
    if i == 4 then InvitesAllDocs else AuthView
  }

  function Errors(stats: seq<Stats>): nat {
    if stats == [] then 0 else stats[0].errors + Errors(stats[1..])
  }

  lemma {:induction false} ErrorsAppend(stats: seq<Stats>, more: Stats)
    ensures Errors(stats + [more]) == Errors(stats) + more.errors
  {
    if stats == [] {
      assert stats + [more] == [more];
    } else {
      ErrorsAppend(stats[1..], more);
      assert (stats + [more])[1..] == stats[1..] + [more];
    }
  }

  /**
   * The cleanup under safe options, each database quiet meanwhile: of every type only spent documents go,
   * and all of them unless a deletion failed or lost a race (or the invites listing is not tolerable); long-lived tokens are left alone unless
   * asked for; a dry run changes nothing; and compaction is started exactly when it is asked for, the
   * run is real and nothing failed.
   */
  method RunTtlCleanup(stores: Stores, g: Graces, now: int, batchSize: nat, dryRun: bool, compact: bool, threshold: nat,
                       ghost emailLifetime: int)
    returns (stats: seq<Stats>, compacting: bool, success: bool)
    requires batchSize >= 1 && Safe(g, emailLifetime) && stores.Ready(emailLifetime)
    modifies stores.All()
    ensures |stats| == 6
    ensures forall i :: 0 <= i < 6 && !dryRun && (i == 5 ==> g.includeLongLived) ==>
      Cleaned(SourceOf(i), old(stores.All()[i].rows), stores.All()[i].rows, now, g, stats[i])
    ensures forall i :: 0 <= i < 6 && (dryRun || (i == 5 && !g.includeLongLived)) ==>
      stores.All()[i].rows == old(stores.All()[i].rows) && stores.All()[i].asked == old(stores.All()[i].asked)
    ensures compacting <==> compact && !dryRun && forall i :: 0 <= i < 6 ==> stats[i].errors == 0
    ensures success ==> Errors(stats) <= threshold
    ensures !compacting ==> (success <==> Errors(stats) <= threshold)
  {
    hide Cleaned, Sorted, Regular;
    stats := [];
    var dbs := stores.All();
    for i := 0 to 6
      invariant |stats| == i
      invariant forall j :: 0 <= j < i && !dryRun && (j == 5 ==> g.includeLongLived) ==>
        Cleaned(SourceOf(j), old(dbs[j].rows), dbs[j].rows, now, g, stats[j])
      invariant forall j :: 0 <= j < 6 && (j >= i || dryRun || (j == 5 && !g.includeLongLived)) ==>
        dbs[j].rows == old(dbs[j].rows) && dbs[j].asked == old(dbs[j].asked)
    {
      var one := Stats(0, 0, 0, 0, 0);
      if i != 5 || g.includeLongLived {
        one := SweepBodies(dbs[i], SourceOf(i), g, now, batchSize, dryRun, emailLifetime);
      }
      stats := stats + [one];
    }
    var total := 0;
    for i := 0 to 6
      modifies {}
      invariant total == Errors(stats[..i]) && (total == 0 <==> forall j :: 0 <= j < i ==> stats[j].errors == 0)
    {
      assert stats[..i + 1] == stats[..i] + [stats[i]];
      ErrorsAppend(stats[..i], stats[i]);
      total := total + stats[i].errors;
    }
    assert stats[..6] == stats;
    compacting := compact && !dryRun && total == 0;
    if compacting {
      var failures: nat := *;
      total := total + Min(failures, 2);
    }
    success := total <= threshold;
  }
}
