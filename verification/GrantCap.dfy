/**
 * The per-user cap of api/src/couchdb/downloadGrants.ts: in sequential runs without store errors a
 * user never holds more unused, unexpired grants than the cap.
 */
module GrantCap {
  import opened Prelude
  import opened Retention
  import opened AuthRuns
  import opened AuthSweeps

  const MAX_UNUSED_DOWNLOAD_GRANTS_PER_USER: nat := 10

  lemma {:induction false} InsertCounts(p: Test, doc: Doc, sorted: seq<Doc>)
    ensures |Filter(p, Insert(doc, sorted))| == |Filter(p, [doc])| + |Filter(p, sorted)|
  {
    if Insert(doc, sorted) == [doc] + sorted {
      FilterAppend(p, [doc], sorted);
    } else {
      InsertCounts(p, doc, sorted[1..]);
      assert Insert(doc, sorted)[1..] == Insert(doc, sorted[1..]);
    }
  }

  /** Sorting rearranges: every test holds of as many grants as before. */
  lemma {:induction false} OldestFirstCounts(p: Test, grants: seq<Doc>)
    ensures |Filter(p, OldestFirst(grants))| == |Filter(p, grants)|
  {
    if grants != [] {
      OldestFirstCounts(p, grants[1..]);
      InsertCounts(p, grants[0], OldestFirst(grants[1..]));
      FilterAppend(p, [grants[0]], grants[1..]);
      assert grants == [grants[0]] + grants[1..];
    }
  }

  predicate IsSorted(grants: seq<Doc>) {
    forall i, j :: 0 <= i < j < |grants| && grants[i].body.Grant? && grants[j].body.Grant? ==>
      grants[i].body.created <= grants[j].body.created
  }

  predicate AllGrants(docs: seq<Doc>) {
    forall i :: 0 <= i < |docs| ==> docs[i].body.Grant?
  }

  lemma {:induction false} InsertSorts(doc: Doc, sorted: seq<Doc>)
    requires doc.body.Grant? && AllGrants(sorted) && IsSorted(sorted)
    ensures IsSorted(Insert(doc, sorted)) && AllGrants(Insert(doc, sorted))
    ensures Insert(doc, sorted)[0] == doc || (sorted != [] && Insert(doc, sorted)[0] == sorted[0] && sorted[0].body.created < doc.body.created)
    ensures forall i :: 0 <= i < |Insert(doc, sorted)| ==> Insert(doc, sorted)[i] == doc || Insert(doc, sorted)[i] in sorted
  {
    if sorted != [] && doc.body.created > sorted[0].body.created {
      InsertSorts(doc, sorted[1..]);
      var rest := Insert(doc, sorted[1..]);
      forall i | 0 <= i < |rest|
        ensures sorted[0].body.created <= rest[i].body.created
      {
        if rest[i] != doc {
          var k :| 0 <= k < |sorted[1..]| && sorted[1..][k] == rest[i];
          assert rest[i] == sorted[k + 1];
        }
      }
    }
  }

  /** `sort` puts the grants in order of creation. */
  lemma {:induction false} OldestFirstSorts(grants: seq<Doc>)
    requires AllGrants(grants)
    ensures IsSorted(OldestFirst(grants)) && AllGrants(OldestFirst(grants)) && |OldestFirst(grants)| == |grants|
  {
    if grants != [] {
      OldestFirstSorts(grants[1..]);
      InsertSorts(grants[0], OldestFirst(grants[1..]));
      InsertCounts((doc: Doc) => true, grants[0], OldestFirst(grants[1..]));
      FilterAll((doc: Doc) => true, OldestFirst(grants[1..]));
      FilterAll((doc: Doc) => true, OldestFirst(grants));
    }
  }


  /** Marking by key leaves live exactly the live grants with other keys. */
  lemma {:induction false} LiveAfterMarking(docs: seq<Doc>, keys: set<nat>, user: nat, now: int)
    ensures |Filter(LiveGrant(user, now), Update(docs, KeyIn(keys), MarkUsed))|
         == |Filter((doc: Doc) => doc.key !in keys, Filter(LiveGrant(user, now), docs))|
  {
    if docs != [] {
      LiveAfterMarking(docs[1..], keys, user, now);
      var live, head := Filter(LiveGrant(user, now), docs[1..]), if LiveGrant(user, now)(docs[0]) then [docs[0]] else [];
      FilterAppend((doc: Doc) => doc.key !in keys, head, live);
    }
  }

  /** Marking the overflow leaves room for one more. */
  lemma RoomForOne(docs: seq<Doc>, user: nat, now: int, cap: nat)
    requires cap >= 1
    ensures var live := Filter(LiveGrant(user, now), docs);
            |Filter(LiveGrant(user, now), Update(docs, KeyIn(Overflow(live, cap)), MarkUsed))| <= cap - 1
  {
    hide Filter, Update, OldestFirst;
    var live := Filter(LiveGrant(user, now), docs);
    var sorted, keys := OldestFirst(live), Overflow(live, cap);
    var others := (doc: Doc) => doc.key !in keys;
    LiveAfterMarking(docs, keys, user, now);
    OldestFirstCounts(others, live);
    OldestFirstCounts((doc: Doc) => true, live);
    FilterAll((doc: Doc) => true, live);
    FilterAll((doc: Doc) => true, sorted);
    var k := Max(0, |live| - (cap - 1));
    assert sorted == sorted[..k] + sorted[k..];
    FilterAppend(others, sorted[..k], sorted[k..]);
    forall i | 0 <= i < k
      ensures !others(sorted[..k][i])
    {
      assert sorted[i].key in keys;
    }
    FilterNone(others, sorted[..k]);
    FilterMembers(others, sorted[k..]);
  }

  /** A grant only dies with time. */
  lemma {:induction false} LiveShrinks(docs: seq<Doc>, user: nat, now: int, later: int)
    requires now <= later
    ensures |Filter(LiveGrant(user, later), docs)| <= |Filter(LiveGrant(user, now), docs)|
  {
    if docs != [] {
      LiveShrinks(docs[1..], user, now, later);
    }
  }

  /** An update that makes no grant live. */
  ghost predicate KeepsDown(f: Body -> Body) {
    forall doc: Doc, user, now :: LiveGrant(user, now)(Doc(doc.key, f(doc.body))) ==> LiveGrant(user, now)(doc)
  }

  lemma {:induction false} UpdateKeepsDown(docs: seq<Doc>, test: Test, f: Body -> Body, user: nat, now: int)
    requires KeepsDown(f)
    ensures |Filter(LiveGrant(user, now), Update(docs, test, f))| <= |Filter(LiveGrant(user, now), docs)|
  {
    if docs != [] {
      UpdateKeepsDown(docs[1..], test, f, user, now);
      assert LiveGrant(user, now)(Doc(docs[0].key, f(docs[0].body))) ==> LiveGrant(user, now)(docs[0]);
    }
  }

  lemma {:induction false} FilterKeepsDown(docs: seq<Doc>, keep: Test, user: nat, now: int)
    ensures |Filter(LiveGrant(user, now), Filter(keep, docs))| <= |Filter(LiveGrant(user, now), docs)|
  {
    if docs != [] {
      FilterKeepsDown(docs[1..], keep, user, now);
      FilterAppend(LiveGrant(user, now), if keep(docs[0]) then [docs[0]] else [], Filter(keep, docs[1..]));
    }
  }

  lemma AppendDead(docs: seq<Doc>, doc: Doc, user: nat, now: int)
    ensures |Filter(LiveGrant(user, now), docs + [doc])|
         == |Filter(LiveGrant(user, now), docs)| + if LiveGrant(user, now)(doc) then 1 else 0
  {
    FilterAppend(LiveGrant(user, now), docs, [doc]);
  }

  /** Nothing but `createDownloadGrant` adds to the live grants. */
  lemma OthersKeepDown(settings: Settings, docs: seq<Doc>, op: Op, user: nat, now: int)
    requires !op.CreateGrant?
    ensures |Filter(LiveGrant(user, now), Do(settings, docs, op).0)| <= |Filter(LiveGrant(user, now), docs)|
  {
    hide Filter, Update, Do, Passes, NewDoc, Stores, LiveGrant;
    if IsRedemption(op) {
      RedemptionIs(settings, docs, op);
      EffectsKeepDown(op);
      UpdateKeepsDown(docs, Keyed(op.key), EffectOf(op), user, now);
    } else if IsAmendment(op) {
      AmendmentIs(settings, docs, op);
      ChangesKeepDown(op);
      UpdateKeepsDown(docs, Named(op), ChangeOf(op), user, now);
    } else if op.RevokeGrants? {
      RevokeIs(settings, docs, op);
      MarkingKeepsDown(docs, LiveGrant(op.user, op.now), user, now);
    } else if op.SweepAll? {
      SweepIs(settings, docs, op);
      FilterKeepsDown(docs, Survives(op.g, op.spared, op.now), user, now);
    } else {
      CreationIs(settings, docs, op);
      AppendOther(settings, docs, op, user, now);
    }
  }

  lemma EffectsKeepDown(op: Op)
    requires IsRedemption(op)
    ensures KeepsDown(EffectOf(op))
  {
  }

  lemma ChangesKeepDown(op: Op)
    requires IsAmendment(op)
    ensures KeepsDown(ChangeOf(op))
  {
  }

  lemma SweepIs(settings: Settings, docs: seq<Doc>, op: Op)
    requires op.SweepAll?
    ensures Do(settings, docs, op).0 == Filter(Survives(op.g, op.spared, op.now), docs)
  {
    hide Filter;
  }

  lemma AppendOther(settings: Settings, docs: seq<Doc>, op: Op, user: nat, now: int)
    requires IsCreation(op) && !op.CreateGrant?
    ensures |Filter(LiveGrant(user, now), docs + [NewDoc(settings, op)])| == |Filter(LiveGrant(user, now), docs)|
  {
    hide Filter;
    AppendDead(docs, NewDoc(settings, op), user, now);
  }

  lemma MarkingKeepsDown(docs: seq<Doc>, test: Test, user: nat, now: int)
    ensures |Filter(LiveGrant(user, now), Update(docs, test, MarkUsed))| <= |Filter(LiveGrant(user, now), docs)|
  {
    hide Filter, Update;
    UpdateKeepsDown(docs, test, MarkUsed, user, now);
  }

  /** Each user's live grants are within the cap, now and later. */
  ghost predicate Capped(docs: seq<Doc>, cap: nat, clock: int) {
    forall user, now :: clock <= now ==> |Filter(LiveGrant(user, now), docs)| <= cap
  }

  predicate InOrder(clock: int, ops: seq<Op>)
    decreases ops
  {
    ops == [] || ((ops[0].SweepAll? || clock <= Start(ops[0]) <= End(ops[0])) && InOrder(Later(clock, ops[0]), ops[1..]))
  }

  /** The clock after a run. */
  function Ended(clock: int, ops: seq<Op>): int
    decreases ops
  {
    if ops == [] then clock else Ended(Later(clock, ops[0]), ops[1..])
  }

  function Final(settings: Settings, docs: seq<Doc>, ops: seq<Op>): seq<Doc>
    decreases ops
  {
    if ops == [] then docs else Final(settings, Do(settings, docs, ops[0]).0, ops[1..])
  }

  /** Marking the overflow and adding one grant, counted for any user at any later time. */
  lemma CountAfterCreate(docs: seq<Doc>, cap: nat, user: nat, t1: int, minted: Doc, other: nat, now: int)
    requires cap >= 1 && t1 <= now && minted.body.Grant? && minted.body.userId == user
    requires |Filter(LiveGrant(other, now), docs)| <= cap
    ensures var keys := Overflow(Filter(LiveGrant(user, t1), docs), cap);
            |Filter(LiveGrant(other, now), Update(docs, KeyIn(keys), MarkUsed) + [minted])| <= cap
  {
    hide Filter, Update, Overflow;
    var keys := Overflow(Filter(LiveGrant(user, t1), docs), cap);
    var marked := Update(docs, KeyIn(keys), MarkUsed);
    AppendDead(marked, minted, other, now);
    if other == user {
      RoomForOne(docs, user, t1, cap);
      LiveShrinks(marked, user, t1, now);
    } else {
      MarkingKeepsDown(docs, KeyIn(keys), other, now);
    }
  }

  lemma CreateKeepsCapped(settings: Settings, docs: seq<Doc>, clock: int, op: Op)
    requires op.CreateGrant? && settings.maxGrants >= 1 && Capped(docs, settings.maxGrants, clock) && clock <= Start(op) <= End(op)
    ensures Capped(Do(settings, docs, op).0, settings.maxGrants, End(op))
  {
    hide Filter, Update, Overflow, LiveGrant;
    forall user, now | End(op) <= now
      ensures |Filter(LiveGrant(user, now), Do(settings, docs, op).0)| <= settings.maxGrants
    {
      CountAfterCreate(docs, settings.maxGrants, op.user, op.t1,
                       Doc(op.key, Grant(op.user, false, op.t2, op.t3 + settings.grantLifetime)), user, now);
    }
  }

  lemma {:induction false} CapOverRun(settings: Settings, docs: seq<Doc>, clock: int, ops: seq<Op>, user: nat, now: int)
    requires settings.maxGrants >= 1 && Capped(docs, settings.maxGrants, clock) && InOrder(clock, ops)
    requires Ended(clock, ops) <= now
    ensures |Filter(LiveGrant(user, now), Final(settings, docs, ops))| <= settings.maxGrants
    decreases ops
  {
    if ops != [] {
      var after := Do(settings, docs, ops[0]).0;
      if ops[0].CreateGrant? {
        CreateKeepsCapped(settings, docs, clock, ops[0]);
      } else {
        forall user, now | Later(clock, ops[0]) <= now
          ensures |Filter(LiveGrant(user, now), after)| <= settings.maxGrants
        {
          OthersKeepDown(settings, docs, ops[0], user, now);
        }
      }
      CapOverRun(settings, after, Later(clock, ops[0]), ops[1..], user, now);
    } else {
      assert Final(settings, docs, ops) == docs;
    }
  }

  /** After any run of any operations, at most ten unused, unexpired grants per user. */
  lemma AtMostTenUnusedGrants(settings: Settings, clock: int, ops: seq<Op>, user: nat, now: int)
    requires settings.maxGrants == MAX_UNUSED_DOWNLOAD_GRANTS_PER_USER && InOrder(clock, ops)
    requires Ended(clock, ops) <= now
    ensures |Filter(LiveGrant(user, now), Final(settings, [], ops))| <= 10
  {
    CapOverRun(settings, [], clock, ops, user, now);
  }
}
