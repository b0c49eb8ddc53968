/**
 * `validateProjectDatabase` (api/src/couchdb/devtools.ts): walks records to revisions to
 * attribute-value pairs to attachments, crossing off what it reaches. The database does not
 * change during the walk.
 */
module Integrity {
  import opened Prelude

  /** The fields the walk reads; any of them may be absent. */
  datatype Doc = Doc(revisions: Option<seq<string>>, avps: Option<seq<string>>, attachments: Option<seq<Option<string>>>)

  type Db = map<string, Doc>

  datatype Error =
    | UnreadableRecord(rec: string)
    | MissingRevision(rev: string, rec: string)
    | MissingAvp(avp: string, rev: string, rec: string)
    | MissingAttachment(att: Option<string>, avp: string, rev: string, rec: string)
    | UnreferencedRevisions(ids: set<string>)
    | UnreferencedAvps(ids: set<string>)
    | UnreferencedAttachments(ids: set<string>)

  function Ids(db: Db, prefix: string): set<string> {
    set id | id in db && prefix <= id
  }

  // ----- what is wrong, level by level

  predicate Resolves(db: Db, att: Option<string>) {
    att.Some? && att.value in db
  }

  function Atts(doc: Doc): seq<Option<string>> {
    if doc.attachments.Some? then doc.attachments.value else []
  }

  predicate AttProblem(db: Db, atts: seq<Option<string>>, avp: string, rev: string, rec: string, e: Error) {
    e.MissingAttachment? && e.avp == avp && e.rev == rev && e.rec == rec && e.att in atts && !Resolves(db, e.att)
  }

  predicate AvpProblem(db: Db, avps: seq<string>, rev: string, rec: string, e: Error) {
    || (e.MissingAvp? && e.rev == rev && e.rec == rec && e.avp in avps && e.avp !in db)
    || (e.MissingAttachment? && e.avp in avps && e.avp in db && AttProblem(db, Atts(db[e.avp]), e.avp, rev, rec, e))
  }

  /** The document exists and has its `avps`. */
  predicate ReadableRevision(db: Db, rev: string) {
    rev in db && db[rev].avps.Some?
  }

  predicate RevProblem(db: Db, revs: seq<string>, rec: string, e: Error) {
    || (e.MissingRevision? && e.rec == rec && e.rev in revs && !ReadableRevision(db, e.rev))
    || ((e.MissingAvp? || e.MissingAttachment?) && e.rev in revs && ReadableRevision(db, e.rev)
        && AvpProblem(db, db[e.rev].avps.value, e.rev, rec, e))
  }

  predicate ReadableRecord(db: Db, rec: string) {
    rec in db && db[rec].revisions.Some?
  }

  predicate RecProblem(db: Db, recs: seq<string>, e: Error) {
    || (e.UnreadableRecord? && e.rec in recs && !ReadableRecord(db, e.rec))
    || ((e.MissingRevision? || e.MissingAvp? || e.MissingAttachment?) && e.rec in recs && ReadableRecord(db, e.rec)
        && RevProblem(db, db[e.rec].revisions.value, e.rec, e))
  }

  // ----- what is reached, level by level

  predicate AttOfAvps(db: Db, avps: seq<string>, att: string) {
    att in db && exists i :: 0 <= i < |avps| && avps[i] in db && Some(att) in Atts(db[avps[i]])
  }

  predicate AvpOfRevs(db: Db, revs: seq<string>, avp: string) {
    avp in db && exists i :: 0 <= i < |revs| && ReadableRevision(db, revs[i]) && avp in db[revs[i]].avps.value
  }

  predicate AttOfRevs(db: Db, revs: seq<string>, att: string) {
    exists i :: 0 <= i < |revs| && ReadableRevision(db, revs[i]) && AttOfAvps(db, db[revs[i]].avps.value, att)
  }

  predicate RevOfRecs(db: Db, recs: seq<string>, rev: string) {
    rev in db && exists i :: 0 <= i < |recs| && ReadableRecord(db, recs[i]) && rev in db[recs[i]].revisions.value
  }

  predicate AvpOfRecs(db: Db, recs: seq<string>, avp: string) {
    exists i :: 0 <= i < |recs| && ReadableRecord(db, recs[i]) && AvpOfRevs(db, db[recs[i]].revisions.value, avp)
  }

  predicate AttOfRecs(db: Db, recs: seq<string>, att: string) {
    exists i :: 0 <= i < |recs| && ReadableRecord(db, recs[i]) && AttOfRevs(db, db[recs[i]].revisions.value, att)
  }

  class Checker {
    const db: Db
    var errors: seq<Error>
    var revisionIDs: set<string>
    var avpIDs: set<string>
    var attIDs: set<string>

    constructor (db: Db)
      ensures this.db == db && errors == []
      ensures revisionIDs == Ids(db, "frev") && avpIDs == Ids(db, "avp") && attIDs == Ids(db, "att")
    {
      this.db, errors := db, [];
      revisionIDs, avpIDs, attIDs := Ids(db, "frev"), Ids(db, "avp"), Ids(db, "att");
    }

    /** The attachments of one attribute-value pair. */
    method CheckAttachments(atts: seq<Option<string>>, avp: string, rev: string, rec: string)
      modifies this`errors, this`attIDs
      ensures forall e :: e in errors <==> e in old(errors) || AttProblem(db, atts, avp, rev, rec, e)
      ensures forall x :: x in attIDs <==> x in old(attIDs) && !(Some(x) in atts && x in db)
    {
      for l := 0 to |atts|
        invariant forall e :: e in errors <==> e in old(errors) || AttProblem(db, atts[..l], avp, rev, rec, e)
        invariant forall x :: x in attIDs <==> x in old(attIDs) && !(Some(x) in atts[..l] && x in db)
      {
        assert atts[..l + 1] == atts[..l] + [atts[l]];
        if Resolves(db, atts[l]) {
          attIDs := attIDs - {atts[l].value};
        } else {
          errors := errors + [MissingAttachment(atts[l], avp, rev, rec)];
        }
      }
      assert atts[..|atts|] == atts;
    }

    /** The attribute-value pairs of one revision. */
    method CheckAvps(avps: seq<string>, rev: string, rec: string)
      modifies this`errors, this`avpIDs, this`attIDs
      ensures forall e :: e in errors <==> e in old(errors) || AvpProblem(db, avps, rev, rec, e)
      ensures forall x :: x in avpIDs <==> x in old(avpIDs) && !(x in avps && x in db)
      ensures forall x :: x in attIDs <==> x in old(attIDs) && !AttOfAvps(db, avps, x)
    {
      for k := 0 to |avps|
        invariant forall e :: e in errors <==> e in old(errors) || AvpProblem(db, avps[..k], rev, rec, e)
        invariant forall x :: x in avpIDs <==> x in old(avpIDs) && !(x in avps[..k] && x in db)
        invariant forall x :: x in attIDs <==> x in old(attIDs) && !AttOfAvps(db, avps[..k], x)
      {
        assert avps[..k + 1] == avps[..k] + [avps[k]];
        AttOfOneMoreAvp(db, avps, k);
        if avps[k] in db {
          avpIDs := avpIDs - {avps[k]};
          if db[avps[k]].attachments.Some? {
            CheckAttachments(db[avps[k]].attachments.value, avps[k], rev, rec);
          }
        } else {
          errors := errors + [MissingAvp(avps[k], rev, rec)];
        }
      }
      assert avps[..|avps|] == avps;
    }

    /** The revisions of one record. */
    method CheckRevisions(revs: seq<string>, rec: string)
      modifies this`errors, this`revisionIDs, this`avpIDs, this`attIDs
      ensures forall e :: e in errors <==> e in old(errors) || RevProblem(db, revs, rec, e)
      ensures forall x :: x in revisionIDs <==> x in old(revisionIDs) && !(x in revs && x in db)
      ensures forall x :: x in avpIDs <==> x in old(avpIDs) && !AvpOfRevs(db, revs, x)
      ensures forall x :: x in attIDs <==> x in old(attIDs) && !AttOfRevs(db, revs, x)
    {
      hide RevProblem, AvpProblem, AvpOfRevs, AttOfRevs, AttOfAvps;
      NoRevs(db, revs, rec);
      for j := 0 to |revs|
        invariant forall e :: e in errors <==> e in old(errors) || RevProblem(db, revs[..j], rec, e)
        invariant forall x :: x in revisionIDs <==> x in old(revisionIDs) && !(x in revs[..j] && x in db)
        invariant forall x :: x in avpIDs <==> x in old(avpIDs) && !AvpOfRevs(db, revs[..j], x)
        invariant forall x :: x in attIDs <==> x in old(attIDs) && !AttOfRevs(db, revs[..j], x)
      {
        assert revs[..j + 1] == revs[..j] + [revs[j]];
        OneMoreRev(db, revs, j);
        OneMoreRevProblem(db, revs, rec, j);
        if revs[j] in db {
          revisionIDs := revisionIDs - {revs[j]};
          if db[revs[j]].avps.Some? {
            CheckAvps(db[revs[j]].avps.value, revs[j], rec);
          } else {
            errors := errors + [MissingRevision(revs[j], rec)];
          }
        } else {
          errors := errors + [MissingRevision(revs[j], rec)];
        }
      }
      assert revs[..|revs|] == revs;
    }

    /** The records. */
    method CheckRecords(recs: seq<string>)
      modifies this`errors, this`revisionIDs, this`avpIDs, this`attIDs
      ensures forall e :: e in errors <==> e in old(errors) || RecProblem(db, recs, e)
      ensures forall x :: x in revisionIDs <==> x in old(revisionIDs) && !RevOfRecs(db, recs, x)
      ensures forall x :: x in avpIDs <==> x in old(avpIDs) && !AvpOfRecs(db, recs, x)
      ensures forall x :: x in attIDs <==> x in old(attIDs) && !AttOfRecs(db, recs, x)
    {
      hide RecProblem, RevProblem, RevOfRecs, AvpOfRecs, AttOfRecs, AvpOfRevs, AttOfRevs;
      NoRecs(db, recs);
      for i := 0 to |recs|
        invariant forall e :: e in errors <==> e in old(errors) || RecProblem(db, recs[..i], e)
        invariant forall x :: x in revisionIDs <==> x in old(revisionIDs) && !RevOfRecs(db, recs[..i], x)
        invariant forall x :: x in avpIDs <==> x in old(avpIDs) && !AvpOfRecs(db, recs[..i], x)
        invariant forall x :: x in attIDs <==> x in old(attIDs) && !AttOfRecs(db, recs[..i], x)
      {
        assert recs[..i + 1] == recs[..i] + [recs[i]];
        OneMoreRec(db, recs, i);
        OneMoreRecProblem(db, recs, i);
        if recs[i] in db && db[recs[i]].revisions.Some? {
          CheckRevisions(db[recs[i]].revisions.value, recs[i]);
        } else {
          errors := errors + [UnreadableRecord(recs[i])];
        }
      }
      assert recs[..|recs|] == recs;
    }
  }

  lemma AttOfOneMoreAvp(db: Db, avps: seq<string>, k: nat)
    requires k < |avps|
    ensures forall x :: AttOfAvps(db, avps[..k + 1], x) <==>
      AttOfAvps(db, avps[..k], x) || (x in db && avps[k] in db && Some(x) in Atts(db[avps[k]]))
  {
    assert forall x :: x in db && avps[k] in db && Some(x) in Atts(db[avps[k]]) ==> AttOfAvps(db, avps[..k + 1], x) by {
      assert avps[..k + 1][k] == avps[k];
    }
    assert forall i :: 0 <= i < k ==> avps[..k + 1][i] == avps[..k][i];
  }

  lemma OneMoreRev(db: Db, revs: seq<string>, j: nat)
    requires j < |revs|
    ensures forall x :: AvpOfRevs(db, revs[..j + 1], x) <==>
      AvpOfRevs(db, revs[..j], x) || (x in db && ReadableRevision(db, revs[j]) && x in db[revs[j]].avps.value)
    ensures forall x :: AttOfRevs(db, revs[..j + 1], x) <==>
      AttOfRevs(db, revs[..j], x) || (ReadableRevision(db, revs[j]) && AttOfAvps(db, db[revs[j]].avps.value, x))
  {
    assert revs[..j + 1][j] == revs[j];
    assert forall i :: 0 <= i < j ==> revs[..j + 1][i] == revs[..j][i];
  }

  lemma OneMoreRec(db: Db, recs: seq<string>, i: nat)
    requires i < |recs|
    ensures forall x :: RevOfRecs(db, recs[..i + 1], x) <==>
      RevOfRecs(db, recs[..i], x) || (x in db && ReadableRecord(db, recs[i]) && x in db[recs[i]].revisions.value)
    ensures forall x :: AvpOfRecs(db, recs[..i + 1], x) <==>
      AvpOfRecs(db, recs[..i], x) || (ReadableRecord(db, recs[i]) && AvpOfRevs(db, db[recs[i]].revisions.value, x))
    ensures forall x :: AttOfRecs(db, recs[..i + 1], x) <==>
      AttOfRecs(db, recs[..i], x) || (ReadableRecord(db, recs[i]) && AttOfRevs(db, db[recs[i]].revisions.value, x))
  {
    assert recs[..i + 1][i] == recs[i];
    assert forall k :: 0 <= k < i ==> recs[..i + 1][k] == recs[..i][k];
  }

  lemma NoRevs(db: Db, revs: seq<string>, rec: string)
    ensures forall e :: !RevProblem(db, revs[..0], rec, e)
    ensures forall x :: !AvpOfRevs(db, revs[..0], x) && !AttOfRevs(db, revs[..0], x)
  {
  }

  lemma NoRecs(db: Db, recs: seq<string>)
    ensures forall e :: !RecProblem(db, recs[..0], e)
    ensures forall x :: !RevOfRecs(db, recs[..0], x) && !AvpOfRecs(db, recs[..0], x) && !AttOfRecs(db, recs[..0], x)
  {
  }

  predicate OneRevProblem(db: Db, rev: string, rec: string, e: Error) {
    if ReadableRevision(db, rev) then AvpProblem(db, db[rev].avps.value, rev, rec, e) else e == MissingRevision(rev, rec)
  }

  predicate OneRecProblem(db: Db, rec: string, e: Error) {
    if ReadableRecord(db, rec) then RevProblem(db, db[rec].revisions.value, rec, e) else e == UnreadableRecord(rec)
  }

  lemma OneMoreRevProblem(db: Db, revs: seq<string>, rec: string, j: nat)
    requires j < |revs|
    ensures forall e :: RevProblem(db, revs[..j + 1], rec, e) <==> (RevProblem(db, revs[..j], rec, e) || OneRevProblem(db, revs[j], rec, e))
  {
    assert revs[..j + 1] == revs[..j] + [revs[j]];
    forall e
      ensures RevProblem(db, revs[..j + 1], rec, e) <==> (RevProblem(db, revs[..j], rec, e) || OneRevProblem(db, revs[j], rec, e))
    {
      if e.MissingRevision? || e.MissingAvp? || e.MissingAttachment? {
        assert e.rev in revs[..j + 1] <==> e.rev in revs[..j] || e.rev == revs[j];
      }
    }
  }

  lemma OneMoreRecProblem(db: Db, recs: seq<string>, i: nat)
    requires i < |recs|
    ensures forall e :: RecProblem(db, recs[..i + 1], e) <==> (RecProblem(db, recs[..i], e) || OneRecProblem(db, recs[i], e))
  {
    assert recs[..i + 1] == recs[..i] + [recs[i]];
    forall e
      ensures RecProblem(db, recs[..i + 1], e) <==> (RecProblem(db, recs[..i], e) || OneRecProblem(db, recs[i], e))
    {
      if e.UnreadableRecord? || e.MissingRevision? || e.MissingAvp? || e.MissingAttachment? {
        assert e.rec in recs[..i + 1] <==> e.rec in recs[..i] || e.rec == recs[i];
      }
    }
  }

  // ----- the whole check, in terms of references alone

  predicate IsRecord(db: Db, rec: string) {
    rec in db && "rec" <= rec
  }

  /** `rec` is a record that lists revision `rev`. */
  predicate Lists(db: Db, rec: string, rev: string) {
    IsRecord(db, rec) && db[rec].revisions.Some? && rev in db[rec].revisions.value
  }

  /** A revision that the record lists has this attribute-value pair. */
  predicate ListsAvp(db: Db, rec: string, rev: string, avp: string) {
    Lists(db, rec, rev) && rev in db && db[rev].avps.Some? && avp in db[rev].avps.value
  }

  predicate ListsAtt(db: Db, rec: string, rev: string, avp: string, att: Option<string>) {
    ListsAvp(db, rec, rev, avp) && avp in db && db[avp].attachments.Some? && att in db[avp].attachments.value
  }

  /** A reference reachable from a record that does not resolve, or a record that cannot be read. */
  predicate Dangling(db: Db, e: Error) {
    match e
    case UnreadableRecord(rec) => IsRecord(db, rec) && db[rec].revisions.None?
    case MissingRevision(rev, rec) => Lists(db, rec, rev) && (rev !in db || db[rev].avps.None?)
    case MissingAvp(avp, rev, rec) => ListsAvp(db, rec, rev, avp) && avp !in db
    case MissingAttachment(att, avp, rev, rec) => ListsAtt(db, rec, rev, avp, att) && (att.None? || att.value !in db)
    case _ => false
  }

  /** Every record is readable, and every reference reachable from one resolves. */
  ghost predicate AllResolve(db: Db) {
    && (forall rec :: IsRecord(db, rec) ==> db[rec].revisions.Some?)
    && (forall rec, rev :: Lists(db, rec, rev) ==> rev in db && db[rev].avps.Some?)
    && (forall rec, rev, avp :: ListsAvp(db, rec, rev, avp) ==> avp in db)
    && (forall rec, rev, avp, att :: ListsAtt(db, rec, rev, avp, att) ==> att.Some? && att.value in db)
  }

  /** The documents of each kind that no record reaches. */
  ghost function LostRevisions(db: Db): set<string> {
    set x | x in db && "frev" <= x && !exists rec :: Lists(db, rec, x)
  }

  ghost function LostAvps(db: Db): set<string> {
    set x | x in db && "avp" <= x && !exists rec, rev :: ListsAvp(db, rec, rev, x)
  }

  ghost function LostAttachments(db: Db): set<string> {
    set x | x in db && "att" <= x && !exists rec, rev, avp :: ListsAtt(db, rec, rev, avp, Some(x))
  }

  /** `allDocs`: every id once, in some order. */
  ghost predicate Rows(db: Db, rows: seq<string>) {
    forall id :: id in rows <==> id in db
  }

  function RecordRow(): string -> bool {
    (id: string) => "rec" <= id
  }

  /**
   * The check reports exactly what is wrong: each dangling reference, and for each kind the documents that
   * no record reaches; so nothing exactly when every reference resolves and every document is reached.
   */
  method ValidateProjectDatabase(db: Db, rows: seq<string>) returns (errors: seq<Error>)
    requires Rows(db, rows)
    ensures errors == [] <==> AllResolve(db) && LostRevisions(db) == {} && LostAvps(db) == {} && LostAttachments(db) == {}
    ensures forall e :: e in errors <==>
      || Dangling(db, e)
      || (LostRevisions(db) != {} && e == UnreferencedRevisions(LostRevisions(db)))
      || (LostAvps(db) != {} && e == UnreferencedAvps(LostAvps(db)))
      || (LostAttachments(db) != {} && e == UnreferencedAttachments(LostAttachments(db)))
  {
    hide RecProblem, RevOfRecs, AvpOfRecs, AttOfRecs, AllResolve, Dangling, Filter, LostRevisions, LostAvps, LostAttachments;
    var recs := Filter(RecordRow(), rows);
    var checker := new Checker(db);
    checker.CheckRecords(recs);
    errors := checker.errors;
    FilterMembers(RecordRow(), rows);
    forall e
      ensures RecProblem(db, recs, e) <==> Dangling(db, e)
    {
      ProblemDangles(db, recs, e);
    }
    NothingDangles(db);
    LeftIsLost(db, recs, checker.revisionIDs, checker.avpIDs, checker.attIDs);
    assert checker.errors == [] <==> forall e :: !Dangling(db, e) by {
      if checker.errors != [] {
        assert checker.errors[0] in checker.errors;
      }
    }
    if |checker.revisionIDs| > 0 {
      errors := errors + [UnreferencedRevisions(checker.revisionIDs)];
    }
    if |checker.avpIDs| > 0 {
      errors := errors + [UnreferencedAvps(checker.avpIDs)];
    }
    if |checker.attIDs| > 0 {
      errors := errors + [UnreferencedAttachments(checker.attIDs)];
    }
  }

  lemma ProblemDangles(db: Db, recs: seq<string>, e: Error)
    requires forall rec :: rec in recs <==> IsRecord(db, rec)
    ensures RecProblem(db, recs, e) <==> Dangling(db, e)
  {
  }

  lemma NothingDangles(db: Db)
    ensures (forall e :: !Dangling(db, e)) <==> AllResolve(db)
  {
    if forall e :: !Dangling(db, e) {
      forall rec | IsRecord(db, rec)
        ensures db[rec].revisions.Some?
      {
        assert !Dangling(db, UnreadableRecord(rec));
      }
      forall rec, rev | Lists(db, rec, rev)
        ensures rev in db && db[rev].avps.Some?
      {
        assert !Dangling(db, MissingRevision(rev, rec));
      }
      forall rec, rev, avp | ListsAvp(db, rec, rev, avp)
        ensures avp in db
      {
        assert !Dangling(db, MissingAvp(avp, rev, rec));
      }
      forall rec, rev, avp, att | ListsAtt(db, rec, rev, avp, att)
        ensures att.Some? && att.value in db
      {
        assert !Dangling(db, MissingAttachment(att, avp, rev, rec));
      }
    }
  }

  lemma LeftIsLost(db: Db, recs: seq<string>, revs: set<string>, avps: set<string>, atts: set<string>)
    requires forall rec :: rec in recs <==> IsRecord(db, rec)
    requires forall x :: x in revs <==> x in Ids(db, "frev") && !RevOfRecs(db, recs, x)
    requires forall x :: x in avps <==> x in Ids(db, "avp") && !AvpOfRecs(db, recs, x)
    requires forall x :: x in atts <==> x in Ids(db, "att") && !AttOfRecs(db, recs, x)
    ensures revs == LostRevisions(db) && avps == LostAvps(db) && atts == LostAttachments(db)
  {
    hide RevOfRecs, AvpOfRecs, AttOfRecs, Lists, ListsAvp, ListsAtt;
    forall x | x in Ids(db, "frev")
      ensures RevOfRecs(db, recs, x) <==> exists rec :: Lists(db, rec, x)
    {
      ReachedRev(db, recs, x);
    }
    forall x | x in Ids(db, "avp")
      ensures AvpOfRecs(db, recs, x) <==> exists rec, rev :: ListsAvp(db, rec, rev, x)
    {
      ReachedAvp(db, recs, x);
    }
    forall x | x in Ids(db, "att")
      ensures AttOfRecs(db, recs, x) <==> exists rec, rev, avp :: ListsAtt(db, rec, rev, avp, Some(x))
    {
      ReachedAtt(db, recs, x);
    }
  }

  lemma ReachedRev(db: Db, recs: seq<string>, x: string)
    requires x in db
    requires forall rec :: rec in recs <==> IsRecord(db, rec)
    ensures RevOfRecs(db, recs, x) <==> exists rec :: Lists(db, rec, x)
  {
    if RevOfRecs(db, recs, x) {
      var i :| 0 <= i < |recs| && ReadableRecord(db, recs[i]) && x in db[recs[i]].revisions.value;
      assert recs[i] in recs;
      assert Lists(db, recs[i], x);
    }
    if rec :| Lists(db, rec, x) {
      assert rec in recs;
      var i :| 0 <= i < |recs| && recs[i] == rec;
    }
  }

  lemma ReachedAvp(db: Db, recs: seq<string>, x: string)
    requires x in db
    requires forall rec :: rec in recs <==> IsRecord(db, rec)
    ensures AvpOfRecs(db, recs, x) <==> exists rec, rev :: ListsAvp(db, rec, rev, x)
  {
    if AvpOfRecs(db, recs, x) {
      var i :| 0 <= i < |recs| && ReadableRecord(db, recs[i]) && AvpOfRevs(db, db[recs[i]].revisions.value, x);
      var revs := db[recs[i]].revisions.value;
      var j :| 0 <= j < |revs| && ReadableRevision(db, revs[j]) && x in db[revs[j]].avps.value;
      assert recs[i] in recs;
      assert ListsAvp(db, recs[i], revs[j], x);
    }
    if rec, rev :| ListsAvp(db, rec, rev, x) {
      assert rec in recs;
      var i :| 0 <= i < |recs| && recs[i] == rec;
      assert AvpOfRevs(db, db[rec].revisions.value, x);
    }
  }

  lemma ReachedAtt(db: Db, recs: seq<string>, x: string)
    requires x in db
    requires forall rec :: rec in recs <==> IsRecord(db, rec)
    ensures AttOfRecs(db, recs, x) <==> exists rec, rev, avp :: ListsAtt(db, rec, rev, avp, Some(x))
  {
    if AttOfRecs(db, recs, x) {
      var i :| 0 <= i < |recs| && ReadableRecord(db, recs[i]) && AttOfRevs(db, db[recs[i]].revisions.value, x);
      var revs := db[recs[i]].revisions.value;
      var j :| 0 <= j < |revs| && ReadableRevision(db, revs[j]) && AttOfAvps(db, db[revs[j]].avps.value, x);
      var avps := db[revs[j]].avps.value;
      var k :| 0 <= k < |avps| && avps[k] in db && Some(x) in Atts(db[avps[k]]);
      assert recs[i] in recs;
      assert ListsAtt(db, recs[i], revs[j], avps[k], Some(x));
    }
    if rec, rev, avp :| ListsAtt(db, rec, rev, avp, Some(x)) {
      assert rec in recs;
      var i :| 0 <= i < |recs| && recs[i] == rec;
      assert AttOfAvps(db, db[rev].avps.value, x);
      assert AttOfRevs(db, db[rec].revisions.value, x);
    }
  }
}
