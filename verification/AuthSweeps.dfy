/** TTL sweeps at arbitrary times change no answer, and the limiters' bounds hold over whole runs. */
module AuthSweeps {
  import opened Prelude
  import opened RateLimit
  import opened Retention
  import opened AuthRuns

  /** `swept` is `full` with some dead documents left out. */
  predicate Sub(full: seq<Doc>, swept: seq<Doc>, now: int)
    decreases full
  {
    if full == [] then swept == []
    else
      || (swept != [] && swept[0] == full[0] && Sub(full[1..], swept[1..], now))
      || (Dead(full[0].body, now) && Sub(full[1..], swept, now))
  }

  lemma {:induction false} SubLater(full: seq<Doc>, swept: seq<Doc>, now: int, later: int)
    requires Sub(full, swept, now) && now <= later
    ensures Sub(full, swept, later)
    decreases full
  {
    if full != [] {
      if swept != [] && swept[0] == full[0] && Sub(full[1..], swept[1..], now) {
        SubLater(full[1..], swept[1..], now, later);
      } else {
        DeadForever(full[0].body, now, later);
        SubLater(full[1..], swept, now, later);
      }
    }
  }

  lemma {:induction false} SubAppend(full: seq<Doc>, swept: seq<Doc>, now: int, doc: Doc)
    requires Sub(full, swept, now)
    ensures Sub(full + [doc], swept + [doc], now)
    decreases full
  {
    if full != [] {
      assert (full + [doc])[1..] == full[1..] + [doc];
      if swept != [] && swept[0] == full[0] && Sub(full[1..], swept[1..], now) {
        assert (swept + [doc])[1..] == swept[1..] + [doc];
        SubAppend(full[1..], swept[1..], now, doc);
      } else {
        SubAppend(full[1..], swept, now, doc);
      }
    }
  }

  /** An update that revives nothing. */
  ghost predicate KeepsDead(f: Body -> Body) {
    forall body, now :: Dead(body, now) ==> Dead(f(body), now)
  }

  lemma {:induction false} SubUpdate(full: seq<Doc>, swept: seq<Doc>, now: int, test: Test, f: Body -> Body)
    requires Sub(full, swept, now) && KeepsDead(f)
    ensures Sub(Update(full, test, f), Update(swept, test, f), now)
    decreases full
  {
    if full != [] {
      if swept != [] && swept[0] == full[0] && Sub(full[1..], swept[1..], now) {
        SubUpdate(full[1..], swept[1..], now, test, f);
      } else {
        SubUpdate(full[1..], swept, now, test, f);
      }
    }
  }

  lemma {:induction false} SubSweep(full: seq<Doc>, swept: seq<Doc>, now: int, keep: Test)
    requires Sub(full, swept, now)
    requires forall doc :: doc in full && !keep(doc) ==> Dead(doc.body, now)
    ensures Sub(full, Filter(keep, swept), now)
    decreases full
  {
    if full != [] {
      if swept != [] && swept[0] == full[0] && Sub(full[1..], swept[1..], now) {
        SubSweep(full[1..], swept[1..], now, keep);
        if keep(swept[0]) {
          assert Filter(keep, swept)[1..] == Filter(keep, swept[1..]);
        } else {
          assert Filter(keep, swept) == Filter(keep, swept[1..]);
        }
      } else {
        SubSweep(full[1..], swept, now, keep);
      }
    }
  }

  lemma {:induction false} SubFilter(full: seq<Doc>, swept: seq<Doc>, now: int, test: Test)
    requires Sub(full, swept, now)
    ensures Sub(Filter(test, full), Filter(test, swept), now)
    decreases full
  {
    if full != [] {
      if swept != [] && swept[0] == full[0] && Sub(full[1..], swept[1..], now) {
        SubFilter(full[1..], swept[1..], now, test);
        if test(full[0]) {
          assert Filter(test, swept)[1..] == Filter(test, swept[1..]);
        } else {
          assert Filter(test, swept) == Filter(test, swept[1..]);
        }
      } else {
        SubFilter(full[1..], swept, now, test);
      }
      if test(full[0]) {
        assert Filter(test, full)[1..] == Filter(test, full[1..]);
      } else {
        assert Filter(test, full) == Filter(test, full[1..]);
      }
    }
  }

  /** A query for documents that are not dead returns the same list. */
  lemma {:induction false} SubLive(full: seq<Doc>, swept: seq<Doc>, now: int, test: Test)
    requires Sub(full, swept, now)
    requires forall i :: 0 <= i < |full| && test(full[i]) ==> !Dead(full[i].body, now)
    ensures Filter(test, full) == Filter(test, swept)
    decreases full
  {
    if full != [] {
      if swept != [] && swept[0] == full[0] && Sub(full[1..], swept[1..], now) {
        SubLive(full[1..], swept[1..], now, test);
      } else {
        SubLive(full[1..], swept, now, test);
      }
    }
  }

  /** The recent creation times are the same. */
  lemma {:induction false} SubTimes(full: seq<Doc>, swept: seq<Doc>, now: int, subject: Subject)
    requires Sub(full, swept, now)
    ensures Filter(After(now - LimiterFor(subject).window), Times(full, subject))
         == Filter(After(now - LimiterFor(subject).window), Times(swept, subject))
    decreases full
  {
    var recent := After(now - LimiterFor(subject).window);
    if full != [] {
      if swept != [] && swept[0] == full[0] && Sub(full[1..], swept[1..], now) {
        SubTimes(full[1..], swept[1..], now, subject);
        FilterAppend(recent, Time(full[0], subject), Times(swept[1..], subject));
      } else {
        SubTimes(full[1..], swept, now, subject);
        FilterNone(recent, Time(full[0], subject));
      }
      FilterAppend(recent, Time(full[0], subject), Times(full[1..], subject));
    }
  }

  /** A lookup that finds at most one document passes or fails alike, if passing documents are not dead. */
  lemma SubPasses(full: seq<Doc>, swept: seq<Doc>, now: int, test: Test, ok: Body -> bool)
    requires Sub(full, swept, now) && |Filter(test, full)| <= 1
    requires forall body :: ok(body) ==> !Dead(body, now)
    ensures Passes(full, test, ok) <==> Passes(swept, test, ok)
  {
    SubFilter(full, swept, now, test);
    var found, left := Filter(test, full), Filter(test, swept);
    if found != [] {
      assert found[1..] == [];
      assert left == found || left == [];
    }
  }

  // ----- valid runs

  predicate Distinct(docs: seq<Doc>) {
    forall i, j :: 0 <= i < j < |docs| ==> docs[i].key != docs[j].key
  }

  predicate AllWritten(settings: Settings, docs: seq<Doc>) {
    forall i :: 0 <= i < |docs| ==> Written(docs[i].body, settings.emailLifetime)
  }

  predicate Fresh(docs: seq<Doc>, key: nat) {
    forall i :: 0 <= i < |docs| ==> docs[i].key != key
  }

  function Start(op: Op): int {
    match op
    case CreateRefresh(_, _, t1, _, _, _) => t1
    case ExchangeRefresh(_, _, _, t1, _) => t1
    case RequestEmailCode(_, _, t1, _, _, _) => t1
    case RequestVerification(_, _, _, t1, _, _, _) => t1
    case CreateVerification(_, _, _, t1, _) => t1
    case CreateLongLived(_, _, _, t1, _, _) => t1
    case ValidateLongLived(_, _, _, _, t1, _) => t1
    case CreateGrant(_, _, t1, _, _) => t1
    case _ => op.now
  }

  function End(op: Op): int {
    match op
    case CreateRefresh(_, _, _, t2, _, _) => t2
    case ExchangeRefresh(_, _, _, _, t2) => t2
    case RequestEmailCode(_, _, _, _, _, t4) => t4
    case RequestVerification(_, _, _, _, _, _, t4) => t4
    case CreateVerification(_, _, _, _, t2) => t2
    case CreateLongLived(_, _, _, _, _, t3) => t3
    case ValidateLongLived(_, _, _, _, _, t2) => t2
    case CreateGrant(_, _, _, _, t3) => t3
    case _ => op.now
  }

  /** The clock reads of an operation are in order. */
  predicate ReadsInOrder(op: Op) {
    match op
    case CreateRefresh(_, _, t1, t2, _, _) => t1 <= t2
    case ExchangeRefresh(_, _, _, t1, t2) => t1 <= t2
    case RequestEmailCode(_, _, t1, t2, t3, t4) => t1 <= t2 <= t3 <= t4
    case RequestVerification(_, _, _, t1, t2, t3, t4) => t1 <= t2 <= t3 <= t4
    case CreateVerification(_, _, _, t1, t2) => t1 <= t2
    case CreateLongLived(_, _, _, t1, t2, t3) => t1 <= t2 <= t3
    case ValidateLongLived(_, _, _, _, t1, t2) => t1 <= t2
    case CreateGrant(_, _, t1, t2, t3) => t1 <= t2 <= t3
    case _ => true
  }

  /** Operations that store a document under a new key. */
  predicate IsCreation(op: Op) {
    || op.CreateRefresh? || op.RequestEmailCode? || op.RequestVerification? || op.CreateVerification?
    || op.CreateLongLived? || op.CreateGrant? || op.CreateInvite?
  }

  /**
   * The clock after an operation. A sweep reads the clock once and may delete much later, so its
   * `now` may lie in the past; a paged sweep among other operations is several of these.
   */
  function Later(clock: int, op: Op): int {
    if op.SweepAll? then Max(clock, op.now) else End(op)
  }

  /** Time moves on and secrets are fresh. */
  predicate OpOk(docs: seq<Doc>, clock: int, op: Op) {
    && (op.SweepAll? || clock <= Start(op)) && ReadsInOrder(op)
    && (IsCreation(op) ==> Fresh(docs, op.key))
  }

  /** The store had nothing ever been swept. */
  function DoFull(settings: Settings, docs: seq<Doc>, op: Op): seq<Doc> {
    if op.SweepAll? then docs else Do(settings, docs, op).0
  }

  predicate ValidRun(settings: Settings, docs: seq<Doc>, clock: int, ops: seq<Op>)
    decreases ops
  {
    || ops == []
    || (OpOk(docs, clock, ops[0]) && ValidRun(settings, DoFull(settings, docs, ops[0]), Later(clock, ops[0]), ops[1..]))
  }

  /** Every sweep of the run uses options that cannot hit a live document. */
  predicate SafeSweeps(settings: Settings, ops: seq<Op>) {
    forall k :: 0 <= k < |ops| && ops[k].SweepAll? ==> Safe(ops[k].g, settings.emailLifetime)
  }

  predicate FullOk(settings: Settings, docs: seq<Doc>, clock: int) {
    Distinct(docs) && AllWritten(settings, docs) && clock >= 0
  }

  lemma {:induction false} KeyedOnce(docs: seq<Doc>, key: nat)
    requires Distinct(docs)
    ensures |Filter(Keyed(key), docs)| <= 1
  {
    if docs != [] {
      KeyedOnce(docs[1..], key);
      if docs[0].key == key {
        FilterNone(Keyed(key), docs[1..]);
      }
    }
  }

  // ----- the operations by kind

  /** Operations that look up one document by its secret and check it. */
  predicate IsRedemption(op: Op) {
    || op.ValidateRefresh? || op.ExchangeRefresh? || op.ValidateEmailCode? || op.ValidateVerification?
    || op.ValidateLongLived? || op.ConsumeGrant? || op.ConsumeInvite?
  }

  function OkOf(op: Op): Body -> bool
    requires IsRedemption(op)
  {
    match op
    case ValidateRefresh(_, forUser, userOk, now) => RefreshOk(forUser, userOk, now)
    case ExchangeRefresh(_, forUser, userOk, t1, t2) => ExchangeOk(forUser, userOk, t1, t2)
    case ValidateEmailCode(_, forUser, userOk, now) => EmailOk(forUser, userOk, now)
    case ValidateVerification(_, forUser, forEmail, userOk, now) => VerificationOk(forUser, forEmail, userOk, now)
    case ValidateLongLived(_, userOk, touch, writes, t1, _) => LongLivedOk(userOk && (touch ==> writes), t1)
    case ConsumeGrant(_, secretOk, now) => GrantOk(secretOk, now)
    case ConsumeInvite(_, now) => InviteOk(now)
  }

  function EffectOf(op: Op): Body -> Body
    requires IsRedemption(op)
  {
    match op
    case ExchangeRefresh(_, _, _, _, _) => UseExchange
    case ValidateLongLived(_, _, touch, _, _, t2) => if touch then UseLongLived(t2) else Same
    case ConsumeGrant(_, _, _) => MarkUsed
    case ConsumeInvite(_, _) => UseInvite
    case _ => Same
  }

  lemma RedemptionIs(settings: Settings, docs: seq<Doc>, op: Op)
    requires IsRedemption(op)
    ensures Do(settings, docs, op) == Redeem(docs, Keyed(op.key), OkOf(op), EffectOf(op))
  {
    hide Redeem, Gate;
  }

  /** Operations that write back whatever document their secret or id names. */
  predicate IsAmendment(op: Op) {
    op.MarkCode? || op.InvalidateRefresh? || op.UpdateLongLived? || op.RevokeLongLived?
  }

  function Named(op: Op): Test
    requires IsAmendment(op)
  {
    match op
    case MarkCode(key, _) => CodeKeyed(key)
    case InvalidateRefresh(key, _) => RefreshKeyed(key)
    case UpdateLongLived(key, _) => LongLivedKeyed(key)
    case RevokeLongLived(key, _) => LongLivedKeyed(key)
  }

  function ChangeOf(op: Op): Body -> Body
    requires IsAmendment(op)
  {
    match op
    case MarkCode(_, _) => MarkUsed
    case InvalidateRefresh(_, _) => Disable
    case UpdateLongLived(_, now) => Touch(now)
    case RevokeLongLived(_, now) => Revoke(now)
  }

  lemma AmendmentIs(settings: Settings, docs: seq<Doc>, op: Op)
    requires IsAmendment(op)
    ensures Do(settings, docs, op) == Amend(docs, Named(op), ChangeOf(op))
  {
    hide Amend, Gate;
  }

  /** The limiter's subject of a request. */
  function SubjectOf(op: Op): Subject
    requires op.RequestEmailCode? || op.RequestVerification?
  {
    if op.RequestEmailCode? then EmailUser(op.user) else Address(op.user, op.email)
  }

  /** What a creation stores, if it stores anything. */
  function NewDoc(settings: Settings, op: Op): Doc
    requires IsCreation(op)
  {
    match op
    case CreateRefresh(key, user, t1, t2, lifetime, exchangeLifetime) =>
      Doc(key, Refresh(user, true, t1 + lifetime, t2 + exchangeLifetime, false))
    case RequestEmailCode(key, user, _, _, t3, t4) => Doc(key, EmailCode(user, false, Some(t4), t3 + settings.emailLifetime))
    case RequestVerification(key, user, email, _, _, t3, t4) =>
      Doc(key, Verification(user, email, false, Some(t4), t3 + VERIFICATION_LIFETIME))
    case CreateVerification(key, user, email, t1, t2) =>
      Doc(key, Verification(user, email, false, Some(t2), t1 + VERIFICATION_LIFETIME))
    case CreateLongLived(key, user, lapse, _, _, t3) => Doc(key, LongLived(user, true, t3, Some(t3), lapse, None))
    case CreateGrant(key, user, _, t2, t3) => Doc(key, Grant(user, false, t2, t3 + settings.grantLifetime))
    case CreateInvite(key, expiry, uses, _) => Doc(key, Invite(expiry, uses, 0))
  }

  predicate Stores(settings: Settings, docs: seq<Doc>, op: Op)
    requires IsCreation(op)
  {
    && (op.RequestEmailCode? || op.RequestVerification? ==> Gate(settings, docs, SubjectOf(op), op.t1, op.t2).Allowed?)
    && (op.CreateLongLived? ==> ValidLapse(settings, op.lapse, op.t1, op.t2))
  }

  lemma CreationIs(settings: Settings, docs: seq<Doc>, op: Op)
    requires IsCreation(op) && !op.CreateGrant?
    ensures Do(settings, docs, op).0 == if Stores(settings, docs, op) then docs + [NewDoc(settings, op)] else docs
  {
    hide Gate, Filter;
  }

  // ----- the unswept store

  /** An update keeps keys, and keeps documents as the application writes them. */
  lemma {:induction false} UpdateKeeps(settings: Settings, docs: seq<Doc>, test: Test, f: Body -> Body)
    requires AllWritten(settings, docs)
    requires forall body :: Written(body, settings.emailLifetime) ==> Written(f(body), settings.emailLifetime)
    ensures |Update(docs, test, f)| == |docs| && AllWritten(settings, Update(docs, test, f))
    ensures forall i :: 0 <= i < |docs| ==> Update(docs, test, f)[i].key == docs[i].key
  {
    if docs != [] {
      UpdateKeeps(settings, docs[1..], test, f);
    }
  }

  lemma NewDocIsWritten(settings: Settings, docs: seq<Doc>, clock: int, op: Op)
    requires IsCreation(op) && OpOk(docs, clock, op) && Stores(settings, docs, op) && clock >= 0
    ensures Written(NewDoc(settings, op).body, settings.emailLifetime) && NewDoc(settings, op).key == op.key
  {
    hide Gate;
  }

  lemma FullNext(settings: Settings, docs: seq<Doc>, clock: int, op: Op)
    requires FullOk(settings, docs, clock) && OpOk(docs, clock, op)
    ensures FullOk(settings, DoFull(settings, docs, op), Later(clock, op))
  {
    hide Update, Filter, Gate, Passes, Do, NewDoc, Stores;
    if IsRedemption(op) {
      RedemptionIs(settings, docs, op);
      UpdateKeeps(settings, docs, Keyed(op.key), EffectOf(op));
    } else if IsAmendment(op) {
      AmendmentIs(settings, docs, op);
      UpdateKeeps(settings, docs, Named(op), ChangeOf(op));
    } else if op.RevokeGrants? {
      RevokeIs(settings, docs, op);
      UpdateKeeps(settings, docs, LiveGrant(op.user, op.now), MarkUsed);
    } else if op.CreateGrant? {
      CreateGrantIs(settings, docs, op);
      UpdateKeeps(settings, docs, KeyIn(Revocable(settings, docs, op)), MarkUsed);
      NewDocIsWritten(settings, docs, clock, op) by {
        GrantIsStored(settings, docs, op);
      }
    } else if IsCreation(op) {
      CreationIs(settings, docs, op);
      if Stores(settings, docs, op) {
        NewDocIsWritten(settings, docs, clock, op);
      }
    }
  }

  lemma GrantIsStored(settings: Settings, docs: seq<Doc>, op: Op)
    requires op.CreateGrant?
    ensures Stores(settings, docs, op)
  {
  }

  /** The grants that minting one more revokes. */
  function Revocable(settings: Settings, docs: seq<Doc>, op: Op): set<nat>
    requires op.CreateGrant?
  {
    Overflow(Filter(LiveGrant(op.user, op.t1), docs), settings.maxGrants)
  }

  lemma CreateGrantIs(settings: Settings, docs: seq<Doc>, op: Op)
    requires op.CreateGrant?
    ensures Do(settings, docs, op) == (Update(docs, KeyIn(Revocable(settings, docs, op)), MarkUsed) + [NewDoc(settings, op)], Silent)
  {
    hide Update, Overflow, Filter;
  }

  lemma RevokeIs(settings: Settings, docs: seq<Doc>, op: Op)
    requires op.RevokeGrants?
    ensures Do(settings, docs, op)
         == (Update(docs, LiveGrant(op.user, op.now), MarkUsed), Revoked(|Filter(LiveGrant(op.user, op.now), docs)|))
  {
    hide Update, Filter;
  }

  // ----- one operation on both stores

  /** An answer on the unswept store and on the swept one: the same, but that a dead document may no longer be found. */
  predicate Alike(full: Output, swept: Output) {
    full == swept || (full == Found(true) && swept == Found(false))
  }

  /** The operation does not write back a dead document. */
  predicate AmendsLive(docs: seq<Doc>, op: Op) {
    IsAmendment(op) ==> forall i :: 0 <= i < |docs| && Named(op)(docs[i]) ==> !Dead(docs[i].body, Start(op))
  }

  lemma RedeemSame(full: seq<Doc>, swept: seq<Doc>, now: int, key: nat, ok: Body -> bool, f: Body -> Body)
    requires Distinct(full) && Sub(full, swept, now) && KeepsDead(f)
    requires forall body :: ok(body) ==> !Dead(body, now)
    ensures Redeem(full, Keyed(key), ok, f).1 == Redeem(swept, Keyed(key), ok, f).1
    ensures Sub(Redeem(full, Keyed(key), ok, f).0, Redeem(swept, Keyed(key), ok, f).0, now)
  {
    KeyedOnce(full, key);
    SubPasses(full, swept, now, Keyed(key), ok);
    SubUpdate(full, swept, now, Keyed(key), f);
  }

  lemma SameRedemption(settings: Settings, full: seq<Doc>, swept: seq<Doc>, op: Op)
    requires Distinct(full) && Sub(full, swept, Start(op)) && IsRedemption(op) && ReadsInOrder(op)
    ensures Do(settings, full, op).1 == Do(settings, swept, op).1
    ensures Sub(Do(settings, full, op).0, Do(settings, swept, op).0, End(op))
  {
    hide Do, Redeem, Passes, Update, Sub, Distinct;
    RedemptionIs(settings, full, op);
    RedemptionIs(settings, swept, op);
    RedeemSame(full, swept, Start(op), op.key, OkOf(op), EffectOf(op));
    SubLater(Do(settings, full, op).0, Do(settings, swept, op).0, Start(op), End(op));
  }

  lemma AmendAlike(full: seq<Doc>, swept: seq<Doc>, now: int, test: Test, f: Body -> Body)
    requires Sub(full, swept, now) && KeepsDead(f)
    ensures Alike(Amend(full, test, f).1, Amend(swept, test, f).1)
    ensures Sub(Amend(full, test, f).0, Amend(swept, test, f).0, now)
    ensures (forall i :: 0 <= i < |full| && test(full[i]) ==> !Dead(full[i].body, now)) ==>
              Amend(full, test, f).1 == Amend(swept, test, f).1
  {
    SubFilter(full, swept, now, test);
    SubUpdate(full, swept, now, test, f);
    if forall i :: 0 <= i < |full| && test(full[i]) ==> !Dead(full[i].body, now) {
      SubLive(full, swept, now, test);
    }
  }

  lemma SameAmendment(settings: Settings, full: seq<Doc>, swept: seq<Doc>, op: Op)
    requires Sub(full, swept, Start(op)) && IsAmendment(op)
    ensures Alike(Do(settings, full, op).1, Do(settings, swept, op).1)
    ensures AmendsLive(full, op) ==> Do(settings, full, op).1 == Do(settings, swept, op).1
    ensures Sub(Do(settings, full, op).0, Do(settings, swept, op).0, End(op))
  {
    hide Do, Amend, Update, Sub;
    AmendmentIs(settings, full, op);
    AmendmentIs(settings, swept, op);
    AmendAlike(full, swept, Start(op), Named(op), ChangeOf(op));
  }

  /** A limiter decides alike on both stores. */
  lemma SameDecision(settings: Settings, full: seq<Doc>, swept: seq<Doc>, subject: Subject, t1: int, t2: int)
    requires Sub(full, swept, t1)
    ensures Gate(settings, full, subject, t1, t2) == Gate(settings, swept, subject, t1, t2)
  {
    SubTimes(full, swept, t1, subject);
  }

  lemma CreationAnswers(settings: Settings, docs: seq<Doc>, op: Op)
    requires IsCreation(op)
    ensures Do(settings, docs, op).1
         == if op.RequestEmailCode? || op.RequestVerification? then Limited(Gate(settings, docs, SubjectOf(op), op.t1, op.t2))
            else if op.CreateLongLived? then Accepted(ValidLapse(settings, op.lapse, op.t1, op.t2)) else Silent
  {
    hide Gate, Filter, Update;
  }

  lemma SameCreation(settings: Settings, full: seq<Doc>, swept: seq<Doc>, op: Op)
    requires Sub(full, swept, Start(op)) && IsCreation(op) && !op.CreateGrant? && Start(op) <= End(op)
    ensures Do(settings, full, op).1 == Do(settings, swept, op).1
    ensures Sub(Do(settings, full, op).0, Do(settings, swept, op).0, End(op))
  {
    hide Do, Gate, Sub, NewDoc;
    if op.RequestEmailCode? || op.RequestVerification? {
      SameDecision(settings, full, swept, SubjectOf(op), op.t1, op.t2);
    }
    CreationAnswers(settings, full, op);
    CreationAnswers(settings, swept, op);
    CreationIs(settings, full, op);
    CreationIs(settings, swept, op);
    SubLater(full, swept, Start(op), End(op));
    SubAppend(full, swept, End(op), NewDoc(settings, op));
  }

  /** Grant operations that list the user's live grants. */
  lemma SameGrants(settings: Settings, full: seq<Doc>, swept: seq<Doc>, op: Op)
    requires Sub(full, swept, Start(op)) && (op.RevokeGrants? || op.CreateGrant?)
    requires Start(op) <= End(op)
    ensures Do(settings, full, op).1 == Do(settings, swept, op).1
    ensures Sub(Do(settings, full, op).0, Do(settings, swept, op).0, End(op))
  {
    hide Sub, Update, Overflow, Filter, Do, NewDoc;
    SubLive(full, swept, Start(op), LiveGrant(op.user, Start(op)));
    SubLater(full, swept, Start(op), End(op));
    if op.RevokeGrants? {
      RevokeIs(settings, full, op);
      RevokeIs(settings, swept, op);
      SubUpdate(full, swept, op.now, LiveGrant(op.user, op.now), MarkUsed);
    } else {
      CreateGrantIs(settings, full, op);
      CreateGrantIs(settings, swept, op);
      var keys := Revocable(settings, full, op);
      SubUpdate(full, swept, op.t3, KeyIn(keys), MarkUsed);
      SubAppend(Update(full, KeyIn(keys), MarkUsed), Update(swept, KeyIn(keys), MarkUsed), op.t3, NewDoc(settings, op));
    }
  }

  /** Any operation but a sweep answers alike on both stores and keeps them related. */
  lemma SameAnswer(settings: Settings, full: seq<Doc>, swept: seq<Doc>, clock: int, op: Op)
    requires FullOk(settings, full, clock) && OpOk(full, clock, op) && Sub(full, swept, clock) && !op.SweepAll?
    ensures Alike(Do(settings, full, op).1, Do(settings, swept, op).1)
    ensures AmendsLive(full, op) ==> Do(settings, full, op).1 == Do(settings, swept, op).1
    ensures Sub(Do(settings, full, op).0, Do(settings, swept, op).0, End(op))
  {
    hide Do, Sub;
    SubLater(full, swept, clock, Start(op));
    if IsRedemption(op) {
      SameRedemption(settings, full, swept, op);
    } else if IsAmendment(op) {
      SameAmendment(settings, full, swept, op);
    } else if op.RevokeGrants? || op.CreateGrant? {
      SameGrants(settings, full, swept, op);
    } else {
      SameCreation(settings, full, swept, op);
    }
  }

  lemma SweepKeeps(settings: Settings, full: seq<Doc>, swept: seq<Doc>, clock: int, op: Op)
    requires FullOk(settings, full, clock) && Sub(full, swept, clock) && op.SweepAll? && Safe(op.g, settings.emailLifetime)
    ensures Sub(full, Do(settings, swept, op).0, Later(clock, op))
  {
    var now := Later(clock, op);
    SubLater(full, swept, clock, now);
    forall doc | doc in full && !Survives(op.g, op.spared, op.now)(doc)
      ensures Dead(doc.body, now)
    {
      DueIsDead(doc.body, op.now, op.g, settings.emailLifetime);
      DeadForever(doc.body, op.now, now);
    }
    SubSweep(full, swept, now, Survives(op.g, op.spared, op.now));
  }

  // ----- whole runs

  predicate AlikeAll(full: seq<Output>, swept: seq<Output>) {
    |full| == |swept| && forall i :: 0 <= i < |full| ==> Alike(full[i], swept[i])
  }

  /** No operation of the run writes back a document that is dead by then. */
  predicate AmendsOnlyLive(settings: Settings, docs: seq<Doc>, ops: seq<Op>)
    decreases ops
  {
    ops == [] || (AmendsLive(docs, ops[0]) && AmendsOnlyLive(settings, DoFull(settings, docs, ops[0]), ops[1..]))
  }

  /** One step of `Observe`. */
  lemma ObserveStep(settings: Settings, docs: seq<Doc>, op: Op, rest: seq<Op>)
    ensures Observe(settings, docs, [op] + rest)
         == (if op.SweepAll? then [] else [Do(settings, docs, op).1]) + Observe(settings, Do(settings, docs, op).0, rest)
  {
    assert ([op] + rest)[1..] == rest;
  }

  /** The observations of both runs, one operation on. */
  lemma ObserveBoth(settings: Settings, full: seq<Doc>, swept: seq<Doc>, ops: seq<Op>)
    requires ops != []
    ensures var op, rest := ops[0], ops[1..];
            var left := Do(settings, swept, op).0;
            && Observe(settings, swept, ops)
               == (if op.SweepAll? then [] else [Do(settings, swept, op).1]) + Observe(settings, left, rest)
            && Observe(settings, full, NoSweeps(ops))
               == (if op.SweepAll? then [] else [Do(settings, full, op).1])
                  + Observe(settings, DoFull(settings, full, op), NoSweeps(rest))
  {
    hide Do;
    assert ops == [ops[0]] + ops[1..];
    ObserveStep(settings, swept, ops[0], ops[1..]);
    if ops[0].SweepAll? {
      assert NoSweeps(ops) == NoSweeps(ops[1..]);
    } else {
      ObserveStep(settings, full, ops[0], NoSweeps(ops[1..]));
    }
  }

  lemma {:induction false} AlikeObservations(settings: Settings, full: seq<Doc>, swept: seq<Doc>, clock: int, ops: seq<Op>)
    requires FullOk(settings, full, clock) && Sub(full, swept, clock)
    requires ValidRun(settings, full, clock, ops) && SafeSweeps(settings, ops)
    ensures AlikeAll(Observe(settings, full, NoSweeps(ops)), Observe(settings, swept, ops))
    ensures AmendsOnlyLive(settings, full, ops) ==> Observe(settings, full, NoSweeps(ops)) == Observe(settings, swept, ops)
    decreases ops
  {
    hide Do, Sub, FullOk, OpOk, AmendsLive, Observe, Alike;
    if ops == [] {
      NothingObserved(settings, full);
      NothingObserved(settings, swept);
    } else {
      FullNext(settings, full, clock, ops[0]);
      if ops[0].SweepAll? {
        SweepKeeps(settings, full, swept, clock, ops[0]);
      } else {
        SameAnswer(settings, full, swept, clock, ops[0]);
      }
      ObserveBoth(settings, full, swept, ops);
      AlikeObservations(settings, DoFull(settings, full, ops[0]), Do(settings, swept, ops[0]).0, Later(clock, ops[0]), ops[1..]);
    }
  }

  lemma NothingObserved(settings: Settings, docs: seq<Doc>)
    ensures Observe(settings, docs, []) == []
  {
  }

  /**
   * Safe sweeps at arbitrary times, each deleting any part of what is due, are unobservable: every
   * acceptance, every limiter decision with its `nextAttemptAllowedAt`, and every revocation count
   * is the same as in the run without sweeps. All that can differ is that an operation that writes a
   * document back without checking it no longer finds a dead one; nothing differs if none does so.
   */
  lemma SweepsUnobservable(settings: Settings, clock: int, ops: seq<Op>)
    requires clock >= 0 && ValidRun(settings, [], clock, ops) && SafeSweeps(settings, ops)
    ensures AlikeAll(Observe(settings, [], NoSweeps(ops)), Observe(settings, [], ops))
    ensures AmendsOnlyLive(settings, [], ops) ==> Observe(settings, [], NoSweeps(ops)) == Observe(settings, [], ops)
  {
    AlikeObservations(settings, [], [], clock, ops);
  }

  // ----- exactly which options are safe

  predicate SweepsUse(ops: seq<Op>, g: Graces) {
    forall k :: 0 <= k < |ops| && ops[k].SweepAll? ==> ops[k].g == g
  }

  /** No run notices sweeps with these options. */
  ghost predicate Unnoticed(settings: Settings, g: Graces) {
    forall clock, ops :: clock >= 0 && ValidRun(settings, [], clock, ops) && SweepsUse(ops, g) ==>
      AlikeAll(Observe(settings, [], NoSweeps(ops)), Observe(settings, [], ops))
  }

  /** Create, sweep, look up: the sweep is noticed when it takes a document that is still good. */
  lemma NoticedRun(settings: Settings, g: Graces, create: Op, now: int, look: Op)
    requires IsCreation(create) && !create.CreateGrant? && Stores(settings, [], create) && IsRedemption(look)
    requires 0 <= Start(create) && ReadsInOrder(create) && End(create) <= now && Start(look) == now && ReadsInOrder(look)
    requires look.key == create.key && OkOf(look)(NewDoc(settings, create).body)
    requires NewDoc(settings, create).key == create.key
    requires ShouldDelete(NewDoc(settings, create).body, now, g)
    ensures !Unnoticed(settings, g)
  {
    hide Do, ShouldDelete, NewDoc, Stores, OkOf, Gate;
    var doc, sweep := NewDoc(settings, create), SweepAll(g, {}, now);
    var ops := [create] + ([sweep] + ([look] + []));
    CreationIs(settings, [], create);
    assert [] + [doc] == [doc];
    SweptAway(settings, g, now, doc);
    RedemptionIs(settings, [doc], look);
    RedemptionIs(settings, [], look);
    assert Filter(Keyed(look.key), [doc]) == [doc];
    assert Do(settings, [doc], look).1 == Accepted(true) && Do(settings, [], look).1 == Accepted(false);
    RunOfThree(settings, create, sweep, look, doc);
    ObserveStep(settings, [], create, [sweep] + ([look] + []));
    ObserveStep(settings, [doc], sweep, [look] + []);
    ObserveStep(settings, [], look, []);
    ObserveStep(settings, [], create, [look] + []);
    ObserveStep(settings, [doc], look, []);
    var swept, full := Observe(settings, [], ops), Observe(settings, [], NoSweeps(ops));
    assert swept[1] == Accepted(false) && full[1] == Accepted(true);
    assert ValidRun(settings, [], 0, ops) && SweepsUse(ops, g);
  }

  lemma SweptAway(settings: Settings, g: Graces, now: int, doc: Doc)
    requires ShouldDelete(doc.body, now, g)
    ensures Do(settings, [doc], SweepAll(g, {}, now)).0 == []
  {
    hide ShouldDelete;
    assert !Survives(g, {}, now)(doc);
    assert Filter(Survives(g, {}, now), [doc]) == [];
  }

  lemma RunOfThree(settings: Settings, create: Op, sweep: Op, look: Op, doc: Doc)
    requires IsCreation(create) && !create.CreateGrant? && Stores(settings, [], create) && sweep.SweepAll? && IsRedemption(look)
    requires 0 <= Start(create) && ReadsInOrder(create) && End(create) <= sweep.now
    requires Start(look) == sweep.now && ReadsInOrder(look) && doc == NewDoc(settings, create)
    ensures var ops := [create] + ([sweep] + ([look] + []));
            ValidRun(settings, [], 0, ops) && NoSweeps(ops) == [create] + ([look] + [])
  {
    hide Do, NewDoc, Stores, Gate, ValidRun, NoSweeps;
    CreationIs(settings, [], create);
    assert [] + [doc] == [doc];
    EmptyRun(settings, DoFull(settings, [doc], look), End(look));
    RunStep(settings, [doc], sweep.now, look, []);
    RunStep(settings, [doc], End(create), sweep, [look] + []);
    RunStep(settings, [], 0, create, [sweep] + ([look] + []));
    assert [look] + [] == [look] && [] + [look] == [look];
  }

  lemma EmptyRun(settings: Settings, docs: seq<Doc>, clock: int)
    ensures ValidRun(settings, docs, clock, []) && NoSweeps([]) == []
  {
  }

  lemma RunStep(settings: Settings, docs: seq<Doc>, clock: int, op: Op, rest: seq<Op>)
    requires OpOk(docs, clock, op) && ValidRun(settings, DoFull(settings, docs, op), Later(clock, op), rest)
    ensures ValidRun(settings, docs, clock, [op] + rest)
    ensures NoSweeps([op] + rest) == (if op.SweepAll? then [] else [op]) + NoSweeps(rest)
  {
    hide Do, DoFull, OpOk;
    assert ([op] + rest)[1..] == rest;
  }

  /** Negative graces, and email codes that outlive their retention, are noticed. */
  lemma UnsafeIsNoticed(settings: Settings, g: Graces)
    requires !Safe(g, settings.emailLifetime)
    ensures !Unnoticed(settings, g)
  {
    hide Do, Unnoticed;
    NothingStoredYet(settings, EmailUser(0));
    NothingStoredYet(settings, Address(0, 0));
    if g.refresh < 0 {
      NoticedRun(settings, g, CreateRefresh(0, 0, 0, 0, 0, 0), 0, ValidateRefresh(0, None, true, 0));
    } else if g.invite < 0 {
      NoticedRun(settings, g, CreateInvite(0, 0, None, 0), 0, ConsumeInvite(0, 0));
    } else if g.rateLimit + VERIFICATION_LIMITER.cooldown < 0 {
      var now := Max(0, RetentionMs(VERIFICATION_LIMITER, g.rateLimit) + 1);
      NoticedRun(settings, g, RequestVerification(0, 0, 0, 0, 0, 0, 0), now, ValidateVerification(0, None, None, true, now));
    } else {
      var now := RetentionMs(EMAIL_LIMITER, g.rateLimit) + 1;
      NoticedRun(settings, g, RequestEmailCode(0, 0, 0, 0, 0, 0), now, ValidateEmailCode(0, None, true, now));
    }
  }

  lemma NothingStoredYet(settings: Settings, subject: Subject)
    ensures Gate(settings, [], subject, 0, 0).Allowed?
  {
  }

  /** Sweeps with given options go unnoticed by every run if and only if the options are safe. */
  lemma UnnoticedExactly(settings: Settings, g: Graces)
    ensures Unnoticed(settings, g) <==> Safe(g, settings.emailLifetime)
  {
    if Safe(g, settings.emailLifetime) {
      forall clock, ops | clock >= 0 && ValidRun(settings, [], clock, ops) && SweepsUse(ops, g)
        ensures AlikeAll(Observe(settings, [], NoSweeps(ops)), Observe(settings, [], ops))
      {
        SweepsUnobservable(settings, clock, ops);
      }
    } else {
      UnsafeIsNoticed(settings, g);
    }
  }

  /**
   * A sweep that deletes all that is due leaves exactly the documents that are still accepted or counted,
   * or whose retention is not over.
   */
  lemma CompleteSweep(settings: Settings, docs: seq<Doc>, g: Graces, now: int)
    requires Safe(g, settings.emailLifetime) && AllWritten(settings, docs)
    ensures var after := Do(settings, docs, SweepAll(g, {}, now)).0;
            forall doc :: doc in after <==> doc in docs && !(Dead(doc.body, now) && Overdue(doc.body, now, g))
  {
    FilterMembers(Survives(g, {}, now), docs);
    var after := Do(settings, docs, SweepAll(g, {}, now)).0;
    forall doc: Doc | doc in docs
      ensures doc in after <==> !(Dead(doc.body, now) && Overdue(doc.body, now, g))
    {
      var i :| 0 <= i < |docs| && docs[i] == doc;
      DueExactly(docs[i].body, now, g, settings.emailLifetime);
    }
  }

  // ----- the limiters' bounds over runs with sweeps

  /** The creation this operation makes for the subject, if it is a request that was allowed. */
  function Granted(op: Op, output: Output, subject: Subject): seq<int> {
    if (op.RequestEmailCode? || op.RequestVerification?) && output == Limited(Allowed) && SubjectOf(op) == subject then [op.t4] else []
  }

  /** When the run creates codes or challenges for the subject with the limiter's leave. */
  function Creations(settings: Settings, docs: seq<Doc>, ops: seq<Op>, subject: Subject): seq<int>
    decreases ops
  {
    if ops == [] then []
    else
      var (after, output) := Do(settings, docs, ops[0]);
      Granted(ops[0], output, subject) + Creations(settings, after, ops[1..], subject)
  }

  /** An update that moves no creation time. */
  ghost predicate KeepsTime(f: Body -> Body) {
    forall doc: Doc, subject :: Time(Doc(doc.key, f(doc.body)), subject) == Time(doc, subject)
  }

  lemma {:induction false} UpdateKeepsTimes(docs: seq<Doc>, test: Test, f: Body -> Body, subject: Subject)
    requires KeepsTime(f)
    ensures Times(Update(docs, test, f), subject) == Times(docs, subject)
  {
    if docs != [] {
      UpdateKeepsTimes(docs[1..], test, f, subject);
      assert Time(Doc(docs[0].key, f(docs[0].body)), subject) == Time(docs[0], subject);
    }
  }

  lemma {:induction false} TimesAppend(docs: seq<Doc>, doc: Doc, subject: Subject)
    ensures Times(docs + [doc], subject) == Times(docs, subject) + Time(doc, subject)
  {
    if docs == [] {
      assert Times([doc], subject) == Time(doc, subject);
    } else {
      TimesAppend(docs[1..], doc, subject);
      assert (docs + [doc])[1..] == docs[1..] + [doc];
    }
  }

  /** The creation time an operation stores for the subject, with or without the limiter's leave. */
  function Added(settings: Settings, docs: seq<Doc>, op: Op, subject: Subject): seq<int> {
    if IsCreation(op) && Stores(settings, docs, op) then Time(NewDoc(settings, op), subject) else []
  }

  /** Without sweeps the stored creation times grow by just what is created. */
  lemma TimesNext(settings: Settings, docs: seq<Doc>, op: Op, subject: Subject)
    requires !op.SweepAll?
    ensures Times(Do(settings, docs, op).0, subject) == Times(docs, subject) + Added(settings, docs, op, subject)
  {
    hide Do, Times, Update, Redeem, Passes, Filter, NewDoc, Stores, Time, Gate;
    if IsRedemption(op) {
      RedemptionIs(settings, docs, op);
      RedeemKeepsTimes(docs, op.key, OkOf(op), op, subject);
    } else if IsAmendment(op) {
      AmendmentIs(settings, docs, op);
      ChangesKeepTime(op);
      UpdateKeepsTimes(docs, Named(op), ChangeOf(op), subject);
    } else if op.RevokeGrants? {
      RevokeIs(settings, docs, op);
      MarkingKeepsTime();
      UpdateKeepsTimes(docs, LiveGrant(op.user, op.now), MarkUsed, subject);
    } else if op.CreateGrant? {
      CreateGrantIs(settings, docs, op);
      GrantIsStored(settings, docs, op);
      MarkingKeepsTime();
      UpdateKeepsTimes(docs, KeyIn(Revocable(settings, docs, op)), MarkUsed, subject);
      TimesAppend(Update(docs, KeyIn(Revocable(settings, docs, op)), MarkUsed), NewDoc(settings, op), subject);
    } else {
      CreationIs(settings, docs, op);
      TimesAppend(docs, NewDoc(settings, op), subject);
    }
  }

  lemma RedeemKeepsTimes(docs: seq<Doc>, key: nat, ok: Body -> bool, op: Op, subject: Subject)
    requires IsRedemption(op)
    ensures Times(Redeem(docs, Keyed(key), ok, EffectOf(op)).0, subject) == Times(docs, subject)
  {
    UpdateKeepsTimes(docs, Keyed(key), EffectOf(op), subject);
  }

  lemma ChangesKeepTime(op: Op)
    requires IsAmendment(op)
    ensures KeepsTime(ChangeOf(op))
  {
  }

  lemma MarkingKeepsTime()
    ensures KeepsTime(MarkUsed)
  {
  }

  /** What is granted is among what is stored. */
  lemma GrantedIsAdded(settings: Settings, docs: seq<Doc>, op: Op, subject: Subject)
    requires settings.limiterEnabled && Granted(op, Do(settings, docs, op).1, subject) != []
    ensures (op.RequestEmailCode? || op.RequestVerification?) && Added(settings, docs, op, subject) == [op.t4]
    ensures Granted(op, Do(settings, docs, op).1, subject) == [op.t4]
    ensures Check(LimiterFor(subject), Times(docs, subject), op.t1, op.t2).Allowed?
  {
    hide Do, Times, Check;
    CreationAnswers(settings, docs, op);
  }

  /** The gated creations so far: among the stored ones, in order, spaced as the limiter demands, none in the future. */
  predicate Tidy(docs: seq<Doc>, subject: Subject, gated: seq<int>, clock: int) {
    && Embeds(Times(docs, subject), gated) && NonDecreasing(gated) && Spaced(LimiterFor(subject), gated)
    && forall i :: 0 <= i < |gated| ==> gated[i] <= clock
  }

  lemma TidyNext(settings: Settings, full: seq<Doc>, clock: int, op: Op, subject: Subject, gated: seq<int>)
    requires settings.limiterEnabled && !op.SweepAll? && OpOk(full, clock, op) && Tidy(full, subject, gated, clock)
    ensures Tidy(Do(settings, full, op).0, subject, gated + Granted(op, Do(settings, full, op).1, subject), End(op))
  {
    hide Do, Times, Check, Embeds, Granted, Added, Spaced, NonDecreasing, Fresh;
    var stored, more, granted := Times(full, subject), Added(settings, full, op, subject), Granted(op, Do(settings, full, op).1, subject);
    TimesNext(settings, full, op, subject);
    AddedIsOne(settings, full, op, subject);
    if granted != [] {
      GrantedIsAdded(settings, full, op, subject);
      SpacedNext(LimiterFor(subject), stored, gated, op.t1, op.t2, op.t4);
      EmbedsAppend(stored, gated, op.t4);
    } else {
      assert gated + [] == gated && stored + [] == stored;
      if more != [] {
        EmbedsAppend(stored, gated, more[0]);
      }
    }
  }

  lemma AddedIsOne(settings: Settings, docs: seq<Doc>, op: Op, subject: Subject)
    ensures var more := Added(settings, docs, op, subject); more == [] || more == [more[0]]
  {
  }

  /** One step of a swept run beside the unswept store. */
  lemma StepTogether(settings: Settings, full: seq<Doc>, swept: seq<Doc>, clock: int, op: Op, subject: Subject, gated: seq<int>)
    requires settings.limiterEnabled && FullOk(settings, full, clock) && Sub(full, swept, clock)
    requires OpOk(full, clock, op) && Tidy(full, subject, gated, clock) && (op.SweepAll? ==> Safe(op.g, settings.emailLifetime))
    ensures FullOk(settings, DoFull(settings, full, op), Later(clock, op))
    ensures Sub(DoFull(settings, full, op), Do(settings, swept, op).0, Later(clock, op))
    ensures Tidy(DoFull(settings, full, op), subject, gated + Granted(op, Do(settings, swept, op).1, subject), Later(clock, op))
  {
    hide Do, Sub, FullOk, Embeds, Times, NonDecreasing, Spaced;
    FullNext(settings, full, clock, op);
    if op.SweepAll? {
      SweepKeeps(settings, full, swept, clock, op);
      assert gated + [] == gated;
    } else {
      SameAnswer(settings, full, swept, clock, op);
      TidyNext(settings, full, clock, op, subject, gated);
    }
  }

  lemma TidyIsSpaced(docs: seq<Doc>, subject: Subject, gated: seq<int>, clock: int)
    requires Tidy(docs, subject, gated, clock)
    ensures NonDecreasing(gated) && Spaced(LimiterFor(subject), gated)
  {
  }

  /** The gated creations of a swept run stay in order and spaced. */
  lemma {:induction false} SpacedOverRun(settings: Settings, full: seq<Doc>, swept: seq<Doc>, clock: int, ops: seq<Op>,
                                         subject: Subject, gated: seq<int>)
    requires settings.limiterEnabled && FullOk(settings, full, clock) && Sub(full, swept, clock)
    requires ValidRun(settings, full, clock, ops) && SafeSweeps(settings, ops) && Tidy(full, subject, gated, clock)
    ensures var all := gated + Creations(settings, swept, ops, subject);
            NonDecreasing(all) && Spaced(LimiterFor(subject), all)
    decreases ops
  {
    hide Do, NonDecreasing, Spaced, Tidy, Sub, FullOk, OpOk, DoFull, Granted, Safe;
    if ops == [] {
      TidyIsSpaced(full, subject, gated, clock);
      assert gated + Creations(settings, swept, ops, subject) == gated;
    } else {
      var after, left := DoFull(settings, full, ops[0]), Do(settings, swept, ops[0]).0;
      var next := gated + Granted(ops[0], Do(settings, swept, ops[0]).1, subject);
      StepTogether(settings, full, swept, clock, ops[0], subject, gated);
      SpacedOverRun(settings, after, left, Later(clock, ops[0]), ops[1..], subject, next);
      assert gated + Creations(settings, swept, ops, subject) == next + Creations(settings, left, ops[1..], subject);
    }
  }

  /**
   * The limiters allow at most five email codes per user in any 30 minutes, and 52 challenges per user
   * and address in any 24 hours, whatever is swept when and whatever is created without asking them.
   */
  lemma BoundOverRuns(settings: Settings, clock: int, ops: seq<Op>, subject: Subject, end: int)
    requires settings.limiterEnabled && clock >= 0 && ValidRun(settings, [], clock, ops) && SafeSweeps(settings, ops)
    ensures |Filter(Within(LimiterFor(subject), end), Creations(settings, [], ops, subject))| <= if subject.EmailUser? then 5 else 52
  {
    hide Filter, Creations, ValidRun, SafeSweeps;
    SpacedOverRun(settings, [], [], clock, ops, subject, []);
    assert [] + Creations(settings, [], ops, subject) == Creations(settings, [], ops, subject);
    if subject.EmailUser? {
      EmailBound(Creations(settings, [], ops, subject), end);
    } else {
      VerificationBound(Creations(settings, [], ops, subject), end);
    }
  }
}
