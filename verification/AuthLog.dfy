/**
 * What the operations must answer, in terms of what was asked and answered before: a token is accepted
 * because it was created, has not expired, and has not been spent, revoked or marked since. No document
 * is mentioned.
 */
module AuthLog {
  import opened Prelude
  import opened RateLimit
  import opened Retention
  import opened AuthRuns
  import opened AuthSweeps

  /** An operation with its answer. */
  datatype Event = Event(op: Op, out: Output)

  // ----- what the log says

  predicate Has(log: seq<Event>, test: Event -> bool) {
    exists j :: 0 <= j < |log| && test(log[j])
  }

  function RefreshInvalidated(key: nat): Event -> bool {
    (e: Event) => e.op.InvalidateRefresh? && e.op.key == key && e.out == Found(true)
  }

  function Exchanged(key: nat): Event -> bool {
    (e: Event) => e.op.ExchangeRefresh? && e.op.key == key && e.out == Accepted(true)
  }

  function CodeMarked(key: nat): Event -> bool {
    (e: Event) => e.op.MarkCode? && e.op.key == key && e.out == Found(true)
  }

  function TokenRevoked(key: nat): Event -> bool {
    (e: Event) => e.op.RevokeLongLived? && e.op.key == key && e.out == Found(true)
  }

  function GrantConsumed(key: nat): Event -> bool {
    (e: Event) => e.op.ConsumeGrant? && e.op.key == key && e.out == Accepted(true)
  }

  function InviteConsumed(key: nat): Event -> bool {
    (e: Event) => e.op.ConsumeInvite? && e.op.key == key && e.out == Accepted(true)
  }

  /** How often an invite was consumed. */
  function Uses(log: seq<Event>, key: nat): nat {
    |Filter(InviteConsumed(key), log)|
  }

  function RefreshBorn(key: nat): Event -> bool {
    (e: Event) => e.op.CreateRefresh? && e.op.key == key
  }

  function EmailBorn(key: nat): Event -> bool {
    (e: Event) => e.op.RequestEmailCode? && e.op.key == key && e.out == Limited(Allowed)
  }

  /** A challenge asked for with the limiter's leave, or created without asking it. */
  function ChallengeBorn(key: nat): Event -> bool {
    (e: Event) => (e.op.RequestVerification? && e.op.key == key && e.out == Limited(Allowed))
                  || (e.op.CreateVerification? && e.op.key == key)
  }

  /** The clock read from which a challenge's lifetime counts. */
  function ChallengeStart(e: Event): int {
    match e.op
    case RequestVerification(_, _, _, _, _, t3, _) => t3
    case CreateVerification(_, _, _, t1, _) => t1
    case _ => 0
  }

  function LongLivedBorn(key: nat): Event -> bool {
    (e: Event) => e.op.CreateLongLived? && e.op.key == key && e.out == Accepted(true)
  }

  function GrantBorn(key: nat): Event -> bool {
    (e: Event) => e.op.CreateGrant? && e.op.key == key
  }

  function InviteBorn(key: nat): Event -> bool {
    (e: Event) => e.op.CreateInvite? && e.op.key == key
  }

  predicate For(forUser: Option<nat>, user: nat) {
    forUser.Some? ==> forUser.value == user
  }

  /** Since event i all the user's live grants were revoked. */
  predicate Withdrawn(log: seq<Event>, i: nat, user: nat) {
    exists j :: i < j < |log| && log[j].op.RevokeGrants? && log[j].op.user == user
  }

  function GrantFor(user: nat): Event -> bool {
    (e: Event) => e.op.CreateGrant? && e.op.user == user
  }

  /** How many grants the user was given since event i. */
  function LaterGrants(log: seq<Event>, i: nat, user: nat): nat
    requires i < |log|
  {
    |Filter(GrantFor(user), log[i + 1..])|
  }

  /** When codes or challenges were created for the subject. */
  function CreationTime(e: Event, subject: Subject): seq<int> {
    match subject
    case EmailUser(user) =>
      if e.op.RequestEmailCode? && e.op.user == user && e.out == Limited(Allowed) then [e.op.t4] else []
    case Address(user, email) =>
      if e.op.RequestVerification? && e.op.user == user && e.op.email == email && e.out == Limited(Allowed) then [e.op.t4]
      else if e.op.CreateVerification? && e.op.user == user && e.op.email == email then [e.op.t2] else []
  }

  function CreationTimes(log: seq<Event>, subject: Subject): seq<int> {
    if log == [] then [] else CreationTimes(log[..|log| - 1], subject) + CreationTime(log[|log| - 1], subject)
  }

  /** What a limiter answers about the creations so far. */
  predicate LimiterAnswers(settings: Settings, limiter: Limiter, times: seq<int>, t1: int, t2: int, decision: Decision) {
    if !settings.limiterEnabled then decision.Allowed?
    else
      decision.Refused? <==>
        && |Filter(After(t1 - limiter.window), times)| >= limiter.maxAttempts
        && exists k :: 0 <= k < |times| && IsLatest(times, times[k]) && t2 <= times[k] + limiter.cooldown
                       && decision == Refused(times[k] + limiter.cooldown)
  }

  /** Event i created this grant, which has not expired, and the user's grants were not revoked since. */
  predicate GrantGood(settings: Settings, log: seq<Event>, i: int, key: nat, now: int) {
    && 0 <= i < |log| && GrantBorn(key)(log[i])
    && now <= log[i].op.t3 + settings.grantLifetime && !Withdrawn(log, i, log[i].op.user)
  }

  /** The answer that the log calls for. */
  ghost predicate Explains(settings: Settings, log: seq<Event>, op: Op, out: Output) {
    match op
    case ValidateRefresh(key, forUser, userOk, now) =>
      out.Accepted? && (out.yes <==>
        && userOk && !Has(log, RefreshInvalidated(key))
        && exists i :: 0 <= i < |log| && RefreshBorn(key)(log[i])
                       && For(forUser, log[i].op.user) && now <= log[i].op.t1 + log[i].op.lifetime)
    case ExchangeRefresh(key, forUser, userOk, t1, t2) =>
      out.Accepted? && (out.yes <==>
        && userOk && !Has(log, RefreshInvalidated(key)) && !Has(log, Exchanged(key))
        && exists i :: 0 <= i < |log| && RefreshBorn(key)(log[i]) && For(forUser, log[i].op.user)
                       && t1 <= log[i].op.t2 + log[i].op.exchangeLifetime && t2 <= log[i].op.t1 + log[i].op.lifetime)
    case ValidateEmailCode(key, forUser, userOk, now) =>
      out.Accepted? && (out.yes <==>
        && userOk && !Has(log, CodeMarked(key))
        && exists i :: 0 <= i < |log| && EmailBorn(key)(log[i])
                       && For(forUser, log[i].op.user) && now <= log[i].op.t3 + settings.emailLifetime)
    case ValidateVerification(key, forUser, forEmail, userOk, now) =>
      out.Accepted? && (out.yes <==>
        && userOk && !Has(log, CodeMarked(key))
        && exists i :: 0 <= i < |log| && ChallengeBorn(key)(log[i]) && For(forUser, log[i].op.user)
                       && For(forEmail, log[i].op.email) && now <= ChallengeStart(log[i]) + 24 * HOUR)
    case ValidateLongLived(key, userOk, touch, writes, t1, _) =>
      out.Accepted? && (out.yes <==>
        && userOk && (touch ==> writes) && !Has(log, TokenRevoked(key))
        && exists i :: 0 <= i < |log| && LongLivedBorn(key)(log[i])
                       && (log[i].op.lapse.Some? ==> t1 <= log[i].op.lapse.value))
    case ConsumeGrant(key, secretOk, now) =>
      && out.Accepted?
      && (out.yes ==> secretOk && !Has(log, GrantConsumed(key)) && exists i :: GrantGood(settings, log, i, key, now))
      && (secretOk && !Has(log, GrantConsumed(key))
          && (exists i :: GrantGood(settings, log, i, key, now) && LaterGrants(log, i, log[i].op.user) < settings.maxGrants)
          ==> out.yes)
    case ConsumeInvite(key, now) =>
      out.Accepted? && (out.yes <==>
        exists i :: 0 <= i < |log| && InviteBorn(key)(log[i])
                    && now <= log[i].op.expiry && (log[i].op.uses.Some? ==> Uses(log, key) < log[i].op.uses.value))
    case MarkCode(key, _) => out == Found(Has(log, EmailBorn(key)) || Has(log, ChallengeBorn(key)))
    case InvalidateRefresh(key, _) => out == Found(Has(log, RefreshBorn(key)))
    case UpdateLongLived(key, _) => out == Found(Has(log, LongLivedBorn(key)))
    case RevokeLongLived(key, _) => out == Found(Has(log, LongLivedBorn(key)))
    case CreateLongLived(_, _, lapse, t1, t2, _) =>
      out == Accepted(match (lapse, settings.maxLongLivedMs)
                      case (None, None) => true
                      case (None, Some(_)) => false
                      case (Some(at), None) => t1 < at
                      case (Some(at), Some(most)) => t2 < at <= t1 + most)
    case RequestEmailCode(_, user, t1, t2, _, _) =>
      out.Limited? && LimiterAnswers(settings, EMAIL_LIMITER, CreationTimes(log, EmailUser(user)), t1, t2, out.decision)
    case RequestVerification(_, user, email, t1, t2, _, _) =>
      out.Limited? && LimiterAnswers(settings, VERIFICATION_LIMITER, CreationTimes(log, Address(user, email)), t1, t2, out.decision)
    case RevokeGrants(_, _) => out.Revoked?
    case _ => out == Silent
  }

  // ----- how the documents follow the log

  /** The event stored a document. */
  predicate Stored(e: Event) {
    || e.op.CreateRefresh? || e.op.CreateVerification? || e.op.CreateGrant? || e.op.CreateInvite?
    || ((e.op.RequestEmailCode? || e.op.RequestVerification?) && e.out == Limited(Allowed))
    || (e.op.CreateLongLived? && e.out == Accepted(true))
  }

  /** The used flag of a grant: set by a consume, and by a revocation while it lived; else only by as many creations as the cap. */
  predicate UsedRight(settings: Settings, log: seq<Event>, i: nat, key: nat, user: nat, expiry: int, used: bool)
    requires i < |log|
  {
    && (Has(log, GrantConsumed(key)) ==> used)
    && (forall j :: i < j < |log| && log[j].op.RevokeGrants? && log[j].op.user == user && log[j].op.now <= expiry ==> used)
    && (used ==> Has(log, GrantConsumed(key)) || Withdrawn(log, i, user) || LaterGrants(log, i, user) >= settings.maxGrants)
  }

  /** The document that event i stored has become what the log makes of it. */
  predicate Follows(settings: Settings, log: seq<Event>, i: nat, doc: Doc)
    requires i < |log|
  {
    && Stored(log[i]) && doc.key == log[i].op.key
    && match log[i].op
       case CreateRefresh(key, user, t1, t2, lifetime, exchangeLifetime) =>
         doc.body == Refresh(user, !Has(log, RefreshInvalidated(key)), t1 + lifetime, t2 + exchangeLifetime, Has(log, Exchanged(key)))
       case RequestEmailCode(key, user, _, _, t3, t4) =>
         doc.body == EmailCode(user, Has(log, CodeMarked(key)), Some(t4), t3 + settings.emailLifetime)
       case RequestVerification(key, user, email, _, _, t3, t4) =>
         doc.body == Verification(user, email, Has(log, CodeMarked(key)), Some(t4), t3 + 24 * HOUR)
       case CreateVerification(key, user, email, t1, t2) =>
         doc.body == Verification(user, email, Has(log, CodeMarked(key)), Some(t2), t1 + 24 * HOUR)
       case CreateLongLived(key, user, lapse, _, _, t3) =>
         && doc.body.LongLived? && doc.body.userId == user && doc.body.enabled == !Has(log, TokenRevoked(key))
         && doc.body.created == t3 && doc.body.lapse == lapse
       case CreateGrant(key, user, _, t2, t3) =>
         && doc.body.Grant? && doc.body.userId == user && doc.body.created == t2 && doc.body.expiry == t3 + settings.grantLifetime
         && UsedRight(settings, log, i, key, user, t3 + settings.grantLifetime, doc.body.used)
       case CreateInvite(key, expiry, uses, _) => doc.body == Invite(expiry, uses, Uses(log, key))
       case _ => false
  }

  /** An answered operation that changed the document with its key. */
  predicate Changed(e: Event) {
    (IsRedemption(e.op) && e.out == Accepted(true)) || (IsAmendment(e.op) && e.out == Found(true))
  }

  /** The rows of `downloadGrantsByUserId`. */
  function GrantOf(user: nat): Test {
    (doc: Doc) => doc.body.Grant? && doc.body.userId == user
  }

  /** `births[n]` is the event that stored the n-th document. */
  predicate AllFollow(settings: Settings, log: seq<Event>, births: seq<nat>, docs: seq<Doc>) {
    |births| == |docs| && forall n :: 0 <= n < |docs| ==> births[n] < |log| && Follows(settings, log, births[n], docs[n])
  }

  predicate AllBorn(log: seq<Event>, births: seq<nat>) {
    forall i :: 0 <= i < |log| && Stored(log[i]) ==> exists n :: 0 <= n < |births| && births[n] == i
  }

  predicate KeysKnown(log: seq<Event>, docs: seq<Doc>) {
    forall j :: 0 <= j < |log| && Changed(log[j]) ==> !Fresh(docs, log[j].op.key)
  }

  ghost predicate TimesKnown(log: seq<Event>, docs: seq<Doc>) {
    forall subject :: Times(docs, subject) == CreationTimes(log, subject)
  }

  ghost predicate Agrees(settings: Settings, log: seq<Event>, births: seq<nat>, docs: seq<Doc>) {
    AllFollow(settings, log, births, docs) && Distinct(docs) && AllBorn(log, births) && KeysKnown(log, docs) && TimesKnown(log, docs)
  }

  /** Grants are stored in the order of their creation, and as many as were given. */
  ghost predicate GrantsInOrder(log: seq<Event>, births: seq<nat>, docs: seq<Doc>, clock: int)
    requires |births| == |docs| && forall n :: 0 <= n < |docs| ==> births[n] < |log|
  {
    && (forall n :: 0 <= n < |docs| && docs[n].body.Grant? ==> docs[n].body.created <= clock)
    && (forall m, n :: 0 <= m < n < |docs| && docs[m].body.Grant? && docs[n].body.Grant? ==>
          docs[m].body.created <= docs[n].body.created)
    && (forall n, user :: 0 <= n < |docs| ==> |Filter(GrantOf(user), docs[n + 1..])| == LaterGrants(log, births[n], user))
  }

  /** Nothing in the log happened after this. */
  predicate Past(log: seq<Event>, clock: int) {
    forall j :: 0 <= j < |log| ==> End(log[j].op) <= clock
  }
}
