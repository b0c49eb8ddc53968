/**
 * Whole runs of the token, code, challenge, grant and invite operations, with TTL sweeps at
 * arbitrary times. Operations run one after the other, on documents listed in storage order;
 * secrets are fresh, so each names at most one document.
 */
module AuthRuns {
  import opened Prelude
  import opened RateLimit
  import opened Retention

  datatype Doc = Doc(key: nat, body: Body)

  datatype Settings = Settings(limiterEnabled: bool, emailLifetime: int, maxLongLivedMs: Option<int>,
                               grantLifetime: nat, maxGrants: nat)

  /**
   * `userOk` is whether the account is found and not disabled; t1 <= t2 <= ... are successive clock
   * reads. `writes` is whether the last-used time of a long-lived token could be written.
   */
  datatype Op =
    | CreateRefresh(key: nat, user: nat, t1: int, t2: int, lifetime: int, exchangeLifetime: int)
    | ValidateRefresh(key: nat, forUser: Option<nat>, userOk: bool, now: int)
    | ExchangeRefresh(key: nat, forUser: Option<nat>, userOk: bool, t1: int, t2: int)
    | InvalidateRefresh(key: nat, now: int)
    | RequestEmailCode(key: nat, user: nat, t1: int, t2: int, t3: int, t4: int)
    | ValidateEmailCode(key: nat, forUser: Option<nat>, userOk: bool, now: int)
    | RequestVerification(key: nat, user: nat, email: nat, t1: int, t2: int, t3: int, t4: int)
    | CreateVerification(key: nat, user: nat, email: nat, t1: int, t2: int)
    | ValidateVerification(key: nat, forUser: Option<nat>, forEmail: Option<nat>, userOk: bool, now: int)
    | MarkCode(key: nat, now: int)
    | CreateLongLived(key: nat, user: nat, lapse: Option<int>, t1: int, t2: int, t3: int)
    | ValidateLongLived(key: nat, userOk: bool, touch: bool, writes: bool, t1: int, t2: int)
    | UpdateLongLived(key: nat, now: int)
    | RevokeLongLived(key: nat, now: int)
    | CreateGrant(key: nat, user: nat, t1: int, t2: int, t3: int)
    | ConsumeGrant(key: nat, secretOk: bool, now: int)
    | RevokeGrants(user: nat, now: int)
    | CreateInvite(key: nat, expiry: int, uses: Option<int>, now: int)
    | ConsumeInvite(key: nat, now: int)
    | SweepAll(g: Graces, spared: set<nat>, now: int)

  /** What a client can tell apart. `Found(false)` is a not-found exception. */
  datatype Output = Accepted(yes: bool) | Limited(decision: Decision) | Revoked(count: nat) | Found(present: bool) | Silent

  // ----- views and updates

  type Test = Doc -> bool

  function Keyed(key: nat): Test {
    (doc: Doc) => doc.key == key
  }

  /** An email code or a verification challenge, by its secret. */
  function CodeKeyed(key: nat): Test {
    (doc: Doc) => doc.key == key && (doc.body.EmailCode? || doc.body.Verification?)
  }

  function RefreshKeyed(key: nat): Test {
    (doc: Doc) => doc.key == key && doc.body.Refresh?
  }

  function LongLivedKeyed(key: nat): Test {
    (doc: Doc) => doc.key == key && doc.body.LongLived?
  }

  function Update(docs: seq<Doc>, test: Test, f: Body -> Body): seq<Doc> {
    if docs == [] then []
    else [if test(docs[0]) then Doc(docs[0].key, f(docs[0].body)) else docs[0]] + Update(docs[1..], test, f)
  }

  /** An update document by document. */
  lemma {:induction false} UpdateAt(docs: seq<Doc>, test: Test, f: Body -> Body)
    ensures |Update(docs, test, f)| == |docs|
    ensures forall i :: 0 <= i < |docs| ==>
      Update(docs, test, f)[i] == if test(docs[i]) then Doc(docs[i].key, f(docs[i].body)) else docs[i]
  {
    if docs != [] {
      UpdateAt(docs[1..], test, f);
    }
  }

  /** Whose requests a limiter counts together: a user's email codes, or a user's challenges for one address. */
  datatype Subject = EmailUser(user: nat) | Address(user: nat, email: nat)

  function LimiterFor(subject: Subject): Limiter {
    if subject.EmailUser? then EMAIL_LIMITER else VERIFICATION_LIMITER
  }

  /** An unstamped code counts as created at 0; an unstamped challenge never counts. */
  function Time(doc: Doc, subject: Subject): seq<int> {
    match subject
    case EmailUser(user) => if doc.body.EmailCode? && doc.body.userId == user then [Stamp(doc.body.stamped)] else []
    case Address(user, email) =>
      if doc.body.Verification? && doc.body.userId == user && doc.body.email == email && doc.body.stamped.Some?
      then [doc.body.stamped.value] else []
  }

  /** The creation times a limiter reads for its subject, in storage order. */
  function Times(docs: seq<Doc>, subject: Subject): seq<int> {
    if docs == [] then [] else Time(docs[0], subject) + Times(docs[1..], subject)
  }

  function LiveGrant(user: nat, now: int): Test {
    (doc: Doc) => doc.body.Grant? && doc.body.userId == user && !doc.body.used && !(doc.body.expiry < now)
  }

  /** Stable insertion by creation time, as `Array.prototype.sort` orders the grants. */
  function Insert(doc: Doc, sorted: seq<Doc>): seq<Doc> {
    if sorted == [] || !sorted[0].body.Grant? || !doc.body.Grant? || doc.body.created <= sorted[0].body.created
    then [doc] + sorted
    else [sorted[0]] + Insert(doc, sorted[1..])
  }

  function OldestFirst(grants: seq<Doc>): seq<Doc> {
    if grants == [] then [] else Insert(grants[0], OldestFirst(grants[1..]))
  }

  /** The keys `enforceUnusedGrantCap` revokes before minting one more. */
  function Overflow(live: seq<Doc>, cap: nat): set<nat> {
    var sorted := OldestFirst(live);
    set i | 0 <= i < |sorted| && i < |live| - (cap - 1) :: sorted[i].key
  }

  function KeyIn(keys: set<nat>): Test {
    (doc: Doc) => doc.key in keys
  }

  function MarkUsed(body: Body): Body {
    match body
    case EmailCode(user, _, stamped, expiry) => EmailCode(user, true, stamped, expiry)
    case Verification(user, email, _, stamped, expiry) => Verification(user, email, true, stamped, expiry)
    case Grant(user, _, created, expiry) => Grant(user, true, created, expiry)
    case _ => body
  }

  function Disable(body: Body): Body {
    match body
    case Refresh(user, _, expiry, exchangeExpiry, exchangeUsed) => Refresh(user, false, expiry, exchangeExpiry, exchangeUsed)
    case _ => body
  }

  function UseExchange(body: Body): Body {
    if body.Refresh? then body.(exchangeUsed := true) else body
  }

  function Revoke(now: int): Body -> Body {
    (body: Body) => match body
                    case LongLived(user, _, created, _, lapse, lastUsed) => LongLived(user, false, created, Some(now), lapse, lastUsed)
                    case _ => body
  }

  function Touch(now: int): Body -> Body {
    (body: Body) => if body.LongLived? then body.(updated := Some(now)) else body
  }

  function UseLongLived(now: int): Body -> Body {
    (body: Body) => if body.LongLived? then body.(lastUsed := Some(now)) else body
  }

  function UseInvite(body: Body): Body {
    if body.Invite? then body.(usesConsumed := body.usesConsumed + 1) else body
  }

  /** A lookup by secret that must find exactly one document, which must pass. */
  predicate Passes(docs: seq<Doc>, test: Test, ok: Body -> bool) {
    var found := Filter(test, docs);
    |found| == 1 && ok(found[0].body)
  }

  /** Look up, check, and write back when the check passes. */
  function Redeem(docs: seq<Doc>, test: Test, ok: Body -> bool, f: Body -> Body): (seq<Doc>, Output) {
    if Passes(docs, test, ok) then (Update(docs, test, f), Accepted(true)) else (docs, Accepted(false))
  }

  /** Look up and write back, or fail when there is nothing. */
  function Amend(docs: seq<Doc>, test: Test, f: Body -> Body): (seq<Doc>, Output) {
    (Update(docs, test, f), Found(|Filter(test, docs)| > 0))
  }

  function Same(body: Body): Body {
    body
  }

  predicate UserMatches(body: Body, forUser: Option<nat>) {
    forUser.Some? && !body.Invite? ==> body.userId == forUser.value
  }

  function RefreshOk(forUser: Option<nat>, userOk: bool, now: int): Body -> bool {
    (body: Body) => body.Refresh? && UserMatches(body, forUser) && Accepts(body, now) && userOk
  }

  /** The exchange token's expiry and the refresh token's are checked at two clock reads. */
  function ExchangeOk(forUser: Option<nat>, userOk: bool, t1: int, t2: int): Body -> bool {
    (body: Body) => && body.Refresh? && !body.exchangeUsed && UserMatches(body, forUser) && body.enabled
                    && !(body.exchangeExpiry < t1) && !(body.expiry < t2) && userOk
  }

  function EmailOk(forUser: Option<nat>, userOk: bool, now: int): Body -> bool {
    (body: Body) => body.EmailCode? && UserMatches(body, forUser) && Accepts(body, now) && userOk
  }

  function VerificationOk(forUser: Option<nat>, forEmail: Option<nat>, userOk: bool, now: int): Body -> bool {
    (body: Body) => body.Verification? && UserMatches(body, forUser)
                    && (forEmail.Some? ==> body.email == forEmail.value) && Accepts(body, now) && userOk
  }

  function LongLivedOk(userOk: bool, now: int): Body -> bool {
    (body: Body) => body.LongLived? && Accepts(body, now) && userOk
  }

  function GrantOk(secretOk: bool, now: int): Body -> bool {
    (body: Body) => body.Grant? && Accepts(body, now) && secretOk
  }

  function InviteOk(now: int): Body -> bool {
    (body: Body) => body.Invite? && Accepts(body, now)
  }

  /** `isValidExpiry`, which reads the clock once or twice. */
  predicate ValidLapse(settings: Settings, lapse: Option<int>, t1: int, t2: int) {
    match lapse
    case None => settings.maxLongLivedMs.None?
    case Some(at) =>
      if settings.maxLongLivedMs.None? then at > t1 else at > t2 && at <= t1 + settings.maxLongLivedMs.value
  }

  function Gate(settings: Settings, docs: seq<Doc>, subject: Subject, t1: int, t2: int): Decision {
    if !settings.limiterEnabled then Allowed else Check(LimiterFor(subject), Times(docs, subject), t1, t2)
  }

  function Survives(g: Graces, spared: set<nat>, now: int): Test {
    (doc: Doc) => !(ShouldDelete(doc.body, now, g) && doc.key !in spared)
  }

  /** One operation. A sweep may fail to delete any of the due documents (`spared`). */
  function Do(settings: Settings, docs: seq<Doc>, op: Op): (seq<Doc>, Output) {
    match op
    case CreateRefresh(key, user, t1, t2, lifetime, exchangeLifetime) =>
      (docs + [Doc(key, Refresh(user, true, t1 + lifetime, t2 + exchangeLifetime, false))], Silent)
    case ValidateRefresh(key, forUser, userOk, now) => Redeem(docs, Keyed(key), RefreshOk(forUser, userOk, now), Same)
    case ExchangeRefresh(key, forUser, userOk, t1, t2) =>
      Redeem(docs, Keyed(key), ExchangeOk(forUser, userOk, t1, t2), UseExchange)
    case InvalidateRefresh(key, _) => Amend(docs, RefreshKeyed(key), Disable)
    case RequestEmailCode(key, user, t1, t2, t3, t4) =>
      var decision := Gate(settings, docs, EmailUser(user), t1, t2);
      (if decision.Allowed? then docs + [Doc(key, EmailCode(user, false, Some(t4), t3 + settings.emailLifetime))] else docs,
       Limited(decision))
    case ValidateEmailCode(key, forUser, userOk, now) => Redeem(docs, Keyed(key), EmailOk(forUser, userOk, now), Same)
    case RequestVerification(key, user, email, t1, t2, t3, t4) =>
      var decision := Gate(settings, docs, Address(user, email), t1, t2);
      (if decision.Allowed?
       then docs + [Doc(key, Verification(user, email, false, Some(t4), t3 + VERIFICATION_LIFETIME))] else docs,
       Limited(decision))
    case CreateVerification(key, user, email, t1, t2) =>
      (docs + [Doc(key, Verification(user, email, false, Some(t2), t1 + VERIFICATION_LIFETIME))], Silent)
    case ValidateVerification(key, forUser, forEmail, userOk, now) =>
      Redeem(docs, Keyed(key), VerificationOk(forUser, forEmail, userOk, now), Same)
    case MarkCode(key, _) => Amend(docs, CodeKeyed(key), MarkUsed)
    case CreateLongLived(key, user, lapse, t1, t2, t3) =>
      var ok := ValidLapse(settings, lapse, t1, t2);
      (if ok then docs + [Doc(key, LongLived(user, true, t3, Some(t3), lapse, None))] else docs, Accepted(ok))
    case ValidateLongLived(key, userOk, touch, writes, t1, t2) =>
      Redeem(docs, Keyed(key), LongLivedOk(userOk && (touch ==> writes), t1), if touch then UseLongLived(t2) else Same)
    case UpdateLongLived(key, now) => Amend(docs, LongLivedKeyed(key), Touch(now))
    case RevokeLongLived(key, now) => Amend(docs, LongLivedKeyed(key), Revoke(now))
    case CreateGrant(key, user, t1, t2, t3) =>
      var keys := Overflow(Filter(LiveGrant(user, t1), docs), settings.maxGrants);
      (Update(docs, KeyIn(keys), MarkUsed) + [Doc(key, Grant(user, false, t2, t3 + settings.grantLifetime))], Silent)
    case ConsumeGrant(key, secretOk, now) => Redeem(docs, Keyed(key), GrantOk(secretOk, now), MarkUsed)
    case RevokeGrants(user, now) =>
      (Update(docs, LiveGrant(user, now), MarkUsed), Revoked(|Filter(LiveGrant(user, now), docs)|))
    case CreateInvite(key, expiry, uses, _) => (docs + [Doc(key, Invite(expiry, uses, 0))], Silent)
    case ConsumeInvite(key, now) => Redeem(docs, Keyed(key), InviteOk(now), UseInvite)
    case SweepAll(g, spared, now) => (Filter(Survives(g, spared, now), docs), Silent)
  }

  /** What the clients see over a run; sweeps answer nobody. */
  function Observe(settings: Settings, docs: seq<Doc>, ops: seq<Op>): seq<Output>
    decreases ops
  {
    if ops == [] then []
    else
      var (after, output) := Do(settings, docs, ops[0]);
      (if ops[0].SweepAll? then [] else [output]) + Observe(settings, after, ops[1..])
  }

  function NoSweeps(ops: seq<Op>): seq<Op> {
    if ops == [] then [] else (if ops[0].SweepAll? then [] else [ops[0]]) + NoSweeps(ops[1..])
  }
}
