/**
 * Which documents the TTL sweep deletes (the `shouldDelete*` predicates of
 * api/src/couchdb/ttlCleanup.ts), set against what the validators accept and the limiters count.
 */
module Retention {
  import opened Prelude
  import opened RateLimit

  /** The swept documents, with the fields any of these decisions reads. Times are in milliseconds. */
  datatype Body =
    | Refresh(userId: nat, enabled: bool, expiry: int, exchangeExpiry: int, exchangeUsed: bool)
    | EmailCode(userId: nat, used: bool, stamped: Option<int>, expiry: int)
    | Verification(userId: nat, email: nat, used: bool, stamped: Option<int>, expiry: int)
    | LongLived(userId: nat, enabled: bool, created: int, updated: Option<int>, lapse: Option<int>, lastUsed: Option<int>)
    | Grant(userId: nat, used: bool, created: int, expiry: int)
    | Invite(expiry: int, usesOriginal: Option<int>, usesConsumed: int)

  /** The options of `runTtlCleanup` that decide what goes. */
  datatype Graces = Graces(refresh: int, rateLimit: int, invite: int, deleteExhausted: bool,
                           includeLongLived: bool, audit: int, grant: int)

  const HOUR: int := 60 * 60 * 1000
  const VERIFICATION_LIFETIME: int := 24 * HOUR
  const DEFAULT_GRACES := Graces(24 * HOUR, HOUR, 0, false, false, 30 * 24 * HOUR, HOUR)

  function RetentionMs(limiter: Limiter, grace: int): int {
    limiter.window + limiter.cooldown + grace
  }

  function Anchor(stamped: Option<int>, expiry: int): int {
    if stamped.Some? then stamped.value else expiry
  }

  predicate ShouldDelete(doc: Body, now: int, g: Graces) {
    match doc
    case Refresh(_, _, expiry, _, _) => expiry < now - g.refresh
    case EmailCode(_, _, stamped, expiry) => Anchor(stamped, expiry) < now - RetentionMs(EMAIL_LIMITER, g.rateLimit)
    case Verification(_, _, _, stamped, expiry) =>
      Anchor(stamped, expiry) < now - RetentionMs(VERIFICATION_LIMITER, g.rateLimit)
    case LongLived(_, enabled, created, updated, lapse, _) =>
      var expired := lapse.Some? && lapse.value < now;
      var written := if updated.Some? then updated.value else created;
      g.includeLongLived && (!enabled || expired)
      && (if !enabled then written else if lapse.Some? then lapse.value else written) < now - g.audit
    case Grant(_, used, _, expiry) => (used || expiry < now) && expiry < now - g.grant
    case Invite(expiry, usesOriginal, usesConsumed) =>
      || expiry < now - g.invite
      || (g.deleteExhausted && usesOriginal.Some? && usesOriginal.value > 0 && usesConsumed >= usesOriginal.value)
  }

  /** The validator of this kind of document would accept it at `now`. */
  predicate Accepts(doc: Body, now: int) {
    match doc
    case Refresh(_, enabled, expiry, _, _) => enabled && !(expiry < now)
    case EmailCode(_, used, _, expiry) => !used && !(expiry < now)
    case Verification(_, _, used, _, expiry) => !used && !(expiry < now)
    case LongLived(_, enabled, _, _, lapse, _) => enabled && !(lapse.Some? && lapse.value != 0 && lapse.value < now)
    case Grant(_, used, _, expiry) => !used && !(expiry < now)
    case Invite(expiry, usesOriginal, usesConsumed) =>
      !(expiry < now) && !(usesOriginal.Some? && usesConsumed >= usesOriginal.value)
  }

  /** The exchange token of a refresh token is still good. */
  predicate AcceptsExchange(doc: Body, now: int) {
    doc.Refresh? && !doc.exchangeUsed && doc.enabled && !(doc.exchangeExpiry < now) && !(doc.expiry < now)
  }

  /** `createdTimestampMs || 0`. */
  function Stamp(stamped: Option<int>): int {
    if stamped.Some? then stamped.value else 0
  }

  /** A limiter that reads the clock at `now` counts this document. */
  predicate Counts(doc: Body, now: int) {
    match doc
    case EmailCode(_, _, stamped, _) => Stamp(stamped) > now - EMAIL_LIMITER.window
    case Verification(_, _, _, stamped, _) => stamped.Some? && stamped.value > now - VERIFICATION_LIMITER.window
    case Grant(_, used, _, expiry) => !used && expiry >= now
    case _ => false
  }

  /** No longer accepted nor counted. */
  predicate Dead(doc: Body, now: int) {
    !Accepts(doc, now) && !AcceptsExchange(doc, now) && !Counts(doc, now)
  }

  /** Time cannot revive a document. */
  lemma DeadForever(doc: Body, now: int, later: int)
    requires Dead(doc, now) && now <= later
    ensures Dead(doc, later)
  {
  }

  // ----- exactly when deleting is harmless

  /** Refresh tokens: deletion never hits an acceptable token exactly when the grace is not negative. */
  lemma RefreshGraceExact(g: Graces)
    ensures (forall doc: Body, now :: doc.Refresh? && ShouldDelete(doc, now, g) ==> Dead(doc, now)) <==> g.refresh >= 0
  {
    if g.refresh < 0 {
      var doc := Refresh(0, true, 0, 0, false);
      assert ShouldDelete(doc, 0, g) && !Dead(doc, 0);
    }
  }

  /** Invites: likewise, whether or not exhausted ones are deleted. */
  lemma InviteGraceExact(g: Graces)
    ensures (forall doc: Body, now :: doc.Invite? && ShouldDelete(doc, now, g) ==> Dead(doc, now)) <==> g.invite >= 0
  {
    if g.invite < 0 {
      var doc := Invite(0, None, 0);
      assert ShouldDelete(doc, 0, g) && !Dead(doc, 0);
    }
  }

  /** Download grants: harmless whatever the grace. */
  lemma GrantAlwaysHarmless(doc: Body, now: int, g: Graces)
    requires doc.Grant? && ShouldDelete(doc, now, g)
    ensures Dead(doc, now)
  {
  }

  /** A stamped code whose lifetime is at most this. */
  predicate LivesAtMost(doc: Body, lifetime: int) {
    (doc.EmailCode? || doc.Verification?) && doc.stamped.Some? && doc.expiry <= doc.stamped.value + lifetime
  }

  /** A code that was stamped with at most this lifetime, or not stamped at all. */
  predicate OfLifetime(doc: Body, lifetime: int) {
    (doc.EmailCode? || doc.Verification?) && (doc.stamped.Some? ==> LivesAtMost(doc, lifetime))
  }

  /**
   * Email codes: deletion never hits a code that could still be redeemed, or is still counted,
   * exactly when the configured lifetime is within the retention and the retention covers the window.
   * (An unstamped code counts as created at time 0, so the first half hour of time is left aside.)
   */
  lemma EmailLifetimeExact(lifetime: int, g: Graces)
    ensures (forall doc: Body, now ::
               (doc.EmailCode? && OfLifetime(doc, lifetime) && now >= EMAIL_LIMITER.window && ShouldDelete(doc, now, g)) ==>
               Dead(doc, now))
       <==> (lifetime <= RetentionMs(EMAIL_LIMITER, g.rateLimit)
             && EMAIL_LIMITER.window <= RetentionMs(EMAIL_LIMITER, g.rateLimit) + 1)
  {
    var kept := RetentionMs(EMAIL_LIMITER, g.rateLimit);
    var stamp := Max(0, EMAIL_LIMITER.window - kept);
    if lifetime > kept {
      var doc, now := EmailCode(0, false, Some(stamp), stamp + lifetime), stamp + kept + 1;
      assert OfLifetime(doc, lifetime) && ShouldDelete(doc, now, g) && !Dead(doc, now);
    }
    if EMAIL_LIMITER.window > kept + 1 {
      var doc, now := EmailCode(0, true, Some(stamp), stamp + Min(lifetime, 0)), stamp + kept + 1;
      assert OfLifetime(doc, lifetime) && ShouldDelete(doc, now, g) && !Dead(doc, now);
    }
  }

  /** Verification challenges, whose lifetime is fixed: the grace may even be minus half an hour. */
  lemma VerificationGraceExact(g: Graces)
    ensures (forall doc: Body, now ::
               (doc.Verification? && OfLifetime(doc, VERIFICATION_LIFETIME) && ShouldDelete(doc, now, g)) ==> Dead(doc, now))
       <==> g.rateLimit + VERIFICATION_LIMITER.cooldown >= 0
  {
    var kept := RetentionMs(VERIFICATION_LIMITER, g.rateLimit);
    if g.rateLimit + VERIFICATION_LIMITER.cooldown < 0 {
      var doc := Verification(0, 0, false, Some(0), VERIFICATION_LIFETIME);
      assert OfLifetime(doc, VERIFICATION_LIFETIME) && ShouldDelete(doc, kept + 1, g) && !Dead(doc, kept + 1);
    }
  }

  /**
   * Long-lived tokens: the sweep can delete a token the validator still accepts exactly when the
   * token is enabled and its stored expiry is 0, which the validator takes for no expiry.
   */
  lemma LongLivedExact(doc: Body, g: Graces)
    requires doc.LongLived? && g.includeLongLived
    ensures (exists now :: ShouldDelete(doc, now, g) && Accepts(doc, now)) <==> (doc.enabled && doc.lapse == Some(0))
  {
    if doc.enabled && doc.lapse == Some(0) {
      var now := Max(0, g.audit) + 1;
      assert ShouldDelete(doc, now, g) && Accepts(doc, now);
    }
  }

  // ----- the reachable case

  /** Options under which no sweep can be noticed, given the configured email-code lifetime. */
  predicate Safe(g: Graces, emailLifetime: int) {
    && g.refresh >= 0 && g.invite >= 0 && g.rateLimit + VERIFICATION_LIMITER.cooldown >= 0
    && emailLifetime <= RetentionMs(EMAIL_LIMITER, g.rateLimit)
  }

  /** The default options are such, for any lifetime of email codes up to three and a half hours. */
  lemma DefaultsAreSafe(emailLifetime: int)
    ensures Safe(DEFAULT_GRACES, emailLifetime) <==> emailLifetime <= 210 * 60 * 1000
  {
  }

  /** What every document written by the application satisfies. */
  predicate Written(doc: Body, emailLifetime: int) {
    && (doc.EmailCode? ==> LivesAtMost(doc, emailLifetime))
    && (doc.Verification? ==> LivesAtMost(doc, VERIFICATION_LIFETIME))
    && (doc.LongLived? ==> doc.lapse != Some(0))
  }

  /** A document that is due is dead: nothing will accept or count it any more. */
  lemma DueIsDead(doc: Body, now: int, g: Graces, emailLifetime: int)
    requires ShouldDelete(doc, now, g) && Safe(g, emailLifetime) && Written(doc, emailLifetime)
    ensures Dead(doc, now)
  {
  }

  // ----- what must go

  /** Used as often as it may be, where exhausted invites go. */
  predicate Exhausted(doc: Body, g: Graces) {
    doc.Invite? && g.deleteExhausted && doc.usesOriginal.Some? && 0 < doc.usesOriginal.value <= doc.usesConsumed
  }

  /** The documented end of a document's retention; None while it has none. */
  function RetainedUntil(doc: Body, g: Graces): Option<int> {
    match doc
    case Refresh(_, _, expiry, _, _) => Some(expiry + g.refresh)
    case EmailCode(_, _, stamped, expiry) =>
      Some((if stamped.Some? then stamped.value else expiry) + 30 * 60 * 1000 + 2 * HOUR + g.rateLimit)
    case Verification(_, _, _, stamped, expiry) =>
      Some((if stamped.Some? then stamped.value else expiry) + 24 * HOUR + 30 * 60 * 1000 + g.rateLimit)
    case LongLived(_, enabled, created, updated, lapse, _) =>
      if !g.includeLongLived then None
      else if !enabled then Some((if updated.Some? then updated.value else created) + g.audit)
      else if lapse.Some? then Some(lapse.value + g.audit) else None
    case Grant(_, _, _, expiry) => Some(expiry + g.grant)
    case Invite(expiry, _, _) => Some(expiry + g.invite)
  }

  predicate Overdue(doc: Body, now: int, g: Graces) {
    (RetainedUntil(doc, g).Some? && RetainedUntil(doc, g).value < now) || Exhausted(doc, g)
  }

  /** Under safe options a document is due exactly when nothing accepts or counts it and its retention is over. */
  lemma DueExactly(doc: Body, now: int, g: Graces, emailLifetime: int)
    requires Safe(g, emailLifetime) && Written(doc, emailLifetime)
    ensures ShouldDelete(doc, now, g) <==> Dead(doc, now) && Overdue(doc, now, g)
  {
  }

  /** Whatever the options: a grant is due exactly when it is rejected, uncounted, and expired by more than its grace. */
  lemma GrantDueExactly(doc: Body, now: int, g: Graces)
    requires doc.Grant?
    ensures ShouldDelete(doc, now, g) <==> !Accepts(doc, now) && !Counts(doc, now) && doc.expiry + g.grant < now
  {
  }

  /** The document had it been enabled, unused, and its uses unlimited. */
  function Unspent(doc: Body): Body {
    match doc
    case Refresh(user, _, expiry, exchangeExpiry, used) => Refresh(user, true, expiry, exchangeExpiry, used)
    case EmailCode(user, _, stamped, expiry) => EmailCode(user, false, stamped, expiry)
    case Verification(user, email, _, stamped, expiry) => Verification(user, email, false, stamped, expiry)
    case LongLived(user, _, created, updated, lapse, lastUsed) => LongLived(user, true, created, updated, lapse, lastUsed)
    case Grant(user, _, created, expiry) => Grant(user, false, created, expiry)
    case Invite(expiry, _, consumed) => Invite(expiry, None, consumed)
  }

  /**
   * Whatever the options and the document, in terms of the validators at the time by which it must have
   * been past its use: a refresh token, grant or invite by its validator, had it not been spent; a code by
   * its limiter, or by its validator if it bears no stamp; a long-lived token when it was revoked or lapsed.
   */
  lemma DueByValidators(doc: Body, now: int, g: Graces)
    ensures doc.Refresh? ==> (ShouldDelete(doc, now, g) <==> !Accepts(Unspent(doc), now - g.refresh))
    ensures doc.EmailCode? && doc.stamped.Some? ==>
              (ShouldDelete(doc, now, g) <==> !Counts(doc, now - EMAIL_LIMITER.cooldown - g.rateLimit - 1))
    ensures doc.Verification? && doc.stamped.Some? ==>
              (ShouldDelete(doc, now, g) <==> !Counts(doc, now - VERIFICATION_LIMITER.cooldown - g.rateLimit - 1))
    ensures doc.EmailCode? && doc.stamped.None? ==>
              (ShouldDelete(doc, now, g) <==> !Accepts(Unspent(doc), now - RetentionMs(EMAIL_LIMITER, g.rateLimit)))
    ensures doc.Verification? && doc.stamped.None? ==>
              (ShouldDelete(doc, now, g) <==> !Accepts(Unspent(doc), now - RetentionMs(VERIFICATION_LIMITER, g.rateLimit)))
    ensures doc.LongLived? && !doc.enabled ==>
              (ShouldDelete(doc, now, g) <==>
               g.includeLongLived && (if doc.updated.Some? then doc.updated.value else doc.created) + g.audit < now)
    ensures doc.LongLived? && doc.enabled && doc.lapse != Some(0) ==>
              (ShouldDelete(doc, now, g) <==> g.includeLongLived && !Accepts(doc, now) && !Accepts(doc, now - g.audit))
    ensures doc.Grant? ==>
              (ShouldDelete(doc, now, g) <==> !Accepts(doc, now) && !Accepts(Unspent(doc), now - g.grant))
    ensures doc.Invite? ==>
              (ShouldDelete(doc, now, g) <==> !Accepts(Unspent(doc), now - g.invite) || Exhausted(doc, g))
  {
  }
}
