/**
 * The attempt limiters of `checkCanCreateEmailCode` (api/src/couchdb/emailReset.ts) and
 * `checkCanCreateVerificationChallenge` (api/src/couchdb/verificationChallenges.ts), and the bound
 * they put on how many codes can be created within a window.
 */
module RateLimit {
  import opened Prelude

  datatype Limiter = Limiter(maxAttempts: nat, window: nat, cooldown: nat)

  const EMAIL_LIMITER := Limiter(5, 30 * 60 * 1000, 2 * 60 * 60 * 1000)
  const VERIFICATION_LIMITER := Limiter(5, 24 * 60 * 60 * 1000, 30 * 60 * 1000)

  /** `canCreate`, and `nextAttemptAllowedAt` when refused. */
  datatype Decision = Allowed | Refused(nextAttemptAllowedAt: int)

  function After(threshold: int): int -> bool {
    created => created > threshold
  }

  /** The `reduce` that picks the most recent creation. */
  function MostRecent(latest: int, rest: seq<int>): int
    decreases rest
  {
    if rest == [] then latest else MostRecent(if rest[0] > latest then rest[0] else latest, rest[1..])
  }

  /** The decision on creation times `created`, the clock being read first at t1 and again at t2. */
  function Check(limiter: Limiter, created: seq<int>, t1: int, t2: int): Decision {
    var recent := Filter(After(t1 - limiter.window), created);
    if |recent| < limiter.maxAttempts || recent == [] then Allowed
    else
      var cooldownEndsAt := MostRecent(recent[0], recent) + limiter.cooldown;
      if t2 > cooldownEndsAt then Allowed else Refused(cooldownEndsAt)
  }

  lemma {:induction false} MostRecentBounds(latest: int, rest: seq<int>)
    ensures MostRecent(latest, rest) >= latest
    ensures forall i :: 0 <= i < |rest| ==> MostRecent(latest, rest) >= rest[i]
    ensures MostRecent(latest, rest) == latest || MostRecent(latest, rest) in rest
    decreases rest
  {
    if rest != [] {
      MostRecentBounds(if rest[0] > latest then rest[0] else latest, rest[1..]);
      forall i | 0 <= i < |rest|
        ensures MostRecent(latest, rest) >= rest[i]
      {
        if i > 0 {
          assert rest[i] == rest[1..][i - 1];
        }
      }
    }
  }

  /** `latest` is the largest of these times. */
  predicate IsLatest(created: seq<int>, latest: int) {
    latest in created && forall i :: 0 <= i < |created| ==> created[i] <= latest
  }

  /**
   * What a refusal means: the window before the first clock read holds the allowed number of creations,
   * and the second read is not yet past the latest creation plus the cooldown, which is the time named.
   */
  lemma CheckMeaning(limiter: Limiter, created: seq<int>, t1: int, t2: int, at: int)
    requires limiter.maxAttempts >= 1
    ensures Check(limiter, created, t1, t2) == Refused(at)
       <==> (|Filter(After(t1 - limiter.window), created)| >= limiter.maxAttempts
             && IsLatest(created, at - limiter.cooldown) && t2 <= at)
  {
    hide Filter, MostRecent;
    var since := After(t1 - limiter.window);
    var recent := Filter(since, created);
    FilterMembers(since, created);
    if |recent| >= limiter.maxAttempts {
      var latest := MostRecent(recent[0], recent);
      MostRecentBounds(recent[0], recent);
      assert recent[0] in recent && latest in recent;
      assert IsLatest(created, latest) by {
        forall i | 0 <= i < |created|
          ensures created[i] <= latest
        {
          if since(created[i]) {
            assert created[i] in recent;
            var j :| 0 <= j < |recent| && recent[j] == created[i];
          }
        }
      }
      if IsLatest(created, at - limiter.cooldown) {
        var i :| 0 <= i < |created| && created[i] == latest;
        var j :| 0 <= j < |created| && created[j] == at - limiter.cooldown;
      }
    }
  }

  /** An email code is refused exactly when five or more were made in the last half hour and the last is at most two hours old. */
  lemma EmailCheckExact(created: seq<int>, t1: int, t2: int, at: int)
    ensures Check(EMAIL_LIMITER, created, t1, t2) == Refused(at)
       <==> (|Filter(After(t1 - 1_800_000), created)| >= 5 && IsLatest(created, at - 7_200_000) && t2 <= at)
  {
    CheckMeaning(EMAIL_LIMITER, created, t1, t2, at);
  }

  /** A challenge exactly when five or more were made in the last day and the last is at most half an hour old. */
  lemma VerificationCheckExact(created: seq<int>, t1: int, t2: int, at: int)
    ensures Check(VERIFICATION_LIMITER, created, t1, t2) == Refused(at)
       <==> (|Filter(After(t1 - 86_400_000), created)| >= 5 && IsLatest(created, at - 1_800_000) && t2 <= at)
  {
    CheckMeaning(VERIFICATION_LIMITER, created, t1, t2, at);
  }

  /** Creation times older than the window never matter, so removing some of them changes no decision. */
  lemma OldTimesDoNotMatter(limiter: Limiter, created: seq<int>, keep: int -> bool, t1: int, t2: int)
    requires forall c :: c in created && !keep(c) ==> c <= t1 - limiter.window
    ensures Check(limiter, Filter(keep, created), t1, t2) == Check(limiter, created, t1, t2)
  {
    FilterAbsorb(keep, After(t1 - limiter.window), created);
  }

  lemma {:induction false} FewerRecent(created: seq<int>, t: int, later: int)
    requires t <= later
    ensures |Filter(After(later), created)| <= |Filter(After(t), created)|
    ensures Filter(After(later), created) == Filter(After(later), Filter(After(t), created))
  {
    FilterAbsorb(After(t), After(later), created);
    FilterMembers(After(later), Filter(After(t), created));
  }

  /** With no further creation, every request strictly after `nextAttemptAllowedAt` is allowed. */
  lemma RefusalEnds(limiter: Limiter, created: seq<int>, t1: int, t2: int, later1: int, later2: int)
    requires Check(limiter, created, t1, t2).Refused?
    requires t1 <= later1 && Check(limiter, created, t1, t2).nextAttemptAllowedAt < later2
    ensures Check(limiter, created, later1, later2).Allowed?
  {
    hide Filter, MostRecent;
    var earlier, recent := Filter(After(t1 - limiter.window), created), Filter(After(later1 - limiter.window), created);
    FewerRecent(created, t1 - limiter.window, later1 - limiter.window);
    if recent != [] {
      FilterMembers(After(later1 - limiter.window), earlier);
      MostRecentBounds(earlier[0], earlier);
      MostRecentBounds(recent[0], recent);
      assert recent[0] in recent;
      assert MostRecent(recent[0], recent) in recent;
      var i :| 0 <= i < |earlier| && earlier[i] == MostRecent(recent[0], recent);
    }
  }

  // ----- the bound

  predicate NonDecreasing(s: seq<int>) {
    forall i, j :: 0 <= i <= j < |s| ==> s[i] <= s[j]
  }

  /** Once a window holds the allowed number, the next creation in it comes after a full cooldown. */
  predicate Spaced(limiter: Limiter, created: seq<int>) {
    forall k :: limiter.maxAttempts <= k < |created| && k > 0 && created[k - limiter.maxAttempts] > created[k] - limiter.window ==>
      created[k] > created[k - 1] + limiter.cooldown
  }

  /** The last max creations of a non-decreasing list are all among the recent ones. */
  lemma {:induction false} RecentSuffix(created: seq<int>, threshold: int, n: nat)
    requires NonDecreasing(created) && n <= |created|
    requires n > 0 ==> created[|created| - n] > threshold
    ensures |Filter(After(threshold), created)| >= n
    ensures n > 0 ==> Filter(After(threshold), created)[|Filter(After(threshold), created)| - 1] == created[|created| - 1]
  {
    if created != [] {
      if n == |created| {
        RecentSuffix(created[1..], threshold, n - 1);
      } else {
        RecentSuffix(created[1..], threshold, n);
      }
    }
  }

  /** `some` is `all` with some entries left out. */
  predicate Embeds(all: seq<int>, some: seq<int>)
    decreases all
  {
    if all == [] then some == []
    else (some != [] && some[0] == all[0] && Embeds(all[1..], some[1..])) || Embeds(all[1..], some)
  }

  lemma {:induction false} EmbedsAppend(all: seq<int>, some: seq<int>, x: int)
    requires Embeds(all, some)
    ensures Embeds(all + [x], some) && Embeds(all + [x], some + [x])
    decreases all
  {
    if all == [] {
      assert [x][1..] == [] && [] + [x] == [x];
    } else {
      assert (all + [x])[1..] == all[1..] + [x];
      if some != [] && some[0] == all[0] && Embeds(all[1..], some[1..]) {
        EmbedsAppend(all[1..], some[1..], x);
        assert (some + [x])[1..] == some[1..] + [x];
      } else {
        EmbedsAppend(all[1..], some, x);
      }
    }
  }

  lemma {:induction false} EmbedsFilter(all: seq<int>, some: seq<int>, keep: int -> bool)
    requires Embeds(all, some)
    ensures |Filter(keep, some)| <= |Filter(keep, all)|
    ensures forall x :: x in some ==> x in all
    decreases all
  {
    if all != [] {
      if some != [] && some[0] == all[0] && Embeds(all[1..], some[1..]) {
        EmbedsFilter(all[1..], some[1..], keep);
        assert forall x :: x in some ==> x == some[0] || x in some[1..];
      } else {
        EmbedsFilter(all[1..], some, keep);
      }
    }
  }

  /**
   * A creation the limiter allowed keeps the gated creations in order and spaced, whatever other
   * creations there are among those it counts.
   */
  lemma SpacedNext(limiter: Limiter, all: seq<int>, gated: seq<int>, t1: int, t2: int, t3: int)
    requires limiter.maxAttempts >= 1
    requires NonDecreasing(gated) && Spaced(limiter, gated) && Embeds(all, gated)
    requires t1 <= t2 <= t3 && (gated == [] || gated[|gated| - 1] <= t1)
    requires Check(limiter, all, t1, t2).Allowed?
    ensures NonDecreasing(gated + [t3]) && Spaced(limiter, gated + [t3])
  {
    hide Filter, MostRecent, Embeds;
    var after := gated + [t3];
    var k := |gated|;
    if k >= limiter.maxAttempts && after[k - limiter.maxAttempts] > t3 - limiter.window {
      var since := After(t1 - limiter.window);
      RecentSuffix(gated, t1 - limiter.window, limiter.maxAttempts);
      EmbedsFilter(all, gated, since);
      FilterMembers(since, all);
      var recent := Filter(since, all);
      assert gated[k - 1] >= gated[k - limiter.maxAttempts];
      assert gated[k - 1] in gated;
      MostRecentBounds(recent[0], recent);
      var i :| 0 <= i < |recent| && recent[i] == gated[k - 1];
    }
  }

  lemma InOrder(s: seq<int>, i: nat, j: nat)
    requires NonDecreasing(s) && i <= j < |s|
    ensures s[i] <= s[j]
  {
  }

  lemma OneMore(n: int, d: int)
    ensures n * d == (n - 1) * d + d
  {
  }

  /** From the max-th creation of a block on, each is a cooldown after the one before. */
  lemma {:induction false} BlockSpan(limiter: Limiter, created: seq<int>, a: nat, b: nat)
    requires limiter.maxAttempts >= 1 && NonDecreasing(created) && Spaced(limiter, created)
    requires a + limiter.maxAttempts <= b <= |created|
    requires created[b - 1] - created[a] < limiter.window
    ensures created[b - 1] - created[a + limiter.maxAttempts - 1] >= (b - a - limiter.maxAttempts) * (limiter.cooldown + 1)
    decreases b
  {
    hide NonDecreasing, Spaced;
    if b > a + limiter.maxAttempts {
      InOrder(created, b - 2, b - 1);
      InOrder(created, a, b - 1 - limiter.maxAttempts);
      BlockSpan(limiter, created, a, b - 1);
      SpacedAt(limiter, created, b - 1);
      OneMore(b - a - limiter.maxAttempts, limiter.cooldown + 1);
    }
  }

  lemma SpacedAt(limiter: Limiter, created: seq<int>, k: nat)
    requires Spaced(limiter, created) && limiter.maxAttempts <= k < |created| && k > 0
    requires created[k - limiter.maxAttempts] > created[k] - limiter.window
    ensures created[k] > created[k - 1] + limiter.cooldown
  {
  }

  function Within(limiter: Limiter, end: int): int -> bool {
    created => end - limiter.window < created <= end
  }

  /** In a non-decreasing list the entries of a window are consecutive. */
  lemma {:induction false} WindowIsBlock(limiter: Limiter, created: seq<int>, end: int) returns (a: nat, b: nat)
    requires NonDecreasing(created)
    ensures a <= b <= |created| && Filter(Within(limiter, end), created) == created[a..b]
  {
    var n := |created|;
    if n == 0 {
      a, b := 0, 0;
    } else {
      a, b := WindowIsBlock(limiter, created[..n - 1], end);
      FilterAppend(Within(limiter, end), created[..n - 1], [created[n - 1]]);
      assert created == created[..n - 1] + [created[n - 1]];
      if Within(limiter, end)(created[n - 1]) {
        if a == b {
          a, b := n - 1, n;
        } else {
          BlockReachesEnd(limiter, created[..n - 1], end, a, b);
          b := n;
        }
      }
    }
  }

  lemma BlockReachesEnd(limiter: Limiter, created: seq<int>, end: int, a: nat, b: nat)
    requires NonDecreasing(created) && a < b <= |created| && Filter(Within(limiter, end), created) == created[a..b]
    requires forall i :: 0 <= i < |created| ==> created[i] <= end
    ensures b == |created|
  {
    hide Filter;
    var within := Within(limiter, end);
    FilterElements(within, created);
    assert created[a..b][0] == created[a];
    assert within(created[a]);
    forall i | 0 <= i < |created[a..]|
      ensures within(created[a..][i])
    {
      assert created[a..][i] == created[a + i] >= created[a];
    }
    FilterAll(within, created[a..]);
    assert created == created[..a] + created[a..];
    FilterAppend(within, created[..a], created[a..]);
  }

  /** The rate-limit bound: n creations in one window fit `maxAttempts`, or leave room for the cooldowns. */
  lemma WindowBound(limiter: Limiter, created: seq<int>, end: int)
    requires limiter.maxAttempts >= 1 && NonDecreasing(created) && Spaced(limiter, created)
    ensures var n := |Filter(Within(limiter, end), created)|;
            n <= limiter.maxAttempts || (n - limiter.maxAttempts) * (limiter.cooldown + 1) <= limiter.window - 1
  {
    hide Filter;
    var a, b := WindowIsBlock(limiter, created, end);
    var n := b - a;
    if n > limiter.maxAttempts {
      FilterElements(Within(limiter, end), created);
      assert Within(limiter, end)(created[a..b][0]) && Within(limiter, end)(created[a..b][n - 1]);
      BlockSpan(limiter, created, a, b);
      assert created[a + limiter.maxAttempts - 1] >= created[a];
    }
  }

  /** At most five email codes per user in any 30 minutes: the cooldown is longer than the window. */
  lemma EmailBound(created: seq<int>, end: int)
    requires NonDecreasing(created) && Spaced(EMAIL_LIMITER, created)
    ensures |Filter(Within(EMAIL_LIMITER, end), created)| <= 5
  {
    WindowBound(EMAIL_LIMITER, created, end);
  }

  /** At most 52 verification challenges per user and address in any 24 hours. */
  lemma VerificationBound(created: seq<int>, end: int)
    requires NonDecreasing(created) && Spaced(VERIFICATION_LIMITER, created)
    ensures |Filter(Within(VERIFICATION_LIMITER, end), created)| <= 52
  {
    WindowBound(VERIFICATION_LIMITER, created, end);
  }
}
