/**
 * Listing and purging invites (api/src/couchdb/invites.ts): paging a query by `skip`, merging the
 * quick-share view into a project's invites, and deleting every invite of a project.
 */
module Invites {
  import opened Prelude

  datatype Resource = NoResource | Project(id: string) | Team(id: string)

  datatype Invite = Invite(id: string, resource: Resource, quickShare: bool)

  const INVITE_FIND_PAGE_SIZE: nat := 200

  type Selector = Invite -> bool

  function OfResource(resource: Resource): Selector {
    (invite: Invite) => invite.resource == resource
  }

  /** The rows of the `quickShares` view under the project's key, design documents left out. */
  function QuickShareOf(projectId: string): Selector {
    (invite: Invite) => invite.quickShare && invite.resource == Project(projectId) && projectId != "" && !("_" <= invite.id)
  }

  predicate DistinctIds(docs: seq<Invite>) {
    forall i, j :: 0 <= i < j < |docs| ==> docs[i].id != docs[j].id
  }

  function NotIn(ids: set<string>): Selector {
    (invite: Invite) => invite.id !in ids
  }

  function IdsOf(docs: seq<Invite>): set<string> {
    set i | 0 <= i < |docs| :: docs[i].id
  }

  function Merge(invites: seq<Invite>, quickShares: seq<Invite>): seq<Invite> {
    Filter(NotIn(IdsOf(quickShares)), invites) + quickShares
  }

  /** One page of a Mango query. */
  function Page(matches: seq<Invite>, skip: nat, limit: nat): seq<Invite> {
    if skip >= |matches| then [] else matches[skip..Min(|matches|, skip + limit)]
  }

  // ----- paging by skip while the store may change

  function At(snaps: seq<seq<Invite>>, k: nat): seq<Invite>
    requires |snaps| > 0
  {
    if k < |snaps| then snaps[k] else snaps[|snaps| - 1]
  }

  /** The matches the k-th query finds in the store as it is then. */
  function Matches(snaps: seq<seq<Invite>>, selector: Selector, k: nat): seq<Invite>
    requires |snaps| > 0
  {
    Filter(selector, At(snaps, k))
  }

  function PageOf(snaps: seq<seq<Invite>>, selector: Selector, k: nat): seq<Invite>
    requires |snaps| > 0
  {
    Page(Matches(snaps, selector, k), k * INVITE_FIND_PAGE_SIZE, INVITE_FIND_PAGE_SIZE)
  }

  /** The first n pages together. */
  function Pages(snaps: seq<seq<Invite>>, selector: Selector, n: nat): seq<Invite>
    requires |snaps| > 0
  {
    if n == 0 then [] else Pages(snaps, selector, n - 1) + PageOf(snaps, selector, n - 1)
  }

  predicate HasId(docs: seq<Invite>, id: string) {
    exists i :: 0 <= i < |docs| && docs[i].id == id
  }

  /** Some page has the match when it is fetched: in [skip, skip + 200). */
  predicate OnSomePage(snaps: seq<seq<Invite>>, selector: Selector, n: nat, id: string)
    requires |snaps| > 0
  {
    exists k: nat :: k < n && HasId(PageOf(snaps, selector, k), id)
  }

  /** A page is the matches from skip up to skip + limit. */
  lemma PageMeaning(matches: seq<Invite>, skip: nat, limit: nat, id: string)
    ensures HasId(Page(matches, skip, limit), id)
       <==> exists i :: skip <= i < skip + limit && i < |matches| && matches[i].id == id
  {
    var page := Page(matches, skip, limit);
    if i :| 0 <= i < |page| && page[i].id == id {
      assert matches[skip + i].id == id;
    }
    if i :| skip <= i < skip + limit && i < |matches| && matches[i].id == id {
      assert page[i - skip].id == id;
    }
  }

  lemma HasIdAppend(a: seq<Invite>, b: seq<Invite>, id: string)
    ensures HasId(a + b, id) <==> HasId(a, id) || HasId(b, id)
  {
    if i :| 0 <= i < |a| && a[i].id == id {
      assert (a + b)[i].id == id;
    }
    if i :| 0 <= i < |b| && b[i].id == id {
      assert (a + b)[|a| + i].id == id;
    }
  }

  lemma {:induction false} PagesMeaning(snaps: seq<seq<Invite>>, selector: Selector, n: nat, id: string)
    requires |snaps| > 0
    ensures HasId(Pages(snaps, selector, n), id) <==> OnSomePage(snaps, selector, n, id)
  {
    hide HasId, PageOf;
    if n > 0 {
      PagesMeaning(snaps, selector, n - 1, id);
      HasIdAppend(Pages(snaps, selector, n - 1), PageOf(snaps, selector, n - 1), id);
    } else {
      NoId(id);
    }
  }

  lemma NoId(id: string)
    ensures !HasId([], id)
  {
  }

  /** Two listings in the same order: shared ids come in the same sequence. */
  predicate SameOrder(a: seq<Invite>, b: seq<Invite>) {
    forall i, j, k, m :: 0 <= i < j < |a| && 0 <= k < |b| && 0 <= m < |b| && a[i].id == b[k].id && a[j].id == b[m].id ==> k < m
  }

  /** No match before n disappears, and the order stays. */
  predicate KeepsFirst(now: seq<Invite>, next: seq<Invite>, n: nat) {
    DistinctIds(now) && SameOrder(now, next) && forall i :: 0 <= i < |now| && i < n ==> HasId(next, now[i].id)
  }

  /** Between consecutive queries no match before the next skip disappears. */
  predicate Steady(snaps: seq<seq<Invite>>, selector: Selector, n: nat)
    requires |snaps| > 0
  {
    forall k: nat :: k + 1 < n ==>
      KeepsFirst(Matches(snaps, selector, k), Matches(snaps, selector, k + 1), (k + 1) * INVITE_FIND_PAGE_SIZE)
  }

  lemma {:induction false} IdsCount(docs: seq<Invite>)
    ensures |IdsOf(docs)| <= |docs|
    ensures DistinctIds(docs) ==> |IdsOf(docs)| == |docs|
  {
    if docs != [] {
      var n := |docs| - 1;
      IdsCount(docs[..n]);
      assert IdsOf(docs) == IdsOf(docs[..n]) + {docs[n].id};
    }
  }

  /** A match at or behind n, with everything before n still before it, stays at or behind n. */
  lemma NoFallingBack(now: seq<Invite>, next: seq<Invite>, n: nat, i: nat, j: nat)
    requires DistinctIds(now) && SameOrder(now, next) && n <= i < |now| && j < |next| && now[i].id == next[j].id
    requires forall k :: 0 <= k < n ==> HasId(next, now[k].id)
    ensures j >= n
  {
    IdsCount(now[..n]);
    IdsCount(next[..j]);
    forall id | id in IdsOf(now[..n])
      ensures id in IdsOf(next[..j])
    {
      var k :| 0 <= k < n && now[k].id == id;
      var m :| 0 <= m < |next| && next[m].id == now[k].id;
      assert next[..j][m].id == id;
    }
    Subset(IdsOf(now[..n]), IdsOf(next[..j]));
  }

  lemma Subset(a: set<string>, b: set<string>)
    requires a <= b
    ensures |a| <= |b|
  {
    assert b == a + (b - a);
  }

  /** A match present throughout is on one of the first n pages, or still behind them. */
  lemma {:induction false} FoundOrBehind(snaps: seq<seq<Invite>>, selector: Selector, n: nat, id: string) returns (i: nat)
    requires |snaps| > 0 && n > 0 && Steady(snaps, selector, n)
    requires forall k: nat :: k < n ==> HasId(Matches(snaps, selector, k), id)
    ensures i < |Matches(snaps, selector, n - 1)| && Matches(snaps, selector, n - 1)[i].id == id
    ensures OnSomePage(snaps, selector, n, id) || i >= n * INVITE_FIND_PAGE_SIZE
  {
    var matches := Matches(snaps, selector, n - 1);
    i :| 0 <= i < |matches| && matches[i].id == id;
    PageMeaning(matches, (n - 1) * INVITE_FIND_PAGE_SIZE, INVITE_FIND_PAGE_SIZE, id);
    if n > 1 {
      var before := FoundOrBehind(snaps, selector, n - 1, id);
      if !OnSomePage(snaps, selector, n - 1, id) {
        assert KeepsFirst(Matches(snaps, selector, n - 2), Matches(snaps, selector, n - 2 + 1), (n - 2 + 1) * INVITE_FIND_PAGE_SIZE);
        NoFallingBack(Matches(snaps, selector, n - 2), matches, (n - 1) * INVITE_FIND_PAGE_SIZE, before, i);
      }
    }
    if i < n * INVITE_FIND_PAGE_SIZE && !(n > 1 && OnSomePage(snaps, selector, n - 1, id)) {
      assert HasId(PageOf(snaps, selector, n - 1), id);
    }
  }

  /** Which matches the pages have: all that match throughout, if the listing is steady and the last page short. */
  lemma AllPages(snaps: seq<seq<Invite>>, selector: Selector, n: nat)
    requires |snaps| > 0 && n > 0 && |PageOf(snaps, selector, n - 1)| < INVITE_FIND_PAGE_SIZE
    ensures forall id :: HasId(Pages(snaps, selector, n), id) <==> OnSomePage(snaps, selector, n, id)
    ensures Steady(snaps, selector, n) ==>
      forall id :: (forall k: nat :: k < n ==> HasId(Matches(snaps, selector, k), id)) ==> HasId(Pages(snaps, selector, n), id)
  {
    hide Filter, Steady, OnSomePage, HasId;
    forall id
      ensures HasId(Pages(snaps, selector, n), id) <==> OnSomePage(snaps, selector, n, id)
    {
      PagesMeaning(snaps, selector, n, id);
    }
    if Steady(snaps, selector, n) {
      forall id | forall k: nat :: k < n ==> HasId(Matches(snaps, selector, k), id)
        ensures HasId(Pages(snaps, selector, n), id)
      {
        var i := FoundOrBehind(snaps, selector, n, id);
      }
    }
  }

  /** A quiet store is listed once and in order. */
  lemma {:induction false} QuietPages(docs: seq<Invite>, selector: Selector, n: nat)
    ensures Pages([docs], selector, n) == Filter(selector, docs)[..Min(n * INVITE_FIND_PAGE_SIZE, |Filter(selector, docs)|)]
  {
    hide Filter;
    if n > 0 {
      QuietPages(docs, selector, n - 1);
      NextPage(Filter(selector, docs), (n - 1) * INVITE_FIND_PAGE_SIZE, INVITE_FIND_PAGE_SIZE);
      assert At([docs], n - 1) == docs;
    }
  }

  lemma NextPage(matches: seq<Invite>, skip: nat, limit: nat)
    ensures matches[..Min(skip, |matches|)] + Page(matches, skip, limit) == matches[..Min(skip + limit, |matches|)]
  {
  }

  /**
   * The loop of `findEveryInvite`, the k-th query seeing the k-th snapshot and the last one staying.
   * A match is returned if and only if some page has it in [skip, skip + 200) when it is fetched; so
   * nothing that matches throughout is missed when no match before a skip disappears; and on a store
   * that does not change, everything is returned once, in order.
   */
  method FindEvery(snaps: seq<seq<Invite>>, selector: Selector) returns (found: seq<Invite>, ghost pages: nat)
    requires |snaps| > 0
    ensures pages > 0 && |PageOf(snaps, selector, pages - 1)| < INVITE_FIND_PAGE_SIZE
    ensures forall id :: HasId(found, id) <==> OnSomePage(snaps, selector, pages, id)
    ensures Steady(snaps, selector, pages) ==>
      forall id :: (forall k: nat :: k < pages ==> HasId(Matches(snaps, selector, k), id)) ==> HasId(found, id)
    ensures |snaps| == 1 ==> found == Filter(selector, snaps[0])
    ensures |snaps| == 1 ==> pages == |Filter(selector, snaps[0])| / INVITE_FIND_PAGE_SIZE + 1
  {
    hide Filter, Steady, OnSomePage, HasId;
    found, pages := [], 0;
    var k, skip := 0, 0;
    while true
      invariant pages == k && skip == k * INVITE_FIND_PAGE_SIZE && found == Pages(snaps, selector, k)
      invariant k > 0 ==> |PageOf(snaps, selector, k - 1)| == INVITE_FIND_PAGE_SIZE
      decreases Max(0, |snaps| - k), |snaps[|snaps| - 1]| + 1 - Min(skip, |snaps[|snaps| - 1]| + 1)
    {
      var page := Page(Filter(selector, At(snaps, k)), skip, INVITE_FIND_PAGE_SIZE);
      found := found + page;
      pages := pages + 1;
      if |page| < INVITE_FIND_PAGE_SIZE {
        break;
      }
      FilterMembers(selector, At(snaps, k));
      skip := skip + |page|;
      k := k + 1;
    }
    AllPages(snaps, selector, pages);
    if |snaps| == 1 {
      assert snaps == [snaps[0]];
      QuietPages(snaps[0], selector, pages);
      QuietPages(snaps[0], selector, pages - 1);
    }
  }

  // ----- the merge

  lemma FilterDistinct(test: Selector, docs: seq<Invite>)
    requires DistinctIds(docs)
    ensures DistinctIds(Filter(test, docs))
    ensures forall i :: 0 <= i < |Filter(test, docs)| ==> Filter(test, docs)[i] in docs && test(Filter(test, docs)[i])
  {
    hide Filter;
    var places := FilterOrigins(test, docs);
    FilterElements(test, docs);
  }

  /** With distinct ids, a list is a set. */
  lemma {:induction false} CountAtMostOne(docs: seq<Invite>, invite: Invite)
    requires DistinctIds(docs)
    ensures multiset(docs)[invite] == if invite in docs then 1 else 0
  {
    if docs != [] {
      CountAtMostOne(docs[1..], invite);
      assert docs == [docs[0]] + docs[1..];
      assert multiset(docs) == multiset([docs[0]]) + multiset(docs[1..]);
      if invite == docs[0] {
        assert invite !in docs[1..];
      }
    }
  }

  /** Both lists come from one store: equal ids mean equal documents. */
  predicate OneStore(a: seq<Invite>, b: seq<Invite>) {
    forall i, j :: 0 <= i < |a| && 0 <= j < |b| && a[i].id == b[j].id ==> a[i] == b[j]
  }

  /**
   * The merge is a rearrangement of the queried invites, without duplicates, exactly when the view
   * returns nothing that the query does not.
   */
  lemma MergeExact(invites: seq<Invite>, quickShares: seq<Invite>)
    requires DistinctIds(invites) && DistinctIds(quickShares) && OneStore(invites, quickShares)
    ensures DistinctIds(Merge(invites, quickShares))
    ensures multiset(Merge(invites, quickShares)) == multiset(invites) <==> (forall q :: q in quickShares ==> q in invites)
  {
    var ids, merged := IdsOf(quickShares), Merge(invites, quickShares);
    var others := Filter(NotIn(ids), invites);
    FilterDistinct(NotIn(ids), invites);
    FilterMembers(NotIn(ids), invites);
    MergeDistinct(others, quickShares);
    if forall q :: q in quickShares ==> q in invites {
      forall invite
        ensures multiset(merged)[invite] == multiset(invites)[invite]
      {
        CountAtMostOne(merged, invite);
        CountAtMostOne(invites, invite);
        if invite in invites && invite.id in ids {
          var j :| 0 <= j < |quickShares| && quickShares[j].id == invite.id;
          assert invite == quickShares[j];
        }
      }
    }
    if multiset(merged) == multiset(invites) {
      forall q | q in quickShares
        ensures q in invites
      {
        assert q in merged;
        assert q in multiset(merged);
      }
    }
  }

  lemma MergeDistinct(others: seq<Invite>, quickShares: seq<Invite>)
    requires DistinctIds(others) && DistinctIds(quickShares)
    requires forall i :: 0 <= i < |others| ==> others[i].id !in IdsOf(quickShares)
    ensures DistinctIds(others + quickShares)
  {
  }

  // ----- the store

  class InvitesDb {
    var docs: seq<Invite>

    constructor (docs: seq<Invite>)
      ensures this.docs == docs
    {
      this.docs := docs;
    }

    /** `findEveryInvite` on a store that nothing else changes; `pages` counts the queries. */
    method FindEveryInvite(selector: Selector) returns (found: seq<Invite>, ghost pages: nat)
      ensures found == Filter(selector, docs)
      ensures pages == |Filter(selector, docs)| / INVITE_FIND_PAGE_SIZE + 1
    {
      found, pages := FindEvery([docs], selector);
    }

    /** `getProjectInvites`. */
    method GetProjectInvites(projectId: string) returns (all: seq<Invite>)
      requires DistinctIds(docs)
      ensures multiset(all) == multiset(Filter(OfResource(Project(projectId)), docs)) && DistinctIds(all)
    {
      var invites, _ := FindEveryInvite(OfResource(Project(projectId)));
      var quickShares := Filter(QuickShareOf(projectId), docs);
      all := Filter(NotIn(IdsOf(quickShares)), invites) + quickShares;
      FilterDistinct(OfResource(Project(projectId)), docs);
      FilterDistinct(QuickShareOf(projectId), docs);
      FilterMembers(OfResource(Project(projectId)), docs);
      assert OneStore(invites, quickShares) by {
        SameStore(docs, invites, quickShares);
      }
      MergeExact(invites, quickShares);
    }

    /** `deleteInvite`: false for the not-found exception. */
    method DeleteInvite(invite: Invite) returns (ok: bool)
      modifies this
      ensures ok <==> exists i :: 0 <= i < |old(docs)| && old(docs)[i].id == invite.id
      ensures docs == Filter(NotIn({invite.id}), old(docs))
    {
      var found := Filter((doc: Invite) => doc.id == invite.id, docs);
      Partition(docs, invite.id);
      docs := Filter(NotIn({invite.id}), docs);
      ok := |found| > 0;
    }

    /** `deleteAllInvitesForProject`: never meets the not-found exception, and leaves exactly the other invites. */
    method DeleteAllInvitesForProject(projectId: string) returns (threw: bool)
      requires DistinctIds(docs)
      modifies this
      ensures !threw
      ensures docs == Filter((invite: Invite) => invite.resource != Project(projectId), old(docs))
    {
      hide Filter, DistinctIds;
      threw := false;
      var invites := GetProjectInvites(projectId);
      ghost var gone: set<string> := {};
      NothingGone(docs);
      for i := 0 to |invites|
        invariant !threw && docs == Filter(NotIn(gone), old(docs)) && gone == IdsOf(invites[..i])
      {
        StillThere(old(docs), projectId, invites, i);
        FilterMembers(NotIn(gone), old(docs));
        assert invites[i] in docs;
        var ok := DeleteInvite(invites[i]);
        if !ok {
          threw := true;
          break;
        }
        DropOneMore(old(docs), gone, invites[i].id);
        gone := gone + {invites[i].id};
        assert invites[..i + 1] == invites[..i] + [invites[i]];
      }
      assert invites[..|invites|] == invites;
      AllGone(old(docs), projectId, invites);
    }
  }

  lemma SameStore(docs: seq<Invite>, a: seq<Invite>, b: seq<Invite>)
    requires DistinctIds(docs)
    requires forall i :: 0 <= i < |a| ==> a[i] in docs
    requires forall i :: 0 <= i < |b| ==> b[i] in docs
    ensures OneStore(a, b)
  {
  }

  lemma {:induction false} Partition(docs: seq<Invite>, id: string)
    ensures |Filter((doc: Invite) => doc.id == id, docs)| > 0 <==> exists i :: 0 <= i < |docs| && docs[i].id == id
  {
    if docs != [] {
      Partition(docs[1..], id);
      if i :| 0 <= i < |docs| && docs[i].id == id {
        if i > 0 {
          assert docs[1..][i - 1].id == id;
        }
      }
    }
  }

  lemma NothingGone(docs: seq<Invite>)
    ensures Filter(NotIn({}), docs) == docs
  {
    FilterAll(NotIn({}), docs);
  }

  /** The next invite of the list has not been deleted yet. */
  lemma StillThere(docs: seq<Invite>, projectId: string, invites: seq<Invite>, i: nat)
    requires i < |invites| && DistinctIds(invites) && multiset(invites) == multiset(Filter(OfResource(Project(projectId)), docs))
    ensures invites[i] in docs && invites[i].id !in IdsOf(invites[..i])
  {
    FilterMembers(OfResource(Project(projectId)), docs);
    assert invites[i] in multiset(invites);
  }

  lemma DropOneMore(docs: seq<Invite>, gone: set<string>, id: string)
    ensures Filter(NotIn({id}), Filter(NotIn(gone), docs)) == Filter(NotIn(gone + {id}), docs)
  {
    FilterAbsorb(NotIn(gone), NotIn(gone + {id}), docs);
    FilterMembers(NotIn(gone), docs);
    FilterCongruence(NotIn({id}), NotIn(gone + {id}), Filter(NotIn(gone), docs));
  }

  lemma AllGone(docs: seq<Invite>, projectId: string, invites: seq<Invite>)
    requires DistinctIds(docs) && multiset(invites) == multiset(Filter(OfResource(Project(projectId)), docs))
    ensures Filter(NotIn(IdsOf(invites)), docs) == Filter((invite: Invite) => invite.resource != Project(projectId), docs)
  {
    var matches := Filter(OfResource(Project(projectId)), docs);
    FilterMembers(OfResource(Project(projectId)), docs);
    forall doc | doc in docs
      ensures doc.id in IdsOf(invites) <==> doc.resource == Project(projectId)
    {
      if doc.resource == Project(projectId) {
        assert doc in multiset(matches);
        assert doc in invites;
      }
      if doc.id in IdsOf(invites) {
        var j :| 0 <= j < |invites| && invites[j].id == doc.id;
        assert invites[j] in multiset(invites);
        assert invites[j] in matches;
        assert invites[j] == doc;
      }
    }
    FilterCongruence(NotIn(IdsOf(invites)), (invite: Invite) => invite.resource != Project(projectId), docs);
  }

  lemma DistinctAt(docs: seq<Invite>, n: nat)
    requires DistinctIds(docs) && n < |docs|
    ensures forall i :: 0 <= i < |docs| && i != n ==> docs[i].id != docs[n].id
  {
  }

  /**
   * One deletion, of the match at index d, between the first query and the second: the match at the
   * page boundary is on neither page exactly when d lies before it.
   */
  lemma DeletionHidesExactly(matches: seq<Invite>, d: nat)
    requires d < |matches| && INVITE_FIND_PAGE_SIZE < |matches| && d != INVITE_FIND_PAGE_SIZE && DistinctIds(matches)
    ensures var left, hidden := matches[..d] + matches[d + 1..], matches[INVITE_FIND_PAGE_SIZE].id;
            && HasId(left, hidden)
            && (!OnSomePage([matches, left], (invite: Invite) => true, 2, hidden) <==> d < INVITE_FIND_PAGE_SIZE)
  {
    hide Filter, DistinctIds;
    var left, n := matches[..d] + matches[d + 1..], INVITE_FIND_PAGE_SIZE;
    DistinctAt(matches, n);
    var all := (invite: Invite) => true;
    var hidden := matches[n].id;
    FilterAll(all, matches);
    FilterAll(all, left);
    assert forall i :: 0 <= i < |left| ==> left[i] == if i < d then matches[i] else matches[i + 1];
    assert left[if d < n then n - 1 else n].id == hidden;
    PageMeaning(matches, 0, n, hidden);
    PageMeaning(left, n, n, hidden);
    assert PageOf([matches, left], all, 0) == Page(matches, 0, n);
    assert PageOf([matches, left], all, 1) == Page(left, n, n);
    if d > n {
      assert left[n].id == hidden;
      assert HasId(PageOf([matches, left], all, 1), hidden);
    }
  }
}
