/**
 * Inclusive-startkey pagination over a keyspace that changes between pages
 * (`paginateByStartkey` and its two fetch adapters in api/src/couchdb/ttlCleanup.ts).
 * Row ids stand for their position in the store's collation order.
 */
module Paging {
  import opened Prelude

  datatype Content<D> = Document(doc: D) | DesignDocument(doc: D) | NoDocument
  datatype Row<D> = Row(id: nat, content: Content<D>)

  /** What the store lists at one moment, in key order. */
  predicate Sorted<D>(rows: seq<Row<D>>) {
    forall i, j :: 0 <= i < j < |rows| ==> rows[i].id < rows[j].id
  }

  /** Which adapter fetches: the auth views, or `allDocs` of the invites database. */
  datatype Source = AuthView | InvitesAllDocs

  function OverFetch(source: Source): nat {
    if source.AuthView? then 0 else 10
  }

  predicate HasDoc<D>(row: Row<D>) {
    !row.content.NoDocument?
  }

  /** Rows the adapter hands on: with a document and, for invites, not a design document. */
  predicate Kept<D>(source: Source, row: Row<D>) {
    HasDoc(row) && (source.InvitesAllDocs? ==> !row.content.DesignDocument?)
  }

  predicate Beyond(id: nat, lo: Option<nat>) {
    lo.Some? ==> lo.value < id
  }

  function KeptTest<D>(source: Source): Row<D> -> bool {
    row => Kept(source, row)
  }

  function UnkeptTest<D>(source: Source): Row<D> -> bool {
    (row: Row<D>) => !Kept(source, row)
  }

  function DocTest<D>(): Row<D> -> bool {
    row => HasDoc(row)
  }

  function RangeTest<D>(source: Source, lo: Option<nat>, hi: Option<nat>): Row<D> -> bool {
    row => Kept(source, row) && Beyond(row.id, lo) && (hi.Some? ==> row.id <= hi.value)
  }

  /** The kept rows with lo < id <= hi; an absent bound does not restrict. */
  function Between<D>(source: Source, rows: seq<Row<D>>, lo: Option<nat>, hi: Option<nat>): seq<Row<D>> {
    Filter(RangeTest(source, lo, hi), rows)
  }

  /** The rows from an inclusive startkey on. */
  function FromKey<D>(rows: seq<Row<D>>, startkey: Option<nat>): seq<Row<D>> {
    if rows == [] || startkey.None? || rows[0].id >= startkey.value then rows else FromKey(rows[1..], startkey)
  }

  /** A Couch query with an inclusive startkey and a limit. */
  function Window<D>(rows: seq<Row<D>>, startkey: Option<nat>, limit: nat): seq<Row<D>> {
    var from := FromKey(rows, startkey);
    from[..Min(limit, |from|)]
  }

  /** The rows behind the window, which this query does not reach. */
  function Behind<D>(rows: seq<Row<D>>, startkey: Option<nat>, limit: nat): seq<Row<D>> {
    FromKey(rows, startkey)[|Window(rows, startkey, limit)|..]
  }

  datatype Page<D> = Page(docs: seq<Row<D>>, lastRawId: Option<nat>, fetchedCount: nat)

  function LastId<D>(rows: seq<Row<D>>): Option<nat> {
    if rows == [] then None else Some(rows[|rows| - 1].id)
  }

  /** The fetch adapters: the auth one counts every row, the invites one only rows with a document. */
  function FetchPage<D>(source: Source, rows: seq<Row<D>>, startkey: Option<nat>, limit: nat): Page<D> {
    var window := Window(rows, startkey, limit);
    var raw := if source.AuthView? then window else Filter(DocTest(), window);
    Page(Filter(KeptTest(source), window), LastId(raw), |raw|)
  }

  /** How many rows a turn asks for. */
  function FetchLimit(source: Source, batchSize: nat, startkey: Option<nat>): nat {
    batchSize + (if startkey.Some? then 1 else 0) + OverFetch(source)
  }

  /** The window is as long as asked for, and no row of it is left out of the count that decides so. */
  predicate CountsFull<D>(source: Source, rows: seq<Row<D>>, startkey: Option<nat>, limit: nat) {
    var window := Window(rows, startkey, limit);
    |window| >= limit && (source.InvitesAllDocs? ==> Honest(window))
  }

  /**
   * The turn that starts at `lo` ends the walk too early: its full window holds a row without a
   * document and no more than a batch to yield, while something to yield lies behind it.
   */
  predicate TurnLoses<D>(source: Source, rows: seq<Row<D>>, lo: Option<nat>, batchSize: nat) {
    var limit := FetchLimit(source, batchSize, lo);
    && !CountsFull(source, rows, lo, limit)
    && |Between(source, Window(rows, lo, limit), lo, None)| <= batchSize
    && |Between(source, Behind(rows, lo, limit), lo, None)| > 0
  }

  /** Every row carries its document. */
  predicate Honest<D>(rows: seq<Row<D>>) {
    forall i :: 0 <= i < |rows| ==> HasDoc(rows[i])
  }

  /** Listings no turn loses anything of: rows without documents do not count, are absent, or are fewer than the over-fetch. */
  predicate Tolerable<D>(source: Source, rows: seq<Row<D>>) {
    source.AuthView? || Honest(rows) || |Filter(UnkeptTest(source), rows)| < OverFetch(source)
  }

  // ----- facts about sorted rows

  lemma {:induction false} FromKeyMeaning<D>(rows: seq<Row<D>>, startkey: Option<nat>)
    requires Sorted(rows)
    ensures Sorted(FromKey(rows, startkey)) && |FromKey(rows, startkey)| <= |rows|
    ensures FromKey(rows, startkey) == rows[|rows| - |FromKey(rows, startkey)|..]
    ensures startkey.Some? ==> forall i :: 0 <= i < |FromKey(rows, startkey)| ==> FromKey(rows, startkey)[i].id >= startkey.value
    ensures startkey.Some? ==> forall i :: 0 <= i < |rows| - |FromKey(rows, startkey)| ==> rows[i].id < startkey.value
  {
    if rows != [] && startkey.Some? && rows[0].id < startkey.value {
      FromKeyMeaning(rows[1..], startkey);
      var cut := |rows| - |FromKey(rows, startkey)|;
      forall i | 0 <= i < cut
        ensures rows[i].id < startkey.value
      {
        if i > 0 {
          assert rows[i] == rows[1..][i - 1];
        }
      }
    }
  }

  lemma {:induction false} FilterSorted<D>(keep: Row<D> -> bool, rows: seq<Row<D>>)
    requires Sorted(rows)
    ensures Sorted(Filter(keep, rows))
  {
    if rows != [] {
      FilterSorted(keep, rows[1..]);
      var rest := Filter(keep, rows[1..]);
      forall j | 0 <= j < |rest|
        ensures rows[0].id < rest[j].id
      {
        var k := FilterOrigin(keep, rows[1..], j);
        assert rows[k + 1] == rest[j];
      }
    }
  }

  lemma {:induction false} FilterWhole<T>(keep: T -> bool, s: seq<T>)
    ensures |Filter(keep, s)| <= |s|
    ensures |Filter(keep, s)| == |s| <==> forall i :: 0 <= i < |s| ==> keep(s[i])
    ensures |Filter(keep, s)| == |s| ==> Filter(keep, s) == s
  {
    if s != [] {
      FilterWhole(keep, s[1..]);
      assert (forall i :: 0 <= i < |s| ==> keep(s[i])) <==> keep(s[0]) && forall i :: 0 <= i < |s[1..]| ==> keep(s[1..][i]);
    }
  }

  /** The kept rows beyond the startkey all lie in the part of the view the query starts from. */
  lemma BetweenFrom<D>(source: Source, rows: seq<Row<D>>, lo: Option<nat>, hi: Option<nat>)
    requires Sorted(rows)
    ensures Between(source, rows, lo, hi) == Between(source, FromKey(rows, lo), lo, hi)
  {
    FromKeyMeaning(rows, lo);
    var keep := RangeTest<D>(source, lo, hi);
    var cut := |rows| - |FromKey(rows, lo)|;
    assert rows == rows[..cut] + rows[cut..];
    FilterAppend(keep, rows[..cut], rows[cut..]);
    FilterNone(keep, rows[..cut]);
  }

  /** A bound inside a prefix of sorted rows makes the rest irrelevant. */
  lemma BetweenPrefix<D>(source: Source, rows: seq<Row<D>>, n: nat, lo: Option<nat>, hi: nat)
    requires Sorted(rows) && 0 < n <= |rows| && hi <= rows[n - 1].id
    ensures Between(source, rows, lo, Some(hi)) == Between(source, rows[..n], lo, Some(hi))
  {
    var keep := RangeTest<D>(source, lo, Some(hi));
    assert rows == rows[..n] + rows[n..];
    FilterAppend(keep, rows[..n], rows[n..]);
    FilterNone(keep, rows[n..]);
  }

  /** Dropping the startkey row when it comes first leaves exactly the kept rows beyond the startkey. */
  lemma SkipFirst<D>(source: Source, window: seq<Row<D>>, lo: Option<nat>)
    requires Sorted(window)
    requires lo.Some? ==> forall i :: 0 <= i < |window| ==> window[i].id >= lo.value
    ensures var docs := Filter(KeptTest(source), window);
            Between(source, window, lo, None) ==
            if lo.Some? && |docs| > 0 && docs[0].id == lo.value then docs[1..] else docs
  {
    hide Filter;
    var kept := KeptTest<D>(source);
    var docs := Filter(kept, window);
    var beyond := RangeTest<D>(source, lo, None);
    FilterSorted(kept, window);
    FilterAbsorb(kept, beyond, window);
    forall i | 0 <= i < |docs|
      ensures kept(docs[i]) && (lo.Some? ==> docs[i].id >= lo.value)
    {
      var k := FilterOrigin(kept, window, i);
    }
    if lo.Some? && |docs| > 0 && docs[0].id == lo.value {
      assert docs == [docs[0]] + docs[1..];
      FilterAppend(beyond, [docs[0]], docs[1..]);
      FilterNone(beyond, [docs[0]]);
      FilterAll(beyond, docs[1..]);
    } else {
      FilterAll(beyond, docs);
    }
  }

  /** The count and the last id of a page. */
  lemma PageCount<D>(source: Source, rows: seq<Row<D>>, startkey: Option<nat>, limit: nat)
    ensures var window := Window(rows, startkey, limit);
            var page := FetchPage(source, rows, startkey, limit);
            && (page.fetchedCount >= limit <==> CountsFull(source, rows, startkey, limit))
            && (page.fetchedCount >= limit ==> page.lastRawId == LastId(window))
  {
    FilterWhole(DocTest<D>(), Window(rows, startkey, limit));
  }

  /** What lies beyond the startkey lies in the window or behind it. */
  lemma WindowSplit<D>(source: Source, rows: seq<Row<D>>, lo: Option<nat>, limit: nat)
    requires Sorted(rows)
    ensures Between(source, rows, lo, None)
         == Between(source, Window(rows, lo, limit), lo, None) + Between(source, Behind(rows, lo, limit), lo, None)
  {
    BetweenFrom(source, rows, lo, None);
    assert FromKey(rows, lo) == Window(rows, lo, limit) + Behind(rows, lo, limit);
    FilterAppend(RangeTest<D>(source, lo, None), Window(rows, lo, limit), Behind(rows, lo, limit));
  }

  /** The first rows of a sorted list are those up to the last of them. */
  lemma PrefixByBound<D>(source: Source, docs: seq<Row<D>>, rows: seq<Row<D>>, lo: Option<nat>, n: nat)
    requires Sorted(rows) && docs == Between(source, rows, lo, None) && 0 < n <= |docs|
    ensures docs[..n] == Between(source, rows, lo, Some(docs[n - 1].id))
  {
    var open, bounded := RangeTest<D>(source, lo, None), RangeTest<D>(source, lo, Some(docs[n - 1].id));
    FilterElements(open, rows);
    FilterSorted(open, rows);
    FilterAbsorb(open, bounded, rows);
    assert docs == docs[..n] + docs[n..];
    FilterAppend(bounded, docs[..n], docs[n..]);
    FilterAll(bounded, docs[..n]);
    FilterNone(bounded, docs[n..]);
  }

  predicate HasId<D>(rows: seq<Row<D>>, id: nat) {
    exists i :: 0 <= i < |rows| && rows[i].id == id
  }

  /** A full page without kept rows beyond the startkey: nothing is lost by moving to its last row. */
  lemma FilteredPage<D>(source: Source, rows: seq<Row<D>>, lo: Option<nat>, limit: nat)
    requires Sorted(rows) && limit >= (if lo.Some? then 2 else 1)
    requires |Window(rows, lo, limit)| >= limit
    requires Between(source, Window(rows, lo, limit), lo, None) == []
    ensures var last := LastId(Window(rows, lo, limit));
            last.Some? && Beyond(last.value, lo) && HasId(rows, last.value) && Between(source, rows, lo, last) == []
  {
    FromKeyMeaning(rows, lo);
    var from, window := FromKey(rows, lo), Window(rows, lo, limit);
    var last := window[|window| - 1].id;
    assert rows[|rows| - |from| + |window| - 1].id == last;
    BetweenFrom(source, rows, lo, Some(last));
    BetweenPrefix(source, from, |window|, lo, last);
    FilterAbsorb(RangeTest<D>(source, lo, None), RangeTest<D>(source, lo, Some(last)), window);
  }

  /** The first kept rows of a window are those of the whole view up to the last of them. */
  lemma ChunkOfWindow<D>(source: Source, rows: seq<Row<D>>, lo: Option<nat>, limit: nat, docs: seq<Row<D>>, n: nat)
    requires Sorted(rows) && 0 < n <= |docs|
    requires docs == Between(source, Window(rows, lo, limit), lo, None)
    ensures docs[..n] == Between(source, rows, lo, Some(docs[n - 1].id))
    ensures Beyond(docs[n - 1].id, lo) && HasId(rows, docs[n - 1].id)
  {
    hide Filter;
    FromKeyMeaning(rows, lo);
    var from, window := FromKey(rows, lo), Window(rows, lo, limit);
    var last := docs[n - 1];
    var k := FilterOrigin(RangeTest<D>(source, lo, None), window, n - 1);
    assert rows[|rows| - |from| + k] == last;
    PrefixByBound(source, docs, window, lo, n);
    BetweenPrefix(source, from, |window|, lo, last.id);
    BetweenFrom(source, rows, lo, Some(last.id));
  }

  /** What one fetched page says about the view, after dropping the startkey row when it comes first. */
  lemma PageMeaning<D>(source: Source, rows: seq<Row<D>>, lo: Option<nat>, limit: nat, docs: seq<Row<D>>, n: nat)
    requires Sorted(rows) && limit >= (if lo.Some? then 2 else 1)
    requires var page := FetchPage(source, rows, lo, limit);
             docs == if lo.Some? && |page.docs| > 0 && page.docs[0].id == lo.value then page.docs[1..] else page.docs
    ensures docs == Between(source, Window(rows, lo, limit), lo, None)
    ensures Between(source, rows, lo, None) == docs + Between(source, Behind(rows, lo, limit), lo, None)
    ensures var page := FetchPage(source, rows, lo, limit);
            && (page.fetchedCount >= limit <==> CountsFull(source, rows, lo, limit))
            && (page.fetchedCount >= limit && docs == [] ==>
                  page.lastRawId.Some? && Beyond(page.lastRawId.value, lo) && HasId(rows, page.lastRawId.value)
                  && Between(source, rows, lo, page.lastRawId) == [])
    ensures 0 < n <= |docs| ==>
              docs[..n] == Between(source, rows, lo, Some(docs[n - 1].id))
              && Beyond(docs[n - 1].id, lo) && HasId(rows, docs[n - 1].id)
  {
    hide Filter;
    FromKeyMeaning(rows, lo);
    var window := Window(rows, lo, limit);
    PageCount(source, rows, lo, limit);
    SkipFirst(source, window, lo);
    WindowSplit(source, rows, lo, limit);
    if |window| >= limit && docs == [] {
      FilteredPage(source, rows, lo, limit);
    }
    if 0 < n <= |docs| {
      ChunkOfWindow(source, rows, lo, limit, docs, n);
    }
  }

  /** The kept rows of a list are all but the unkept ones. */
  lemma {:induction false} KeptCount<D>(source: Source, rows: seq<Row<D>>)
    ensures |Filter(KeptTest<D>(source), rows)| + |Filter(UnkeptTest<D>(source), rows)| == |rows|
  {
    if rows != [] {
      KeptCount(source, rows[1..]);
    }
  }

  /** A full window with few unkept rows holds more than a batch. */
  lemma FewUnkept<D>(source: Source, rows: seq<Row<D>>, lo: Option<nat>, batchSize: nat)
    requires Sorted(rows) && source.InvitesAllDocs? && |Filter(UnkeptTest<D>(source), rows)| < OverFetch(source)
    requires |Window(rows, lo, FetchLimit(source, batchSize, lo))| == FetchLimit(source, batchSize, lo)
    ensures |Between(source, Window(rows, lo, FetchLimit(source, batchSize, lo)), lo, None)| > batchSize
  {
    hide Filter, Between, FromKey;
    var limit := FetchLimit(source, batchSize, lo);
    var window, behind := Window(rows, lo, limit), Behind(rows, lo, limit);
    FromKeyMeaning(rows, lo);
    var before := rows[..|rows| - |FromKey(rows, lo)|];
    assert rows == before + (window + behind);
    FilterAppend(UnkeptTest<D>(source), before, window + behind);
    FilterAppend(UnkeptTest<D>(source), window, behind);
    KeptCount(source, window);
    SkipFirst(source, window, lo);
  }

  /** A tolerable listing loses nothing at any turn. */
  lemma TolerableIsSafe<D>(source: Source, rows: seq<Row<D>>, lo: Option<nat>, batchSize: nat)
    requires Sorted(rows) && Tolerable(source, rows) && batchSize >= 1
    ensures !TurnLoses(source, rows, lo, batchSize)
  {
    hide FromKey, Sorted;
    var limit := FetchLimit(source, batchSize, lo);
    FromKeyMeaning(rows, lo);
    if |Window(rows, lo, limit)| < limit {
      assert Behind(rows, lo, limit) == [];
    } else if source.InvitesAllDocs? && !Honest(rows) {
      FewUnkept(source, rows, lo, batchSize);
    }
  }

  // ----- the generator

  /** The generator's state: one `Fetch` is one turn of its loop, against what the store lists then. */
  class Pager<D> {
    const source: Source
    const batchSize: nat
    var startkey: Option<nat>
    var skipFirst: bool
    var hasMore: bool

    predicate Valid()
      reads this
    {
      batchSize >= 1 && (skipFirst <==> startkey.Some?)
    }

    constructor (source: Source, batchSize: nat)
      requires batchSize >= 1
      ensures Valid() && this.source == source && this.batchSize == batchSize
      ensures startkey == None && hasMore
    {
      this.source, this.batchSize := source, batchSize;
      startkey, skipFirst, hasMore := None, false, true;
    }

    /**
     * One turn, which yields a batch, or all that its window holds if that is less. When it goes on it has yielded exactly the kept
     * rows from the old startkey (exclusive) to the new one (inclusive). When it stops it has yielded
     * all that is left, but for what lies behind its window; and that is something exactly when the
     * turn loses.
     */
    method Fetch(rows: seq<Row<D>>) returns (chunk: seq<Row<D>>)
      requires Valid() && hasMore && Sorted(rows)
      modifies this
      ensures Valid() && |chunk| <= batchSize
      ensures var window := Window(rows, old(startkey), FetchLimit(source, batchSize, old(startkey)));
              |chunk| == Min(batchSize, |Between(source, window, old(startkey), None)|)
      ensures hasMore ==>
        && chunk == Between(source, rows, old(startkey), startkey)
        && startkey.Some? && Beyond(startkey.value, old(startkey)) && HasId(rows, startkey.value)
      ensures !hasMore ==>
        && startkey == old(startkey)
        && Between(source, rows, startkey, None)
           == chunk + Between(source, Behind(rows, startkey, FetchLimit(source, batchSize, startkey)), startkey, None)
      ensures !hasMore && chunk != Between(source, rows, old(startkey), None) <==> TurnLoses(source, rows, old(startkey), batchSize)
    {
      hide Filter, Between, Window, Behind, FromKey, CountsFull;
      var fetchLimit := batchSize + (if skipFirst then 1 else 0) + OverFetch(source);
      ghost var lo := startkey;
      var page := FetchPage(source, rows, startkey, fetchLimit);
      var pageFull := page.fetchedCount >= fetchLimit;
      var docs := page.docs;
      if skipFirst && |docs| > 0 && docs[0].id == startkey.value {
        docs := docs[1..];
      }
      PageMeaning(source, rows, startkey, fetchLimit, docs, Min(batchSize, |docs|));
      if |docs| == 0 {
        chunk := [];
        if pageFull && page.lastRawId.Some? {
          startkey, skipFirst := page.lastRawId, true;
        } else {
          hasMore := false;
        }
      } else {
        chunk := docs[..Min(batchSize, |docs|)];
        var lastId := chunk[|chunk| - 1].id;
        if |docs| > batchSize || pageFull {
          startkey, skipFirst := Some(lastId), true;
        } else {
          hasMore := false;
        }
      }
      if !hasMore {
        Appended(chunk, Between(source, Behind(rows, lo, fetchLimit), lo, None));
      }
    }
  }

  lemma Appended<T>(a: seq<T>, b: seq<T>)
    ensures a + b == a <==> b == []
  {
    assert |a + b| == |a| + |b|;
  }

  /** Ten rows without documents, then a and b. */
  function TenMissing<D>(a: Row<D>, b: Row<D>): seq<Row<D>> {
    seq(10, (i: nat) => Row(i, NoDocument)) + [a, b]
  }

  /** Such a listing is not tolerable, and with batch size 1 its first turn stops after a and loses b. */
  method MissingDocumentsEndTheWalk<D>(a: Row<D>, b: Row<D>) returns (pager: Pager<D>, chunk: seq<Row<D>>)
    requires a.id == 10 && b.id == 11 && Kept(InvitesAllDocs, a) && Kept(InvitesAllDocs, b)
    ensures fresh(pager) && Sorted(TenMissing(a, b)) && TurnLoses(InvitesAllDocs, TenMissing(a, b), None, 1)
    ensures chunk == [a] && !pager.hasMore && Between(InvitesAllDocs, TenMissing(a, b), None, None) == [a, b]
  {
    var missing: seq<Row<D>> := seq(10, (i: nat) => Row(i, NoDocument));
    var rows := TenMissing(a, b);
    var all := RangeTest<D>(InvitesAllDocs, None, None);
    assert Window(rows, None, 11) == missing + [a] && Behind(rows, None, 11) == [b];
    assert !HasDoc(Window(rows, None, 11)[0]);
    FilterNone(all, missing);
    FilterAll(all, [a]);
    FilterAll(all, [b]);
    FilterAppend(all, missing, [a]);
    WindowSplit(InvitesAllDocs, rows, None, 11);
    pager := new Pager<D>(InvitesAllDocs, 1);
    chunk := pager.Fetch(rows);
    assert chunk + [b] == [a, b];
    assert chunk == (chunk + [b])[..1];
  }

  // ----- a whole walk

  /** Rows strictly beyond a key: what a walk at that key may still meet. */
  function Ahead<D>(rows: seq<Row<D>>, lo: Option<nat>): nat {
    if rows == [] then 0 else (if Beyond(rows[0].id, lo) then 1 else 0) + Ahead(rows[1..], lo)
  }

  lemma {:induction false} AheadBound<D>(rows: seq<Row<D>>, lo: Option<nat>)
    ensures Ahead(rows, lo) <= |rows|
  {
    if rows != [] {
      AheadBound(rows[1..], lo);
    }
  }

  lemma {:induction false} AheadDrops<D>(rows: seq<Row<D>>, lo: Option<nat>, hi: Option<nat>)
    requires hi.Some? && Beyond(hi.value, lo)
    ensures Ahead(rows, hi) <= Ahead(rows, lo)
    ensures HasId(rows, hi.value) ==> Ahead(rows, hi) < Ahead(rows, lo)
  {
    if rows != [] {
      AheadDrops(rows[1..], lo, hi);
      if i :| 0 <= i < |rows| && rows[i].id == hi.value {
        if i > 0 {
          assert rows[1..][i - 1].id == hi.value;
        }
      }
    }
  }

  function At<D>(snaps: seq<seq<Row<D>>>, k: nat): seq<Row<D>>
    requires |snaps| > 0
  {
    if k < |snaps| then snaps[k] else snaps[|snaps| - 1]
  }

  ghost predicate Lists<D>(rows: seq<Row<D>>, row: Row<D>) {
    row in rows
  }

  /** What a sweep is to see: a document, but of the invites database no design document. */
  predicate ToYield<D>(source: Source, row: Row<D>) {
    row.content.Document? || (row.content.DesignDocument? && source.AuthView?)
  }

  /** A row to yield with this id. */
  predicate Shows<D>(source: Source, rows: seq<Row<D>>, id: nat) {
    exists i :: 0 <= i < |rows| && rows[i].id == id && ToYield(source, rows[i])
  }

  /** Listed, with a document and unfiltered, at every fetch. */
  predicate AlwaysThere<D>(source: Source, snaps: seq<seq<Row<D>>>, id: nat) {
    forall k :: 0 <= k < |snaps| ==> Shows(source, snaps[k], id)
  }

  /** After the first fetch rows only disappear. */
  predicate OnlyDeletes<D>(snaps: seq<seq<Row<D>>>) {
    forall k, i :: 0 <= k < |snaps| && 0 <= i < |snaps[k]| ==> HasId(snaps[0], snaps[k][i].id)
  }

  function Concat<T>(chunks: seq<seq<T>>): seq<T> {
    if chunks == [] then [] else Concat(chunks[..|chunks| - 1]) + chunks[|chunks| - 1]
  }

  lemma ConcatAppend<T>(chunks: seq<seq<T>>, chunk: seq<T>)
    ensures Concat(chunks + [chunk]) == Concat(chunks) + chunk
  {
    assert (chunks + [chunk])[..|chunks|] == chunks;
  }

  lemma BetweenMeaning<D>(source: Source, rows: seq<Row<D>>, lo: Option<nat>, hi: Option<nat>)
    requires Sorted(rows)
    ensures var chunk := Between(source, rows, lo, hi);
            && Sorted(chunk)
            && (forall i :: 0 <= i < |chunk| ==>
                  Lists(rows, chunk[i]) && Kept(source, chunk[i]) && Beyond(chunk[i].id, lo)
                  && (hi.Some? ==> chunk[i].id <= hi.value))
            && (forall id: nat :: Shows(source, rows, id) && Beyond(id, lo) && (hi.Some? ==> id <= hi.value) ==> HasId(chunk, id))
  {
    var keep := RangeTest<D>(source, lo, hi);
    var chunk := Between(source, rows, lo, hi);
    FilterSorted(keep, rows);
    FilterElements(keep, rows);
    FilterMembers(keep, rows);
    forall id: nat | Shows(source, rows, id) && Beyond(id, lo) && (hi.Some? ==> id <= hi.value)
      ensures HasId(chunk, id)
    {
      var i :| 0 <= i < |rows| && rows[i].id == id && ToYield(source, rows[i]);
      assert keep(rows[i]);
      assert rows[i] in chunk;
    }
  }

  /** Yielded so far: increasing, up to the frontier, all listed; none missed but what the end of the walk missed. */
  ghost predicate Progress<D>(source: Source, snaps: seq<seq<Row<D>>>, out: seq<Row<D>>, lo: Option<nat>, missed: seq<Row<D>>,
                              done: bool) {
    && Sorted(out + missed)
    && (forall i :: 0 <= i < |out| ==>
          && Kept(source, out[i]) && (!done ==> !Beyond(out[i].id, lo))
          && exists k :: 0 <= k < |snaps| && Lists(snaps[k], out[i]))
    && (forall id: nat :: AlwaysThere(source, snaps, id) && (done || !Beyond(id, lo)) ==> HasId(out + missed, id))
    && (!done ==> missed == [])
  }

  lemma ProgressStart<D>(source: Source, snaps: seq<seq<Row<D>>>)
    ensures Progress(source, snaps, Concat([]), None, [], false)
  {
  }

  /** Rows beyond lo go behind rows that are not. */
  lemma SortedTogether<D>(out: seq<Row<D>>, rest: seq<Row<D>>, lo: Option<nat>)
    requires Sorted(out) && Sorted(rest)
    requires forall i :: 0 <= i < |out| ==> !Beyond(out[i].id, lo)
    requires forall i :: 0 <= i < |rest| ==> Beyond(rest[i].id, lo)
    ensures Sorted(out + rest)
  {
  }

  lemma HasIdAppend<D>(a: seq<Row<D>>, b: seq<Row<D>>, id: nat)
    ensures HasId(a + b, id) <==> HasId(a, id) || HasId(b, id)
  {
    if i :| 0 <= i < |a| && a[i].id == id {
      assert (a + b)[i].id == id;
    }
    if i :| 0 <= i < |b| && b[i].id == id {
      assert (a + b)[|a| + i].id == id;
    }
  }

  /** One turn: the rows up to hi, or all the rest of which the last part is missed. */
  lemma ProgressNext<D>(source: Source, snaps: seq<seq<Row<D>>>, out: seq<Row<D>>, lo: Option<nat>,
                        k: nat, hi: Option<nat>, chunk: seq<Row<D>>, missed: seq<Row<D>>)
    requires k < |snaps| && Sorted(snaps[k]) && Progress(source, snaps, out, lo, [], false)
    requires hi.Some? ==> Beyond(hi.value, lo) && missed == []
    requires chunk + missed == Between(source, snaps[k], lo, hi)
    ensures Progress(source, snaps, out + chunk, hi, missed, hi.None?)
  {
    hide Between, Filter, Sorted, HasId, Shows;
    BetweenMeaning(source, snaps[k], lo, hi);
    var rest := chunk + missed;
    assert (out + chunk) + missed == out + rest && out + [] == out;
    SortedTogether(out, rest, lo);
    forall id: nat | AlwaysThere(source, snaps, id) && (hi.None? || !Beyond(id, hi))
      ensures HasId(out + rest, id)
    {
      assert Shows(source, snaps[k], id);
      HasIdAppend(out, rest, id);
    }
    forall i | 0 <= i < |chunk|
      ensures chunk[i] == rest[i]
    {
    }
  }

  lemma ProgressEnd<D>(source: Source, snaps: seq<seq<Row<D>>>, out: seq<Row<D>>, missed: seq<Row<D>>)
    requires Progress(source, snaps, out, None, missed, true)
    ensures Sorted(out + missed)
    ensures forall i :: 0 <= i < |out| ==>
              ToYield(source, out[i]) && exists k :: 0 <= k < |snaps| && Lists(snaps[k], out[i])
    ensures forall id: nat :: AlwaysThere(source, snaps, id) ==> (HasId(out, id) <==> !HasId(missed, id))
  {
    YieldedOrMissed(out, missed);
    forall i | 0 <= i < |out|
      ensures ToYield(source, out[i]) && exists k :: 0 <= k < |snaps| && Lists(snaps[k], out[i])
    {
      assert Kept(source, out[i]);
      var k :| 0 <= k < |snaps| && Lists(snaps[k], out[i]);
    }
  }

  /** An id of a sorted list lies in one of its two parts only. */
  lemma YieldedOrMissed<D>(out: seq<Row<D>>, missed: seq<Row<D>>)
    requires Sorted(out + missed)
    ensures forall id: nat :: HasId(out + missed, id) ==> (HasId(out, id) <==> !HasId(missed, id))
  {
    var all := out + missed;
    assert forall i :: 0 <= i < |out| ==> all[i] == out[i];
    assert forall i :: 0 <= i < |missed| ==> all[|out| + i] == missed[i];
    forall id: nat | HasId(all, id)
      ensures HasId(out, id) <==> !HasId(missed, id)
    {
      var i :| 0 <= i < |all| && all[i].id == id;
      if i < |out| {
        assert out[i].id == id;
      } else {
        assert missed[i - |out|].id == id;
      }
    }
  }

  /** Fetches so far, against what lies ahead in the last snapshot and, if rows only disappear, in the first. */
  predicate Paced<D>(snaps: seq<seq<Row<D>>>, fetches: nat, more: bool, key: Option<nat>)
    requires |snaps| > 0
  {
    var last := snaps[|snaps| - 1];
    && (fetches >= |snaps| ==> fetches + (if more then Ahead(last, key) + 1 else 0) <= |snaps| + |last| + 1)
    && (OnlyDeletes(snaps) ==> fetches + (if more then Ahead(snaps[0], key) + 1 else 0) <= |snaps[0]| + 1)
  }

  lemma PacedStart<D>(snaps: seq<seq<Row<D>>>)
    requires |snaps| > 0
    ensures Paced(snaps, 0, true, None)
  {
    AheadBound(snaps[0], None);
  }

  lemma PacedNext<D>(snaps: seq<seq<Row<D>>>, fetches: nat, lo: Option<nat>, more: bool, hi: Option<nat>)
    requires |snaps| > 0 && Paced(snaps, fetches, true, lo)
    requires more ==> hi.Some? && Beyond(hi.value, lo) && HasId(At(snaps, fetches), hi.value)
    ensures Paced(snaps, fetches + 1, more, hi)
    ensures more && fetches >= |snaps| ==> Ahead(snaps[|snaps| - 1], hi) < Ahead(snaps[|snaps| - 1], lo)
  {
    var last := snaps[|snaps| - 1];
    if more {
      AheadDrops(last, lo, hi);
      AheadDrops(snaps[0], lo, hi);
      AheadBound(last, hi);
    }
  }

  lemma PacedEnd<D>(snaps: seq<seq<Row<D>>>, fetches: nat, key: Option<nat>)
    requires |snaps| > 0 && Paced(snaps, fetches, false, key)
    ensures fetches <= |snaps| + |snaps[|snaps| - 1]| + 1
    ensures OnlyDeletes(snaps) ==> fetches <= |snaps[0]| + 1
  {
  }

  /** What the last turn missed. */
  ghost predicate Ending<D>(source: Source, batchSize: nat, rows: seq<Row<D>>, key: Option<nat>, missed: seq<Row<D>>) {
    && missed == Between(source, Behind(rows, key, FetchLimit(source, batchSize, key)), key, None)
    && (missed != [] <==> TurnLoses(source, rows, key, batchSize))
  }

  /** One turn of the walk, with what it misses if it is the last. */
  method Turn<D>(pager: Pager<D>, ghost snaps: seq<seq<Row<D>>>, rows: seq<Row<D>>, ghost k: nat, ghost out: seq<Row<D>>)
    returns (chunk: seq<Row<D>>, ghost missed: seq<Row<D>>)
    requires pager.Valid() && pager.hasMore && k < |snaps| && snaps[k] == rows && Sorted(rows)
    requires Progress(pager.source, snaps, out, pager.startkey, [], false)
    modifies pager
    ensures pager.Valid() && |chunk| <= pager.batchSize
    ensures Progress(pager.source, snaps, out + chunk, if pager.hasMore then pager.startkey else None, missed, !pager.hasMore)
    ensures pager.hasMore ==>
      missed == [] && pager.startkey.Some? && Beyond(pager.startkey.value, old(pager.startkey)) && HasId(rows, pager.startkey.value)
    ensures !pager.hasMore ==>
      pager.startkey == old(pager.startkey) && Ending(pager.source, pager.batchSize, rows, pager.startkey, missed)
  {
    hide Between, Behind, TurnLoses, Progress, Sorted, Filter, HasId;
    ghost var lo := pager.startkey;
    chunk := pager.Fetch(rows);
    missed := if pager.hasMore then []
              else Between(pager.source, Behind(rows, lo, FetchLimit(pager.source, pager.batchSize, lo)), lo, None);
    assert chunk + [] == chunk;
    Appended(chunk, missed);
    ProgressNext(pager.source, snaps, out, lo, k, if pager.hasMore then pager.startkey else None, chunk, missed);
  }

  /**
   * The generator run to its end while the store changes arbitrarily between fetches: the k-th
   * fetch sees the k-th snapshot, and the last snapshot stays. Ids come out strictly increasing,
   * so none twice; every chunk fits a batch; and every yielded row was listed at some fetch. A
   * document listed throughout is yielded if and only if it is not among those that the last turn
   * missed, the ones behind its window; there are none if the listings are tolerable. When rows only
   * disappear, there is at most one fetch per initial row and one more.
   */
  method Walk<D>(source: Source, batchSize: nat, snaps: seq<seq<Row<D>>>)
    returns (chunks: seq<seq<Row<D>>>, fetches: nat, ghost missed: seq<Row<D>>, ghost key: Option<nat>)
    requires batchSize >= 1 && |snaps| > 0
    requires forall k :: 0 <= k < |snaps| ==> Sorted(snaps[k])
    ensures forall c :: 0 <= c < |chunks| ==> 0 < |chunks[c]| <= batchSize
    ensures Sorted(Concat(chunks) + missed)
    ensures forall i :: 0 <= i < |Concat(chunks)| ==>
              ToYield(source, Concat(chunks)[i]) && exists k :: 0 <= k < |snaps| && Lists(snaps[k], Concat(chunks)[i])
    ensures forall id: nat :: AlwaysThere(source, snaps, id) ==> (HasId(Concat(chunks), id) <==> !HasId(missed, id))
    ensures fetches >= 1 && Ending(source, batchSize, At(snaps, fetches - 1), key, missed)
    ensures (forall k :: 0 <= k < |snaps| ==> Tolerable(source, snaps[k])) ==> missed == []
    ensures fetches <= |snaps| + |snaps[|snaps| - 1]| + 1
    ensures OnlyDeletes(snaps) ==> fetches <= |snaps[0]| + 1
  {
    hide Between, Behind, TurnLoses, Tolerable, Progress, Ahead, AlwaysThere, Paced, Sorted, Concat, HasId, Kept, Filter,
         Lists, OnlyDeletes, Ending, FetchLimit, Beyond;
    var pager := new Pager<D>(source, batchSize);
    chunks, fetches := [], 0;
    missed, key := [], None;
    ProgressStart(source, snaps);
    PacedStart(snaps);
    while pager.hasMore
      invariant pager.Valid() && pager.source == source && pager.batchSize == batchSize && fresh(pager)
      invariant forall c :: 0 <= c < |chunks| ==> 0 < |chunks[c]| <= batchSize
      invariant Progress(source, snaps, Concat(chunks), if pager.hasMore then pager.startkey else None, missed, !pager.hasMore)
      invariant pager.hasMore ==> missed == []
      invariant !pager.hasMore ==> fetches >= 1 && Ending(source, batchSize, At(snaps, fetches - 1), pager.startkey, missed)
      invariant Paced(snaps, fetches, pager.hasMore, pager.startkey)
      decreases Max(0, |snaps| - fetches), if pager.hasMore then Ahead(snaps[|snaps| - 1], pager.startkey) + 1 else 0
    {
      ghost var lo := pager.startkey;
      var k := Min(fetches, |snaps| - 1);
      var chunk;
      chunk, missed := Turn(pager, snaps, snaps[k], k, Concat(chunks));
      PacedNext(snaps, fetches, lo, pager.hasMore, pager.startkey);
      if |chunk| > 0 {
        ConcatAppend(chunks, chunk);
        chunks := chunks + [chunk];
      } else {
        assert Concat(chunks) + chunk == Concat(chunks);
      }
      fetches := fetches + 1;
    }
    key := pager.startkey;
    ProgressEnd(source, snaps, Concat(chunks), missed);
    PacedEnd(snaps, fetches, key);
    if forall k :: 0 <= k < |snaps| ==> Tolerable(source, snaps[k]) {
      NothingMissed(source, batchSize, At(snaps, fetches - 1), key, missed);
    }
  }

  lemma NothingMissed<D>(source: Source, batchSize: nat, rows: seq<Row<D>>, key: Option<nat>, missed: seq<Row<D>>)
    requires Ending(source, batchSize, rows, key, missed) && Sorted(rows) && Tolerable(source, rows) && batchSize >= 1
    ensures missed == []
  {
    TolerableIsSafe(source, rows, key, batchSize);
  }
}
