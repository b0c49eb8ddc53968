/**
 * `restoreFromBackup` (api/src/couchdb/backupRestore.ts): documents are written in batches, and the
 * result is compared with writing each eligible line at once to the database of the latest header.
 */
module Restore {
  import opened Prelude

  const GC_INTERVAL: nat := 1000
  const BATCH_SIZE: nat := 500

  datatype Body = Body(id: Option<string>, rev: Option<string>, fields: nat)
  datatype Target = ProjectsDb | MapAssetsDb | DataDb(project: Option<string>)
  datatype Write = Write(db: Target, body: Body)
  datatype Batch = Batch(db: Target, docs: seq<Body>)

  /** One line of the file. `Bad` is not JSON, or `null`; absent fields are None. */
  datatype Line = Bad | Header(database: Option<string>) | Record(id: Option<string>, doc: Option<Body>)

  /** The database-name pattern, and which data databases can be initialised. */
  datatype Config = Config(matches: string -> bool, opens: Option<string> -> bool)

  predicate StartsWith(s: string, prefix: string) {
    prefix <= s
  }

  /** `name.split('||')[1]`. */
  function SecondPart(name: string): Option<string> {
    if |name| < 2 then None
    else if name[..2] == "||" then Some(FirstPart(name[2..]))
    else SecondPart(name[1..])
  }

  function FirstPart(name: string): string {
    if |name| < 2 then name
    else if name[..2] == "||" then ""
    else [name[0]] + FirstPart(name[1..])
  }

  function TargetOf(cfg: Config, name: string): Option<Target> {
    if StartsWith(name, "projects") then Some(ProjectsDb)
    else if cfg.matches(name) && name == "mapassets" then Some(MapAssetsDb)
    else if cfg.matches(name) && StartsWith(name, "data") then Some(DataDb(SecondPart(name)))
    else None
  }

  /** Where the restore is in the file: the database in use, and whether its records are skipped. */
  datatype Cursor = Cursor(db: Option<Target>, skipping: bool)

  const START := Cursor(None, false)

  predicate IsDesign(id: string) {
    StartsWith(id, "_design")
  }

  /** Handling this line throws. */
  predicate Fails(cfg: Config, line: Line, at: Cursor) {
    match line
    case Bad => true
    case Header(None) => true
    case Header(Some(name)) =>
      var target := TargetOf(cfg, name);
      target.Some? && target.value.DataDb? && !cfg.opens(target.value.project)
    case Record(id, doc) => !at.skipping && (id.None? || (!IsDesign(id.value) && at.db.Some? && doc.None?))
  }

  predicate Eligible(line: Line, at: Cursor) {
    line.Record? && !at.skipping && line.id.Some? && !IsDesign(line.id.value) && at.db.Some? && line.doc.Some?
  }

  function Move(cfg: Config, line: Line, at: Cursor): Cursor {
    if line.Header? && line.database.Some?
    then Cursor(TargetOf(cfg, line.database.value), !cfg.matches(line.database.value)) else at
  }

  function WithoutRev(body: Body): Body {
    body.(rev := None)
  }

  /** What this line writes when written at once. */
  function Direct(line: Line, at: Cursor): seq<Write> {
    if Eligible(line, at) then [Write(at.db.value, WithoutRev(line.doc.value))] else []
  }

  /** The reference: each eligible line written at once, up to the first line that throws. */
  function Immediate(cfg: Config, lines: seq<Line>, at: Cursor): seq<Write>
    decreases lines
  {
    if lines == [] || Fails(cfg, lines[0], at) then []
    else
      Direct(lines[0], at) + Immediate(cfg, lines[1..], Move(cfg, lines[0], at))
  }

  function Tagged(db: Target, docs: seq<Body>): seq<Write> {
    if docs == [] then [] else [Write(db, docs[0])] + Tagged(db, docs[1..])
  }

  /** The documents written, in order. */
  function Written(batches: seq<Batch>): seq<Write> {
    if batches == [] then [] else Tagged(batches[0].db, batches[0].docs) + Written(batches[1..])
  }

  /** The cursor before line n. */
  function At(cfg: Config, lines: seq<Line>, n: nat): Cursor
    requires n <= |lines|
    decreases n
  {
    if n == 0 then START else Move(cfg, lines[n - 1], At(cfg, lines, n - 1))
  }

  /** The size of the batch after this line, when `waiting` documents were in it. */
  function Step(line: Line, at: Cursor, waiting: nat): nat {
    if line.Header? then 0
    else if Eligible(line, at) then (if waiting + 1 >= BATCH_SIZE then 0 else waiting + 1)
    else waiting
  }

  /** How many documents wait in the batch after n lines. */
  function Held(cfg: Config, lines: seq<Line>, n: nat): nat
    requires n <= |lines|
    decreases n
  {
    if n == 0 then 0
    else Step(lines[n - 1], At(cfg, lines, n - 1), if (n - 1) % GC_INTERVAL == 0 then 0 else Held(cfg, lines, n - 1))
  }

  /** How many when line n is parsed: every thousand lines the batch is written out first. */
  function Waiting(cfg: Config, lines: seq<Line>, n: nat): nat
    requires n <= |lines|
  {
    if n % GC_INTERVAL == 0 then 0 else Held(cfg, lines, n)
  }

  /** What the restore leaves unwritten: nothing, unless a line other than a header throws. */
  function Lost(cfg: Config, lines: seq<Line>, processed: nat): nat
    requires processed <= |lines|
  {
    if processed == |lines| || lines[processed].Header? then 0 else Waiting(cfg, lines, processed)
  }

  lemma {:induction false} TaggedAppend(db: Target, docs: seq<Body>, body: Body)
    ensures Tagged(db, docs + [body]) == Tagged(db, docs) + [Write(db, body)]
  {
    if docs == [] {
      assert docs + [body] == [body];
    } else {
      TaggedAppend(db, docs[1..], body);
      assert (docs + [body])[1..] == docs[1..] + [body];
    }
  }

  lemma {:induction false} TaggedLength(db: Target, docs: seq<Body>)
    ensures |Tagged(db, docs)| == |docs|
  {
    if docs != [] {
      TaggedLength(db, docs[1..]);
    }
  }

  lemma {:induction false} WrittenAppend(batches: seq<Batch>, batch: Batch)
    ensures Written(batches + [batch]) == Written(batches) + Tagged(batch.db, batch.docs)
  {
    if batches == [] {
      assert batches + [batch] == [batch];
    } else {
      WrittenAppend(batches[1..], batch);
      assert (batches + [batch])[1..] == batches[1..] + [batch];
      assert Tagged(batches[0].db, batches[0].docs) + (Written(batches[1..]) + Tagged(batch.db, batch.docs))
          == (Tagged(batches[0].db, batches[0].docs) + Written(batches[1..])) + Tagged(batch.db, batch.docs);
    }
  }

  predicate Bounded(batches: seq<Batch>) {
    forall i :: 0 <= i < |batches| ==> 1 <= |batches[i].docs| <= BATCH_SIZE
  }

  /** The batch, all of it for the database in use. */
  function Pending(at: Cursor, batch: seq<Body>): seq<Write> {
    if at.db.Some? then Tagged(at.db.value, batch) else []
  }

  /** One line of the reference. */
  lemma ImmediateStep(cfg: Config, lines: seq<Line>, n: nat, at: Cursor)
    requires n < |lines| && !Fails(cfg, lines[n], at)
    ensures Immediate(cfg, lines[n..], at)
         == Direct(lines[n], at) + Immediate(cfg, lines[n + 1..], Move(cfg, lines[n], at))
  {
    assert lines[n..][1..] == lines[n + 1..];
  }

  // ----- what is written, told by the lines alone

  /** The name in the last header before line n. */
  function LatestHeader(lines: seq<Line>, n: nat): Option<string>
    requires n <= |lines|
    decreases n
  {
    if n == 0 then None
    else if lines[n - 1].Header? && lines[n - 1].database.Some? then lines[n - 1].database
    else LatestHeader(lines, n - 1)
  }

  predicate HasBars(s: string, i: nat) {
    i + 2 <= |s| && s[i] == '|' && s[i + 1] == '|'
  }

  predicate NoBars(s: string, lo: nat, hi: nat) {
    forall j: nat :: lo <= j < hi ==> !HasBars(s, j)
  }

  /** `p` lies between the first double bars, at i, and the next ones or the end. */
  predicate PartBehind(name: string, i: nat, p: string) {
    && HasBars(name, i) && NoBars(name, 0, i)
    && i + 2 + |p| <= |name| && p == name[i + 2..i + 2 + |p|] && NoBars(name, i + 2, i + 2 + |p|)
    && (i + 2 + |p| == |name| || HasBars(name, i + 2 + |p|))
  }

  /** The second of the parts between double bars. */
  ghost predicate IsSecondPart(name: string, part: Option<string>) {
    match part
    case None => NoBars(name, 0, |name|)
    case Some(p) => exists i: nat :: PartBehind(name, i, p)
  }

  /** The database a header name stands for: all projects in one, a data database by its second part. */
  ghost predicate NamesDb(name: string, db: Target) {
    match db
    case ProjectsDb => "projects" <= name
    case MapAssetsDb => name == "mapassets"
    case DataDb(project) => "data" <= name && IsSecondPart(name, project)
  }

  predicate KnownName(name: string) {
    "projects" <= name || name == "mapassets" || "data" <= name
  }

  /** Line n is a record to restore: no design document, under a header that matches and names a known database. */
  predicate ToRestore(cfg: Config, lines: seq<Line>, n: nat)
    requires n < |lines|
  {
    && lines[n].Record? && lines[n].id.Some? && lines[n].doc.Some? && !("_design" <= lines[n].id.value)
    && LatestHeader(lines, n).Some? && cfg.matches(LatestHeader(lines, n).value) && KnownName(LatestHeader(lines, n).value)
  }

  /** What restoring line n writes: the document without its revision, to the database of its header. */
  ghost predicate IsRestored(cfg: Config, lines: seq<Line>, n: nat, w: Write)
    requires n < |lines|
  {
    && ToRestore(cfg, lines, n) && NamesDb(LatestHeader(lines, n).value, w.db)
    && w.body == Body(lines[n].doc.value.id, None, lines[n].doc.value.fields)
  }

  /**
   * Line n throws: it is not JSON, or a header without a name, or one whose data database cannot be
   * opened; or, unless its header failed to match, a record without an id, or without a document when it
   * is to be restored.
   */
  ghost predicate Throws(cfg: Config, lines: seq<Line>, n: nat)
    requires n < |lines|
  {
    match lines[n]
    case Bad => true
    case Header(None) => true
    case Header(Some(name)) =>
      cfg.matches(name) && !("projects" <= name) && name != "mapassets" && "data" <= name
      && exists project :: IsSecondPart(name, project) && !cfg.opens(project)
    case Record(id, doc) =>
      var header := LatestHeader(lines, n);
      && (header.Some? ==> cfg.matches(header.value))
      && (id.None? || (!("_design" <= id.value) && header.Some? && KnownName(header.value) && doc.None?))
  }

  /**
   * `writes` are the restored records of the lines before `end`, one each and in order; `places` says
   * which. The lines before `end` are good, and the next one, if any, throws.
   */
  ghost predicate RestoredInOrder(cfg: Config, lines: seq<Line>, end: nat, writes: seq<Write>, places: seq<nat>) {
    && end <= |lines| && (forall n :: 0 <= n < end ==> !Throws(cfg, lines, n)) && (end < |lines| ==> Throws(cfg, lines, end))
    && |places| == |writes| && (forall k :: 0 <= k < |places| ==> places[k] < end)
    && (forall j, k :: 0 <= j < k < |places| ==> places[j] < places[k])
    && (forall k :: 0 <= k < |places| ==> IsRestored(cfg, lines, places[k], writes[k]))
    && (forall n: nat :: n < end && ToRestore(cfg, lines, n) ==> n in places)
  }

  lemma BarsOfTail(s: string, k: nat, j: nat)
    requires k <= j && k <= |s|
    ensures HasBars(s, j) <==> HasBars(s[k..], j - k)
  {
  }

  /** Bars of a tail, shifted. */
  lemma NoBarsOfTail(s: string, k: nat, lo: nat, hi: nat)
    requires k <= lo && k <= |s| && lo <= hi
    ensures NoBars(s, lo, hi) <==> NoBars(s[k..], lo - k, hi - k)
  {
    if NoBars(s[k..], lo - k, hi - k) {
      forall j: nat | lo <= j < hi
        ensures !HasBars(s, j)
      {
        BarsOfTail(s, k, j);
      }
    }
    if NoBars(s, lo, hi) {
      forall j: nat | lo - k <= j < hi - k
        ensures !HasBars(s[k..], j)
      {
        BarsOfTail(s, k, j + k);
      }
    }
  }

  lemma BarsAtStart(s: string)
    requires |s| >= 2
    ensures s[..2] == "||" <==> HasBars(s, 0)
  {
    assert s[..2] == [s[0], s[1]];
  }

  lemma {:induction false} FirstPartMeans(s: string)
    ensures var n := |FirstPart(s)|;
            n <= |s| && FirstPart(s) == s[..n] && (n == |s| || HasBars(s, n)) && NoBars(s, 0, n)
  {
    if |s| >= 2 {
      BarsAtStart(s);
      if s[..2] != "||" {
        FirstPartMeans(s[1..]);
        var n := |FirstPart(s[1..])|;
        NoBarsOfTail(s, 1, 1, n + 1);
        BarsOfTail(s, 1, n + 1);
      }
    }
  }

  lemma PartShifts(name: string, i: nat, p: string)
    requires name != "" && !HasBars(name, 0) && PartBehind(name[1..], i, p)
    ensures PartBehind(name, i + 1, p)
  {
    hide HasBars;
    NoBarsOfTail(name, 1, 1, i + 1);
    NoBarsOfTail(name, 1, i + 3, i + 3 + |p|);
    BarsOfTail(name, 1, i + 1);
    BarsOfTail(name, 1, i + 3 + |p|);
    assert |name[1..]| == |name| - 1 && name[1..][i + 2..i + 2 + |p|] == name[i + 3..i + 3 + |p|] by {
      BarsFit(name[1..], i);
    }
    assert NoBars(name, 0, i + 1);
  }

  lemma BarsFit(s: string, i: nat)
    requires HasBars(s, i)
    ensures i + 2 <= |s|
  {
  }

  lemma {:induction false} SecondPartMeans(name: string)
    ensures IsSecondPart(name, SecondPart(name))
  {
    hide FirstPart;
    if |name| >= 2 {
      BarsAtStart(name);
      if name[..2] == "||" {
        FirstPartMeans(name[2..]);
        var n := |FirstPart(name[2..])|;
        NoBarsOfTail(name, 2, 2, n + 2);
        BarsOfTail(name, 2, n + 2);
        assert PartBehind(name, 0, FirstPart(name[2..]));
      } else {
        SecondPartMeans(name[1..]);
        if SecondPart(name).Some? {
          var p := SecondPart(name).value;
          var i: nat :| PartBehind(name[1..], i, p);
          PartShifts(name, i, p);
        } else {
          NoBarsOfTail(name, 1, 1, |name|);
        }
      }
    }
  }

  /** There is one second part at most. */
  lemma OneSecondPart(name: string, p: Option<string>, q: Option<string>)
    requires IsSecondPart(name, p) && IsSecondPart(name, q)
    ensures p == q
  {
    if p.Some? && q.Some? {
      var i: nat :| PartBehind(name, i, p.value);
      var k: nat :| PartBehind(name, k, q.value);
      assert i == k;
      assert |p.value| == |q.value|;
    }
  }

  /** `data||p` stands for the data database of p. */
  lemma DataOfProject(p: string)
    requires NoBars(p, 0, |p|)
    ensures SecondPart("data||" + p) == Some(p) && NamesDb("data||" + p, DataDb(Some(p)))
  {
    hide SecondPart, FirstPart, NoBars;
    var name := "data||" + p;
    assert name[6..] == p && |name| == |p| + 6;
    NoBarsOfTail(name, 6, 6, |name|);
    assert NoBars(name, 0, 4) && HasBars(name, 4) by {
      DataThenBars(name);
    }
    assert name[6..6 + |p|] == p;
    assert PartBehind(name, 4, p);
    SecondPartMeans(name);
    OneSecondPart(name, SecondPart(name), Some(p));
  }

  lemma DataThenBars(name: string)
    requires |name| >= 6 && name[..6] == "data||"
    ensures NoBars(name, 0, 4) && HasBars(name, 4)
  {
    var start := name[..6];
    assert start[0] == 'd' && start[1] == 'a' && start[2] == 't' && start[3] == 'a' && start[4] == '|' && start[5] == '|';
  }

  /** The cursor before line n, told by the latest header. */
  lemma {:induction false} CursorMeans(cfg: Config, lines: seq<Line>, n: nat)
    requires n <= |lines|
    ensures match LatestHeader(lines, n)
            case None => At(cfg, lines, n) == START
            case Some(name) =>
              && At(cfg, lines, n).skipping == !cfg.matches(name)
              && (cfg.matches(name) ==> (At(cfg, lines, n).db.Some? <==> KnownName(name)))
              && (cfg.matches(name) && KnownName(name) ==> NamesDb(name, At(cfg, lines, n).db.value))
  {
    if n > 0 {
      CursorMeans(cfg, lines, n - 1);
      if lines[n - 1].Header? && lines[n - 1].database.Some? {
        SecondPartMeans(lines[n - 1].database.value);
      }
    }
  }

  lemma FailsMeans(cfg: Config, lines: seq<Line>, n: nat)
    requires n < |lines|
    ensures Fails(cfg, lines[n], At(cfg, lines, n)) <==> Throws(cfg, lines, n)
  {
    hide At, SecondPart, IsSecondPart, LatestHeader;
    CursorMeans(cfg, lines, n);
    if lines[n].Header? && lines[n].database.Some? {
      var name := lines[n].database.value;
      SecondPartMeans(name);
      forall project | IsSecondPart(name, project)
        ensures project == SecondPart(name)
      {
        OneSecondPart(name, project, SecondPart(name));
      }
      PrefixesDiffer(name);
    }
  }

  lemma PrefixesDiffer(name: string)
    ensures !("projects" <= name && "data" <= name) && !("data" <= "mapassets")
  {
    assert "projects"[0] != "data"[0] && "mapassets"[0] != "data"[0];
  }

  lemma DirectMeans(cfg: Config, lines: seq<Line>, n: nat)
    requires n < |lines| && !Throws(cfg, lines, n)
    ensures var direct := Direct(lines[n], At(cfg, lines, n));
            if ToRestore(cfg, lines, n) then |direct| == 1 && IsRestored(cfg, lines, n, direct[0]) else direct == []
  {
    hide At, SecondPart, IsSecondPart, LatestHeader;
    CursorMeans(cfg, lines, n);
  }

  /** The reference, from line n on, told by the lines. */
  lemma {:induction false} ImmediateMeans(cfg: Config, lines: seq<Line>, n: nat, end: nat) returns (places: seq<nat>)
    requires n <= end <= |lines| && (forall k :: 0 <= k < end ==> !Throws(cfg, lines, k))
    requires end < |lines| ==> Throws(cfg, lines, end)
    ensures var writes := Immediate(cfg, lines[n..], At(cfg, lines, n));
            && |places| == |writes| && (forall k :: 0 <= k < |places| ==> n <= places[k] < end)
            && (forall j, k :: 0 <= j < k < |places| ==> places[j] < places[k])
            && (forall k :: 0 <= k < |places| ==> IsRestored(cfg, lines, places[k], writes[k]))
            && (forall m: nat :: n <= m < end && ToRestore(cfg, lines, m) ==> m in places)
    decreases end - n
  {
    hide Fails, Throws, IsRestored, ToRestore, Direct;
    places := [];
    if n < |lines| {
      FailsMeans(cfg, lines, n);
      if n < end {
        DirectMeans(cfg, lines, n);
        ImmediateStep(cfg, lines, n, At(cfg, lines, n));
        NextCursor(cfg, lines, n);
        var rest := ImmediateMeans(cfg, lines, n + 1, end);
        places := (if ToRestore(cfg, lines, n) then [n] else []) + rest;
      }
    }
  }

  class Databases {
    var batches: seq<Batch>

    constructor ()
      ensures batches == []
    {
      batches := [];
    }

    /** `batchWriteDocuments`. */
    method BatchWrite(db: Target, docs: seq<Body>)
      modifies this
      ensures batches == old(batches) + [Batch(db, docs)]
      ensures Written(batches) == Written(old(batches)) + Tagged(db, docs)
    {
      WrittenAppend(batches, Batch(db, docs));
      batches := batches + [Batch(db, docs)];
    }

    /** Writes out the batch, if there is one and a database for it. */
    method Flush(at: Cursor, batch: seq<Body>) returns (rest: seq<Body>)
      requires Bounded(batches) && |batch| <= BATCH_SIZE && (batch != [] ==> at.db.Some?)
      modifies this
      ensures rest == [] && Bounded(batches)
      ensures Written(batches) == Written(old(batches)) + Pending(at, batch)
    {
      if |batch| > 0 && at.db.Some? {
        BatchWrite(at.db.value, batch);
      }
      rest := [];
    }

    /** What the loop does with one line; `ok` is false when it throws. */
    method HandleLine(cfg: Config, line: Line, at: Cursor, batch: seq<Body>) returns (ok: bool, next: Cursor, rest: seq<Body>)
      requires Bounded(batches) && |batch| < BATCH_SIZE && (batch != [] ==> at.db.Some?)
      modifies this
      ensures Bounded(batches) && |rest| < BATCH_SIZE && (rest != [] ==> next.db.Some?)
      ensures ok <==> !Fails(cfg, line, at)
      ensures next == if ok then Move(cfg, line, at) else at
      ensures |rest| == if ok then Step(line, at, |batch|) else if line.Header? then 0 else |batch|
      ensures Written(batches) + Pending(next, rest) == Written(old(batches)) + Pending(at, batch)
              + if ok then Direct(line, at) else []
    {
      ok, next, rest := true, at, batch;
      match line {
        case Bad => ok := false;
        case Header(database) =>
          rest := Flush(at, rest);
          if database.None? {
            ok := false;
          } else {
            var target := TargetOf(cfg, database.value);
            if target.Some? && target.value.DataDb? && !cfg.opens(target.value.project) {
              ok := false;
            } else {
              next := Cursor(target, !cfg.matches(database.value));
            }
          }
        case Record(id, doc) =>
          if !at.skipping {
            if id.None? {
              ok := false;
            } else if !IsDesign(id.value) && at.db.Some? {
              if doc.None? {
                ok := false;
              } else {
                TaggedAppend(at.db.value, rest, WithoutRev(doc.value));
                rest := rest + [WithoutRev(doc.value)];
                if |rest| >= BATCH_SIZE {
                  rest := Flush(at, rest);
                }
              }
            }
          }
      }
    }

    /**
     * The restore loop. `completed` is false when a line threw and the function returned early,
     * after `processed` good lines; `lost` is what was then still in the batch.
     */
    method Restore(cfg: Config, lines: seq<Line>) returns (completed: bool, processed: nat, ghost lost: seq<Write>)
      requires batches == []
      modifies this
      ensures processed <= |lines| && (completed <==> processed == |lines|)
      ensures forall n :: 0 <= n < processed ==> !Fails(cfg, lines[n], At(cfg, lines, n))
      ensures !completed ==> Fails(cfg, lines[processed], At(cfg, lines, processed))
      ensures Written(batches) + lost == Immediate(cfg, lines, START)
      ensures exists places :: RestoredInOrder(cfg, lines, processed, Written(batches) + lost, places)
      ensures |lost| == Lost(cfg, lines, processed)
      ensures Bounded(batches)
    {
      hide Progress, Ready, Pending, Fails, Bounded, At, Held, Written, Immediate, Lost;
      var at, batch := START, [];
      processed, completed, lost := 0, true, [];
      Begin(cfg, lines);
      while processed < |lines|
        invariant processed <= |lines| && completed && lost == []
        invariant Progress(cfg, lines, processed, at, batch, batches)
      {
        ghost var waiting, before := batch, batches;
        ProgressFacts(cfg, lines, processed, at, batch, batches);
        if processed % GC_INTERVAL == 0 && processed > 0 {
          batch := Flush(at, batch);
        }
        BecomesReady(cfg, lines, processed, at, waiting, before, batch, batches);
        before := batches;
        var ok, next, rest := HandleLine(cfg, lines[processed], at, batch);
        if !ok {
          EndsEarly(cfg, lines, processed, at, batch, before, rest, batches);
          lost := Pending(at, rest);
          completed := false;
          ReferenceMeans(cfg, lines, processed);
          return;
        }
        TakesLine(cfg, lines, processed, at, batch, before, next, rest, batches);
        at, batch, processed := next, rest, processed + 1;
      }
      ProgressFacts(cfg, lines, processed, at, batch, batches);
      ghost var waiting, before := batch, batches;
      batch := Flush(at, batch);
      EndsWell(cfg, lines, at, waiting, before, batches);
      ReferenceMeans(cfg, lines, processed);
    }
  }

  lemma ReferenceMeans(cfg: Config, lines: seq<Line>, end: nat)
    requires end <= |lines| && forall n :: 0 <= n < end ==> !Fails(cfg, lines[n], At(cfg, lines, n))
    requires end < |lines| ==> Fails(cfg, lines[end], At(cfg, lines, end))
    ensures exists places :: RestoredInOrder(cfg, lines, end, Immediate(cfg, lines, START), places)
  {
    hide Fails, Throws, At, IsRestored, ToRestore, Immediate;
    forall n | 0 <= n < |lines|
      ensures Fails(cfg, lines[n], At(cfg, lines, n)) <==> Throws(cfg, lines, n)
    {
      FailsMeans(cfg, lines, n);
    }
    var places := ImmediateMeans(cfg, lines, 0, end);
    assert lines[0..] == lines && At(cfg, lines, 0) == START by {
      NoLines(cfg, lines);
    }
    assert RestoredInOrder(cfg, lines, end, Immediate(cfg, lines, START), places);
  }

  lemma NoLines(cfg: Config, lines: seq<Line>)
    ensures At(cfg, lines, 0) == START
  {
  }

  /** After n good lines: what was written, what waits and what the reference still writes make up the reference. */
  ghost predicate Progress(cfg: Config, lines: seq<Line>, n: nat, at: Cursor, batch: seq<Body>, batches: seq<Batch>)
    requires n <= |lines|
  {
    Upto(cfg, lines, n, at, batch, batches) && |batch| == Held(cfg, lines, n)
  }

  /** The same when line n is about to be parsed. */
  ghost predicate Ready(cfg: Config, lines: seq<Line>, n: nat, at: Cursor, batch: seq<Body>, batches: seq<Batch>)
    requires n <= |lines|
  {
    Upto(cfg, lines, n, at, batch, batches) && |batch| == Waiting(cfg, lines, n)
  }

  ghost predicate Upto(cfg: Config, lines: seq<Line>, n: nat, at: Cursor, batch: seq<Body>, batches: seq<Batch>)
    requires n <= |lines|
  {
    && at == At(cfg, lines, n)
    && (forall k :: 0 <= k < n ==> !Fails(cfg, lines[k], At(cfg, lines, k)))
    && |batch| < BATCH_SIZE && (batch != [] ==> at.db.Some?) && Bounded(batches)
    && Written(batches) + Pending(at, batch) + Immediate(cfg, lines[n..], at) == Immediate(cfg, lines, START)
  }

  lemma Begin(cfg: Config, lines: seq<Line>)
    ensures Progress(cfg, lines, 0, START, [], [])
  {
    assert lines[0..] == lines;
  }

  lemma ProgressFacts(cfg: Config, lines: seq<Line>, n: nat, at: Cursor, batch: seq<Body>, batches: seq<Batch>)
    requires n <= |lines| && Progress(cfg, lines, n, at, batch, batches)
    ensures Bounded(batches) && |batch| < BATCH_SIZE && (batch != [] ==> at.db.Some?)
  {
  }

  /** Every thousand lines the batch is written out first. */
  lemma BecomesReady(cfg: Config, lines: seq<Line>, n: nat, at: Cursor, waiting: seq<Body>, before: seq<Batch>,
                     batch: seq<Body>, batches: seq<Batch>)
    requires n <= |lines| && Progress(cfg, lines, n, at, waiting, before) && Bounded(batches)
    requires if n % GC_INTERVAL == 0 && n > 0 then batch == [] && Written(batches) == Written(before) + Pending(at, waiting)
             else batch == waiting && batches == before
    ensures Ready(cfg, lines, n, at, batch, batches)
    ensures |batch| < BATCH_SIZE && (batch != [] ==> at.db.Some?)
  {
    hide Immediate, Written, Fails, Bounded, At;
  }

  /** A good line. */
  lemma TakesLine(cfg: Config, lines: seq<Line>, n: nat, at: Cursor, batch: seq<Body>, before: seq<Batch>,
                  next: Cursor, rest: seq<Body>, batches: seq<Batch>)
    requires n < |lines| && Ready(cfg, lines, n, at, batch, before)
    requires !Fails(cfg, lines[n], at) && next == Move(cfg, lines[n], at) && |rest| == Step(lines[n], at, |batch|)
    requires Bounded(batches) && |rest| < BATCH_SIZE && (rest != [] ==> next.db.Some?)
    requires Written(batches) + Pending(next, rest) == Written(before) + Pending(at, batch) + Direct(lines[n], at)
    ensures Progress(cfg, lines, n + 1, next, rest, batches)
  {
    hide Immediate, Written, Fails, Bounded, Move, Step, Direct, Pending, At, Held;
    ImmediateStep(cfg, lines, n, at);
    NextCursor(cfg, lines, n);
    var done, left := Written(before) + Pending(at, batch), Immediate(cfg, lines[n + 1..], next);
    assert done + (Direct(lines[n], at) + left) == (done + Direct(lines[n], at)) + left;
  }

  /** A line that throws. */
  lemma EndsEarly(cfg: Config, lines: seq<Line>, n: nat, at: Cursor, batch: seq<Body>, before: seq<Batch>,
                  rest: seq<Body>, batches: seq<Batch>)
    requires n < |lines| && Ready(cfg, lines, n, at, batch, before) && Fails(cfg, lines[n], at)
    requires |rest| == (if lines[n].Header? then 0 else |batch|) && (rest != [] ==> at.db.Some?)
    requires Written(batches) + Pending(at, rest) == Written(before) + Pending(at, batch) + []
    ensures forall k :: 0 <= k < n ==> !Fails(cfg, lines[k], At(cfg, lines, k))
    ensures Fails(cfg, lines[n], At(cfg, lines, n))
    ensures Written(batches) + Pending(at, rest) == Immediate(cfg, lines, START) && |Pending(at, rest)| == Lost(cfg, lines, n)
  {
    hide Written, Bounded, At, Held;
    assert Immediate(cfg, lines[n..], at) == [];
    PendingLength(at, rest);
  }

  /** The end of the file. */
  lemma EndsWell(cfg: Config, lines: seq<Line>, at: Cursor, waiting: seq<Body>, before: seq<Batch>, batches: seq<Batch>)
    requires Progress(cfg, lines, |lines|, at, waiting, before) && Written(batches) == Written(before) + Pending(at, waiting)
    ensures forall k :: 0 <= k < |lines| ==> !Fails(cfg, lines[k], At(cfg, lines, k))
    ensures Written(batches) + [] == Immediate(cfg, lines, START) && Lost(cfg, lines, |lines|) == 0
  {
    hide Written, Bounded, Fails;
    assert Immediate(cfg, lines[|lines|..], at) == [];
  }

  lemma NextCursor(cfg: Config, lines: seq<Line>, n: nat)
    requires n < |lines|
    ensures At(cfg, lines, n + 1) == Move(cfg, lines[n], At(cfg, lines, n))
    ensures Held(cfg, lines, n + 1) == Step(lines[n], At(cfg, lines, n), Waiting(cfg, lines, n))
  {
  }

  lemma PendingLength(at: Cursor, batch: seq<Body>)
    requires batch != [] ==> at.db.Some?
    ensures |Pending(at, batch)| == |batch|
  {
    if at.db.Some? {
      TaggedLength(at.db.value, batch);
    }
  }

  /** No line throws. */
  predicate WellFormed(cfg: Config, lines: seq<Line>) {
    forall n :: 0 <= n < |lines| ==> !Fails(cfg, lines[n], At(cfg, lines, n))
  }

  /** Every well-formed file is restored exactly as if line by line, in the same order. */
  method RestoreWellFormed(cfg: Config, lines: seq<Line>) returns (dbs: Databases)
    requires WellFormed(cfg, lines)
    ensures fresh(dbs) && Written(dbs.batches) == Immediate(cfg, lines, START) && Bounded(dbs.batches)
    ensures exists places :: RestoredInOrder(cfg, lines, |lines|, Written(dbs.batches), places)
  {
    dbs := new Databases();
    ghost var completed, processed, lost;
    completed, processed, lost := dbs.Restore(cfg, lines);
    assert lost == [];
    assert Written(dbs.batches) + lost == Written(dbs.batches);
  }

  /** Not so for a malformed file: here the only document is accepted and then never written. */
  lemma MalformedLosesDocuments(cfg: Config, body: Body)
    requires cfg.matches("projects")
    ensures var lines := [Header(Some("projects")), Record(Some("a"), Some(body)), Bad];
            && Immediate(cfg, lines, START) == [Write(ProjectsDb, WithoutRev(body))]
            && Lost(cfg, lines, 2) == 1
  {
    var lines := [Header(Some("projects")), Record(Some("a"), Some(body)), Bad];
    var at := Cursor(Some(ProjectsDb), false);
    assert At(cfg, lines, 1) == at;
    assert lines[1..] == [lines[1], Bad] && lines[1..][1..] == [Bad];
    assert Held(cfg, lines, 1) == 0;
    assert Immediate(cfg, [Bad], at) == [];
    assert Immediate(cfg, lines[1..], at) == [Write(ProjectsDb, WithoutRev(body))];
  }

  /** The batch is empty when line h is parsed: a thousand lines are done, or a header was just read. */
  predicate FlushPoint(lines: seq<Line>, h: nat)
    requires h <= |lines|
  {
    h % GC_INTERVAL == 0 || lines[h - 1].Header?
  }

  /** The eligible lines from h up to n. */
  function EligibleLines(cfg: Config, lines: seq<Line>, h: nat, n: nat): nat
    requires h <= n <= |lines|
    decreases n
  {
    if n == h then 0
    else EligibleLines(cfg, lines, h, n - 1) + if Eligible(lines[n - 1], At(cfg, lines, n - 1)) then 1 else 0
  }

  /**
   * Exactly what an early return loses: when a line other than a header throws, the eligible lines
   * since the last header or thousandth line, less the full batches among them.
   */
  lemma LostExactly(cfg: Config, lines: seq<Line>, h: nat, n: nat)
    requires h <= n < |lines| && FlushPoint(lines, h)
    requires forall k :: h < k <= n ==> !FlushPoint(lines, k)
    ensures Lost(cfg, lines, n) == if lines[n].Header? then 0 else EligibleLines(cfg, lines, h, n) % BATCH_SIZE
  {
    WaitingCount(cfg, lines, h, n);
  }

  lemma {:induction false} WaitingCount(cfg: Config, lines: seq<Line>, h: nat, n: nat)
    requires h <= n <= |lines| && FlushPoint(lines, h)
    requires forall k :: h < k <= n ==> !FlushPoint(lines, k)
    ensures Waiting(cfg, lines, n) == EligibleLines(cfg, lines, h, n) % BATCH_SIZE
    decreases n
  {
    if n > h {
      WaitingCount(cfg, lines, h, n - 1);
      assert !FlushPoint(lines, n);
    }
  }
}
