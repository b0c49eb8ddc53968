/**
 * Download grants as a concurrent protocol (api/src/couchdb/downloadGrants.ts): consume, revoke,
 * create (which first enforces the cap) and the TTL sweep each read revisioned documents, read the
 * clock, and write back one document at a time, all steps interleaving. Writes may fail, or be
 * applied and still be reported as failed; a process may stop at any point.
 */
module Grants {
  import opened Prelude
  import GrantCap
  import Retention

  datatype GrantDoc = GrantDoc(user: nat, used: bool, created: int, expiry: int, rev: nat)
  datatype Row = Row(id: nat, doc: GrantDoc)

  datatype Task =
    | Consume(id: nat, secretOk: bool)
    | RevokeAll(user: nat)
    | Create(user: nat)
    | Sweep(grace: int)

  datatype Pc = Start | Read(rows: seq<Row>) | Writing(now: int, pending: seq<Row>) | Done

  /**
   * `won`: the grants this process has been told it marked used (or, for the sweep, deleted).
   * No code reads the rest: ids from `floor` on were given out after it read its rows, `left` holds
   * the live grants it read and has not tried, or failed, to mark, `failed` counts its failed writes,
   * and `minted` is the grant it created.
   */
  datatype Process = Process(task: Task, pc: Pc, won: set<nat>, floor: nat, left: set<nat>, failed: nat, minted: Option<nat>)

  datatype Mark = Mark(id: nat, writer: nat, at: int, expiry: int)

  /** `marks` lists every applied write of `used: true`; no code reads it. */
  datatype State = State(store: map<nat, GrantDoc>, nextId: nat, nextRev: nat, clock: int,
                         procs: seq<Process>, marks: seq<Mark>)

  datatype Io = Ok | Fail | LostAck

  datatype Step =
    | Mint(p: nat, created: int, expiry: int)
    | ReadRows(p: nat, rows: seq<Row>)
    | ReadClock(p: nat, pending: seq<Row>)
    | Write(p: nat, io: Io)
    | Crash(p: nat)
    | Tick(now: int)

  const CAP := GrantCap.MAX_UNUSED_DOWNLOAD_GRANTS_PER_USER

  // ----- what each task reads and selects

  ghost predicate Wanted(task: Task, store: map<nat, GrantDoc>, id: nat) {
    id in store && match task
                   case Consume(wanted, _) => id == wanted
                   case RevokeAll(user) => store[id].user == user
                   case Create(user) => store[id].user == user
                   case Sweep(_) => true
  }

  predicate NoRepeats(rows: seq<Row>) {
    forall i, j :: 0 <= i < j < |rows| ==> rows[i].id != rows[j].id
  }

  /** The rows are what the get or query returns; the sweep reads some page. */
  ghost predicate Reads(task: Task, store: map<nat, GrantDoc>, rows: seq<Row>) {
    && NoRepeats(rows)
    && (forall i :: 0 <= i < |rows| ==> Wanted(task, store, rows[i].id) && store[rows[i].id] == rows[i].doc)
    && (!task.Sweep? ==> forall id :: Wanted(task, store, id) ==> Row(id, store[id]) in rows)
  }

  function Body(doc: GrantDoc): Retention.Body {
    Retention.Grant(doc.user, doc.used, doc.created, doc.expiry)
  }

  /** Unused and unexpired: what the cap counts. */
  predicate Live(doc: GrantDoc, now: int) {
    Retention.Counts(Body(doc), now)
  }

  function LiveRow(now: int): Row -> bool {
    (row: Row) => Live(row.doc, now)
  }

  predicate Due(doc: GrantDoc, now: int, grace: int) {
    Retention.ShouldDelete(Body(doc), now, Retention.DEFAULT_GRACES.(grant := grace))
  }

  function DueRow(now: int, grace: int): Row -> bool {
    (row: Row) => Due(row.doc, now, grace)
  }

  function Ids(rows: seq<Row>): set<nat> {
    set i | 0 <= i < |rows| :: rows[i].id
  }

  /** The oldest of the live rows, so many that one more grant stays within the cap; ties in any order. */
  ghost predicate OldestOverflow(live: seq<Row>, chosen: seq<Row>) {
    && |chosen| == Max(0, |live| - (CAP - 1)) && NoRepeats(chosen)
    && (forall i :: 0 <= i < |chosen| ==> chosen[i] in live)
    && forall i, j :: 0 <= i < |chosen| && 0 <= j < |live| && live[j] !in chosen ==> chosen[i].doc.created <= live[j].doc.created
  }

  /** What the task goes on to write, having read the rows and then the clock. */
  ghost predicate Selects(task: Task, rows: seq<Row>, now: int, pending: seq<Row>) {
    match task
    case Consume(_, secretOk) => pending == if secretOk then Filter(LiveRow(now), rows) else []
    case RevokeAll(_) => pending == Filter(LiveRow(now), rows)
    case Create(_) => OldestOverflow(Filter(LiveRow(now), rows), pending)
    case Sweep(grace) => pending == Filter(DueRow(now, grace), rows)
  }

  // ----- steps

  predicate Current(store: map<nat, GrantDoc>, row: Row) {
    row.id in store && store[row.id].rev == row.doc.rev
  }

  /** The store after a write that the revision check lets through. */
  function Apply(s: State, p: nat): State
    requires p < |s.procs| && s.procs[p].pc.Writing? && s.procs[p].pc.pending != []
  {
    var pc := s.procs[p].pc;
    var row := pc.pending[0];
    if !Current(s.store, row) then s
    else if s.procs[p].task.Sweep? then s.(store := s.store - {row.id})
    else s.(store := s.store[row.id := row.doc.(used := true, rev := s.nextRev)], nextRev := s.nextRev + 1,
            marks := s.marks + [Mark(row.id, p, pc.now, row.doc.expiry)])
  }

  /** Consume stops at an error, and so does the sweep; revocation and creation carry on with the next grant. */
  function Remaining(proc: Process, io: Io): seq<Row>
    requires proc.pc.Writing? && proc.pc.pending != []
  {
    if !io.Ok? && (proc.task.Consume? || proc.task.Sweep?) then [] else proc.pc.pending[1..]
  }

  ghost predicate Enabled(s: State, step: Step) {
    match step
    case Mint(p, _, _) => p < |s.procs| && s.procs[p].task.Create? && s.procs[p].pc.Writing? && s.procs[p].pc.pending == []
    case ReadRows(p, rows) => p < |s.procs| && s.procs[p].pc.Start? && Reads(s.procs[p].task, s.store, rows)
    case ReadClock(p, pending) =>
      p < |s.procs| && s.procs[p].pc.Read? && Selects(s.procs[p].task, s.procs[p].pc.rows, s.clock, pending)
    case Write(p, _) => p < |s.procs| && s.procs[p].pc.Writing? && s.procs[p].pc.pending != []
    case Crash(p) => p < |s.procs|
    case Tick(now) => s.clock <= now
  }

  ghost function Next(s: State, step: Step): State
    requires Enabled(s, step)
  {
    match step
    case Mint(p, created, expiry) =>
      s.(store := s.store[s.nextId := GrantDoc(s.procs[p].task.user, false, created, expiry, s.nextRev)],
         procs := s.procs[p := s.procs[p].(pc := Done, minted := Some(s.nextId))], nextId := s.nextId + 1, nextRev := s.nextRev + 1)
    case ReadRows(p, rows) => s.(procs := s.procs[p := s.procs[p].(pc := Read(rows), floor := s.nextId)])
    case ReadClock(p, pending) =>
      var left := Ids(Filter(LiveRow(s.clock), s.procs[p].pc.rows)) - Ids(pending);
      s.(procs := s.procs[p := s.procs[p].(pc := Writing(s.clock, pending), left := left)])
    case Write(p, io) =>
      var proc := s.procs[p];
      var row := proc.pc.pending[0];
      var won := if io.Ok? && Current(s.store, row) then proc.won + {row.id} else proc.won;
      var after := if io.Fail? then s else Apply(s, p);
      var left, failed := if io.Fail? then proc.left + {row.id} else proc.left, if io.Fail? then proc.failed + 1 else proc.failed;
      after.(procs := s.procs[p := proc.(pc := Writing(proc.pc.now, Remaining(proc, io)), won := won, left := left, failed := failed)])
    case Crash(p) => s.(procs := s.procs[p := s.procs[p].(pc := Done)])
    case Tick(now) => s.(clock := now)
  }

  ghost predicate Run(s: State, steps: seq<Step>, t: State)
    decreases steps
  {
    if steps == [] then s == t else Enabled(s, steps[0]) && Run(Next(s, steps[0]), steps[1..], t)
  }

  /** Processes that have done nothing yet; the store may hold grants of any kind. */
  ghost predicate Initial(s: State) {
    && (forall id :: id in s.store ==> id < s.nextId && s.store[id].rev < s.nextRev)
    && (forall p :: 0 <= p < |s.procs| ==>
          s.procs[p].pc.Start? && s.procs[p].won == {} && s.procs[p].minted.None? && s.procs[p].failed == 0)
    && s.marks == []
  }

  // ----- the invariant

  /** A row that was read some time ago: it is current, or has been marked or deleted since. */
  ghost predicate Seen(s: State, row: Row) {
    && row.id < s.nextId && row.doc.rev < s.nextRev
    && (row.id in s.store ==> s.store[row.id] == row.doc || (s.store[row.id].used && !Current(s.store, row)))
  }

  ghost predicate RowsSeen(s: State, rows: seq<Row>) {
    forall i :: 0 <= i < |rows| ==> Seen(s, rows[i])
  }

  predicate Selected(proc: Process, row: Row) {
    && (!proc.task.Sweep? ==> proc.pc.Writing? && Live(row.doc, proc.pc.now))
    && (proc.task.Sweep? ==> proc.pc.Writing? && Due(row.doc, proc.pc.now, proc.task.grace))
    && (proc.task.Consume? ==> row.id == proc.task.id && proc.task.secretOk)
  }

  ghost predicate ProcOk(s: State, p: nat)
    requires p < |s.procs|
  {
    var proc := s.procs[p];
    && (proc.pc.Read? ==> RowsSeen(s, proc.pc.rows)
                          && (proc.task.Consume? ==> forall i :: 0 <= i < |proc.pc.rows| ==> proc.pc.rows[i].id == proc.task.id))
    && (proc.pc.Writing? ==> proc.pc.now <= s.clock && RowsSeen(s, proc.pc.pending)
                             && forall i :: 0 <= i < |proc.pc.pending| ==> Selected(proc, proc.pc.pending[i]))
    && (!proc.task.Sweep? ==> forall id :: id in proc.won ==> exists m :: 0 <= m < |s.marks| && s.marks[m].id == id && s.marks[m].writer == p)
  }

  ghost predicate MarksOk(s: State) {
    && (forall m :: 0 <= m < |s.marks| ==>
          && s.marks[m].id < s.nextId && s.marks[m].writer < |s.procs| && s.marks[m].at <= s.marks[m].expiry
          && (s.marks[m].id in s.store ==> s.store[s.marks[m].id].used)
          && (s.procs[s.marks[m].writer].task.Consume? ==>
                s.procs[s.marks[m].writer].task.id == s.marks[m].id && s.procs[s.marks[m].writer].task.secretOk))
    && (forall m, n :: 0 <= m < n < |s.marks| ==> s.marks[m].id != s.marks[n].id)
  }

  ghost predicate Inv(s: State) {
    && (forall id :: id in s.store ==> id < s.nextId && s.store[id].rev < s.nextRev)
    && (forall p: nat :: p < |s.procs| ==> ProcOk(s, p))
    && MarksOk(s)
  }

  /** What every step does to the parts of the state other processes rely on. */
  ghost predicate Evolves(s: State, t: State) {
    && s.nextId <= t.nextId && s.nextRev <= t.nextRev && s.clock <= t.clock && |s.procs| == |t.procs|
    && s.marks <= t.marks
    && (forall p :: 0 <= p < |s.procs| ==> t.procs[p].task == s.procs[p].task && s.procs[p].won <= t.procs[p].won)
    && (forall id :: id in t.store && id < s.nextId ==> id in s.store && (s.store[id].used ==> t.store[id].used))
    && (forall id :: id in t.store && id < s.nextId && (!t.store[id].used || t.store[id].rev < s.nextRev) ==> t.store[id] == s.store[id])
  }

  lemma NextEvolves(s: State, step: Step)
    requires Inv(s) && Enabled(s, step)
    ensures Evolves(s, Next(s, step))
  {
    if step.Write? {
      assert ProcOk(s, step.p);
    }
  }

  lemma RowsStaySeen(s: State, t: State, rows: seq<Row>)
    requires Evolves(s, t) && RowsSeen(s, rows)
    ensures RowsSeen(t, rows)
  {
  }

  /** A process that did not move keeps its invariant. */
  lemma OtherProcOk(s: State, t: State, p: nat)
    requires Evolves(s, t) && p < |s.procs| && ProcOk(s, p) && t.procs[p] == s.procs[p]
    ensures ProcOk(t, p)
  {
    if s.procs[p].pc.Read? {
      RowsStaySeen(s, t, s.procs[p].pc.rows);
    } else if s.procs[p].pc.Writing? {
      RowsStaySeen(s, t, s.procs[p].pc.pending);
    }
  }

  /** Whatever a task selects, it selected from live rows (or due ones, for the sweep). */
  lemma SelectedRows(proc: Process, now: int, pending: seq<Row>, i: nat)
    requires proc.pc.Read? && Selects(proc.task, proc.pc.rows, now, pending) && i < |pending|
    requires proc.task.Consume? ==> forall k :: 0 <= k < |proc.pc.rows| ==> proc.pc.rows[k].id == proc.task.id
    ensures pending[i] in proc.pc.rows && forall left :: Selected(proc.(pc := Writing(now, pending), left := left), pending[i])
  {
    FilterMembers(LiveRow(now), proc.pc.rows);
    if proc.task.Sweep? {
      FilterMembers(DueRow(now, proc.task.grace), proc.pc.rows);
      assert pending[i] in Filter(DueRow(now, proc.task.grace), proc.pc.rows);
    } else {
      assert pending[i] in Filter(LiveRow(now), proc.pc.rows);
    }
  }

  lemma MoverProcOk(s: State, step: Step)
    requires Inv(s) && Enabled(s, step) && (step.ReadRows? || step.ReadClock? || step.Crash? || step.Mint?)
    ensures ProcOk(Next(s, step), step.p)
  {
    assert ProcOk(s, step.p);
    if step.ReadClock? {
      forall i | 0 <= i < |step.pending|
        ensures Seen(Next(s, step), step.pending[i]) && Selected(Next(s, step).procs[step.p], step.pending[i])
      {
        SelectedRows(s.procs[step.p], s.clock, step.pending, i);
      }
    }
  }

  lemma WriterProcOk(s: State, step: Step)
    requires Inv(s) && Enabled(s, step) && step.Write?
    ensures ProcOk(Next(s, step), step.p)
  {
    var p, t := step.p, Next(s, step);
    assert ProcOk(s, p);
    NextEvolves(s, step);
    RowsStaySeen(s, t, s.procs[p].pc.pending);
    if !s.procs[p].task.Sweep? {
      forall id | id in t.procs[p].won
        ensures exists m :: 0 <= m < |t.marks| && t.marks[m].id == id && t.marks[m].writer == p
      {
        if id in s.procs[p].won {
          var m :| 0 <= m < |s.marks| && s.marks[m].id == id && s.marks[m].writer == p;
          assert t.marks[m] == s.marks[m];
        } else {
          assert t.marks[|s.marks|].id == id;
        }
      }
    }
  }

  lemma MarksOkNext(s: State, step: Step)
    requires Inv(s) && Enabled(s, step)
    ensures MarksOk(Next(s, step))
  {
    NextEvolves(s, step);
    if step.Write? {
      assert ProcOk(s, step.p);
      var row := s.procs[step.p].pc.pending[0];
      assert Selected(s.procs[step.p], row) && Seen(s, row);
    }
  }

  lemma InvNext(s: State, step: Step)
    requires Inv(s) && Enabled(s, step)
    ensures Inv(Next(s, step))
  {
    var t := Next(s, step);
    NextEvolves(s, step);
    MarksOkNext(s, step);
    forall p: nat | p < |t.procs|
      ensures ProcOk(t, p)
    {
      assert ProcOk(s, p);
      if t.procs[p] == s.procs[p] {
        OtherProcOk(s, t, p);
      } else if step.Write? {
        WriterProcOk(s, step);
      } else {
        MoverProcOk(s, step);
      }
    }
  }

  lemma {:induction false} InvRun(s: State, steps: seq<Step>, t: State)
    requires Inv(s) && Run(s, steps, t)
    ensures Inv(t) && |s.procs| == |t.procs| && s.nextId <= t.nextId && s.marks <= t.marks
    ensures forall id :: id in t.store && id < s.nextId ==> id in s.store && (s.store[id].used ==> t.store[id].used)
    decreases steps
  {
    if steps != [] {
      NextEvolves(s, steps[0]);
      InvNext(s, steps[0]);
      InvRun(Next(s, steps[0]), steps[1..], t);
    }
  }

  // ----- main results

  /** At most one consume, revocation or creation (enforcing the cap) ever wins a given grant. */
  lemma SingleUse(s: State, steps: seq<Step>, t: State, id: nat, p: nat, q: nat)
    requires Initial(s) && Run(s, steps, t) && p < |t.procs| && q < |t.procs|
    requires !t.procs[p].task.Sweep? && !t.procs[q].task.Sweep? && id in t.procs[p].won && id in t.procs[q].won
    ensures p == q
  {
    InvRun(s, steps, t);
    assert ProcOk(t, p) && ProcOk(t, q);
    var m :| 0 <= m < |t.marks| && t.marks[m].id == id && t.marks[m].writer == p;
    var n :| 0 <= n < |t.marks| && t.marks[n].id == id && t.marks[n].writer == q;
    assert m == n;
  }

  /** `used` never reverts: a used grant stays used until it is deleted, and a deleted one never returns. */
  lemma UsedNeverReverts(s: State, steps: seq<Step>, m: State, more: seq<Step>, t: State, id: nat)
    requires Initial(s) && Run(s, steps, m) && Run(m, more, t)
    requires id < m.nextId && (id in m.store ==> m.store[id].used)
    ensures id in t.store ==> t.store[id].used
  {
    InvRun(s, steps, m);
    InvRun(m, more, t);
  }

  /**
   * Once a process has marked a grant used (even if it was told the write failed), no other
   * process ever wins it: no consume succeeds after a revocation won, and the other way round.
   */
  lemma NoConsumeAfterRevoke(s: State, steps: seq<Step>, m: State, more: seq<Step>, t: State, k: nat, p: nat)
    requires Initial(s) && Run(s, steps, m) && Run(m, more, t)
    requires k < |m.marks| && p < |t.procs| && !t.procs[p].task.Sweep? && m.marks[k].id in t.procs[p].won
    ensures p == m.marks[k].writer
  {
    InvRun(s, steps, m);
    InvRun(m, more, t);
    assert ProcOk(t, p);
    var n :| 0 <= n < |t.marks| && t.marks[n].id == m.marks[k].id && t.marks[n].writer == p;
    assert t.marks[k] == m.marks[k] && n == k;
  }

  /** A consume that won had the right secret, for its own grant, unexpired when it read the clock. */
  lemma WinsAreJustified(s: State, steps: seq<Step>, t: State, id: nat, p: nat)
    requires Initial(s) && Run(s, steps, t) && p < |t.procs| && t.procs[p].task.Consume? && id in t.procs[p].won
    ensures t.procs[p].task.secretOk && t.procs[p].task.id == id
    ensures exists m :: 0 <= m < |t.marks| && t.marks[m].id == id && t.marks[m].writer == p && t.marks[m].at <= t.marks[m].expiry
  {
    InvRun(s, steps, t);
    assert ProcOk(t, p);
  }

  /** No step deletes an unused grant that has not expired. */
  lemma LiveGrantsSurvive(s: State, steps: seq<Step>, t: State, step: Step, id: nat)
    requires Initial(s) && Run(s, steps, t) && Enabled(t, step)
    requires id in t.store && Live(t.store[id], t.clock)
    ensures id in Next(t, step).store
  {
    InvRun(s, steps, t);
    if step.Write? {
      assert ProcOk(t, step.p);
      var row := t.procs[step.p].pc.pending[0];
      assert Selected(t.procs[step.p], row) && Seen(t, row);
    }
  }
}
