/**
 * The per-user cap when calls of `createDownloadGrant` overlap. Enforcing the cap and storing the
 * new grant are separate steps, so overlapping calls can pass the cap together; this is by how much.
 */
module GrantOverlap {
  import opened Prelude
  import opened Grants

  /** A call of `createDownloadGrant` that has read the user's grants and has not ended. */
  predicate Creating(proc: Process, user: nat) {
    proc.task == Create(user) && (proc.pc.Read? || proc.pc.Writing?)
  }

  ghost function InProgress(s: State, user: nat): set<nat> {
    set p: nat | p < |s.procs| && Creating(s.procs[p], user)
  }

  ghost function LiveIds(s: State, user: nat): set<nat> {
    set id: nat | id in s.store && s.store[id].user == user && Live(s.store[id], s.clock)
  }

  /** A run in which at most `c` creations for this user are ever in progress at once. */
  ghost predicate RunAtMost(s: State, steps: seq<Step>, t: State, user: nat, c: nat)
    decreases steps
  {
    && |InProgress(s, user)| <= c
    && if steps == [] then s == t else Enabled(s, steps[0]) && RunAtMost(Next(s, steps[0]), steps[1..], t, user, c)
  }

  // ----- what a creation or a revocation has dealt with

  /** Tasks that go through all the live grants of a user. */
  predicate MarksAll(task: Task) {
    task.Create? || task.RevokeAll?
  }

  /** How many live grants the task is meant to leave: a creation makes room for one more. */
  function Spares(task: Task): nat {
    if task.Create? then CAP - 1 else 0
  }

  function Untried(proc: Process): set<nat> {
    if proc.pc.Writing? then Ids(proc.pc.pending) else {}
  }

  /** Of the user's grants from before its read, the live ones are those it left or has yet to mark; it leaves no more than it should and failed to mark. */
  ghost predicate Covered(s: State, proc: Process)
    requires MarksAll(proc.task)
  {
    && (proc.pc.Read? ==> forall id :: id in s.store && id < proc.floor && s.store[id].user == proc.task.user && !s.store[id].used ==>
          Row(id, s.store[id]) in proc.pc.rows)
    && (proc.pc.Writing? || proc.minted.Some? ==>
          && |proc.left| <= Spares(proc.task) + proc.failed
          && forall id :: id in s.store && id < proc.floor && s.store[id].user == proc.task.user && Live(s.store[id], s.clock) ==>
               id in proc.left || id in Untried(proc))
  }

  /** Who created what; `first` is the first id given out during the run. */
  ghost predicate Origins(s: State, first: nat) {
    && first <= s.nextId
    && (forall p :: 0 <= p < |s.procs| && (s.procs[p].pc.Read? || s.procs[p].pc.Writing? || s.procs[p].minted.Some?) ==>
          first <= s.procs[p].floor <= s.nextId)
    && (forall p :: 0 <= p < |s.procs| && s.procs[p].minted.Some? ==>
          s.procs[p].pc.Done? && s.procs[p].floor <= s.procs[p].minted.value < s.nextId)
    && (forall id :: id in s.store && first <= id && !s.store[id].used ==>
          exists q: nat :: q < |s.procs| && s.procs[q].task == Create(s.store[id].user) && s.procs[q].minted == Some(id))
  }

  ghost predicate AllCovered(s: State) {
    forall p :: 0 <= p < |s.procs| && MarksAll(s.procs[p].task) ==> Covered(s, s.procs[p])
  }

  // ----- cardinalities of sets of ids

  lemma IdsSnoc(rows: seq<Row>)
    requires rows != []
    ensures var last := |rows| - 1; Ids(rows) == Ids(rows[..last]) + {rows[last].id}
  {
    var last := |rows| - 1;
    forall id | id in Ids(rows)
      ensures id in Ids(rows[..last]) + {rows[last].id}
    {
      var i :| 0 <= i < |rows| && rows[i].id == id;
      if i < last {
        assert rows[..last][i].id == id;
      }
    }
    forall id | id in Ids(rows[..last])
      ensures id in Ids(rows)
    {
      var i :| 0 <= i < last && rows[..last][i].id == id;
      assert rows[i].id == id;
    }
  }

  lemma LastIsNew(rows: seq<Row>)
    requires rows != [] && NoRepeats(rows)
    ensures NoRepeats(rows[..|rows| - 1]) && rows[|rows| - 1].id !in Ids(rows[..|rows| - 1])
  {
  }

  lemma {:induction false} IdsBound(rows: seq<Row>)
    ensures |Ids(rows)| <= |rows| && (NoRepeats(rows) ==> |Ids(rows)| == |rows|)
  {
    if rows != [] {
      hide Ids, NoRepeats;
      IdsBound(rows[..|rows| - 1]);
      IdsSnoc(rows);
      if NoRepeats(rows) {
        LastIsNew(rows);
      }
    } else {
      assert Ids(rows) == {};
    }
  }

  lemma SubsetBound(a: set<nat>, b: set<nat>)
    requires a <= b
    ensures |a| <= |b| && |b - a| == |b| - |a|
  {
    assert b == a + (b - a);
  }

  /** Leaving the oldest overflow out leaves at most the cap less one. */
  lemma LeftBound(live: seq<Row>, chosen: seq<Row>)
    requires OldestOverflow(live, chosen)
    ensures |Ids(live) - Ids(chosen)| <= CAP - 1
  {
    forall id | id in Ids(chosen)
      ensures id in Ids(live)
    {
      var i :| 0 <= i < |chosen| && chosen[i].id == id;
      var j :| 0 <= j < |live| && live[j] == chosen[i];
    }
    IdsBound(live);
    IdsBound(chosen);
    SubsetBound(Ids(chosen), Ids(live));
  }

  // ----- the steps

  /** A process that does not move stays covered. */
  lemma OtherCovered(s: State, t: State, proc: Process)
    requires Evolves(s, t) && MarksAll(proc.task) && Covered(s, proc) && proc.floor <= s.nextId
    ensures Covered(t, proc)
  {
  }

  /** The rows it read hold every live grant of the user; it leaves all but those it will mark. */
  lemma ClockCovered(s: State, step: Step)
    requires Inv(s) && Enabled(s, step) && step.ReadClock? && MarksAll(s.procs[step.p].task) && Covered(s, s.procs[step.p])
    ensures Covered(Next(s, step), Next(s, step).procs[step.p])
  {
    var proc := s.procs[step.p];
    var live := Filter(LiveRow(s.clock), proc.pc.rows);
    if proc.task.Create? {
      LeftBound(live, step.pending);
    } else {
      assert Ids(live) - Ids(step.pending) == {};
    }
    FilterMembers(LiveRow(s.clock), proc.pc.rows);
    forall id | id in s.store && id < proc.floor && s.store[id].user == proc.task.user && Live(s.store[id], s.clock)
      ensures id in Ids(live)
    {
      var row := Row(id, s.store[id]);
      assert row in proc.pc.rows && LiveRow(s.clock)(row);
      var i :| 0 <= i < |live| && live[i] == row;
    }
  }

  /** After a write the grant is marked or gone, unless the write failed and the grant is left. */
  lemma WriteCovered(s: State, step: Step)
    requires Inv(s) && Enabled(s, step) && step.Write? && MarksAll(s.procs[step.p].task) && Covered(s, s.procs[step.p])
    requires s.procs[step.p].floor <= s.nextId
    ensures Covered(Next(s, step), Next(s, step).procs[step.p])
  {
    var p, t := step.p, Next(s, step);
    var pending := s.procs[p].pc.pending;
    NextEvolves(s, step);
    assert ProcOk(s, p);
    assert Seen(s, pending[0]);
    assert |s.procs[p].left + {pending[0].id}| <= |s.procs[p].left| + 1;
    assert t.procs[p].pc.pending == pending[1..];
    forall id | id in Ids(pending) && id != pending[0].id
      ensures id in Ids(pending[1..])
    {
      var i :| 0 <= i < |pending| && pending[i].id == id;
      assert pending[1..][i - 1].id == id;
    }
  }

  lemma CoveredNext(s: State, step: Step, first: nat)
    requires Inv(s) && Origins(s, first) && AllCovered(s) && Enabled(s, step)
    ensures AllCovered(Next(s, step))
  {
    hide Inv, Selects, Reads;
    var t := Next(s, step);
    NextEvolves(s, step);
    forall p | 0 <= p < |t.procs| && MarksAll(t.procs[p].task)
      ensures Covered(t, t.procs[p])
    {
      assert Covered(s, s.procs[p]);
      if t.procs[p] == s.procs[p] {
        if !s.procs[p].pc.Start? && (s.procs[p].pc.Done? ==> s.procs[p].minted.Some?) {
          OtherCovered(s, t, s.procs[p]);
        }
      } else if step.ReadClock? {
        ClockCovered(s, step);
      } else if step.Write? {
        WriteCovered(s, step);
      } else if step.Mint? {
        MintCovered(s, step, first);
      } else if step.ReadRows? {
        ReadCovered(s, step, first);
      } else {
        CrashCovered(s, step, first);
      }
    }
  }

  lemma MintCovered(s: State, step: Step, first: nat)
    requires Inv(s) && Origins(s, first) && Enabled(s, step) && step.Mint? && Covered(s, s.procs[step.p])
    ensures Covered(Next(s, step), Next(s, step).procs[step.p])
  {
  }

  lemma ReadCovered(s: State, step: Step, first: nat)
    requires Inv(s) && Origins(s, first) && Enabled(s, step) && step.ReadRows? && MarksAll(s.procs[step.p].task)
    ensures Covered(Next(s, step), Next(s, step).procs[step.p])
  {
  }

  lemma CrashCovered(s: State, step: Step, first: nat)
    requires Origins(s, first) && Enabled(s, step) && step.Crash? && MarksAll(s.procs[step.p].task) && Covered(s, s.procs[step.p])
    ensures Covered(Next(s, step), Next(s, step).procs[step.p])
  {
  }

  lemma OriginsNext(s: State, step: Step, first: nat)
    requires Inv(s) && Origins(s, first) && Enabled(s, step)
    ensures Origins(Next(s, step), first)
  {
    hide Inv, Selects, Reads, Ids, LiveRow, Filter, Remaining;
    var t := Next(s, step);
    NextEvolves(s, step);
    forall id | id in t.store && first <= id && !t.store[id].used
      ensures exists q: nat :: q < |t.procs| && t.procs[q].task == Create(t.store[id].user) && t.procs[q].minted == Some(id)
    {
      if id < s.nextId {
        var q: nat :| q < |s.procs| && s.procs[q].task == Create(s.store[id].user) && s.procs[q].minted == Some(id);
        assert t.procs[q].minted == Some(id);
      } else {
        assert step.Mint? && t.procs[step.p].minted == Some(id);
      }
    }
  }

  // ----- how many creations can slip past one read

  /** The creations that had read the grants when `k` was the next id, and ended at that id or later, or not yet. */
  ghost function Past(s: State, user: nat, k: nat): set<nat> {
    set p: nat | p < |s.procs| && s.procs[p].task == Create(user) && s.procs[p].floor <= k
                 && (Creating(s.procs[p], user) || (s.procs[p].minted.Some? && k <= s.procs[p].minted.value))
  }

  ghost predicate FewPast(s: State, user: nat, c: nat) {
    forall k: nat :: k <= s.nextId ==> |Past(s, user, k)| <= c
  }

  /** A creation that reads later does not slip past. */
  lemma PastShrinks(s: State, step: Step, user: nat, k: nat)
    requires Enabled(s, step) && k < Next(s, step).nextId
    ensures k <= s.nextId && Past(Next(s, step), user, k) <= Past(s, user, k)
  {
    hide Selects, Reads;
  }

  lemma FewPastNext(s: State, step: Step, first: nat, user: nat, c: nat)
    requires Inv(s) && Origins(s, first) && FewPast(s, user, c) && Enabled(s, step)
    requires |InProgress(Next(s, step), user)| <= c
    ensures FewPast(Next(s, step), user, c)
  {
    var t := Next(s, step);
    OriginsNext(s, step, first);
    PastIsInProgress(t, first, user);
    hide Inv, Origins, Enabled, Next, Past, InProgress;
    forall k: nat | k <= t.nextId
      ensures |Past(t, user, k)| <= c
    {
      if k == t.nextId {
        SubsetBound(Past(t, user, k), InProgress(t, user));
      } else {
        PastShrinks(s, step, user, k);
        SubsetBound(Past(t, user, k), Past(s, user, k));
      }
    }
  }

  lemma PastIsInProgress(s: State, first: nat, user: nat)
    requires Origins(s, first)
    ensures Past(s, user, s.nextId) <= InProgress(s, user)
  {
  }

  // ----- over a run

  /** No write of a creation for this user failed more than `f` times per creation. */
  ghost predicate FailedAtMost(s: State, user: nat, f: nat) {
    forall p :: 0 <= p < |s.procs| && s.procs[p].task == Create(user) ==> s.procs[p].failed <= f
  }

  lemma {:induction false} RunKeeps(s: State, steps: seq<Step>, t: State, first: nat, user: nat, c: nat)
    requires Inv(s) && Origins(s, first) && AllCovered(s) && FewPast(s, user, c) && RunAtMost(s, steps, t, user, c)
    ensures Inv(t) && Origins(t, first) && AllCovered(t) && FewPast(t, user, c) && Run(s, steps, t)
    ensures s.clock <= t.clock
    ensures forall id :: id in t.store && id < s.nextId && !t.store[id].used ==> id in s.store && t.store[id] == s.store[id]
    decreases steps
  {
    hide Inv, AllCovered, Origins, FewPast, Enabled, Next, InProgress;
    if steps != [] {
      var m := Next(s, steps[0]);
      NextEvolves(s, steps[0]);
      InvNext(s, steps[0]);
      OriginsNext(s, steps[0], first);
      CoveredNext(s, steps[0], first);
      FewPastNext(s, steps[0], first, user, c);
      RunKeeps(m, steps[1..], t, first, user, c);
    }
  }

  /** Among the creations that stored a grant, one that read last. */
  lemma {:induction false} LatestReader(procs: seq<Process>, user: nat, q: nat) returns (p: nat)
    requires q < |procs| && procs[q].task == Create(user) && procs[q].minted.Some?
    ensures p < |procs| && procs[p].task == Create(user) && procs[p].minted.Some?
    ensures forall r :: 0 <= r < |procs| && procs[r].task == Create(user) && procs[r].minted.Some? ==> procs[r].floor <= procs[p].floor
  {
    p := q;
    for r := 0 to |procs|
      invariant p < |procs| && procs[p].task == Create(user) && procs[p].minted.Some?
      invariant forall i :: 0 <= i < r && procs[i].task == Create(user) && procs[i].minted.Some? ==> procs[i].floor <= procs[p].floor
    {
      if procs[r].task == Create(user) && procs[r].minted.Some? && procs[p].floor < procs[r].floor {
        p := r;
      }
    }
  }

  ghost function Image(dom: set<nat>, f: nat -> nat): set<nat> {
    set x | x in dom :: f(x)
  }

  lemma {:induction false} ImageBound(dom: set<nat>, f: nat -> nat)
    ensures |Image(dom, f)| <= |dom|
    decreases dom
  {
    if x :| x in dom {
      ImageBound(dom - {x}, f);
      assert Image(dom, f) == Image(dom - {x}, f) + {f(x)};
    }
  }

  /** Every other creation that stored a grant read no later than `p`. */
  ghost predicate ReadLast(s: State, user: nat, p: nat) {
    && p < |s.procs| && s.procs[p].task == Create(user) && s.procs[p].minted.Some?
    && forall r :: 0 <= r < |s.procs| && s.procs[r].task == Create(user) && s.procs[r].minted.Some? ==> s.procs[r].floor <= s.procs[p].floor
  }

  function GrantOf(s: State): nat -> nat {
    (q: nat) => if q < |s.procs| && s.procs[q].minted.Some? then s.procs[q].minted.value else 0
  }

  /** A live grant is one the last reader left, or comes from a creation that slipped past its read. */
  lemma LeftOrPast(s: State, first: nat, user: nat, p: nat, id: nat)
    requires Origins(s, first) && AllCovered(s) && ReadLast(s, user, p) && id in LiveIds(s, user)
    ensures id in s.procs[p].left || exists q :: q in Past(s, user, s.procs[p].floor) && GrantOf(s)(q) == id
  {
    var k := s.procs[p].floor;
    assert Covered(s, s.procs[p]);
    if k <= id {
      var q: nat :| q < |s.procs| && s.procs[q].task == Create(user) && s.procs[q].minted == Some(id);
      assert q in Past(s, user, k) && GrantOf(s)(q) == id;
    }
  }

  lemma UnionBound(ids: set<nat>, left: set<nat>, dom: set<nat>, f: nat -> nat)
    requires forall id :: id in ids ==> id in left || exists q :: q in dom && f(q) == id
    ensures |ids| <= |left| + |dom|
  {
    var image := Image(dom, f);
    ImageBound(dom, f);
    SubsetBound(ids, left + image);
    SubsetBound(left, left + image);
    assert left + image - left <= image;
    SubsetBound(left + image - left, image);
  }

  lemma LiveAfter(s: State, first: nat, user: nat, c: nat, f: nat, p: nat)
    requires Origins(s, first) && AllCovered(s) && FewPast(s, user, c) && FailedAtMost(s, user, f) && ReadLast(s, user, p)
    ensures |LiveIds(s, user)| <= CAP - 1 + c + f
  {
    var k, left := s.procs[p].floor, s.procs[p].left;
    assert |left| <= CAP - 1 + f && |Past(s, user, k)| <= c by {
      assert Covered(s, s.procs[p]);
    }
    hide Origins, AllCovered, FewPast, FailedAtMost, Past, LiveIds, GrantOf;
    forall id | id in LiveIds(s, user)
      ensures id in left || exists q :: q in Past(s, user, k) && GrantOf(s)(q) == id
    {
      LeftOrPast(s, first, user, p, id);
    }
    UnionBound(LiveIds(s, user), left, Past(s, user, k), GrantOf(s));
  }

  /** Until a creation has stored a grant, only grants from before the run are live. */
  lemma NoneStored(s: State, t: State, user: nat)
    requires Origins(t, s.nextId) && s.clock <= t.clock
    requires forall p :: 0 <= p < |t.procs| && t.procs[p].task == Create(user) ==> t.procs[p].minted.None?
    requires forall id :: id in t.store && id < s.nextId && !t.store[id].used ==> id in s.store && t.store[id] == s.store[id]
    ensures LiveIds(t, user) <= LiveIds(s, user)
  {
  }

  lemma StartsWell(s: State, user: nat, c: nat)
    requires Initial(s)
    ensures Inv(s) && Origins(s, s.nextId) && AllCovered(s) && FewPast(s, user, c)
  {
    forall k: nat | k <= s.nextId
      ensures Past(s, user, k) == {}
    {
    }
  }

  /**
   * However calls overlap with each other and with consumes, revocations and sweeps: while at most `c`
   * creations for a user are in progress at once and none fails to write more than `f` marks, the
   * user's live grants stay within nine plus `c` plus `f`, or what there was at the start. With one
   * call at a time and no failed write this is the cap of ten.
   */
  lemma OverlapBound(s: State, steps: seq<Step>, t: State, user: nat, c: nat, f: nat)
    requires Initial(s) && RunAtMost(s, steps, t, user, c) && FailedAtMost(t, user, f)
    ensures |LiveIds(t, user)| <= Max(|LiveIds(s, user)|, CAP - 1 + c + f)
  {
    hide Initial, Inv, Origins, AllCovered, FewPast, FailedAtMost, RunAtMost, LiveIds;
    StartsWell(s, user, c);
    RunKeeps(s, steps, t, s.nextId, user, c);
    if q: nat :| q < |t.procs| && t.procs[q].task == Create(user) && t.procs[q].minted.Some? {
      var p := LatestReader(t.procs, user, q);
      LiveAfter(t, s.nextId, user, c, f, p);
    } else {
      NoneStored(s, t, user);
      SubsetBound(LiveIds(t, user), LiveIds(s, user));
    }
  }

  /**
   * A revocation that has gone through its list, no write of it having failed, has left no live grant of
   * those the user had when it read them, whatever else went on.
   */
  lemma RevocationIsComplete(s: State, steps: seq<Step>, t: State, p: nat, id: nat)
    requires Initial(s) && Run(s, steps, t) && p < |t.procs| && t.procs[p].task.RevokeAll? && t.procs[p].failed == 0
    requires t.procs[p].pc.Writing? && t.procs[p].pc.pending == []
    requires id in t.store && id < t.procs[p].floor && t.store[id].user == t.procs[p].task.user
    ensures t.store[id].used || t.store[id].expiry < t.clock
  {
    hide Inv;
    StartsWell(s, 0, 0);
    CoveredRun(s, steps, t, s.nextId);
    assert Covered(t, t.procs[p]);
    assert t.procs[p].left == {};
  }

  lemma {:induction false} CoveredRun(s: State, steps: seq<Step>, t: State, first: nat)
    requires Inv(s) && Origins(s, first) && AllCovered(s) && Run(s, steps, t)
    ensures Inv(t) && Origins(t, first) && AllCovered(t)
    decreases steps
  {
    hide Inv, AllCovered, Origins, Enabled, Next;
    if steps != [] {
      InvNext(s, steps[0]);
      OriginsNext(s, steps[0], first);
      CoveredNext(s, steps[0], first);
      CoveredRun(Next(s, steps[0]), steps[1..], t, first);
    }
  }

  // ----- the bound is met

  function DocAt(id: nat): GrantDoc {
    GrantDoc(0, false, 0, 0, Max(0, id - (CAP - 2)))
  }

  function OldRows(): seq<Row> {
    seq(CAP - 1, (id: nat) => Row(id, DocAt(id)))
  }

  function ProcAt(j: nat, r: nat, m: nat): Process {
    if j >= r then Process(Create(0), Start, {}, 0, {}, 0, None)
    else
      var left := Ids(Filter(LiveRow(0), OldRows())) - Ids([]);
      if j < m then Process(Create(0), Done, {}, CAP - 1, left, 0, Some(CAP - 1 + j))
      else Process(Create(0), Writing(0, []), {}, CAP - 1, left, 0, None)
  }

  /** Nine live grants from before, and `c` creations of which `r` have read and `m` have stored theirs. */
  function Staged(c: nat, r: nat, m: nat): State {
    State(map id: nat | id < CAP - 1 + m :: DocAt(id), CAP - 1 + m, 1 + m, 0, seq(c, (j: nat) => ProcAt(j, r, m)), [])
  }

  ghost function Below(n: nat): (ids: set<nat>)
    ensures |ids| == n && forall i: nat :: i in ids <==> i < n
  {
    if n == 0 then {} else Below(n - 1) + {n - 1}
  }

  lemma NoMoreThanAll(s: State, user: nat)
    ensures |InProgress(s, user)| <= |s.procs|
  {
    SubsetBound(InProgress(s, user), Below(|s.procs|));
  }

  lemma OldRowsAreAll(c: nat, r: nat)
    ensures Reads(Create(0), Staged(c, r, 0).store, OldRows())
  {
    var store := Staged(c, r, 0).store;
    forall id: nat | Wanted(Create(0), store, id)
      ensures Row(id, store[id]) in OldRows()
    {
      assert OldRows()[id] == Row(id, store[id]);
    }
  }

  lemma NothingToMark()
    ensures Selects(Create(0), OldRows(), 0, [])
  {
    FilterMembers(LiveRow(0), OldRows());
  }

  /** One creation reads: nine live grants leave room for one more, so it has nothing to mark. */
  lemma OneReads(c: nat, r: nat)
    requires r < c
    ensures var s := Staged(c, r, 0);
            Enabled(s, ReadRows(r, OldRows())) && Enabled(Next(s, ReadRows(r, OldRows())), ReadClock(r, []))
            && Next(Next(s, ReadRows(r, OldRows())), ReadClock(r, [])) == Staged(c, r + 1, 0)
            && |InProgress(s, 0)| <= c && |InProgress(Next(s, ReadRows(r, OldRows())), 0)| <= c
  {
    hide Reads, Selects, InProgress, Filter, LiveRow, Ids;
    var s := Staged(c, r, 0);
    OldRowsAreAll(c, r);
    NothingToMark();
    NoMoreThanAll(s, 0);
    NoMoreThanAll(Next(s, ReadRows(r, OldRows())), 0);
  }

  lemma OneStores(c: nat, m: nat)
    requires m < c
    ensures Enabled(Staged(c, c, m), Mint(m, 0, 0)) && Next(Staged(c, c, m), Mint(m, 0, 0)) == Staged(c, c, m + 1)
    ensures |InProgress(Staged(c, c, m), 0)| <= c
  {
    hide InProgress, Ids, LiveRow, Filter, Selects, Reads;
    NoMoreThanAll(Staged(c, c, m), 0);
  }

  lemma AllEnded(c: nat)
    ensures |InProgress(Staged(c, c, c), 0)| <= c
  {
    NoMoreThanAll(Staged(c, c, c), 0);
  }

  lemma {:induction false} AllStore(c: nat, r: nat, m: nat) returns (steps: seq<Step>)
    requires r <= c && m <= c && (r < c ==> m == 0)
    ensures RunAtMost(Staged(c, r, m), steps, Staged(c, c, c), 0, c)
    decreases c - r, c - m
  {
    hide Enabled, Next, Staged, InProgress, OldRows;
    if r < c {
      var rest := AllStore(c, r + 1, 0);
      OneReads(c, r);
      steps := [ReadRows(r, OldRows())] + ([ReadClock(r, [])] + rest);
      assert steps[1..] == [ReadClock(r, [])] + rest && steps[1..][1..] == rest;
    } else if m < c {
      var rest := AllStore(c, c, m + 1);
      OneStores(c, m);
      steps := [Mint(m, 0, 0)] + rest;
      assert steps[1..] == rest;
    } else {
      steps := [];
      AllEnded(c);
    }
  }

  lemma LiveStaged(c: nat, r: nat, m: nat)
    ensures |LiveIds(Staged(c, r, m), 0)| == CAP - 1 + m
  {
    hide ProcAt, Ids, Filter, LiveRow;
    assert LiveIds(Staged(c, r, m), 0) == Below(CAP - 1 + m);
  }

  /** For every `c` some run with `c` overlapping creations, and no failed write, reaches the bound. */
  lemma OverlapBoundMet(c: nat) returns (s: State, steps: seq<Step>, t: State)
    ensures Initial(s) && RunAtMost(s, steps, t, 0, c) && FailedAtMost(t, 0, 0)
    ensures |LiveIds(s, 0)| == CAP - 1 && |LiveIds(t, 0)| == CAP - 1 + c
  {
    s, t := Staged(c, 0, 0), Staged(c, c, c);
    steps := AllStore(c, 0, 0);
    LiveStaged(c, 0, 0);
    LiveStaged(c, c, c);
  }
}
