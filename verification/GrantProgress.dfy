/**
 * That the grant protocol does what it is for: each task selects exactly the grants it should, each write
 * takes effect unless it failed or came too late, and a consume that nobody interferes with wins.
 */
module GrantProgress {
  import opened Prelude
  import opened Grants
  import opened GrantOverlap

  /** The grant is unused and unexpired at this clock reading. */
  predicate Good(doc: GrantDoc, now: int) {
    !doc.used && now <= doc.expiry
  }

  /** What a task goes on to write, of what it read: its own grant, all live ones, or those due. */
  lemma SelectsExactly(task: Task, rows: seq<Row>, now: int, pending: seq<Row>, row: Row)
    requires Selects(task, rows, now, pending)
    ensures task.Consume? ==> (row in pending <==> row in rows && task.secretOk && Good(row.doc, now))
    ensures task.RevokeAll? ==> (row in pending <==> row in rows && Good(row.doc, now))
    ensures task.Create? && row in pending ==> row in rows && Good(row.doc, now)
    ensures task.Sweep? ==> (row in pending <==> row in rows && !Good(row.doc, now) && row.doc.expiry + task.grace < now)
  {
    FilterMembers(LiveRow(now), rows);
    if task.Sweep? {
      FilterMembers(DueRow(now, task.grace), rows);
      assert row in Filter(DueRow(now, task.grace), rows) <==> row in rows && DueRow(now, task.grace)(row);
    } else {
      assert row in Filter(LiveRow(now), rows) <==> row in rows && LiveRow(now)(row);
    }
  }

  /** A write marks its grant used, or for the sweep deletes it, exactly if it did not fail and the grant is as read. */
  lemma WritesExactly(s: State, step: Step)
    requires Inv(s) && Enabled(s, step) && step.Write?
    ensures var t, row := Next(s, step), s.procs[step.p].pc.pending[0];
            var effective := !step.io.Fail? && row.id in s.store && s.store[row.id].rev == row.doc.rev;
            && (effective ==> s.store[row.id] == row.doc)
            && (forall id :: id != row.id ==> (id in t.store <==> id in s.store) && (id in s.store ==> t.store[id] == s.store[id]))
            && (if !effective then t.store == s.store
                else if s.procs[step.p].task.Sweep? then row.id !in t.store
                else row.id in t.store && t.store[row.id].used && t.store[row.id].user == row.doc.user
                     && t.store[row.id].created == row.doc.created && t.store[row.id].expiry == row.doc.expiry)
            && (row.id in t.procs[step.p].won <==>
                  row.id in s.procs[step.p].won || (step.io.Ok? && row.id in s.store && s.store[row.id].rev == row.doc.rev))
  {
    assert ProcOk(s, step.p);
    assert Seen(s, s.procs[step.p].pc.pending[0]);
  }

  // ----- a consume that is left alone

  predicate IsOwn(step: Step, p: nat) {
    !step.Tick? && step.p == p
  }

  /** In the run process p does not stop, its writes are acknowledged, and nobody else touches grant id. */
  ghost predicate LeftAlone(s: State, steps: seq<Step>, p: nat, id: nat)
    decreases steps
  {
    steps == [] ||
    (&& Enabled(s, steps[0]) && !(steps[0].Crash? && steps[0].p == p) && (steps[0].Write? && steps[0].p == p ==> steps[0].io.Ok?)
     && (!IsOwn(steps[0], p) ==>
           (id in s.store <==> id in Next(s, steps[0]).store) && (id in s.store ==> Next(s, steps[0]).store[id] == s.store[id]))
     && LeftAlone(Next(s, steps[0]), steps[1..], p, id))
  }

  /** Where a consume of a good grant is. */
  ghost predicate OnItsWay(s: State, p: nat, id: nat)
  {
    && p < |s.procs| && s.procs[p].task == Consume(id, true)
    && match s.procs[p].pc
       case Start => id in s.store && !s.store[id].used
       case Read(rows) => id in s.store && !s.store[id].used && rows == [Row(id, s.store[id])]
       case Writing(_, pending) =>
         if pending == [] then id in s.procs[p].won
         else id in s.store && !s.store[id].used && pending == [Row(id, s.store[id])]
       case Done => false
  }

  lemma OnlyRow(id: nat, store: map<nat, GrantDoc>, rows: seq<Row>)
    requires id in store && Reads(Consume(id, true), store, rows)
    ensures rows == [Row(id, store[id])]
  {
    assert Wanted(Consume(id, true), store, id);
    assert Row(id, store[id]) in rows;
    assert forall i :: 0 <= i < |rows| ==> rows[i].id == id;
    NoSecond(rows, id);
  }

  lemma NoSecond(rows: seq<Row>, id: nat)
    requires NoRepeats(rows) && forall i :: 0 <= i < |rows| ==> rows[i].id == id
    ensures |rows| <= 1
  {
    IdsBound(rows);
    SubsetBound(Ids(rows), {id});
  }

  lemma StaysOnItsWay(s: State, step: Step, p: nat, id: nat, later: int)
    requires Inv(s) && OnItsWay(s, p, id) && LeftAlone(s, [step], p, id)
    requires id in s.store && !s.store[id].used ==> later <= s.store[id].expiry
    requires Next(s, step).clock <= later
    ensures OnItsWay(Next(s, step), p, id)
  {
    if IsOwn(step, p) {
      if step.ReadRows? {
        OnlyRow(id, s.store, step.rows);
      } else if step.ReadClock? {
        var row := Row(id, s.store[id]);
        assert s.procs[p].pc.rows == [row] && LiveRow(s.clock)(row);
        FilterAll(LiveRow(s.clock), [row]);
      } else if step.Write? {
        WritesExactly(s, step);
        assert s.procs[p].pc.pending[1..] == [];
      }
    } else {
      assert Next(s, step).procs[p] == s.procs[p];
    }
  }

  /** Once the consume has won, the grant it won does not matter any more. */
  lemma {:induction false} WinsRun(s: State, steps: seq<Step>, t: State, p: nat, id: nat, expiry: int)
    requires Inv(s) && Run(s, steps, t) && OnItsWay(s, p, id) && LeftAlone(s, steps, p, id)
    requires id in s.store && !s.store[id].used ==> s.store[id].expiry == expiry
    requires t.clock <= expiry
    ensures OnItsWay(t, p, id)
    decreases steps
  {
    hide Inv;
    if steps != [] {
      ClockRises(s, steps, t);
      var m := Next(s, steps[0]);
      InvNext(s, steps[0]);
      HeadLeftAlone(s, steps, p, id);
      StaysOnItsWay(s, steps[0], p, id, t.clock);
      UnusedIsSame(s, steps[0], id);
      WinsRun(m, steps[1..], t, p, id, expiry);
    }
  }

  lemma HeadLeftAlone(s: State, steps: seq<Step>, p: nat, id: nat)
    requires steps != [] && LeftAlone(s, steps, p, id)
    ensures LeftAlone(s, [steps[0]], p, id)
  {
    assert [steps[0]][1..] == [];
  }

  lemma UnusedIsSame(s: State, step: Step, id: nat)
    requires Inv(s) && Enabled(s, step)
    ensures id < s.nextId && id in Next(s, step).store && !Next(s, step).store[id].used ==> id in s.store && Next(s, step).store[id] == s.store[id]
  {
    NextEvolves(s, step);
  }

  lemma {:induction false} ClockRises(s: State, steps: seq<Step>, t: State)
    requires Inv(s) && Run(s, steps, t) && steps != []
    ensures s.clock <= Next(s, steps[0]).clock <= t.clock
    decreases steps
  {
    hide Inv, Enabled;
    NextEvolves(s, steps[0]);
    InvNext(s, steps[0]);
    if |steps| > 1 {
      ClockRises(Next(s, steps[0]), steps[1..], t);
    }
  }

  /**
   * A consume with the right secret, of a grant that is unused and does not expire meanwhile, wins if it
   * runs to its end, its write is acknowledged and nobody else touches the grant; the grant is then used.
   */
  lemma ConsumeWins(s: State, before: seq<Step>, m: State, steps: seq<Step>, t: State, p: nat, id: nat)
    requires Initial(s) && Run(s, before, m) && Run(m, steps, t)
    requires p < |m.procs| && m.procs[p].task == Consume(id, true) && m.procs[p].pc.Start?
    requires id in m.store && !m.store[id].used && t.clock <= m.store[id].expiry && LeftAlone(m, steps, p, id)
    requires p < |t.procs| && t.procs[p].pc.Writing? && t.procs[p].pc.pending == []
    ensures id in t.procs[p].won && (id in t.store ==> t.store[id].used)
  {
    InvRun(s, before, m);
    WinsRun(m, steps, t, p, id, m.store[id].expiry);
    InvRun(m, steps, t);
    assert ProcOk(t, p);
    var k :| 0 <= k < |t.marks| && t.marks[k].id == id && t.marks[k].writer == p;
  }
}
