/**
 What each call of lib/semaph.c comes to: alone with the set, and, for sem_op and sem_close,
 among other processes.
 */
module SemaphCalls {
  import opened Basics
  import opened Semaph
  import opened SemaphTheorems

  // ---------- A call by itself ----------

  /** The next n system calls of p, with nobody else's in between. */
  function Alone(s: Sys, p: nat, n: nat): Option<Sys>
    decreases n
  {
    if n == 0 then Some(s)
    else if p >= |s.ps| || !Fits(s) then None
    else
      match Advance(s, p)
      case None => None
      case Some(s') => Alone(s', p, n - 1)
  }

  lemma Turn(s: Sys, p: nat, n: nat, s': Sys)
    requires p < |s.ps| && Fits(s) && Advance(s, p) == Some(s')
    ensures Alone(s, p, n + 1) == Alone(s', p, n)
  {
    hide Advance;
  }

  lemma {:induction false} Arrived(s: Sys, p: nat)
    ensures Alone(s, p, 0) == Some(s)
  {
  }

  function With(s: Sys, set': SemSet, p: nat, x: Proc): Sys
    requires p < |s.ps|
  {
    s.(set_ := set', ps := s.ps[p := x])
  }

  /** The states a process passes through when it creates a semaphore where there is none. */
  function Creating(s: Sys, p: nat, init: int, k: nat): Sys
    requires p < |s.ps| && k <= 6
  {
    var id := s.next;
    var s0 := s.(next := id + 1);
    if k == 0 then s.(ps := s.ps[p := Proc(CreateGet(init), 0, Zeros)])
    else if k == 1 then With(s0, Set(id, [0, 0, 0], false, false), p, Proc(CreateLock(init, id), 0, [0, 0, 0]))
    else if k == 2 then With(s0, Set(id, [0, 0, 1], false, false), p, Proc(CreateRead(init, id), 0, [0, 0, -1]))
    else if k == 3 then With(s0, Set(id, [0, 0, 1], false, false), p, Proc(CreateSet0(init, id), 0, [0, 0, -1]))
    else if k == 4 then With(s0, Set(id, [init, 0, 1], false, false), p, Proc(CreateSet1(init, id), 0, [0, 0, -1]))
    else if k == 5 then With(s0, Set(id, [init, BIGCOUNT, 1], true, false), p, Proc(CreateEnd(init, id), 0, [0, 0, -1]))
    else With(s0, Set(id, [init, BIGCOUNT - 1, 0], true, false), p, Proc(Out, 1, [0, 1, 0]))
  }

  ghost predicate NoTraces(s: Sys) {
    forall q :: 0 <= q < |s.ps| ==> s.ps[q].attached == 0 && s.ps[q].adj == Zeros
  }

  lemma CreatingStep(s: Sys, p: nat, init: int, k: nat)
    requires p < |s.ps| && s.set_.NoSet? && NoTraces(s) && k < 6
    ensures var t := Creating(s, p, init, k); Fits(t) && Advance(t, p) == Some(Creating(s, p, init, k + 1))
  {
    hide SemOp, ClearAdj;
    var t, t' := Creating(s, p, init, k), Creating(s, p, init, k + 1);
    assert forall q :: 0 <= q < |t.ps| && q != p ==> t.ps[q] == s.ps[q];
    assert t.ps[p := t'.ps[p]] == t'.ps;
    if k == 1 {
      LockArray(Vals([0, 0, 0], [0, 0, 0]));
      assert [0, 0, 0][2 := 1] == [0, 0, 1] && [0, 0, 0][2 := -1] == [0, 0, -1];
    } else if k == 3 {
      ClearNothing(t, 0);
      assert [0, 0, 1][0 := init] == [init, 0, 1];
    } else if k == 4 {
      ClearNothing(t, 1);
      assert [init, 0, 1][1 := BIGCOUNT] == [init, BIGCOUNT, 1];
    } else if k == 5 {
      EndCreateArray(Vals([init, BIGCOUNT, 1], [0, 0, -1]));
      assert [init, BIGCOUNT, 1][1 := BIGCOUNT - 1][2 := 0] == [init, BIGCOUNT - 1, 0];
      assert [0, 0, -1][1 := 1][2 := 0] == [0, 1, 0];
    }
  }

  lemma {:induction false} CreatingRun(s: Sys, p: nat, init: int, k: nat)
    requires p < |s.ps| && s.set_.NoSet? && NoTraces(s) && k <= 6
    ensures Alone(Creating(s, p, init, 6 - k), p, k) == Some(Creating(s, p, init, 6))
  {
    hide Advance, Creating;
    if k == 0 {
      Arrived(Creating(s, p, init, 6), p);
    } else {
      CreatingStep(s, p, init, 6 - k);
      StillThere(s, p, init, 6 - k);
      Turn(Creating(s, p, init, 6 - k), p, k - 1, Creating(s, p, init, 6 - k + 1));
      CreatingRun(s, p, init, k - 1);
    }
  }

  lemma StillThere(s: Sys, p: nat, init: int, k: nat)
    requires p < |s.ps| && k <= 6
    ensures |Creating(s, p, init, k).ps| == |s.ps|
  {
  }

  /** sem_create where there is no semaphore: one with the initial value, one user, and the lock free. */
  lemma CreateAlone(s: Sys, p: nat, init: int)
    requires Inv(s) && p < |s.ps| && s.ps[p].pc.Out? && s.set_.NoSet?
    ensures Alone(Goto(s, p, CreateGet(init)), p, 6) ==
      Some(Sys(Set(s.next, [init, BIGCOUNT - 1, 0], true, false), s.next + 1, s.ps[p := Proc(Out, 1, [0, 1, 0])], s.opens))
  {
    hide Total, Users, Advance, Alone;
    UsersFacts(s);
    forall q | 0 <= q < |s.ps|
      ensures s.ps[q].attached == 0 && s.ps[q].adj == Zeros
    {
      assert PcOk(s, s.ps[q]) && AdjOk(s, s.ps[q]);
    }
    hide Inv;
    assert Goto(s, p, CreateGet(init)) == Creating(s, p, init, 0);
    CreatingRun(s, p, init, 6);
  }

  // ---------- The turns of a call ----------

  /** p has set and adjustments like these, and the others are as in s. */
  ghost predicate TurnsTo(s: Sys, p: nat, set0: SemSet, x: Proc, set1: SemSet, y: Proc)
    requires p < |s.ps|
  {
    && Fits(With(s, set0, p, x))
    && Advance(With(s, set0, p, x), p) == Some(With(s, set1, p, y))
  }

  lemma Next(s: Sys, p: nat, set0: SemSet, x: Proc, set1: SemSet, y: Proc, n: nat)
    requires p < |s.ps| && TurnsTo(s, p, set0, x, set1, y)
    ensures Alone(With(s, set0, p, x), p, n + 1) == Alone(With(s, set1, p, y), p, n)
  {
    hide Advance, Fits, Alone;
    Turn(With(s, set0, p, x), p, n, With(s, set1, p, y));
  }

  lemma FitsWith(s: Sys, p: nat, set0: SemSet, x: Proc, y: Proc)
    requires p < |s.ps| && Fits(s) && Three(x.adj) && (set0.Set? ==> Three(set0.v))
    ensures Fits(With(s, set0, p, x))
    ensures s.ps[p := x][p := y] == s.ps[p := y]
  {
  }

  /** The lock is taken. */
  lemma LockTurn(s: Sys, p: nat, st: SemSet, x: Proc, init: int)
    requires p < |s.ps| && Fits(s) && Three(x.adj) && st.Set? && Three(st.v) && st.v[2] == 0
    requires x.pc == CreateLock(init, st.id)
    ensures TurnsTo(s, p, st, x, st.(v := [st.v[0], st.v[1], 1]),
                    Proc(CreateRead(init, st.id), x.attached, [x.adj[0], x.adj[1], x.adj[2] - 1]))
  {
    hide SemOp;
    FitsWith(s, p, st, x, Proc(CreateRead(init, st.id), x.attached, [x.adj[0], x.adj[1], x.adj[2] - 1]));
    LockArray(Vals(st.v, x.adj));
    assert st.v[2 := 1] == [st.v[0], st.v[1], 1] && x.adj[2 := x.adj[2] - 1] == [x.adj[0], x.adj[1], x.adj[2] - 1];
  }

  /** The counter goes down and the lock is given back. */
  lemma EndTurn(s: Sys, p: nat, st: SemSet, x: Proc, init: int)
    requires p < |s.ps| && Fits(s) && Three(x.adj) && st.Set? && Three(st.v) && st.v[1] > 0 && st.v[2] == 1
    requires x.pc == CreateEnd(init, st.id)
    ensures TurnsTo(s, p, st, x, st.(v := [st.v[0], st.v[1] - 1, 0]),
                    Proc(Out, x.attached + 1, [x.adj[0], x.adj[1] + 1, x.adj[2] + 1]))
  {
    hide SemOp;
    FitsWith(s, p, st, x, Proc(Out, x.attached + 1, [x.adj[0], x.adj[1] + 1, x.adj[2] + 1]));
    EndCreateArray(Vals(st.v, x.adj));
    assert st.v[1 := st.v[1] - 1][2 := st.v[2] - 1] == [st.v[0], st.v[1] - 1, 0];
    assert x.adj[1 := x.adj[1] + 1][2 := x.adj[2] + 1] == [x.adj[0], x.adj[1] + 1, x.adj[2] + 1];
  }

  /** The counter goes down without the lock. */
  lemma OpenTurn(s: Sys, p: nat, st: SemSet, x: Proc)
    requires p < |s.ps| && Fits(s) && Three(x.adj) && st.Set? && Three(st.v) && st.v[1] > 0
    requires x.pc == OpenDec(st.id)
    ensures TurnsTo(s, p, st, x, st.(v := [st.v[0], st.v[1] - 1, st.v[2]], late := true),
                    Proc(Out, x.attached + 1, [x.adj[0], x.adj[1] + 1, x.adj[2]]))
  {
    hide SemOp;
    FitsWith(s, p, st, x, Proc(Out, x.attached + 1, [x.adj[0], x.adj[1] + 1, x.adj[2]]));
    OpenArray(Vals(st.v, x.adj));
    assert st.v[1 := st.v[1] - 1] == [st.v[0], st.v[1] - 1, st.v[2]];
    assert x.adj[1 := x.adj[1] + 1] == [x.adj[0], x.adj[1] + 1, x.adj[2]];
  }

  /** The lock is taken and the counter goes up. */
  lemma CloseTurn(s: Sys, p: nat, st: SemSet, x: Proc)
    requires p < |s.ps| && Fits(s) && Three(x.adj) && st.Set? && Three(st.v) && st.v[1] >= 0 && st.v[2] == 0
    requires x.pc == CloseLock(st.id) && x.attached > 0
    ensures TurnsTo(s, p, st, x, st.(v := [st.v[0], st.v[1] + 1, 1]),
                    Proc(CloseRead(st.id), x.attached - 1, [x.adj[0], x.adj[1] - 1, x.adj[2] - 1]))
  {
    hide SemOp;
    FitsWith(s, p, st, x, Proc(CloseRead(st.id), x.attached - 1, [x.adj[0], x.adj[1] - 1, x.adj[2] - 1]));
    CloseArray(Vals(st.v, x.adj));
    assert st.v[2 := 1][1 := st.v[1] + 1] == [st.v[0], st.v[1] + 1, 1];
    assert x.adj[2 := x.adj[2] - 1][1 := x.adj[1] - 1] == [x.adj[0], x.adj[1] - 1, x.adj[2] - 1];
  }

  /** The lock is given back. */
  lemma UnlockTurn(s: Sys, p: nat, st: SemSet, x: Proc)
    requires p < |s.ps| && Fits(s) && Three(x.adj) && st.Set? && Three(st.v) && st.v[2] == 1
    requires x.pc == CloseUnlock(st.id)
    ensures TurnsTo(s, p, st, x, st.(v := [st.v[0], st.v[1], 0]),
                    Proc(Out, x.attached, [x.adj[0], x.adj[1], x.adj[2] + 1]))
  {
    hide SemOp;
    FitsWith(s, p, st, x, Proc(Out, x.attached, [x.adj[0], x.adj[1], x.adj[2] + 1]));
    UnlockArray(Vals(st.v, x.adj));
    assert st.v[2 := 0] == [st.v[0], st.v[1], 0] && x.adj[2 := x.adj[2] + 1] == [x.adj[0], x.adj[1], x.adj[2] + 1];
  }

  /** The turns that look at the set without changing its values. */
  lemma LookTurns(s: Sys, p: nat, st: SemSet, x: Proc, init: int)
    requires p < |s.ps| && Fits(s) && Three(x.adj) && st.Set? && Three(st.v)
    ensures TurnsTo(s, p, st, x.(pc := CreateGet(init)), st, x.(pc := CreateLock(init, st.id)))
    ensures st.v[1] != 0 ==> TurnsTo(s, p, st, x.(pc := CreateRead(init, st.id)), st, x.(pc := CreateEnd(init, st.id)))
    ensures TurnsTo(s, p, st, x.(pc := OpenGet), st, x.(pc := OpenDec(st.id)))
    ensures st.v[1] == BIGCOUNT ==>
      TurnsTo(s, p, st, x.(pc := CloseRead(st.id)), st.(late := false), x.(pc := CloseRm(st.id)))
    ensures st.v[1] < BIGCOUNT ==> TurnsTo(s, p, st, x.(pc := CloseRead(st.id)), st, x.(pc := CloseUnlock(st.id)))
  {
    FitsWith(s, p, st, x.(pc := CreateGet(init)), x.(pc := CreateLock(init, st.id)));
    FitsWith(s, p, st, x.(pc := CreateRead(init, st.id)), x.(pc := CreateEnd(init, st.id)));
    FitsWith(s, p, st, x.(pc := OpenGet), x.(pc := OpenDec(st.id)));
    FitsWith(s, p, st, x.(pc := CloseRead(st.id)), x.(pc := CloseRm(st.id)));
    FitsWith(s, p, st, x.(pc := CloseRead(st.id)), x.(pc := CloseUnlock(st.id)));
  }

  /** A process that is in no call can begin any. */
  lemma CallsBegin(s: Sys, p: nat, init: int, amount: int)
    requires Fits(s) && p < |s.ps| && s.ps[p].pc.Out? && init >= 0 && amount != 0
    ensures Step(s, p, Goto(s, p, CreateGet(init)))
    ensures s.opens ==> Step(s, p, Goto(s, p, OpenGet))
    ensures s.set_.Set? && s.ps[p].attached > 0 ==> Step(s, p, Goto(s, p, CloseLock(s.set_.id)))
    ensures s.set_.Set? && s.ps[p].attached > 0 ==> Step(s, p, Goto(s, p, OpWait(s.set_.id, amount)))
  {
    hide Advance, Exited;
  }

  /** A set that nobody has locked. */
  ghost predicate Unlocked(s: Sys) {
    s.set_.Set? && s.set_.ready && Three(s.set_.v) && s.set_.v[2] == 0
  }

  /** sem_create where there is one already: its value stays, and it has one user more. */
  lemma JoinAlone(s: Sys, p: nat, init: int)
    requires Fits(s) && p < |s.ps| && s.ps[p].pc.Out? && Unlocked(s) && s.set_.v[1] > 0
    ensures var x, st := s.ps[p], s.set_;
      Alone(Goto(s, p, CreateGet(init)), p, 4) ==
        Some(With(s, st.(v := [st.v[0], st.v[1] - 1, 0]), p, Proc(Out, x.attached + 1, [x.adj[0], x.adj[1] + 1, x.adj[2]])))
  {
    hide Alone, TurnsTo, Fits;
    ProcFits(s, p);
    var x, st := s.ps[p], s.set_;
    var y := [x.adj[0], x.adj[1], x.adj[2] - 1];
    var locked := st.(v := [st.v[0], st.v[1], 1]);
    var ended := st.(v := [st.v[0], st.v[1] - 1, 0]);
    var x' := Proc(Out, x.attached + 1, [x.adj[0], x.adj[1] + 1, x.adj[2]]);
    LookTurns(s, p, st, x, init);
    LockTurn(s, p, st, x.(pc := CreateLock(init, st.id)), init);
    LookTurns(s, p, locked, Proc(Out, x.attached, y), init);
    EndTurn(s, p, locked, Proc(CreateEnd(init, st.id), x.attached, y), init);
    Next(s, p, st, x.(pc := CreateGet(init)), st, x.(pc := CreateLock(init, st.id)), 3);
    Next(s, p, st, x.(pc := CreateLock(init, st.id)), locked, Proc(CreateRead(init, st.id), x.attached, y), 2);
    Next(s, p, locked, Proc(CreateRead(init, st.id), x.attached, y), locked, Proc(CreateEnd(init, st.id), x.attached, y), 1);
    Next(s, p, locked, Proc(CreateEnd(init, st.id), x.attached, y), ended, x', 0);
    Arrived(With(s, ended, p, x'), p);
  }

  lemma ProcFits(s: Sys, p: nat)
    requires Fits(s) && p < |s.ps|
    ensures Three(s.ps[p].adj) && (s.set_.Set? ==> Three(s.set_.v))
  {
  }

  /** sem_open: one user more; where there is no semaphore it fails. */
  lemma OpenAlone(s: Sys, p: nat)
    requires Fits(s) && p < |s.ps| && s.ps[p].pc.Out?
    ensures s.set_.NoSet? ==> Alone(Goto(s, p, OpenGet), p, 1) == Some(s)
    ensures s.set_.Set? && s.set_.v[1] > 0 ==>
      var x, st := s.ps[p], s.set_;
      Alone(Goto(s, p, OpenGet), p, 2) ==
        Some(With(s, st.(v := [st.v[0], st.v[1] - 1, st.v[2]], late := true), p,
                  Proc(Out, x.attached + 1, [x.adj[0], x.adj[1] + 1, x.adj[2]])))
  {
    hide Alone, TurnsTo;
    ProcFits(s, p);
    var x, st := s.ps[p], s.set_;
    if st.NoSet? {
      assert s.ps[p := x.(pc := OpenGet)][p := x] == s.ps;
      Turn(Goto(s, p, OpenGet), p, 0, s);
      Arrived(s, p);
    } else if st.v[1] > 0 {
      hide Advance, Fits;
      var x' := Proc(Out, x.attached + 1, [x.adj[0], x.adj[1] + 1, x.adj[2]]);
      var taken := st.(v := [st.v[0], st.v[1] - 1, st.v[2]], late := true);
      LookTurns(s, p, st, x, 0);
      OpenTurn(s, p, st, x.(pc := OpenDec(st.id)));
      Next(s, p, st, x.(pc := OpenGet), st, x.(pc := OpenDec(st.id)), 1);
      Next(s, p, st, x.(pc := OpenDec(st.id)), taken, x', 0);
      Arrived(With(s, taken, p, x'), p);
    }
  }

  /** sem_close: the last user takes the semaphore away; any other only itself. */
  lemma CloseAlone(s: Sys, p: nat)
    requires Inv(s) && p < |s.ps| && s.ps[p].pc.Out? && Unlocked(s) && s.ps[p].attached > 0
    ensures Alone(Goto(s, p, CloseLock(s.set_.id)), p, 3).Some?
    ensures var x, st, s' := s.ps[p], s.set_, Alone(Goto(s, p, CloseLock(s.set_.id)), p, 3).value;
      && Three(x.adj) && |s'.ps| == |s.ps| && s'.ps[p].pc.Out?
      && (Users(s) == 1 ==> s'.set_.NoSet? && NoTraces(s'))
      && (Users(s) > 1 ==>
            s' == With(s, st.(v := [st.v[0], st.v[1] + 1, 0]), p, Proc(Out, x.attached - 1, [x.adj[0], x.adj[1] - 1, x.adj[2]])))
  {
    hide Total, Users, Alone, TurnsTo;
    UsersFacts(s);
    ProcFits(s, p);
    assert s.set_.v[1] + Users(s) == BIGCOUNT && s.set_.v[1] >= 0;
    hide Inv, Fits;
    if Users(s) == 1 {
      LastClose(s, p);
    } else {
      OtherClose(s, p);
    }
  }

  lemma LastClose(s: Sys, p: nat)
    requires Fits(s) && p < |s.ps| && s.ps[p].pc.Out? && Unlocked(s) && s.ps[p].attached > 0 && s.set_.v[1] == BIGCOUNT - 1
    ensures var r := Alone(Goto(s, p, CloseLock(s.set_.id)), p, 3);
      r.Some? && |r.value.ps| == |s.ps| && r.value.ps[p].pc.Out? && r.value.set_.NoSet? && NoTraces(r.value)
  {
    hide Alone, TurnsTo, Fits, Advance;
    ProcFits(s, p);
    var x, st := s.ps[p], s.set_;
    var locked := st.(v := [st.v[0], st.v[1] + 1, 1]);
    var closer := Proc(CloseRead(st.id), x.attached - 1, [x.adj[0], x.adj[1] - 1, x.adj[2] - 1]);
    CloseTurn(s, p, st, x.(pc := CloseLock(st.id)));
    LookTurns(s, p, locked, closer, 0);
    Next(s, p, st, x.(pc := CloseLock(st.id)), locked, closer, 2);
    Next(s, p, locked, closer, locked.(late := false), closer.(pc := CloseRm(st.id)), 1);
    Removes(s, p, locked.(late := false), closer.(pc := CloseRm(st.id)));
  }

  lemma Removes(s: Sys, p: nat, st: SemSet, x: Proc)
    requires p < |s.ps| && Fits(s) && Three(x.adj) && st.Set? && Three(st.v) && x.pc == CloseRm(st.id)
    ensures var r := Alone(With(s, st, p, x), p, 1);
      r.Some? && |r.value.ps| == |s.ps| && r.value.ps[p].pc.Out? && r.value.set_.NoSet? && NoTraces(r.value)
  {
    hide Alone;
    var t := With(s, st, p, x);
    var t' := Goto(t.(set_ := NoSet, ps := ClearAll(t.ps)), p, Out);
    FitsWith(s, p, st, x, x);
    Turn(t, p, 0, t');
    Arrived(t', p);
  }

  lemma OtherClose(s: Sys, p: nat)
    requires Fits(s) && p < |s.ps| && s.ps[p].pc.Out? && Unlocked(s) && s.ps[p].attached > 0 && 0 <= s.set_.v[1] < BIGCOUNT - 1
    ensures var x, st := s.ps[p], s.set_;
      Alone(Goto(s, p, CloseLock(s.set_.id)), p, 3) ==
        Some(With(s, st.(v := [st.v[0], st.v[1] + 1, 0]), p, Proc(Out, x.attached - 1, [x.adj[0], x.adj[1] - 1, x.adj[2]])))
  {
    hide Alone, TurnsTo, Fits, Advance;
    ProcFits(s, p);
    var x, st := s.ps[p], s.set_;
    var locked := st.(v := [st.v[0], st.v[1] + 1, 1]);
    var closer := Proc(CloseRead(st.id), x.attached - 1, [x.adj[0], x.adj[1] - 1, x.adj[2] - 1]);
    var x' := Proc(Out, x.attached - 1, [x.adj[0], x.adj[1] - 1, x.adj[2]]);
    CloseTurn(s, p, st, x.(pc := CloseLock(st.id)));
    LookTurns(s, p, locked, closer, 0);
    UnlockTurn(s, p, locked, closer.(pc := CloseUnlock(st.id)));
    Next(s, p, st, x.(pc := CloseLock(st.id)), locked, closer, 2);
    Next(s, p, locked, closer, locked, closer.(pc := CloseUnlock(st.id)), 1);
    Next(s, p, locked, closer.(pc := CloseUnlock(st.id)), st.(v := [st.v[0], st.v[1] + 1, 0]), x', 0);
    Arrived(With(s, st.(v := [st.v[0], st.v[1] + 1, 0]), p, x'), p);
  }

  // ---------- Among other processes ----------

  /**
   sem_op, sem_wait and sem_signal: the amount is added to [0], and taken from what the kernel
   will undo; nothing else changes.
   */
  lemma OpPasses(s: Sys, p: nat, s': Sys)
    requires Step(s, p, s') && s.ps[p].pc.OpWait? && Current(s, s.ps[p].pc.id) && s.ps[p].pc.amount != 0
    requires |s'.ps| == |s.ps| && !s'.ps[p].pc.Gone?
    ensures var x, v := s.ps[p], s.set_.v;
      && v[0] + x.pc.amount >= 0
      && s' == With(s, s.set_.(v := [v[0] + x.pc.amount, v[1], v[2]]), p,
                    Proc(Out, x.attached, [x.adj[0] - x.pc.amount, x.adj[1], x.adj[2]]))
  {
    hide SemOp, Undone;
    var x, v := s.ps[p], s.set_.v;
    OpArray(Vals(v, x.adj), x.pc.amount);
    assert v[0 := v[0] + x.pc.amount] == [v[0] + x.pc.amount, v[1], v[2]];
    assert x.adj[0 := x.adj[0] - x.pc.amount] == [x.adj[0] - x.pc.amount, x.adj[1], x.adj[2]];
  }

  /** It waits exactly as long as the semaphore would fall below 0. */
  lemma OpWaitsExactly(s: Sys, p: nat)
    requires Fits(s) && p < |s.ps| && s.ps[p].pc.OpWait? && Current(s, s.ps[p].pc.id) && s.ps[p].pc.amount != 0
    ensures s.set_.v[0] + s.ps[p].pc.amount >= 0 <==>
      exists s' :: Step(s, p, s') && |s'.ps| == |s.ps| && !s'.ps[p].pc.Gone?
  {
    hide SemOp, Undone;
    OpArray(Vals(s.set_.v, s.ps[p].adj), s.ps[p].pc.amount);
    if s.set_.v[0] + s.ps[p].pc.amount >= 0 {
      var s' := Advance(s, p).value;
      assert Step(s, p, s') && |s'.ps| == |s.ps| && !s'.ps[p].pc.Gone?;
    }
  }

  /** sem_close: the process that finds nobody attached removes the set, and only that one. */
  lemma CloseDecides(s: Sys, p: nat, s': Sys)
    requires Inv(s) && Step(s, p, s') && s.ps[p].pc.CloseRead?
    requires |s'.ps| == |s.ps| && !s'.ps[p].pc.Gone?
    ensures s'.ps[p].pc == (if Users(s) == 0 then CloseRm(s.ps[p].pc.id) else CloseUnlock(s.ps[p].pc.id))
    ensures s'.set_.Set? && s.set_.Set? && s'.set_.v == s.set_.v && s'.set_.id == s.set_.id
  {
    hide Total, Users, Undone;
    CounterNeverExceeds(s, p);
    assert PcOk(s, s.ps[p]);
  }

  /** From there on it does so in one step, unless it is killed. */
  lemma RemoverRemoves(s: Sys, p: nat, s': Sys)
    requires Inv(s) && Step(s, p, s') && s.ps[p].pc.CloseRm?
    ensures |s'.ps| == |s.ps|
    ensures if s'.ps[p].pc.Gone? then s'.set_.Set? else s'.set_.NoSet? && s'.ps[p].pc.Out? && NoTraces(s')
  {
    hide Total, Users, Undone;
    assert PcOk(s, s.ps[p]);
  }

  // ---------- The value of the semaphore ----------

  const Undo0: Proc -> int := (x: Proc) => if |x.adj| == 3 then x.adj[0] else 0

  /** What a step of a call adds to [0]. */
  function Added(s: Sys, p: nat, s': Sys): int {
    if p < |s.ps| && p < |s'.ps| && s.ps[p].pc.OpWait? && s'.ps[p].pc.Out? then s.ps[p].pc.amount else 0
  }

  /** The kernel would undo more than is there. */
  predicate Clips(s: Sys, p: nat, s': Sys) {
    && p < |s.ps| && p < |s'.ps| && s'.ps[p].pc.Gone? && s.set_.Set? && |s.set_.v| == 3 && |s.ps[p].adj| == 3
    && s.set_.v[0] + s.ps[p].adj[0] < 0
  }

  /** The value with all that the kernel would undo. */
  function Worth(s: Sys): int {
    if s.set_.Set? && |s.set_.v| == 3 then s.set_.v[0] + Total(s.ps, Undo0) else 0
  }

  /** A set that stays ready gets and loses in [0] just what the operations say, and what an exit gives back. */
  lemma StepValue(s: Sys, p: nat, s': Sys)
    requires Inv(s) && Step(s, p, s') && s.set_.Set? && s.set_.ready && s'.set_.Set? && s'.set_.id == s.set_.id
    ensures Three(s.set_.v) && Three(s'.set_.v) && |s'.ps| == |s.ps| && s'.set_.ready
    ensures !s'.ps[p].pc.Gone? ==> s'.set_.v[0] == s.set_.v[0] + Added(s, p, s')
    ensures if Clips(s, p, s') then Worth(s') > Worth(s) else Worth(s') == Worth(s)
  {
    hide Total, Users, SemOp, ClearAll, ClearAdj;
    var x := s.ps[p];
    assert PcOk(s, x) && AdjOk(s, x);
    hide Inv, PcOk, AdjOk;
    if s' == Exited(s, p) {
      TotalUpdate(s.ps, p, s'.ps[p], Undo0);
    } else if Advance(s, p) == Some(s') {
      hide Undone;
      AdvanceValue(s, p, s');
      TotalUpdate(s.ps, p, s'.ps[p], Undo0);
    } else {
      hide Advance, Undone;
      BeginsOut(s, p, s');
      TotalUpdate(s.ps, p, s'.ps[p], Undo0);
    }
  }

  lemma BeginsOut(s: Sys, p: nat, s': Sys)
    requires p < |s.ps| && s.ps[p].pc.Out? && Begins(s, p, s')
    ensures |s'.ps| == |s.ps| && s'.set_ == s.set_ && s'.ps == s.ps[p := s'.ps[p]] && s'.ps[p].adj == s.ps[p].adj
    ensures !s'.ps[p].pc.Out? && !s'.ps[p].pc.Gone?
  {
  }

  ghost predicate ValueAfter(s: Sys, p: nat, s': Sys)
    requires p < |s.ps| && Fits(s) && s.set_.Set?
  {
    && |s'.ps| == |s.ps| && s'.ps == s.ps[p := s'.ps[p]] && s'.set_.Set? && Three(s'.set_.v) && Three(s'.ps[p].adj)
    && s'.set_.ready == s.set_.ready && !s'.ps[p].pc.Gone?
    && s'.set_.v[0] == s.set_.v[0] + Added(s, p, s') && s'.ps[p].adj[0] == s.ps[p].adj[0] - Added(s, p, s')
  }

  lemma AdvanceValue(s: Sys, p: nat, s': Sys)
    requires p < |s.ps| && Fits(s) && Advance(s, p) == Some(s') && s' != Exited(s, p)
    requires s.set_.Set? && s.set_.ready && s'.set_.Set? && s'.set_.id == s.set_.id && s.set_.v[1] >= 0
    requires !s.ps[p].pc.CreateSet0? && !s.ps[p].pc.CreateSet1?
    requires s.ps[p].pc.OpWait? ==> s.ps[p].pc.amount != 0
    ensures ValueAfter(s, p, s')
  {
    hide Advance, Exited, ValueAfter;
    var pc := s.ps[p].pc;
    if pc.CreateLock? || pc.CreateEnd? {
      CreateValue(s, p, s');
    } else if pc.OpenDec? || pc.OpWait? {
      OpenOpValue(s, p, s');
    } else if pc.CloseLock? || pc.CloseUnlock? {
      CloseValue(s, p, s');
    } else {
      QuietValue(s, p, s');
    }
  }

  lemma QuietValue(s: Sys, p: nat, s': Sys)
    requires p < |s.ps| && Fits(s) && Advance(s, p) == Some(s') && s' != Exited(s, p)
    requires s.set_.Set? && s.set_.ready && s'.set_.Set? && s'.set_.id == s.set_.id && s.set_.v[1] >= 0
    requires var pc := s.ps[p].pc;
      && !pc.CreateSet0? && !pc.CreateSet1? && !pc.CreateLock? && !pc.CreateEnd? && !pc.OpenDec?
      && !pc.OpWait? && !pc.CloseLock? && !pc.CloseUnlock?
    ensures ValueAfter(s, p, s')
  {
    hide SemOp, ClearAdj, ClearAll, Undone;
  }

  lemma CreateValue(s: Sys, p: nat, s': Sys)
    requires p < |s.ps| && Fits(s) && Advance(s, p) == Some(s') && s' != Exited(s, p)
    requires s.set_.Set? && s.set_.ready && s'.set_.Set? && s'.set_.id == s.set_.id && s.set_.v[1] >= 0
    requires s.ps[p].pc.CreateLock? || s.ps[p].pc.CreateEnd?
    ensures ValueAfter(s, p, s')
  {
    hide SemOp, ClearAdj, ClearAll, Undone;
    LockArray(Vals(s.set_.v, s.ps[p].adj));
    EndCreateArray(Vals(s.set_.v, s.ps[p].adj));
  }

  lemma OpenOpValue(s: Sys, p: nat, s': Sys)
    requires p < |s.ps| && Fits(s) && Advance(s, p) == Some(s') && s' != Exited(s, p)
    requires s.set_.Set? && s.set_.ready && s'.set_.Set? && s'.set_.id == s.set_.id && s.set_.v[1] >= 0
    requires s.ps[p].pc.OpenDec? || (s.ps[p].pc.OpWait? && s.ps[p].pc.amount != 0)
    ensures ValueAfter(s, p, s')
  {
    hide SemOp, ClearAdj, ClearAll, Undone;
    OpenArray(Vals(s.set_.v, s.ps[p].adj));
    if s.ps[p].pc.OpWait? {
      OpArray(Vals(s.set_.v, s.ps[p].adj), s.ps[p].pc.amount);
    }
  }

  lemma CloseValue(s: Sys, p: nat, s': Sys)
    requires p < |s.ps| && Fits(s) && Advance(s, p) == Some(s') && s' != Exited(s, p)
    requires s.set_.Set? && s.set_.ready && s'.set_.Set? && s'.set_.id == s.set_.id && s.set_.v[1] >= 0
    requires s.ps[p].pc.CloseLock? || s.ps[p].pc.CloseUnlock?
    ensures ValueAfter(s, p, s')
  {
    hide SemOp, ClearAdj, ClearAll, Undone;
    CloseArray(Vals(s.set_.v, s.ps[p].adj));
    UnlockArray(Vals(s.set_.v, s.ps[p].adj));
  }

  /** In these states the set is there and ready. */
  ghost predicate Lasts(r: Run, i: nat, j: nat, id: nat) {
    forall k :: i <= k <= j && k < |r.states| ==> ReadyAs(r.states[k], id)
  }

  ghost predicate ReadyAs(s: Sys, id: nat) {
    s.set_.Set? && s.set_.id == id && s.set_.ready && Three(s.set_.v)
  }

  ghost predicate NobodyExits(r: Run, i: nat, j: nat) {
    forall k {:trigger r.pids[k]} :: i <= k < j && k < |r.pids| && k + 1 < |r.states| && r.pids[k] < |r.states[k + 1].ps| ==>
      !r.states[k + 1].ps[r.pids[k]].pc.Gone?
  }

  /** What the operations of the steps from i on add up to. */
  function AddedAll(r: Run, i: nat, j: nat): int
    requires i <= j <= |r.pids| && |r.states| == |r.pids| + 1
    decreases j
  {
    if i == j then 0 else AddedAll(r, i, j - 1) + Added(r.states[j - 1], r.pids[j - 1], r.states[j])
  }

  /**
   While processes only make calls, the value of the semaphore is what it was and what the
   operations since then have added and taken; and it never falls below 0, so that nobody
   gets past a sem_wait whose sem_signal is still to come.
   */
  lemma {:induction false} ValueCounts(r: Run, i: nat, j: nat, id: nat)
    requires IsRun(r) && Roomy(r) && i <= j <= |r.pids| && Lasts(r, i, j, id) && NobodyExits(r, i, j)
    ensures ReadyAs(r.states[i], id) && ReadyAs(r.states[j], id)
    ensures r.states[j].set_.v[0] == r.states[i].set_.v[0] + AddedAll(r, i, j) >= 0
    decreases j
  {
    hide Step, Roomy, Inv, Added, Worth;
    RunInv(r, j);
    assert ReadyAs(r.states[i], id) && ReadyAs(r.states[j], id);
    NotNegative(r.states[j]);
    if i < j {
      ValueCounts(r, i, j - 1, id);
      RunInv(r, j - 1);
      assert StepsAt(r, j - 1) && ReadyAs(r.states[j - 1], id);
      StepHasProcess(r.states[j - 1], r.pids[j - 1], r.states[j]);
      StepValue(r.states[j - 1], r.pids[j - 1], r.states[j]);
      assert r.pids[j - 1] < |r.states[j].ps|;
    }
  }

  lemma NotNegative(s: Sys)
    requires Inv(s) && s.set_.Set?
    ensures Three(s.set_.v) && s.set_.v[0] >= 0
  {
    hide Total, Users, Holds;
  }

  ghost predicate NeverClips(r: Run, i: nat, j: nat) {
    forall k {:trigger r.pids[k]} :: i <= k < j && k < |r.pids| && k + 1 < |r.states| ==>
      !Clips(r.states[k], r.pids[k], r.states[k + 1])
  }

  /**
   With exits at any point: the value and all that the kernel would undo together stay the
   same, exactly as long as no exit would bring the value below 0; such an exit adds to them.
   */
  lemma {:induction false} WorthStays(r: Run, i: nat, j: nat, id: nat)
    requires IsRun(r) && Roomy(r) && i <= j <= |r.pids| && Lasts(r, i, j, id)
    ensures Worth(r.states[j]) >= Worth(r.states[i])
    ensures Worth(r.states[j]) == Worth(r.states[i]) <==> NeverClips(r, i, j)
    decreases j
  {
    hide Step, Roomy, Inv, Added, Worth, Clips;
    if i < j {
      WorthStays(r, i, j - 1, id);
      RunInv(r, j - 1);
      assert StepsAt(r, j - 1) && ReadyAs(r.states[j - 1], id) && ReadyAs(r.states[j], id);
      StepValue(r.states[j - 1], r.pids[j - 1], r.states[j]);
      assert r.pids[j - 1] == r.pids[j - 1];
    }
  }

  /** A set starts with its initial value, and nothing to undo. */
  lemma WorthStarts(r: Run, j: nat, id: nat)
    requires IsRun(r) && Roomy(r) && j < |r.pids| && MadeReady(r, j, id)
    ensures Worth(r.states[j + 1]) == r.states[j].ps[r.pids[j]].pc.init
  {
    hide Total, Users, Roomy;
    RunInv(r, j);
    assert StepsAt(r, j);
    var s, p, s' := r.states[j], r.pids[j], r.states[j + 1];
    assert PcOk(s, s.ps[p]);
    NobodyYet(s);
    hide Inv;
    Set1Keeps(s, p, s');
    forall q | 0 <= q < |s'.ps|
      ensures Undo0(s'.ps[q]) == 0
    {
    }
    TotalZero(s'.ps, Undo0);
  }

  lemma Set1Keeps(s: Sys, p: nat, s': Sys)
    requires Step(s, p, s') && s.ps[p].pc.CreateSet1? && s'.set_.Set? && Three(s'.set_.v) && s'.set_.v[1] == BIGCOUNT
    requires s.set_.Set? && s.set_.v[1] == 0 && forall q :: 0 <= q < |s.ps| ==> s.ps[q].adj[0] == 0 && s.ps[q].attached == 0
    requires forall q :: 0 <= q < |s.ps| ==> Three(s.ps[q].adj) && s.ps[q].adj[1] == 0
    ensures |s'.ps| == |s.ps| && forall q :: 0 <= q < |s.ps| ==> Three(s'.ps[q].adj) && s'.ps[q].adj[0] == 0
  {
  }
}
