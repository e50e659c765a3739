/**
 What holds in every run of processes that use the calls of lib/semaph.c.
 */
module SemaphTheorems {
  import opened Basics
  import opened Semaph

  datatype Run = Run(states: seq<Sys>, pids: seq<nat>)

  ghost predicate IsRun(r: Run) {
    && |r.states| == |r.pids| + 1
    && Init(r.states[0])
    && forall i :: 0 <= i < |r.pids| ==> StepsAt(r, i)
  }

  ghost predicate StepsAt(r: Run, i: nat)
    requires i < |r.pids| && |r.states| == |r.pids| + 1
  {
    Step(r.states[i], r.pids[i], r.states[i + 1])
  }

  /** No sem_create reads the counter [1] while BIGCOUNT users have emptied it. */
  ghost predicate Roomy(r: Run) {
    forall i :: 0 <= i < |r.pids| && i < |r.states| ==> RoomyAt(r.states[i], r.pids[i])
  }

  ghost predicate RoomyAt(s: Sys, p: nat) {
    p < |s.ps| && s.ps[p].pc.CreateRead? ==> Users(s) < BIGCOUNT
  }

  lemma {:induction false} RunInv(r: Run, i: nat)
    requires IsRun(r) && Roomy(r) && i < |r.states|
    ensures Inv(r.states[i])
  {
    hide Step, Users;
    if i == 0 {
      hide Roomy;
    } else {
      RunInv(r, i - 1);
      hide Inv;
      assert StepsAt(r, i - 1) && RoomyAt(r.states[i - 1], r.pids[i - 1]);
      StepHasProcess(r.states[i - 1], r.pids[i - 1], r.states[i]);
      StepInv(r.states[i - 1], r.pids[i - 1], r.states[i]);
    }
  }

  lemma StepHasProcess(s: Sys, p: nat, s': Sys)
    requires Step(s, p, s')
    ensures p < |s.ps|
  {
  }

  // ---------- Conservation ----------

  const Undo1: Proc -> int := (x: Proc) => if |x.adj| == 3 then x.adj[1] else 0
  const Undo2: Proc -> int := (x: Proc) => if |x.adj| == 3 then x.adj[2] else 0

  /**
   Counter and outstanding adjustments together are 0 before initialisation and BIGCOUNT
   afterwards; the lock is 0 or 1, and 1 exactly when one process holds it.
   */
  lemma Conservation(s: Sys)
    requires Inv(s) && s.set_.Set?
    ensures Three(s.set_.v)
    ensures s.set_.v[1] + Total(s.ps, Undo1) == if s.set_.ready then BIGCOUNT else 0
    ensures s.set_.v[2] + Total(s.ps, Undo2) == 0
    ensures s.set_.v[2] == 0 || s.set_.v[2] == 1
    ensures s.set_.v[2] == 1 <==> exists p :: 0 <= p < |s.ps| && Holds(s.ps[p].pc, s.set_.id)
    ensures forall p, q :: 0 <= p < |s.ps| && 0 <= q < |s.ps| && p != q ==>
      !(Holds(s.ps[p].pc, s.set_.id) && Holds(s.ps[q].pc, s.set_.id))
  {
    hide Holds;
    forall q | 0 <= q < |s.ps|
      ensures Undo1(s.ps[q]) == Attached(s.ps[q])
      ensures Undo2(s.ps[q]) == if Holds(s.ps[q].pc, s.set_.id) then -1 else 0
    {
      assert PcOk(s, s.ps[q]) && AdjOk(s, s.ps[q]);
    }
    hide PcOk, AdjOk;
    TotalSame(s.ps, s.ps, Attached);
    SameTotals(s.ps, Attached, Undo1);
    if p: nat :| p < |s.ps| && Holds(s.ps[p].pc, s.set_.id) {
      OneHolder(s, p);
    } else {
      TotalZero(s.ps, Undo2);
    }
  }

  lemma {:induction false} SameTotals(ps: seq<Proc>, f: Proc -> int, g: Proc -> int)
    requires forall i :: 0 <= i < |ps| ==> f(ps[i]) == g(ps[i])
    ensures Total(ps, f) == Total(ps, g)
  {
    if ps != [] {
      SameTotals(ps[..|ps| - 1], f, g);
    }
  }

  lemma OneHolder(s: Sys, p: nat)
    requires p < |s.ps| && Undo2(s.ps[p]) == -1
    requires forall q :: 0 <= q < |s.ps| && q != p ==> Undo2(s.ps[q]) == 0
    ensures Total(s.ps, Undo2) == -1
  {
    var idle := Proc(Out, 0, Zeros);
    TotalUpdate(s.ps, p, idle, Undo2);
    TotalZero(s.ps[p := idle], Undo2);
  }

  /** The check "sem[1] > BIGCOUNT" of sem_close never fires. */
  lemma CounterNeverExceeds(s: Sys, p: nat)
    requires Inv(s) && p < |s.ps| && s.ps[p].pc.CloseRead?
    ensures s.set_.Set? && Three(s.set_.v) && s.set_.v[1] <= BIGCOUNT
    ensures s.set_.v[1] == BIGCOUNT <==> Users(s) == 0
  {
    hide Total, Users;
    assert PcOk(s, s.ps[p]);
    UsersFacts(s);
  }

  // ---------- Lifetime ----------

  /** Only a fresh set, without users, is given initial values. */
  lemma NeverReinitialised(s: Sys, p: nat)
    requires Inv(s) && p < |s.ps| && (s.ps[p].pc.CreateSet0? || s.ps[p].pc.CreateSet1?)
    ensures s.set_.Set? && !s.set_.ready && Users(s) == 0
  {
    hide Total, Users;
    assert PcOk(s, s.ps[p]);
    NobodyYet(s);
  }

  /**
   A sem_close by a process that is attached to nothing makes the counter exceed BIGCOUNT
   exactly when no other process is attached.
   */
  lemma StrayClose(s: Sys, p: nat)
    requires Inv(s) && Fits(s) && p < |s.ps| && s.set_.Set? && s.set_.ready && s.set_.v[2] == 0 && s.ps[p].attached == 0
    ensures var r := SemOp(Vals(s.set_.v, s.ps[p].adj), OP_CLOSE);
      r.Some? && (r.value.v[1] > BIGCOUNT <==> Users(s) == 0)
  {
    hide Total, Users, SemOp;
    assert PcOk(s, s.ps[p]);
    UsersFacts(s);
    CloseArray(Vals(s.set_.v, s.ps[p].adj));
  }

  /** sem_create takes a set for a fresh one exactly when it is, or when BIGCOUNT users have emptied the counter. */
  lemma InitialisesExactlyWhen(s: Sys, p: nat)
    requires Inv(s) && p < |s.ps| && s.ps[p].pc.CreateRead?
    ensures s.set_.Set? && Three(s.set_.v)
    ensures s.set_.v[1] == 0 <==> !s.set_.ready || Users(s) == BIGCOUNT
  {
    hide Total, Users;
    assert PcOk(s, s.ps[p]);
    if !s.set_.ready {
      NobodyYet(s);
    }
  }

  /** The step of sem_create that makes a set ready finds [0] at the initial value. */
  ghost predicate MadeReady(r: Run, j: nat, id: nat)
    requires j < |r.pids| && |r.states| == |r.pids| + 1
  {
    var s, p := r.states[j], r.pids[j];
    && p < |s.ps| && s.ps[p].pc.CreateSet1? && s.ps[p].pc.id == id
    && r.states[j + 1].set_.Set? && r.states[j + 1].set_.id == id && Three(r.states[j + 1].set_.v)
    && r.states[j + 1].set_.v[0] == s.ps[p].pc.init && r.states[j + 1].set_.v[1] == BIGCOUNT
  }

  /** A set is ready only after such a step. */
  lemma {:induction false} ReadyWasMade(r: Run, i: nat) returns (j: nat)
    requires IsRun(r) && Roomy(r) && i < |r.states|
    requires r.states[i].set_.Set? && r.states[i].set_.ready
    ensures j < i && MadeReady(r, j, r.states[i].set_.id)
  {
    hide Users, Total, SemOp, Undone, ClearAll, Roomy;
    if i > 0 {
      RunInv(r, i - 1);
      assert StepsAt(r, i - 1);
      var s, p, s' := r.states[i - 1], r.pids[i - 1], r.states[i];
      assert PcOk(s, s.ps[p]);
      if s.set_.Set? && s.set_.ready && s.set_.id == s'.set_.id {
        j := ReadyWasMade(r, i - 1);
      } else {
        j := i - 1;
        hide Inv;
        OnlySet1MakesReady(s, p, s');
      }
    }
  }

  lemma OnlySet1MakesReady(s: Sys, p: nat, s': Sys)
    requires Step(s, p, s') && PcOk(s, s.ps[p]) && s'.set_.Set? && s'.set_.ready
    requires !(s.set_.Set? && s.set_.ready && s.set_.id == s'.set_.id)
    ensures s.ps[p].pc.CreateSet1? && s.ps[p].pc.id == s'.set_.id && Three(s'.set_.v)
    ensures s'.set_.v[0] == s.ps[p].pc.init && s'.set_.v[1] == BIGCOUNT
  {
    hide Users, Total, SemOp, Undone, ClearAll, ClearAdj;
  }

  /** Nobody gets past sem_create or sem_open before [0] has been given its initial value. */
  lemma AttachesOnlyWhenReady(r: Run, i: nat, p: nat) returns (j: nat)
    requires IsRun(r) && Roomy(r) && i < |r.states|
    requires p < |r.states[i].ps| && r.states[i].ps[p].attached > 0
    ensures r.states[i].set_.Set? && j < i && MadeReady(r, j, r.states[i].set_.id)
  {
    hide IsRun, Roomy, Users, Total, MadeReady;
    var s := r.states[i];
    RunInv(r, i);
    assert PcOk(s, s.ps[p]) && AdjOk(s, s.ps[p]);
    j := ReadyWasMade(r, i);
  }

  /** sem_close removes a set that still has users only when one of them came by sem_open after the check. */
  lemma RemovesOnlyUnused(s: Sys, p: nat)
    requires Inv(s) && p < |s.ps| && s.ps[p].pc.CloseRm?
    ensures s.set_.Set? && (Users(s) > 0 ==> s.set_.late && s.opens)
    ensures !s.opens ==> Users(s) == 0
  {
    hide Total, Users;
    assert PcOk(s, s.ps[p]);
    UsersFacts(s);
  }

  // ---------- sem_open against removal ----------

  function Pair(v: seq<int>, ready: bool, late: bool, p: Proc, q: Proc): Sys {
    Sys(Set(0, v, ready, late), 1, [p, q], true)
  }

  /** A creator closes the semaphore while another process opens it. */
  function Race(): seq<Sys> {
    var idle := Proc(Out, 0, Zeros);
    var lock, user := [0, 0, -1], [0, 1, 0];
    [ Sys(NoSet, 0, [idle, idle], true),
      Sys(NoSet, 0, [Proc(CreateGet(1), 0, Zeros), idle], true),
      Pair([0, 0, 0], false, false, Proc(CreateLock(1, 0), 0, Zeros), idle),
      Pair([0, 0, 1], false, false, Proc(CreateRead(1, 0), 0, lock), idle),
      Pair([0, 0, 1], false, false, Proc(CreateSet0(1, 0), 0, lock), idle),
      Pair([1, 0, 1], false, false, Proc(CreateSet1(1, 0), 0, lock), idle),
      Pair([1, BIGCOUNT, 1], true, false, Proc(CreateEnd(1, 0), 0, lock), idle),
      Pair([1, BIGCOUNT - 1, 0], true, false, Proc(Out, 1, user), idle),
      Pair([1, BIGCOUNT - 1, 0], true, false, Proc(CloseLock(0), 1, user), idle),
      Pair([1, BIGCOUNT, 1], true, false, Proc(CloseRead(0), 0, lock), idle),
      Pair([1, BIGCOUNT, 1], true, false, Proc(CloseRead(0), 0, lock), Proc(OpenGet, 0, Zeros)),
      Pair([1, BIGCOUNT, 1], true, false, Proc(CloseRead(0), 0, lock), Proc(OpenDec(0), 0, Zeros)),
      Pair([1, BIGCOUNT, 1], true, false, Proc(CloseRm(0), 0, lock), Proc(OpenDec(0), 0, Zeros)),
      Pair([1, BIGCOUNT - 1, 1], true, true, Proc(CloseRm(0), 0, lock), Proc(Out, 1, user)),
      Sys(NoSet, 1, [idle, idle], true) ]
  }

  const RacePids: seq<nat> := [0, 0, 0, 0, 0, 0, 0, 0, 0, 1, 1, 0, 1, 0]

  lemma RaceArrays()
    ensures SemOp(Vals([0, 0, 0], Zeros), OP_LOCK) == Some(Vals([0, 0, 1], [0, 0, -1]))
    ensures SemOp(Vals([1, BIGCOUNT, 1], [0, 0, -1]), OP_ENDCREATE) == Some(Vals([1, BIGCOUNT - 1, 0], [0, 1, 0]))
    ensures SemOp(Vals([1, BIGCOUNT - 1, 0], [0, 1, 0]), OP_CLOSE) == Some(Vals([1, BIGCOUNT, 1], [0, 0, -1]))
    ensures SemOp(Vals([1, BIGCOUNT, 1], Zeros), OP_OPEN) == Some(Vals([1, BIGCOUNT - 1, 1], [0, 1, 0]))
  {
    hide SemOp;
    LockArray(Vals([0, 0, 0], Zeros));
    assert [0, 0, 0][2 := 1] == [0, 0, 1] && [0, 0, 0][2 := -1] == [0, 0, -1];
    EndCreateArray(Vals([1, BIGCOUNT, 1], [0, 0, -1]));
    assert [1, BIGCOUNT, 1][1 := BIGCOUNT - 1][2 := 0] == [1, BIGCOUNT - 1, 0];
    assert [0, 0, -1][1 := 1][2 := 0] == [0, 1, 0];
    CloseArray(Vals([1, BIGCOUNT - 1, 0], [0, 1, 0]));
    assert [1, BIGCOUNT - 1, 0][2 := 1][1 := BIGCOUNT] == [1, BIGCOUNT, 1];
    assert [0, 1, 0][2 := -1][1 := 0] == [0, 0, -1];
    OpenArray(Vals([1, BIGCOUNT, 1], Zeros));
    assert [1, BIGCOUNT, 1][1 := BIGCOUNT - 1] == [1, BIGCOUNT - 1, 1] && [0, 0, 0][1 := 1] == [0, 1, 0];
  }

  lemma RaceStep(i: nat)
    requires i < 14
    ensures |Race()| == 15 && RacePids[i] < |Race()[i].ps| && Fits(Race()[i])
    ensures i != 0 && i != 7 && i != 9 ==> Advance(Race()[i], RacePids[i]) == Some(Race()[i + 1])
  {
    if i < 7 {
      RaceCreate(i);
    } else {
      RaceClose(i);
    }
  }

  /** The first process creates the semaphore. */
  lemma RaceCreate(i: nat)
    requires i < 7
    ensures |Race()| == 15 && RacePids[i] < |Race()[i].ps| && Fits(Race()[i])
    ensures i != 0 ==> Advance(Race()[i], RacePids[i]) == Some(Race()[i + 1])
  {
    hide SemOp;
    RaceArrays();
    assert [0, 0, -1][0 := 0] == [0, 0, -1] == [0, 0, -1][1 := 0];
    assert [0, 0, 0][0 := 0] == [0, 0, 0] == [0, 0, 0][1 := 0];
    assert [0, 0, 1][0 := 1] == [1, 0, 1] && [1, 0, 1][1 := BIGCOUNT] == [1, BIGCOUNT, 1];
    if i == 4 || i == 5 {
      RaceSet(i);
    } else {
      assert Race()[i].ps[RacePids[i] := Race()[i + 1].ps[RacePids[i]]] == Race()[i + 1].ps;
    }
  }

  /** The two settings of the fresh set. */
  lemma RaceSet(i: nat)
    requires i == 4 || i == 5
    ensures |Race()| == 15 && RacePids[i] < |Race()[i].ps| && Fits(Race()[i])
    ensures Advance(Race()[i], RacePids[i]) == Some(Race()[i + 1])
  {
    assert [0, 0, -1][0 := 0] == [0, 0, -1] == [0, 0, -1][1 := 0];
    assert [0, 0, 0][0 := 0] == [0, 0, 0] == [0, 0, 0][1 := 0];
    assert [0, 0, 1][0 := 1] == [1, 0, 1] && [1, 0, 1][1 := BIGCOUNT] == [1, BIGCOUNT, 1];
    if i == 4 {
      assert ClearAdj(Race()[4].ps, 0) == Race()[4].ps;
      assert Race()[4].ps[0 := Proc(CreateSet1(1, 0), 0, [0, 0, -1])] == Race()[5].ps;
      assert Race()[4].set_.v[0 := 1] == Race()[5].set_.v;
    } else {
      assert ClearAdj(Race()[5].ps, 1) == Race()[5].ps;
      assert Race()[5].ps[0 := Proc(CreateEnd(1, 0), 0, [0, 0, -1])] == Race()[6].ps;
      assert Race()[5].set_.v[1 := BIGCOUNT] == Race()[6].set_.v;
    }
  }

  /** It closes the semaphore while the second opens it. */
  lemma RaceClose(i: nat)
    requires 7 <= i < 14
    ensures |Race()| == 15 && RacePids[i] < |Race()[i].ps| && Fits(Race()[i])
    ensures i != 7 && i != 9 ==> Advance(Race()[i], RacePids[i]) == Some(Race()[i + 1])
  {
    hide SemOp;
    RaceArrays();
    if i == 13 {
      var cleared := [Proc(CloseRm(0), 0, Zeros), Proc(Out, 0, Zeros)];
      assert ClearAll(Race()[13].ps) == cleared;
      assert cleared[0 := Proc(Out, 0, Zeros)] == Race()[14].ps;
    } else {
      assert Race()[i].ps[RacePids[i] := Race()[i + 1].ps[RacePids[i]]] == Race()[i + 1].ps;
    }
  }

  /** The steps in which a call begins. */
  lemma RaceBegins(i: nat)
    requires i == 0 || i == 7 || i == 9
    ensures |Race()| == 15 && RacePids[i] < |Race()[i].ps| && Fits(Race()[i]) && Race()[i].ps[RacePids[i]].pc.Out?
    ensures Begins(Race()[i], RacePids[i], Race()[i + 1])
  {
    if i == 0 {
      assert Race()[1] == Goto(Race()[0], 0, CreateGet(1));
    } else if i == 7 {
      assert Race()[8] == Goto(Race()[7], 0, CloseLock(0));
    } else {
      assert Race()[10] == Goto(Race()[9], 1, OpenGet);
    }
  }

  lemma RaceSteps(i: nat)
    requires i < 14
    ensures |Race()| == 15 && Step(Race()[i], RacePids[i], Race()[i + 1])
  {
    hide Advance, Begins, Fits, Race;
    RaceLength();
    RaceAlive(i);
    if i == 0 || i == 7 || i == 9 {
      RaceBegins(i);
    } else {
      RaceStep(i);
    }
  }

  lemma RaceLength()
    ensures |Race()| == 15 && |RacePids| == 14 && Init(Race()[0])
  {
  }

  lemma RaceAlive(i: nat)
    requires i < 14
    ensures |Race()| == 15 && RacePids[i] < |Race()[i].ps| == 2 && !Race()[i].ps[RacePids[i]].pc.Gone?
    ensures Users(Race()[i]) <= 2
  {
    hide Total;
    PairUsers(Race()[i].ps);
  }

  lemma RaceIsRun()
    ensures IsRun(Run(Race(), RacePids)) && Roomy(Run(Race(), RacePids))
  {
    hide Step, Race, Users;
    RaceLength();
    forall i | 0 <= i < 14
      ensures StepsAt(Run(Race(), RacePids), i) && RoomyAt(Race()[i], RacePids[i])
    {
      RaceSteps(i);
      RaceAlive(i);
    }
  }

  /** The removal of a semaphore with a user can happen, through the lock-free sem_open. */
  lemma OpenCanLoseItsSemaphore() returns (r: Run)
    ensures IsRun(r) && Roomy(r)
    ensures |r.pids| == 14 && |r.states| == 15 && |r.states[13].ps| == 2
    ensures r.states[13].set_.Set? && r.states[13].ps[1].attached == 1 && r.states[13].ps[0].pc.CloseRm?
    ensures r.states[14].set_.NoSet?
  {
    hide IsRun, Roomy;
    r := Run(Race(), RacePids);
    RaceIsRun();
  }

  lemma PairUsers(ps: seq<Proc>)
    requires |ps| == 2
    ensures Total(ps, Attached) == ps[0].attached + ps[1].attached
  {
    assert ps[..1][..0] == [];
    assert Total(ps[..1], Attached) == ps[0].attached;
  }
}
