/**
 Two runs in which lib/semaph.c does not do what it is for: BIGCOUNT users empty the counter,
 and the next sem_create gives a semaphore in use its initial values again; and a sem_close
 by a process that never opened the semaphore counts further than BIGCOUNT.
 */
module SemaphFailures {
  import opened Basics
  import opened Semaph
  import opened SemaphTheorems

  /** The last state of a run. */
  ghost function Final(r: Run): Sys
    requires |r.states| > 0
  {
    r.states[|r.states| - 1]
  }

  /** A run goes on by one step. */
  lemma Extend(r: Run, p: nat, s': Sys) returns (r': Run)
    requires IsRun(r) && Step(Final(r), p, s')
    ensures IsRun(r') && Final(r') == s'
  {
    hide Step, Init;
    r' := Run(r.states + [s'], r.pids + [p]);
    forall i | 0 <= i < |r'.pids|
      ensures StepsAt(r', i)
    {
      if i < |r.pids| {
        assert StepsAt(r, i);
      }
    }
  }

  // ---------- Too many users ----------

  /** The first process has created the semaphore, and the second has opened it k times. */
  function Opened(k: nat): Sys
    requires k < BIGCOUNT
  {
    Opening(k, Out)
  }

  function Opening(k: nat, pc: Pc): Sys
    requires k < BIGCOUNT
  {
    Pair([1, BIGCOUNT - 1 - k, 0], true, k > 0, Proc(Out, 1, [0, 1, 0]), Proc(pc, k, [0, k, 0]))
  }

  lemma OpenOnce(k: nat)
    requires k + 1 < BIGCOUNT
    ensures Step(Opened(k), 1, Opening(k, OpenGet))
    ensures Step(Opening(k, OpenGet), 1, Opening(k, OpenDec(0)))
    ensures Step(Opening(k, OpenDec(0)), 1, Opened(k + 1))
  {
    hide SemOp;
    var s, t, u := Opened(k), Opening(k, OpenGet), Opening(k, OpenDec(0));
    assert s.ps[1 := s.ps[1].(pc := OpenGet)] == t.ps;
    assert Begins(s, 1, t);
    assert t.ps[1 := t.ps[1].(pc := OpenDec(0))] == u.ps;
    OpenArray(Vals(u.set_.v, u.ps[1].adj));
    assert u.set_.v[1 := u.set_.v[1] - 1] == Opened(k + 1).set_.v;
    assert [0, k, 0][1 := k + 1] == [0, k + 1, 0];
    assert u.ps[1 := Proc(Out, k + 1, [0, k + 1, 0])] == Opened(k + 1).ps;
  }

  /** The first steps of the race: the semaphore is created. */
  lemma Created() returns (r: Run)
    ensures IsRun(r) && Final(r) == Opened(0)
  {
    hide Step, Init;
    RaceLength();
    r := Run(Race()[..8], RacePids[..7]);
    forall i | 0 <= i < 7
      ensures StepsAt(r, i)
    {
      RaceSteps(i);
    }
    assert Race()[7] == Opened(0);
  }

  /** The second process may open the semaphore as often as the counter allows. */
  lemma {:induction false} OpenedRun(k: nat) returns (r: Run)
    requires k < BIGCOUNT
    ensures IsRun(r) && Final(r) == Opened(k)
  {
    hide IsRun, Step, Final, Opened, Opening;
    if k == 0 {
      r := Created();
    } else {
      r := OpenedRun(k - 1);
      OpenOnce(k - 1);
      r := Extend(r, 1, Opening(k - 1, OpenGet));
      r := Extend(r, 1, Opening(k - 1, OpenDec(0)));
      r := Extend(r, 1, Opened(k));
    }
  }

  /** The states of a sem_create by the first process when the counter is empty. */
  function Again(v: seq<int>, pc: Pc, adj: seq<int>, user: seq<int>): Sys {
    Pair(v, true, true, Proc(pc, 1, adj), Proc(Out, BIGCOUNT - 1, user))
  }

  const User: seq<int> := [0, 1, 0]
  const Users9999: seq<int> := [0, BIGCOUNT - 1, 0]
  const Locker: seq<int> := [0, 1, -1]

  lemma AgainReads()
    ensures Opened(BIGCOUNT - 1) == Again([1, 0, 0], Out, User, Users9999)
    ensures Step(Again([1, 0, 0], Out, User, Users9999), 0, Again([1, 0, 0], CreateGet(7), User, Users9999))
    ensures Step(Again([1, 0, 0], CreateGet(7), User, Users9999), 0, Again([1, 0, 0], CreateLock(7, 0), User, Users9999))
    ensures Step(Again([1, 0, 0], CreateLock(7, 0), User, Users9999), 0, Again([1, 0, 1], CreateRead(7, 0), Locker, Users9999))
  {
    hide SemOp;
    var s, t := Again([1, 0, 0], Out, User, Users9999), Again([1, 0, 0], CreateGet(7), User, Users9999);
    assert s.ps[0 := t.ps[0]] == t.ps && t == Goto(s, 0, CreateGet(7));
    assert Begins(s, 0, t);
    var u := Again([1, 0, 0], CreateLock(7, 0), User, Users9999);
    assert t.ps[0 := u.ps[0]] == u.ps;
    LockArray(Vals([1, 0, 0], User));
    assert [1, 0, 0][2 := 1] == [1, 0, 1] && User[2 := -1] == Locker;
    assert u.ps[0 := Proc(CreateRead(7, 0), 1, Locker)] == Again([1, 0, 1], CreateRead(7, 0), Locker, Users9999).ps;
  }

  lemma AgainSets()
    ensures Step(Again([1, 0, 1], CreateRead(7, 0), Locker, Users9999), 0, Again([1, 0, 1], CreateSet0(7, 0), Locker, Users9999))
    ensures Step(Again([1, 0, 1], CreateSet0(7, 0), Locker, Users9999), 0, Again([7, 0, 1], CreateSet1(7, 0), Locker, Users9999))
    ensures Step(Again([7, 0, 1], CreateSet1(7, 0), Locker, Users9999), 0,
                 Again([7, BIGCOUNT, 1], CreateEnd(7, 0), [0, 0, -1], Zeros))
  {
    var s, t := Again([1, 0, 1], CreateRead(7, 0), Locker, Users9999), Again([1, 0, 1], CreateSet0(7, 0), Locker, Users9999);
    assert s.ps[0 := t.ps[0]] == t.ps;
    var u := Again([7, 0, 1], CreateSet1(7, 0), Locker, Users9999);
    assert Locker[0 := 0] == Locker && Users9999[0 := 0] == Users9999;
    assert ClearAdj(t.ps, 0) == t.ps;
    assert t.ps[0 := u.ps[0]] == u.ps && [1, 0, 1][0 := 7] == [7, 0, 1];
    var w := Again([7, BIGCOUNT, 1], CreateEnd(7, 0), [0, 0, -1], Zeros);
    assert Locker[1 := 0] == [0, 0, -1] && Users9999[1 := 0] == Zeros;
    assert ClearAdj(u.ps, 1) == [Proc(CreateSet1(7, 0), 1, [0, 0, -1]), Proc(Out, BIGCOUNT - 1, Zeros)];
    assert ClearAdj(u.ps, 1)[0 := w.ps[0]] == w.ps && [7, 0, 1][1 := BIGCOUNT] == [7, BIGCOUNT, 1];
  }

  /**
   BIGCOUNT uses of one semaphore empty the counter: a sem_create with another initial value
   then finds 0 in [1], and overwrites [0] and [1] of the semaphore while all of them use it.
   */
  lemma FullCounterIsReinitialised() returns (read: Run, set_: Run)
    ensures IsRun(read) && |Final(read).ps| == 2 && Final(read).ps[0].pc == CreateRead(7, 0)
    ensures Users(Final(read)) == BIGCOUNT && Final(read).set_ == Set(0, [1, 0, 1], true, true)
    ensures IsRun(set_) && Users(Final(set_)) == BIGCOUNT && Final(set_).set_ == Set(0, [7, BIGCOUNT, 1], true, true)
  {
    hide IsRun, Step, Opened;
    read := OpenedRun(BIGCOUNT - 1);
    AgainReads();
    read := Extend(read, 0, Again([1, 0, 0], CreateGet(7), User, Users9999));
    read := Extend(read, 0, Again([1, 0, 0], CreateLock(7, 0), User, Users9999));
    read := Extend(read, 0, Again([1, 0, 1], CreateRead(7, 0), Locker, Users9999));
    PairUsers(Again([1, 0, 1], CreateRead(7, 0), Locker, Users9999).ps);
    AgainSets();
    set_ := Extend(read, 0, Again([1, 0, 1], CreateSet0(7, 0), Locker, Users9999));
    set_ := Extend(set_, 0, Again([7, 0, 1], CreateSet1(7, 0), Locker, Users9999));
    set_ := Extend(set_, 0, Again([7, BIGCOUNT, 1], CreateEnd(7, 0), [0, 0, -1], Zeros));
    PairUsers(Again([7, BIGCOUNT, 1], CreateEnd(7, 0), [0, 0, -1], Zeros).ps);
  }

  // ---------- A close without an open ----------

  /** The creator has exited, and the second process closes what it never opened. */
  lemma CloseWithoutOpen() returns (r: Run)
    ensures IsRun(r) && |Final(r).ps| == 2 && Final(r).ps[1] == Proc(Out, 0, Zeros)
    ensures Final(r).set_ == Set(0, [1, BIGCOUNT, 0], true, false)
    ensures SemOp(Vals([1, BIGCOUNT, 0], Zeros), OP_CLOSE) == Some(Vals([1, BIGCOUNT + 1, 1], [0, -1, -1]))
  {
    hide SemOp, IsRun;
    r := Created();
    var s, t := Opened(0), Pair([1, BIGCOUNT, 0], true, false, Proc(Gone, 0, Zeros), Proc(Out, 0, Zeros));
    assert Undone(s.set_.v, s.ps[0].adj) == [1, BIGCOUNT, 0];
    assert s.ps[0 := Proc(Gone, 0, Zeros)] == t.ps && t == Exited(s, 0);
    r := Extend(r, 0, t);
    CloseArray(Vals([1, BIGCOUNT, 0], Zeros));
    assert [1, BIGCOUNT, 0][2 := 1][1 := BIGCOUNT + 1] == [1, BIGCOUNT + 1, 1];
    assert Zeros[2 := -1][1 := -1] == [0, -1, -1];
  }
}
