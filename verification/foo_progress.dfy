/**
 Calls of threads/mutex2.c come to an end, with the answer of the table, and leave no memory
 behind: every step of a thread brings its call nearer to the end, no step of another thread
 takes it back, and an object is in the table, or a thread is about to put it there or free it.
 */
module FooProgress {
  import opened Basics
  import opened FooTable
  import opened FooMutex2
  import opened FooRefine
  import opened FooMoves
  import opened FooTheorems

  /** How many places of a call are still in front of this one at most; the two loops are one place each. */
  function Rank(pc: Pc): nat {
    match pc
    case Idle => 0
    case AllocLock(_, _) => 6
    case AllocNext(_, _) => 5
    case AllocHead(_, _) => 4
    case AllocFlock(_, _) => 3
    case AllocUnhash(_, _) => 2
    case AllocDone(_, _) => 1
    case HoldLock(_) => 3
    case HoldInc(_) => 2
    case HoldUnlock(_) => 1
    case FindLock(_) => 7
    case FindHead(_) => 6
    case FindLook(_, _, _) => 5
    case FindFlock(_, _, _) => 4
    case FindInc(_, _, _) => 3
    case FindFunlock(_, _) => 2
    case FindUnlock(_, _) => 1
    case ReleLock(_) => 14
    case ReleTest(_) => 13
    case ReleDec(_) => 2
    case ReleUnlock(_) => 1
    case ReleDrop(_) => 12
    case ReleHash(_) => 11
    case ReleFlock(_) => 10
    case ReleRecheck(_) => 9
    case ReleDec2(_) => 3
    case ReleFun2(_) => 2
    case ReleHun2(_) => 1
    case ReleHead(_) => 8
    case ReleWalk(_, _, _) => 7
    case ReleCutHead(_) => 6
    case ReleCut(_, _) => 6
    case ReleUnhash(_) => 3
    case ReleFunlock(_) => 2
    case ReleFree(_) => 1
  }

  /** How many turns of its loop a thread has still to make at most. */
  ghost function Turns(s: Sys, pc: Pc): int {
    if pc.ReleWalk? && ToGoDefined(s, pc) then ToGo(s, pc)
    else if pc.FindLook? && |s.table.buckets| == NHASH then |s.table.buckets[Bucket(pc.id)]| - pc.pos
    else 0
  }

  /** A call is over, or nearer to its end. */
  ghost predicate Nearer(s: Sys, pc: Pc, s': Sys, pc': Pc) {
    pc'.Idle? || Rank(pc') < Rank(pc) || (Rank(pc') == Rank(pc) && 0 <= Turns(s', pc') < Turns(s, pc))
  }

  lemma TurnsNatural(s: Sys, p: nat)
    requires Inv(s) && p < |s.ts|
    ensures Turns(s, s.ts[p].pc) >= 0
  {
    hide Inv, Shows, Counts, Bucket;
    InvAt(s, p);
    if s.ts[p].pc.ReleWalk? {
      WalkAt(s, p);
    }
  }

  lemma OwnTurn(s: Sys, p: nat, s': Sys)
    requires Inv(s) && Step(s, p, s') && p < |s.ts| && !s.ts[p].pc.Idle?
    ensures |s'.ts| == |s.ts| && Nearer(s, s.ts[p].pc, s', s'.ts[p].pc)
  {
    hide Inv, Step, Nearer, Turns, ToGo;
    if s.ts[p].pc.ReleWalk? {
      WalkNearer(s, p, s');
    } else if s.ts[p].pc.FindLook? {
      LookNearer(s, p, s');
    } else {
      LaterPlace(s, p, s');
    }
  }

  lemma WalkNearer(s: Sys, p: nat, s': Sys)
    requires Inv(s) && Step(s, p, s') && p < |s.ts| && s.ts[p].pc.ReleWalk?
    ensures |s'.ts| == |s.ts| && Nearer(s, s.ts[p].pc, s', s'.ts[p].pc)
  {
    hide Inv, Step, ToGo, ToGoDefined, Good;
    StepGood(s, p, s');
    GoodInv(s, p, s');
    UnlinkReaches(s, p, s', p);
  }

  lemma LookNearer(s: Sys, p: nat, s': Sys)
    requires Inv(s) && Step(s, p, s') && p < |s.ts| && s.ts[p].pc.FindLook?
    ensures |s'.ts| == |s.ts| && Nearer(s, s.ts[p].pc, s', s'.ts[p].pc)
  {
    hide Inv, Shows, Counts, Bucket, Granted;
    InvAt(s, p);
    ShowsSizes(s);
  }

  /** The next place of a call is a later one. */
  ghost predicate Later(s: Sys, p: nat, s': Sys)
    requires p < |s.ts|
  {
    |s'.ts| == |s.ts| && (s'.ts[p].pc.Idle? || Rank(s'.ts[p].pc) < Rank(s.ts[p].pc))
  }

  lemma LaterPlace(s: Sys, p: nat, s': Sys)
    requires Step(s, p, s') && p < |s.ts| && !s.ts[p].pc.Idle? && !s.ts[p].pc.ReleWalk? && !s.ts[p].pc.FindLook?
    ensures |s'.ts| == |s.ts| && Nearer(s, s.ts[p].pc, s', s'.ts[p].pc)
  {
    hide Granted, Advance, Reaches, Rank, Turns, Later;
    var pc := s.ts[p].pc;
    if IsAlloc(pc) {
      LaterInAlloc(s, p);
    } else if IsFind(pc) {
      LaterInFind(s, p);
    } else if IsRele(pc) {
      LaterInRele(s, p);
    } else {
      LaterInUnlink(s, p);
    }
    LaterIs(s, p, s');
  }

  lemma LaterIs(s: Sys, p: nat, s': Sys)
    requires p < |s.ts| && Later(s, p, s')
    ensures |s'.ts| == |s.ts| && Nearer(s, s.ts[p].pc, s', s'.ts[p].pc)
  {
    hide Rank, Turns;
  }

  predicate IsAlloc(pc: Pc) {
    || pc.AllocLock? || pc.AllocNext? || pc.AllocHead? || pc.AllocFlock? || pc.AllocUnhash? || pc.AllocDone?
  }

  predicate IsFind(pc: Pc) {
    || pc.HoldLock? || pc.HoldInc? || pc.HoldUnlock? || pc.FindLock? || pc.FindHead? || pc.FindFlock?
    || pc.FindInc? || pc.FindFunlock? || pc.FindUnlock?
  }

  predicate IsRele(pc: Pc) {
    || pc.ReleLock? || pc.ReleTest? || pc.ReleDec? || pc.ReleUnlock? || pc.ReleDrop? || pc.ReleHash?
    || pc.ReleFlock? || pc.ReleRecheck? || pc.ReleDec2?
  }

  lemma LaterInAlloc(s: Sys, p: nat)
    requires p < |s.ts| && Reaches(s, s.ts[p].pc)
    requires IsAlloc(s.ts[p].pc)
    ensures Later(s, p, Advance(s, p))
  {
    hide Bucket, Alloc, Hold, Rele, Counted;
  }

  lemma LaterInFind(s: Sys, p: nat)
    requires p < |s.ts| && Reaches(s, s.ts[p].pc)
    requires IsFind(s.ts[p].pc)
    ensures Later(s, p, Advance(s, p))
  {
    hide Bucket, Alloc, Hold, Rele, Counted;
  }

  lemma LaterInRele(s: Sys, p: nat)
    requires p < |s.ts| && Reaches(s, s.ts[p].pc)
    requires IsRele(s.ts[p].pc)
    ensures Later(s, p, Advance(s, p))
  {
    hide Bucket, Alloc, Hold, Rele, Counted;
  }

  lemma LaterInUnlink(s: Sys, p: nat)
    requires p < |s.ts| && Reaches(s, s.ts[p].pc)
    requires var pc := s.ts[p].pc; !pc.Idle? && !pc.ReleWalk? && !pc.FindLook? && !IsAlloc(pc) && !IsFind(pc) && !IsRele(pc)
    ensures Later(s, p, Advance(s, p))
  {
    hide Bucket, Alloc, Hold, Rele, Counted;
  }

  // ---------- What others do to it ----------

  /** A release that does not unlink leaves the object in its bucket. */
  lemma DecIsNotLast(s: Sys, q: nat)
    requires Inv(s) && q < |s.ts| && (s.ts[q].pc.ReleDec? || s.ts[q].pc.ReleDec2?)
    ensures s.ts[q].pc.o in s.table.objs && s.table.objs[s.ts[q].pc.o].count > 1
  {
    hide Counts, Bucket, Next, BucketOk;
    InvAt(s, q);
  }

  /** Buckets change under hashlock only. */
  lemma BucketsStay(s: Sys, q: nat, s': Sys)
    requires Inv(s) && Step(s, q, s') && q < |s.ts| && !HoldsHash(s.ts[q].pc)
    ensures s'.table.buckets == s.table.buckets
  {
    hide Inv, Bucket, Granted, Alloc;
    if s.ts[q].pc.ReleDec? || s.ts[q].pc.ReleDec2? {
      DecIsNotLast(s, q);
    }
  }

  lemma OthersTurn(s: Sys, q: nat, s': Sys, p: nat)
    requires Inv(s) && Step(s, q, s') && p < |s.ts| && p != q
    ensures q < |s.ts| == |s'.ts| && s'.ts[p].pc == s.ts[p].pc && Turns(s', s.ts[p].pc) == Turns(s, s.ts[p].pc)
  {
    hide Inv, Step, Good, ToGo, ToGoDefined, HoldsHash;
    StepGood(s, q, s');
    GoodInv(s, q, s');
    GoodOthers(s, q, s', p);
    if s.ts[p].pc.ReleWalk? {
      UnlinkReaches(s, p, s', q);
    } else if s.ts[p].pc.FindLook? {
      InvApart(s, p, q);
      LookHoldsHash(s.ts[p].pc);
      BucketsStay(s, q, s');
    }
  }

  lemma LookHoldsHash(pc: Pc)
    requires pc.FindLook?
    ensures HoldsHash(pc)
  {
  }

  lemma GoodOthers(s: Sys, q: nat, s': Sys, p: nat)
    requires Good(s, q, s') && p < |s.ts| && p != q
    ensures |s'.ts| == |s.ts| && s'.ts[p].pc == s.ts[p].pc
  {
    hide Inv, Effect;
  }

  /**
   A step of its own brings a call nearer to its end; a step of another thread changes neither
   its place nor the turns it has still to make.
   */
  lemma CallsComeNearer(s: Sys, q: nat, s': Sys, p: nat)
    requires Inv(s) && Step(s, q, s') && p < |s.ts| && !s.ts[p].pc.Idle?
    ensures |s'.ts| == |s.ts| && Turns(s, s.ts[p].pc) >= 0
    ensures q != p ==> s'.ts[p].pc == s.ts[p].pc && Turns(s', s.ts[p].pc) == Turns(s, s.ts[p].pc)
    ensures q == p ==> Nearer(s, s.ts[p].pc, s', s'.ts[p].pc)
  {
    hide Inv, Step, Turns, Nearer;
    TurnsNatural(s, p);
    if q == p {
      OwnTurn(s, p, s');
    } else {
      OthersTurn(s, q, s', p);
    }
  }

  // ---------- Runs without end ----------

  /** A run that goes on for ever, and the thread that takes each step. */
  ghost predicate IsEndless(r: nat -> Sys, tid: nat -> nat) {
    && Inv(r(0))
    && forall i: nat :: StepsOn(r, tid, i)
  }

  ghost predicate StepsOn(r: nat -> Sys, tid: nat -> nat, i: nat) {
    Step(r(i), tid(i), r(i + 1))
  }

  /** The thread takes a step at some time or another, again and again. */
  ghost predicate Served(tid: nat -> nat, p: nat) {
    forall i: nat :: ServedAfter(tid, p, i)
  }

  ghost predicate ServedAfter(tid: nat -> nat, p: nat, i: nat) {
    exists j: nat :: i <= j && tid(j) == p
  }

  lemma {:induction false} EndlessInv(r: nat -> Sys, tid: nat -> nat, i: nat)
    requires IsEndless(r, tid)
    ensures Inv(r(i))
  {
    hide Inv, Step, Good;
    if i > 0 {
      EndlessInv(r, tid, i - 1);
      assert StepsOn(r, tid, i - 1);
      StepGood(r(i - 1), tid(i - 1), r(i));
      GoodInv(r(i - 1), tid(i - 1), r(i));
    }
  }

  /** Until its next step the thread stays where it is. */
  lemma {:induction false} NextTurn(r: nat -> Sys, tid: nat -> nat, p: nat, i: nat, m: nat) returns (j: nat)
    requires IsEndless(r, tid) && i <= m && tid(m) == p && p < |r(i).ts| && !r(i).ts[p].pc.Idle?
    ensures i <= j && tid(j) == p && p < |r(j).ts| && r(j).ts[p].pc == r(i).ts[p].pc
    ensures Turns(r(j), r(j).ts[p].pc) == Turns(r(i), r(i).ts[p].pc)
    decreases m - i
  {
    hide Inv, Step, Turns;
    assert StepsOn(r, tid, i);
    if tid(i) == p {
      j := i;
    } else {
      EndlessInv(r, tid, i);
      CallsComeNearer(r(i), tid(i), r(i + 1), p);
      j := NextTurn(r, tid, p, i + 1, m);
    }
  }

  /** A step of a call: it goes on as the same call, or it has answered and is over. */
  lemma CallGoesOn(s: Sys, p: nat, s': Sys)
    requires Inv(s) && Step(s, p, s') && p < |s.ts| && !s.ts[p].pc.Idle?
    ensures |s'.ts| == |s.ts| && StatusOf(s.ts[p].pc) != Out
    ensures var st, st' := StatusOf(s.ts[p].pc), StatusOf(s'.ts[p].pc);
      && (st.Called? ==> st' == st || (st'.Done? && st'.op == st.op && Atomic(s.table, st.op, s'.table, st'.ans)))
      && (st.Called? ==> !s'.ts[p].pc.Idle?)
      && (st.Done? ==> st' == st || s'.ts[p].pc.Idle?)
  {
    hide Inv, Step, Atomic;
    StepGood(s, p, s');
    GoodInv(s, p, s');
    BusyHasStatus(s.ts[p].pc);
    BusyHasStatus(s'.ts[p].pc);
    hide StatusOf;
  }

  lemma BusyHasStatus(pc: Pc)
    ensures StatusOf(pc).Out? <==> pc.Idle?
  {
  }

  /** A call that has taken effect comes to its end, with the answer it has. */
  lemma {:induction false} DoneEnds(r: nat -> Sys, tid: nat -> nat, p: nat, i: nat) returns (j: nat)
    requires IsEndless(r, tid) && Served(tid, p) && p < |r(i).ts| && StatusOf(r(i).ts[p].pc).Done?
    ensures i <= j && tid(j) == p && p < |r(j).ts| && StatusOf(r(j).ts[p].pc) == StatusOf(r(i).ts[p].pc)
    ensures p < |r(j + 1).ts| && r(j + 1).ts[p].pc.Idle?
    decreases Rank(r(i).ts[p].pc), Turns(r(i), r(i).ts[p].pc)
  {
    hide Inv, Step, Turns, Rank, StatusOf;
    BusyHasStatus(r(i).ts[p].pc);
    assert ServedAfter(tid, p, i);
    var m: nat :| i <= m && tid(m) == p;
    j := NextTurn(r, tid, p, i, m);
    EndlessInv(r, tid, j);
    assert StepsOn(r, tid, j);
    CallsComeNearer(r(j), p, r(j + 1), p);
    CallGoesOn(r(j), p, r(j + 1));
    if !r(j + 1).ts[p].pc.Idle? {
      TurnsNatural(r(j), p);
      j := DoneEnds(r, tid, p, j + 1);
    }
  }

  /**
   In a run without end, every call of a thread that gets its turn again and again takes
   effect in one step of its own, as in the one-lock version, and comes to return the answer
   it got there.
   */
  lemma {:induction false} CallsAnswer(r: nat -> Sys, tid: nat -> nat, p: nat, i: nat) returns (k: nat, j: nat)
    requires IsEndless(r, tid) && Served(tid, p) && p < |r(i).ts| && StatusOf(r(i).ts[p].pc).Called?
    ensures i <= k < j && tid(k) == p && p < |r(j).ts| && StatusOf(r(j).ts[p].pc).Done?
    ensures var op, done := StatusOf(r(i).ts[p].pc).op, StatusOf(r(j).ts[p].pc);
      done.op == op && Atomic(r(k).table, op, r(k + 1).table, done.ans)
    ensures p < |r(j + 1).ts| && r(j + 1).ts[p].pc.Idle?
    decreases Rank(r(i).ts[p].pc), Turns(r(i), r(i).ts[p].pc)
  {
    hide Inv, Step, Turns, Rank, StatusOf, Atomic;
    BusyHasStatus(r(i).ts[p].pc);
    assert ServedAfter(tid, p, i);
    var m: nat :| i <= m && tid(m) == p;
    k := NextTurn(r, tid, p, i, m);
    EndlessInv(r, tid, k);
    assert StepsOn(r, tid, k);
    CallsComeNearer(r(k), p, r(k + 1), p);
    CallGoesOn(r(k), p, r(k + 1));
    TurnsNatural(r(k), p);
    if StatusOf(r(k + 1).ts[p].pc).Done? {
      j := DoneEnds(r, tid, p, k + 1);
    } else {
      k, j := CallsAnswer(r, tid, p, k + 1);
    }
  }

  /** An idle thread can begin any call: hold and rele for what it has a reference to. */
  lemma CallsBegin(s: Sys, p: nat, id: int, o: nat)
    requires p < |s.ts| && s.ts[p].pc.Idle?
    ensures Step(s, p, Goto(s, p, FindLock(id)))
    ensures o !in s.heap ==> Step(s, p, Goto(s.(heap := s.heap[o := Cell(id, 1, None)]), p, AllocLock(id, o)))
    ensures o in s.ts[p].refs ==> Step(s, p, Goto(s, p, HoldLock(o))) && Step(s, p, Goto(s, p, ReleLock(o)))
  {
    hide Gives;
    assert Begins(s, p, FindOp(id), o, Goto(s, p, FindLock(id)));
    if o !in s.heap {
      assert Begins(s, p, AllocOp(id), o, Goto(s.(heap := s.heap[o := Cell(id, 1, None)]), p, AllocLock(id, o)));
    }
    if o in s.ts[p].refs {
      assert Begins(s, p, HoldOp(o), o, Goto(s, p, HoldLock(o)));
      assert Begins(s, p, ReleOp(o), o, Goto(s, p, ReleLock(o)));
    }
  }

  // ---------- Memory ----------

  /** The object is in the table, or a thread has it to itself. */
  ghost predicate Kept(s: Sys, o: nat) {
    o in s.table.objs || Owner(s, o)
  }

  ghost predicate Owner(s: Sys, o: nat) {
    exists p :: 0 <= p < |s.ts| && Owns(s.ts[p].pc) == Some(o)
  }

  /** A step makes no object unreachable without giving it to the thread that is to free it. */
  lemma StepKeeps(s: Sys, p: nat, s': Sys, o: nat)
    requires Inv(s) && Step(s, p, s') && o in s'.heap && (o in s.heap ==> Kept(s, o))
    ensures Kept(s', o)
  {
    hide Inv, Good, Step, Kept, Owner, Owns;
    StepGood(s, p, s');
    GoodInv(s, p, s');
    if s.ts[p].pc.Idle? {
      IdleKeeps(s, p, s', o);
    } else {
      BusyKeeps(s, p, s', o);
    }
  }

  lemma IdleKeeps(s: Sys, p: nat, s': Sys, o: nat)
    requires Step(s, p, s') && p < |s.ts| == |s'.ts| && s.ts[p].pc.Idle? && o in s'.heap && (o in s.heap ==> Kept(s, o))
    requires Good(s, p, s')
    ensures Kept(s', o)
  {
    hide Inv, Effect, Bucket;
    if o !in s.heap {
      assert Owns(s'.ts[p].pc) == Some(o);
    } else if o !in s.table.objs {
      var q :| 0 <= q < |s.ts| && Owns(s.ts[q].pc) == Some(o);
      assert q != p;
      assert Owns(s'.ts[q].pc) == Some(o);
    }
  }

  lemma BusyKeeps(s: Sys, p: nat, s': Sys, o: nat)
    requires Inv(s) && Step(s, p, s') && p < |s.ts| == |s'.ts| && !s.ts[p].pc.Idle? && o in s'.heap && (o in s.heap ==> Kept(s, o))
    requires Good(s, p, s')
    ensures Kept(s', o)
  {
    hide Inv, Effect, Bucket, Shows, Counts, Step;
    OwnKeeps(s, p, s', o);
    if o in s.table.objs {
      if o !in s'.table.objs {
        assert Owns(s'.ts[p].pc) == Some(o);
      }
    } else {
      var q :| 0 <= q < |s.ts| && Owns(s.ts[q].pc) == Some(o);
      if q == p {
        if o !in s'.table.objs {
          assert Owns(s'.ts[p].pc) == Some(o);
        }
      } else {
        assert Owns(s'.ts[q].pc) == Some(o);
      }
    }
  }

  /** What the thread had to itself it still has, or it is in the table now, or freed; what it takes out it has. */
  lemma OwnKeeps(s: Sys, p: nat, s': Sys, o: nat)
    requires Inv(s) && Step(s, p, s') && p < |s.ts| == |s'.ts| && !s.ts[p].pc.Idle? && o in s'.heap
    ensures o in s.heap
    ensures o in s.table.objs ==> o in s'.table.objs || Owns(s'.ts[p].pc) == Some(o)
    ensures Owns(s.ts[p].pc) == Some(o) ==> o in s'.table.objs || Owns(s'.ts[p].pc) == Some(o)
  {
    hide Inv, Bucket, Granted, Without;
    if s.ts[p].pc.ReleDec? || s.ts[p].pc.ReleDec2? {
      DecIsNotLast(s, p);
    }
  }

  /** In every state of every run, memory that is allocated is in the table or about to be put there or freed. */
  lemma {:induction false} NothingLeaks(r: Run, i: nat, o: nat)
    requires IsRun(r) && i < |r.states| && o in r.states[i].heap
    ensures Kept(r.states[i], o)
  {
    hide Init, Inv, Step, Kept;
    if i == 0 {
      EmptyAtFirst(r.states[0]);
    } else {
      RunInv(r, i - 1);
      assert StepsAt(r, i - 1);
      if o in r.states[i - 1].heap {
        NothingLeaks(r, i - 1, o);
      }
      StepKeeps(r.states[i - 1], r.tids[i - 1], r.states[i], o);
    }
  }

  lemma EmptyAtFirst(s: Sys)
    requires Init(s)
    ensures s.heap == map[]
  {
  }

  /** Between calls, memory and table hold the same objects. */
  lemma QuiescentMemory(r: Run, i: nat)
    requires IsRun(r) && i < |r.states| && forall p :: 0 <= p < |r.states[i].ts| ==> r.states[i].ts[p].pc.Idle?
    ensures r.states[i].heap.Keys == r.states[i].table.objs.Keys
  {
    hide Init, Inv, IsRun;
    var s := r.states[i];
    RunInv(r, i);
    forall o | o in s.heap
      ensures o in s.table.objs
    {
      NothingLeaks(r, i, o);
    }
    ObjectsInMemory(s);
  }

  lemma ObjectsInMemory(s: Sys)
    requires Inv(s)
    ensures forall o :: o in s.table.objs ==> o in s.heap
  {
    hide Counts, PcOk, Apart;
  }
}
