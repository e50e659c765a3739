/**
 What holds of whole runs of any number of threads at the table of threads/mutex2.c.
 */
module FooTheorems {
  import opened Basics
  import opened FooTable
  import opened FooMutex2
  import opened FooRefine
  import opened FooMoves

  /** The states of a run, and the thread that takes each step. */
  datatype Run = Run(states: seq<Sys>, tids: seq<nat>)

  ghost predicate IsRun(r: Run) {
    && |r.states| == |r.tids| + 1
    && Init(r.states[0])
    && forall i :: 0 <= i < |r.tids| ==> StepsAt(r, i)
  }

  ghost predicate StepsAt(r: Run, i: nat)
    requires i < |r.tids| && |r.states| == |r.tids| + 1
  {
    Step(r.states[i], r.tids[i], r.states[i + 1])
  }

  lemma InitInv(s: Sys)
    requires Init(s)
    ensures Inv(s)
  {
    forall p | 0 <= p < |s.ts|
      ensures PcOk(s, s.ts[p])
    {
      assert s.ts[p].pc == Idle;
    }
  }

  /** The invariant holds in every state of every run. */
  lemma {:induction false} RunInv(r: Run, i: nat)
    requires IsRun(r) && i < |r.states|
    ensures Inv(r.states[i])
  {
    hide Init, Inv, Step, Good;
    if i == 0 {
      InitInv(r.states[0]);
    } else {
      RunInv(r, i - 1);
      assert StepsAt(r, i - 1);
      StepGood(r.states[i - 1], r.tids[i - 1], r.states[i]);
      GoodInv(r.states[i - 1], r.tids[i - 1], r.states[i]);
    }
  }

  lemma GoodInv(s: Sys, p: nat, s': Sys)
    requires Good(s, p, s')
    ensures Inv(s') && p < |s.ts| == |s'.ts|
    ensures Effect(s.table, StatusOf(s.ts[p].pc), s'.table, StatusOf(s'.ts[p].pc))
  {
    hide Inv, Effect;
  }

  // ---------- Refinement of the one-lock version ----------

  datatype Event = Event(op: Op, ans: Option<nat>)

  /** The call that takes effect in step i, if one does. */
  ghost function TakesEffect(r: Run, i: nat): seq<Event>
    requires i < |r.tids| && |r.states| == |r.tids| + 1
  {
    var p := r.tids[i];
    if p >= |r.states[i].ts| || p >= |r.states[i + 1].ts| then []
    else
      var st, st' := StatusOf(r.states[i].ts[p].pc), StatusOf(r.states[i + 1].ts[p].pc);
      if st.Called? && st'.Done? then [Event(st.op, st'.ans)] else []
  }

  /** The calls that take effect in the first n steps, in order, with their answers. */
  ghost function History(r: Run, n: nat): seq<Event>
    requires n <= |r.tids| && |r.states| == |r.tids| + 1
  {
    if n == 0 then [] else History(r, n - 1) + TakesEffect(r, n - 1)
  }

  /** The one-lock version, run by itself on these calls, gives these answers and ends up with t'. */
  ghost predicate Explains(t: Table<nat>, log: seq<Event>, t': Table<nat>) {
    if log == [] then t' == t
    else
      var n := |log| - 1;
      exists mid :: Explains(t, log[..n], mid) && Atomic(mid, log[n].op, t', log[n].ans)
  }

  /**
   The two-lock version refines the one-lock version: whatever the threads do, their calls in
   the order of taking effect are a run of the atomic operations with the same answers.
   */
  lemma {:induction false} HistoryExplainsTable(r: Run, n: nat)
    requires IsRun(r) && n <= |r.tids|
    ensures Explains(r.states[0].table, History(r, n), r.states[n].table)
  {
    hide Init, Inv, Step, Good, StatusOf, Atomic;
    if n > 0 {
      HistoryExplainsTable(r, n - 1);
      var s, p, s' := r.states[n - 1], r.tids[n - 1], r.states[n];
      RunInv(r, n - 1);
      assert StepsAt(r, n - 1);
      StepGood(s, p, s');
      GoodInv(s, p, s');
      if TakesEffect(r, n - 1) == [] {
        assert History(r, n) == History(r, n - 1);
      } else {
        assert History(r, n)[..|History(r, n)| - 1] == History(r, n - 1);
      }
    }
  }

  /** Every call takes effect in one step between its start and its end, and in no other. */
  lemma CallsAreAtomic(r: Run, i: nat)
    requires IsRun(r) && i < |r.tids|
    ensures r.tids[i] < |r.states[i].ts| == |r.states[i + 1].ts|
    ensures var st, st' := StatusOf(r.states[i].ts[r.tids[i]].pc), StatusOf(r.states[i + 1].ts[r.tids[i]].pc);
      && (st.Called? && st'.Done? ==>
            st'.op == st.op && Atomic(r.states[i].table, st.op, r.states[i + 1].table, st'.ans))
      && (!(st.Called? && st'.Done?) ==> r.states[i + 1].table == r.states[i].table)
      && (st.Done? && st'.Done? ==> st' == st)
      && (st.Called? && st'.Called? ==> st' == st)
      && (st.Out? ==> !st'.Done?)
      && (st.Called? ==> !st'.Out?)
      && (st.Done? ==> !st'.Called?)
  {
    hide Init, Inv, Step, Good, StatusOf, Atomic;
    RunInv(r, i);
    assert StepsAt(r, i);
    StepGood(r.states[i], r.tids[i], r.states[i + 1]);
    GoodInv(r.states[i], r.tids[i], r.states[i + 1]);
  }

  // ---------- References ----------

  /** In every state f_count is the number of references, and only objects of the table are referenced. */
  lemma CountIsReferences(s: Sys, o: nat)
    requires Inv(s)
    ensures o in s.table.objs ==> o in s.heap && s.heap[o].count == Refs(s.ts, o) > 0
    ensures (exists p :: 0 <= p < |s.ts| && o in s.ts[p].refs) ==> o in s.table.objs
    ensures o !in s.table.objs ==> Refs(s.ts, o) == 0
  {
    hide TableOk, PcOk, Apart;
    if o in s.table.objs {
      Shown(s, o);
    } else {
      NoRefs(s, o);
    }
  }

  /** At most one thread is between giving up f_lock on a last reference and looking at the count again. */
  lemma OneInWindow(s: Sys, p: nat, q: nat)
    requires Inv(s) && p < |s.ts| && q < |s.ts|
    requires Window(s.ts[p].pc).Some? && Window(s.ts[p].pc) == Window(s.ts[q].pc)
    ensures p == q
  {
    hide Shows, Counts, PcOk;
    if p != q {
      InvApart(s, p, q);
    }
  }

  /** An object leaves the table only by the hand of the thread with the only reference to it. */
  lemma UnlinkedByLast(s: Sys, p: nat, s': Sys, o: nat)
    requires Inv(s) && Step(s, p, s') && o in s.table.objs && o !in s'.table.objs
    ensures o in s.ts[p].refs && Refs(s.ts, o) == 1 && s.heap[o].count == 1
    ensures forall q :: 0 <= q < |s.ts| && q != p ==> o !in s.ts[q].refs
  {
    UnlinksOwn(s, p, s', o);
    hide Inv, Shows, Counts, Step;
    InvAt(s, p);
    Referenced(s, p, o);
    forall q | 0 <= q < |s.ts| && q != p
      ensures o !in s.ts[q].refs
    {
      if o in s.ts[q].refs {
        RefsOfTwo(s.ts, p, q, o);
      }
    }
  }

  lemma UnlinksOwn(s: Sys, p: nat, s': Sys, o: nat)
    requires Inv(s) && Step(s, p, s') && o in s.table.objs && o !in s'.table.objs
    ensures o in s.ts[p].refs && o in s.heap && s.heap[o].count == 1
  {
    hide Inv, Shows, Counts, Granted, Bucket, Refs, Without;
    InvAt(s, p);
    Shown(s, o);
  }

  /** Memory is freed only when no thread has a reference to it and no step under way can touch it. */
  lemma FreedWhenUnused(s: Sys, p: nat, s': Sys, o: nat)
    requires Inv(s) && Step(s, p, s') && o in s.heap && o !in s'.heap
    ensures s.ts[p].pc == ReleFree(o) && o !in s.table.objs && Refs(s.ts, o) == 0
    ensures forall q :: 0 <= q < |s.ts| && q != p ==> Touches(s.ts[q].pc) != Some(o)
  {
    FreesOwn(s, p, s', o);
    hide Inv, Shows, Counts, Step, PcOk;
    InvAt(s, p);
    NoRefs(s, o) by {
      FreeIsOut(s, p);
    }
    forall q | 0 <= q < |s.ts| && q != p
      ensures Touches(s.ts[q].pc) != Some(o)
    {
      TouchesReferenced(s, p, q, o);
    }
  }

  lemma FreesOwn(s: Sys, p: nat, s': Sys, o: nat)
    requires Inv(s) && Step(s, p, s') && o in s.heap && o !in s'.heap
    ensures s.ts[p].pc == ReleFree(o) && o !in s.table.objs
  {
    hide Inv, Shows, Counts, Granted, Bucket, Rele, Find, Alloc, Hold;
    InvAt(s, p);
  }

  lemma FreeIsOut(s: Sys, p: nat)
    requires Inv(s) && p < |s.ts| && s.ts[p].pc.ReleFree?
    ensures s.ts[p].pc.o !in s.table.objs
  {
    hide Shows, Counts;
    InvAt(s, p);
  }

  /** What a thread is about to touch is in the table or its own. */
  lemma TouchesReferenced(s: Sys, p: nat, q: nat, o: nat)
    requires Inv(s) && p < |s.ts| && q < |s.ts| && p != q && Owns(s.ts[p].pc) == Some(o) && o !in s.table.objs
    ensures Touches(s.ts[q].pc) != Some(o)
  {
    hide Inv, Shows, Counts, Next;
    InvAt(s, q);
    InvApart(s, p, q);
    ShowsSizes(s);
    if Needs(s.ts[q].pc).Some? {
      Referenced(s, q, Needs(s.ts[q].pc).value);
    }
    match s.ts[q].pc {
      case FindLook(id, fp, pos) =>
        if fp.Some? {
          BucketMember(s, Bucket(id), pos);
        }
      case ReleWalk(k, _, pos) => BucketMember(s, Bucket(s.heap[k].id), pos);
      case _ =>
    }
  }

  /** What foo_find returns is an object of the table with the identifier, referenced by the finder. */
  lemma FindsLiveObject(s: Sys, p: nat, s': Sys)
    requires Inv(s) && Step(s, p, s') && StatusOf(s.ts[p].pc).Called? && StatusOf(s.ts[p].pc).op.FindOp?
    requires p < |s'.ts| && StatusOf(s'.ts[p].pc).Done?
    ensures var id, ans := StatusOf(s.ts[p].pc).op.id, StatusOf(s'.ts[p].pc).ans;
      && (ans.Some? ==> ans.value in s'.table.objs && s'.table.objs[ans.value].id == id && ans.value in s'.ts[p].refs)
      && (ans.None? ==> forall o :: o in s.table.objs ==> s.table.objs[o].id != id)
  {
    StepGood(s, p, s');
    FindAnswers(s, p, s');
    hide Inv, Step;
    InvAt(s, p);
    hide StatusOf, Bucket, Found;
    FindsLive(s.table, StatusOf(s.ts[p].pc).op.id);
  }

  lemma FindAnswers(s: Sys, p: nat, s': Sys)
    requires Step(s, p, s') && Good(s, p, s') && StatusOf(s.ts[p].pc).Called? && StatusOf(s.ts[p].pc).op.FindOp?
    requires StatusOf(s'.ts[p].pc).Done?
    ensures Atomic(s.table, StatusOf(s.ts[p].pc).op, s'.table, StatusOf(s'.ts[p].pc).ans)
    ensures StatusOf(s'.ts[p].pc).ans.Some? ==> StatusOf(s'.ts[p].pc).ans.value in s'.ts[p].refs
  {
    hide Inv, Granted, Atomic, Bucket;
  }

  // ---------- Locks ----------

  /** hashlock comes before f_lock: a thread that waits for a lock holds no f_lock. */
  lemma LockOrder(pc: Pc)
    ensures Waits(pc) ==> HoldsF(pc).None? && Locked(pc) != pc
    ensures Waits(pc) && HoldsHash(pc) ==> HoldsF(Locked(pc)).Some?
    ensures !Waits(pc) ==> Locked(pc) == pc
    ensures Waits(pc) && !HoldsHash(pc) ==> HoldsHash(Locked(pc)) != HoldsF(Locked(pc)).Some?
  {
  }

  ghost predicate CanStep(s: Sys, p: nat) {
    p < |s.ts| && !s.ts[p].pc.Idle? && Granted(s.ts, p) && Reaches(s, s.ts[p].pc)
  }

  lemma FreeToGo(s: Sys, p: nat)
    requires Inv(s) && p < |s.ts| && !s.ts[p].pc.Idle? && !Waits(s.ts[p].pc)
    ensures CanStep(s, p)
  {
    hide Shows, Counts, PcOk;
    LockOrder(s.ts[p].pc);
    AlwaysReaches(s, p);
    forall q | 0 <= q < |s.ts| && q != p
      ensures !Clash(Locked(s.ts[p].pc), s.ts[q].pc)
    {
      InvApart(s, p, q);
    }
  }

  lemma HoldersCanGo(s: Sys, p: nat)
    requires Inv(s) && p < |s.ts| && Waits(s.ts[p].pc)
    requires forall q :: 0 <= q < |s.ts| ==> s.ts[q].pc.Idle? || Waits(s.ts[q].pc)
    requires HoldsHash(s.ts[p].pc) || forall q :: 0 <= q < |s.ts| ==> !HoldsHash(s.ts[q].pc)
    ensures CanStep(s, p)
  {
    hide Shows, Counts, PcOk;
    AlwaysReaches(s, p);
    forall q | 0 <= q < |s.ts| && q != p
      ensures !Clash(Locked(s.ts[p].pc), s.ts[q].pc)
    {
      InvApart(s, p, q);
      LockOrder(s.ts[q].pc);
      LockOrder(s.ts[p].pc);
    }
  }

  /** As long as some call is under way, some thread can take its next step. */
  lemma NoDeadlock(s: Sys) returns (p: nat)
    requires Inv(s) && exists q :: 0 <= q < |s.ts| && !s.ts[q].pc.Idle?
    ensures CanStep(s, p) && Step(s, p, Advance(s, p)) && Good(s, p, Advance(s, p))
  {
    hide Inv, Waits, CanStep, HoldsHash, Advance, Good;
    if q: nat :| q < |s.ts| && !s.ts[q].pc.Idle? && !Waits(s.ts[q].pc) {
      p := q;
      FreeToGo(s, p);
    } else if q: nat :| q < |s.ts| && HoldsHash(s.ts[q].pc) {
      p := q;
      HashIsBusy(s.ts[p].pc);
      HoldersCanGo(s, p);
    } else {
      p :| p < |s.ts| && !s.ts[p].pc.Idle?;
      HoldersCanGo(s, p);
    }
    CanStepSteps(s, p);
    StepGood(s, p, Advance(s, p));
  }

  lemma HashIsBusy(pc: Pc)
    requires HoldsHash(pc)
    ensures !pc.Idle?
  {
  }

  lemma CanStepSteps(s: Sys, p: nat)
    requires CanStep(s, p)
    ensures Reaches(s, s.ts[p].pc) && Step(s, p, Advance(s, p))
  {
    hide Advance, Granted, Reaches;
  }

  // ---------- The unlink loop ----------

  /** How far the unlink loop still is from the predecessor of its target. */
  ghost function ToGo(s: Sys, pc: Pc): int
    requires pc.ReleWalk? && pc.o in s.heap && |s.table.buckets| == NHASH
    requires pc.o in s.table.buckets[Bucket(s.heap[pc.o].id)]
  {
    IndexOf(s.table.buckets[Bucket(s.heap[pc.o].id)], pc.o) - 1 - pc.pos
  }

  /** The unlink loop always reaches its target: each turn brings it one nearer, and nobody moves the target. */
  lemma UnlinkReaches(s: Sys, p: nat, s': Sys, q: nat)
    requires Inv(s) && Step(s, q, s') && p < |s.ts| && s.ts[p].pc.ReleWalk?
    ensures ToGoDefined(s, s.ts[p].pc) && ToGo(s, s.ts[p].pc) >= 0
    ensures p < |s'.ts|
    ensures q != p ==>
      s'.ts[p].pc == s.ts[p].pc && ToGoDefined(s', s.ts[p].pc) && ToGo(s', s.ts[p].pc) == ToGo(s, s.ts[p].pc)
    ensures q == p && ToGo(s, s.ts[p].pc) == 0 ==> s'.ts[p].pc.ReleCut?
    ensures q == p && ToGo(s, s.ts[p].pc) > 0 ==>
      (s'.ts[p].pc.ReleWalk? && ToGoDefined(s', s'.ts[p].pc) && ToGo(s', s'.ts[p].pc) == ToGo(s, s.ts[p].pc) - 1)
  {
    StepGood(s, q, s');
    WalkAt(s, p);
    GoodInv(s, q, s');
    if q == p {
      WalkTurn(s, p, s');
    } else {
      WalkStays(s, p, s', q);
    }
  }

  ghost predicate ToGoDefined(s: Sys, pc: Pc) {
    pc.ReleWalk? && pc.o in s.heap && |s.table.buckets| == NHASH && pc.o in s.table.buckets[Bucket(s.heap[pc.o].id)]
  }

  lemma WalkAt(s: Sys, p: nat)
    requires Inv(s) && p < |s.ts| && s.ts[p].pc.ReleWalk?
    ensures ToGoDefined(s, s.ts[p].pc) && ToGo(s, s.ts[p].pc) >= 0
  {
    hide Shows, Counts;
    InvAt(s, p);
  }

  lemma WalkTurn(s: Sys, p: nat, s': Sys)
    requires Inv(s) && Step(s, p, s') && p < |s.ts| && s.ts[p].pc.ReleWalk? && ToGoDefined(s, s.ts[p].pc)
    ensures |s'.ts| == |s.ts|
    ensures ToGo(s, s.ts[p].pc) == 0 ==> s'.ts[p].pc.ReleCut?
    ensures ToGo(s, s.ts[p].pc) > 0 ==>
      (s'.ts[p].pc.ReleWalk? && ToGoDefined(s', s'.ts[p].pc) && ToGo(s', s'.ts[p].pc) == ToGo(s, s.ts[p].pc) - 1)
  {
    hide Inv, Shows, Counts, Bucket, Granted;
    InvAt(s, p);
    var pc := s.ts[p].pc;
    var h := Bucket(s.heap[pc.o].id);
    BucketMember(s, h, pc.pos);
    var l := s.table.buckets[h];
    assert Distinct(l) by { DistinctBucket(s, h); }
  }

  lemma DistinctBucket(s: Sys, h: nat)
    requires Shows(s) && h < NHASH
    ensures |s.table.buckets| == NHASH && Distinct(s.table.buckets[h])
  {
    assert BucketOk(s.table, h);
  }

  lemma WalkStays(s: Sys, p: nat, s': Sys, q: nat)
    requires Inv(s) && Inv(s') && Step(s, q, s') && p < |s.ts| && q != p && s.ts[p].pc.ReleWalk? && ToGoDefined(s, s.ts[p].pc)
    ensures p < |s'.ts| && s'.ts[p].pc == s.ts[p].pc
    ensures ToGoDefined(s', s.ts[p].pc) && ToGo(s', s.ts[p].pc) == ToGo(s, s.ts[p].pc)
  {
    hide Inv, Shows, Counts, IndexOf, Bucket, Without, Granted;
    InvApart(s, p, q);
    InvAt(s, p);
    InvAt(s, q);
    Referenced(s, p, s.ts[p].pc.o);
    if Needs(s.ts[q].pc).Some? {
      Referenced(s, q, Needs(s.ts[q].pc).value);
    }
  }
}
