/**
 threads/mutex2.c does what threads/mutex3.c does: every step of every thread keeps the
 invariant, and each call is one operation of the table, taking effect in one of its steps.
 */
module FooRefine {
  import opened Basics
  import opened FooTable
  import opened FooMutex2

  // ---------- What a step is worth ----------

  datatype Status = Out | Called(op: Op) | Done(op: Op, ans: Option<nat>)

  /** How far a call is: called, or already in effect with its answer. */
  ghost function StatusOf(pc: Pc): Status {
    match pc
    case Idle => Out
    case AllocLock(id, _) => Called(AllocOp(id))
    case AllocNext(id, _) => Called(AllocOp(id))
    case AllocHead(id, _) => Called(AllocOp(id))
    case AllocFlock(id, o) => Done(AllocOp(id), Some(o))
    case AllocUnhash(id, o) => Done(AllocOp(id), Some(o))
    case AllocDone(id, o) => Done(AllocOp(id), Some(o))
    case HoldLock(o) => Called(HoldOp(o))
    case HoldInc(o) => Called(HoldOp(o))
    case HoldUnlock(o) => Done(HoldOp(o), None)
    case FindLock(id) => Called(FindOp(id))
    case FindHead(id) => Called(FindOp(id))
    case FindLook(id, _, _) => Called(FindOp(id))
    case FindFlock(id, _, _) => Called(FindOp(id))
    case FindInc(id, _, _) => Called(FindOp(id))
    case FindFunlock(id, o) => Done(FindOp(id), Some(o))
    case FindUnlock(id, res) => Done(FindOp(id), res)
    case ReleLock(o) => Called(ReleOp(o))
    case ReleTest(o) => Called(ReleOp(o))
    case ReleDec(o) => Called(ReleOp(o))
    case ReleDrop(o) => Called(ReleOp(o))
    case ReleHash(o) => Called(ReleOp(o))
    case ReleFlock(o) => Called(ReleOp(o))
    case ReleRecheck(o) => Called(ReleOp(o))
    case ReleDec2(o) => Called(ReleOp(o))
    case ReleHead(o) => Called(ReleOp(o))
    case ReleWalk(o, _, _) => Called(ReleOp(o))
    case ReleCutHead(o) => Called(ReleOp(o))
    case ReleCut(o, _) => Called(ReleOp(o))
    case ReleUnlock(o) => Done(ReleOp(o), None)
    case ReleFun2(o) => Done(ReleOp(o), None)
    case ReleHun2(o) => Done(ReleOp(o), None)
    case ReleUnhash(o) => Done(ReleOp(o), None)
    case ReleFunlock(o) => Done(ReleOp(o), None)
    case ReleFree(o) => Done(ReleOp(o), None)
  }

  /** An operation of the one-lock version, from lock to unlock, and what it returns. */
  ghost predicate Atomic(t: Table<nat>, op: Op, t': Table<nat>, ans: Option<nat>) {
    && |t.buckets| == NHASH
    && match op
       case AllocOp(id) => ans.Some? && ans.value !in t.objs && t' == Alloc(t, ans.value, id)
       case HoldOp(o) => o in t.objs && t' == Hold(t, o)
       case FindOp(id) => ans == Found(t, id) && t' == Find(t, id)
       case ReleOp(o) => o in t.objs && t' == Rele(t, o)
  }

  ghost predicate Effect(t: Table<nat>, st: Status, t': Table<nat>, st': Status) {
    || (t' == t && st' == st)
    || (t' == t && st.Out? && st'.Called?)
    || (st.Called? && st'.Done? && st'.op == st.op && Atomic(t, st.op, t', st'.ans))
    || (t' == t && st.Done? && st'.Out?)
  }

  ghost predicate Good(s: Sys, p: nat, s': Sys) {
    && p < |s.ts| == |s'.ts|
    && Inv(s')
    && (forall q :: 0 <= q < |s.ts| && q != p ==> s'.ts[q].pc == s.ts[q].pc)
    && Effect(s.table, StatusOf(s.ts[p].pc), s'.table, StatusOf(s'.ts[p].pc))
  }

  // ---------- References ----------

  lemma {:induction false} RefsUpdate(ts: seq<Thread>, p: nat, x: Thread, o: nat)
    requires p < |ts|
    ensures Refs(ts[p := x], o) == Refs(ts, o) - ts[p].refs[o] + x.refs[o]
    ensures Refs(ts, o) >= ts[p].refs[o]
  {
    var n := |ts| - 1;
    if p < n {
      RefsUpdate(ts[..n], p, x, o);
      assert ts[p := x][..n] == ts[..n][p := x];
    } else {
      assert ts[p := x][..n] == ts[..n];
    }
  }

  /** Two threads with a reference each are two references. */
  lemma RefsOfTwo(ts: seq<Thread>, p: nat, q: nat, o: nat)
    requires p < |ts| && q < |ts| && p != q && o in ts[p].refs && o in ts[q].refs
    ensures Refs(ts, o) >= 2
  {
    var x := ts[p].(refs := multiset{});
    RefsUpdate(ts, p, x, o);
    RefsUpdate(ts[p := x], q, x, o);
  }

  lemma {:induction false} RefsNone(ts: seq<Thread>, o: nat)
    requires forall p :: 0 <= p < |ts| ==> o !in ts[p].refs
    ensures Refs(ts, o) == 0
  {
    if ts != [] {
      RefsNone(ts[..|ts| - 1], o);
    }
  }

  /** Counts stays true when a thread gains or drops references to one object and its count follows. */
  lemma CountsFrom(s: Sys, s': Sys, p: nat, o: nat, x: Thread)
    requires Counts(s) && p < |s.ts| && s'.ts == s.ts[p := x]
    requires forall k :: k != o ==> x.refs[k] == s.ts[p].refs[k]
    requires forall k :: k != o ==> (k in s'.table.objs <==> k in s.table.objs)
    requires forall k :: k != o && k in s.table.objs ==> s'.table.objs[k].count == s.table.objs[k].count
    requires o in s'.table.objs ==> s'.table.objs[o].count == Refs(s.ts, o) - s.ts[p].refs[o] + x.refs[o]
    requires o !in s'.table.objs ==> Refs(s.ts, o) - s.ts[p].refs[o] + x.refs[o] == 0
    ensures Counts(s')
  {
    forall k | k in s'.table.objs
      ensures s'.table.objs[k].count == Refs(s'.ts, k)
    {
      RefsUpdate(s.ts, p, x, k);
    }
    forall q, k | 0 <= q < |s'.ts| && k in s'.ts[q].refs
      ensures k in s'.table.objs
    {
      RefsUpdate(s.ts, p, x, k);
      RefsUpdate(s'.ts, q, x, k);
      if k != o {
        assert k in s.ts[q].refs;
      }
    }
  }

  // ---------- Frames ----------

  /** What a thread relies on between its steps is as it was. */
  ghost predicate Undisturbed(s: Sys, s': Sys, pc: Pc) {
    && (Owns(pc).Some? ==> Untouched(s, s', Owns(pc).value))
    && (HoldsF(pc).Some? ==> CountKept(s, s', HoldsF(pc).value))
    && (HoldsHash(pc) ==> BucketsKept(s, s'))
  }

  ghost predicate Untouched(s: Sys, s': Sys, o: nat) {
    o in s.heap && o !in s.table.objs ==> o in s'.heap && s'.heap[o] == s.heap[o] && o !in s'.table.objs
  }

  ghost predicate CountKept(s: Sys, s': Sys, o: nat) {
    o in s.heap && o in s.table.objs ==>
      && o in s'.heap && o in s'.table.objs
      && s'.heap[o].id == s.heap[o].id && s'.heap[o].count == s.heap[o].count
  }

  ghost predicate BucketsKept(s: Sys, s': Sys) {
    && s'.fh == s.fh && s'.table.buckets == s.table.buckets
    && forall k :: k in s.table.objs ==>
         && k in s'.table.objs && s'.table.objs[k].id == s.table.objs[k].id
         && (k in s.heap ==> k in s'.heap && s'.heap[k].id == s.heap[k].id && s'.heap[k].next == s.heap[k].next)
  }

  lemma PcFrame(s: Sys, s': Sys, x: Thread, x': Thread)
    requires PcOk(s, x) && Undisturbed(s, s', x.pc)
    requires x'.pc == x.pc && x.refs <= x'.refs
    ensures PcOk(s', x')
  {
  }

  lemma InvAt(s: Sys, p: nat)
    requires Inv(s) && p < |s.ts|
    ensures Shows(s) && Counts(s) && PcOk(s, s.ts[p])
  {
  }

  lemma InvApart(s: Sys, p: nat, q: nat)
    requires Inv(s) && p < |s.ts| && q < |s.ts| && p != q
    ensures Apart(s.ts[p].pc, s.ts[q].pc)
  {
  }

  /** Everything but what the step did to the invariant's parts is frame. */
  lemma InvFrom(s: Sys, s': Sys, p: nat, x: Thread)
    requires Inv(s) && p < |s.ts| && s'.ts == s.ts[p := x]
    requires Shows(s') && Counts(s') && PcOk(s', x)
    requires forall q :: 0 <= q < |s.ts| && q != p ==> Undisturbed(s, s', s.ts[q].pc) && Apart(x.pc, s.ts[q].pc)
    ensures Inv(s')
  {
    hide Shows, Counts, PcOk, Undisturbed;
    forall q | 0 <= q < |s.ts|
      ensures PcOk(s', s'.ts[q])
    {
      if q != p {
        PcFrame(s, s', s.ts[q], s.ts[q]);
      }
    }
  }

  /** Following the flow of one call, a thread takes no lock and claims no object it was not granted. */
  ghost predicate Follows(a: Pc, a': Pc) {
    && (HoldsHash(a') ==> HoldsHash(Locked(a)))
    && (HoldsF(a').Some? ==> HoldsF(a') == HoldsF(Locked(a)))
    && (Owns(a').Some? ==> Owns(a') == Owns(a))
    && (Window(a').Some? ==> Window(a') == Window(a))
  }

  lemma ApartFollows(s: Sys, p: nat, q: nat, a': Pc)
    requires Inv(s) && p < |s.ts| && q < |s.ts| && p != q && Granted(s.ts, p) && Follows(s.ts[p].pc, a')
    ensures Apart(a', s.ts[q].pc)
  {
    hide Shows, Counts, PcOk;
    InvApart(s, p, q);
    assert !Clash(Locked(s.ts[p].pc), s.ts[q].pc);
  }

  // ---------- Steps that change only the program counter ----------

  lemma QuietGood(s: Sys, p: nat, pc: Pc)
    requires Inv(s) && p < |s.ts| && PcOk(s, s.ts[p].(pc := pc))
    requires forall q :: 0 <= q < |s.ts| && q != p ==> Apart(pc, s.ts[q].pc)
    requires Effect(s.table, StatusOf(s.ts[p].pc), s.table, StatusOf(pc))
    ensures Good(s, p, Goto(s, p, pc))
  {
    hide Apart, StatusOf, Effect, TableOk;
    var s' := Goto(s, p, pc);
    var x := s.ts[p].(pc := pc);
    assert Counts(s') by {
      CountsFrom(s, s', p, 0, x) by {
        if 0 in s.table.objs {} else {
          NoRefs(s, 0);
        }
      }
    }
    assert PcOk(s', x) by {
      hide Inv;
      PcFrame(s, s', x, x);
    }
    InvFrom(s, s', p, x);
  }

  lemma NoRefs(s: Sys, o: nat)
    requires Counts(s) && o !in s.table.objs
    ensures Refs(s.ts, o) == 0
    ensures forall p :: 0 <= p < |s.ts| ==> s.ts[p].refs[o] == 0
  {
    RefsNone(s.ts, o);
  }

  predicate Quiet(pc: Pc) {
    && !pc.Idle? && !pc.AllocNext? && !pc.AllocHead? && !pc.HoldInc? && !pc.FindInc?
    && !pc.ReleDec? && !pc.ReleDec2? && !pc.ReleCutHead? && !pc.ReleCut? && !pc.ReleFree?
  }

  /** An object of the table is in memory as the table has it. */
  lemma Shown(s: Sys, o: nat)
    requires Shows(s) && o in s.table.objs
    ensures o in s.heap && s.heap[o] == Cell(s.table.objs[o].id, s.table.objs[o].count, Next(s.table, o))
    ensures s.table.objs[o].count > 0 && |s.table.buckets| == NHASH && o in s.table.buckets[Bucket(s.table.objs[o].id)]
  {
  }

  lemma Referenced(s: Sys, p: nat, o: nat)
    requires Shows(s) && Counts(s) && p < |s.ts| && o in s.ts[p].refs
    ensures o in s.table.objs && o in s.heap && s.heap[o].count == Refs(s.ts, o) == s.table.objs[o].count
    ensures s.heap[o].id == s.table.objs[o].id && s.heap[o].next == Next(s.table, o)
    ensures s.heap[o].count >= s.ts[p].refs[o]
  {
    RefsUpdate(s.ts, p, s.ts[p], o);
  }

  /** No thread is ever led to freed memory or a null pointer. */
  lemma AlwaysReaches(s: Sys, p: nat)
    requires Inv(s) && p < |s.ts|
    ensures Reaches(s, s.ts[p].pc)
  {
    hide Counts, Shows, Next;
    InvAt(s, p);
    ShowsSizes(s);
    var x := s.ts[p];
    if Needs(x.pc).Some? {
      Referenced(s, p, Needs(x.pc).value);
    }
    match x.pc {
      case FindLook(id, fp, pos) =>
        if fp.Some? {
          BucketMember(s, Bucket(id), pos);
        }
      case FindFlock(_, o, _) => Shown(s, o);
      case FindInc(_, o, _) => Shown(s, o);
      case ReleHead(o) => Shown(s, o);
      case ReleWalk(o, tfp, pos) => BucketMember(s, Bucket(s.heap[o].id), pos);
      case _ =>
    }
  }

  lemma ShowsSizes(s: Sys)
    requires Shows(s)
    ensures |s.fh| == NHASH && |s.table.buckets| == NHASH
    ensures forall h :: 0 <= h < NHASH ==> s.fh[h] == First(s.table.buckets[h])
  {
  }

  lemma BucketMember(s: Sys, h: nat, pos: nat)
    requires Shows(s) && h < NHASH && |s.table.buckets| == NHASH && pos < |s.table.buckets[h]|
    ensures var o := s.table.buckets[h][pos];
      && o in s.table.objs && o in s.heap && s.heap[o].next == Following(s.table.buckets[h], pos)
      && s.heap[o].id == s.table.objs[o].id && Bucket(s.heap[o].id) == h
  {
    NextInBucket(s.table, h, pos);
    assert BucketOk(s.table, h);
  }

  // ---------- The find loop ----------

  lemma FindLooks(s: Sys, p: nat)
    requires Inv(s) && p < |s.ts| && s.ts[p].pc.FindLook? && Granted(s.ts, p)
    ensures Reaches(s, s.ts[p].pc) && Good(s, p, Advance(s, p))
  {
    hide Counts, Shows, Next, Good, Apart, Granted, Refs, Inv;
    AlwaysReaches(s, p);
    InvAt(s, p);
    ShowsSizes(s);
    var x := s.ts[p];
    var id, fp, pos := x.pc.id, x.pc.fp, x.pc.pos;
    var l := s.table.buckets[Bucket(id)];
    var pc := Advance(s, p).ts[p].pc;
    FirstWithIs(s.table, l, id, pos);
    if fp.Some? {
      BucketMember(s, Bucket(id), pos);
    }
    assert PcOk(s, x.(pc := pc));
    forall q | 0 <= q < |s.ts| && q != p
      ensures Apart(pc, s.ts[q].pc)
    {
      ApartFollows(s, p, q, pc);
    }
    QuietGood(s, p, pc);
  }

  // ---------- The unlink loop ----------

  /** Before the loop, the head of the bucket is the object or stands in front of it. */
  lemma HeadLooks(s: Sys, p: nat)
    requires Inv(s) && p < |s.ts| && s.ts[p].pc.ReleHead? && Reaches(s, s.ts[p].pc)
    ensures PcOk(s, Advance(s, p).ts[p])
  {
    hide Inv, Counts, Shows, Next, Refs;
    InvAt(s, p);
    ShowsSizes(s);
    Referenced(s, p, s.ts[p].pc.o);
    Shown(s, s.ts[p].pc.o);
  }

  /** The loop moves towards the object and stops at its predecessor. */
  lemma WalkMoves(s: Sys, p: nat)
    requires Inv(s) && p < |s.ts| && s.ts[p].pc.ReleWalk? && Reaches(s, s.ts[p].pc)
    ensures PcOk(s, Advance(s, p).ts[p])
    ensures Advance(s, p).ts[p].pc.ReleCut? || Advance(s, p).ts[p].pc.ReleWalk?
  {
    hide Inv, Counts, Shows, Next, Refs;
    InvAt(s, p);
    ShowsSizes(s);
    var o, pos := s.ts[p].pc.o, s.ts[p].pc.pos;
    var l := s.table.buckets[Bucket(s.heap[o].id)];
    BucketMember(s, Bucket(s.heap[o].id), pos);
    assert l[IndexOf(l, o)] == o;
    if l[pos + 1] != o {
      BucketMember(s, Bucket(s.heap[o].id), pos + 1);
    }
  }

  // ---------- The other quiet steps ----------

  lemma QuietNext(s: Sys, p: nat)
    requires Inv(s) && p < |s.ts| && Quiet(s.ts[p].pc) && Reaches(s, s.ts[p].pc)
    requires !s.ts[p].pc.FindLook? && !s.ts[p].pc.ReleHead? && !s.ts[p].pc.ReleWalk?
    ensures PcOk(s, Advance(s, p).ts[p])
  {
    hide Inv, Counts, Shows, Next, Refs, IndexOf;
    InvAt(s, p);
    ShowsSizes(s);
    if Needs(s.ts[p].pc).Some? {
      Referenced(s, p, Needs(s.ts[p].pc).value);
    }
    if s.ts[p].pc.FindFlock? {
      Shown(s, s.ts[p].pc.o);
    }
  }

  /** A quiet step other than those of the find loop only moves the call along. */
  lemma QuietMoves(s: Sys, p: nat)
    requires p < |s.ts| && Quiet(s.ts[p].pc) && !s.ts[p].pc.FindLook? && Reaches(s, s.ts[p].pc)
    ensures Advance(s, p) == Goto(s, p, Advance(s, p).ts[p].pc)
    ensures Effect(s.table, StatusOf(s.ts[p].pc), s.table, StatusOf(Advance(s, p).ts[p].pc))
    ensures Follows(s.ts[p].pc, Advance(s, p).ts[p].pc) || s.ts[p].pc.ReleTest?
    ensures Advance(s, p).ts[p].pc.ReleDrop? ==> s.ts[p].pc.ReleTest? && s.heap[s.ts[p].pc.o].count == 1
  {
    hide Atomic, Bucket;
  }

  /** The thread that sees the last reference is the only one on its way out with the object. */
  lemma WindowIsFree(s: Sys, p: nat, q: nat, pc: Pc)
    requires Inv(s) && p < |s.ts| && q < |s.ts| && p != q && Granted(s.ts, p)
    requires s.ts[p].pc.ReleTest? && Reaches(s, s.ts[p].pc) && pc == Advance(s, p).ts[p].pc
    ensures Apart(pc, s.ts[q].pc)
  {
    hide Inv, Counts, Shows, Refs;
    InvApart(s, p, q);
    InvAt(s, p);
    InvAt(s, q);
    var o := s.ts[p].pc.o;
    Referenced(s, p, o);
    if pc.ReleDrop? && Window(s.ts[q].pc) == Some(o) {
      RefsOfTwo(s.ts, p, q, o);
    }
  }

  lemma QuietStepGood(s: Sys, p: nat)
    requires Inv(s) && p < |s.ts| && Quiet(s.ts[p].pc) && Granted(s.ts, p)
    ensures Reaches(s, s.ts[p].pc) && Good(s, p, Advance(s, p))
  {
    hide Inv, PcOk, Good, Apart, Granted, Effect, Follows;
    AlwaysReaches(s, p);
    if s.ts[p].pc.FindLook? {
      FindLooks(s, p);
    } else {
      var pc := Advance(s, p).ts[p].pc;
      QuietMoves(s, p);
      hide Reaches, Advance;
      if s.ts[p].pc.ReleHead? {
        HeadLooks(s, p);
      } else if s.ts[p].pc.ReleWalk? {
        WalkMoves(s, p);
      } else {
        QuietNext(s, p);
      }
      forall q | 0 <= q < |s.ts| && q != p
        ensures Apart(pc, s.ts[q].pc)
      {
        if s.ts[p].pc.ReleTest? {
          WindowIsFree(s, p, q, pc);
        } else {
          ApartFollows(s, p, q, pc);
        }
      }
      QuietGood(s, p, pc);
    }
  }
}
