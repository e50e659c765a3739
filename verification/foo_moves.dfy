/**
 The steps of threads/mutex2.c that write shared memory, start a call or hand a reference over:
 each keeps the invariant, and those on which a call takes effect do what the table does.
 */
module FooMoves {
  import opened Basics
  import opened FooTable
  import opened FooMutex2
  import opened FooRefine

  // ---------- Memory that one thread has to itself ----------

  /** A write to an object not in the table disturbs nobody who does not own it. */
  ghost predicate Private(s: Sys, s': Sys, o: nat) {
    && s'.fh == s.fh && s'.table == s.table && o !in s.table.objs
    && forall k :: k != o ==> (k in s.heap <==> k in s'.heap) && (k in s.heap ==> s'.heap[k] == s.heap[k])
  }

  lemma PrivateGood(s: Sys, s': Sys, p: nat, o: nat, pc: Pc)
    requires Inv(s) && p < |s.ts| && Private(s, s', o)
    requires s'.ts == s.ts[p := s.ts[p].(pc := pc)] && PcOk(s', s'.ts[p])
    requires forall q :: 0 <= q < |s.ts| && q != p ==> Owns(s.ts[q].pc) != Some(o) && Apart(pc, s.ts[q].pc)
    requires Effect(s.table, StatusOf(s.ts[p].pc), s.table, StatusOf(pc))
    ensures Good(s, p, s')
  {
    hide TableOk, Next, First, Apart, PcOk, Owns, HoldsF, Effect, StatusOf, HoldsHash;
    if o in s.table.objs {} else {
      NoRefs(s, o);
    }
    CountsFrom(s, s', p, o, s'.ts[p]);
    InvFrom(s, s', p, s'.ts[p]);
  }

  lemma AllocNextGood(s: Sys, p: nat)
    requires Inv(s) && p < |s.ts| && s.ts[p].pc.AllocNext? && Granted(s.ts, p)
    ensures Reaches(s, s.ts[p].pc) && Good(s, p, Advance(s, p))
  {
    hide Inv, Good, Apart, Granted, Shows, Counts, Effect;
    AlwaysReaches(s, p);
    InvAt(s, p);
    var s' := Advance(s, p);
    var pc := s'.ts[p].pc;
    forall q | 0 <= q < |s.ts| && q != p
      ensures Owns(s.ts[q].pc) != Some(pc.o) && Apart(pc, s.ts[q].pc)
    {
      ApartFollows(s, p, q, pc);
      OwnsApart(pc, s.ts[q].pc);
    }
    EffectSame(s.table, s.ts[p].pc, pc);
    PrivateGood(s, s', p, pc.o, pc);
  }

  lemma OwnsApart(a: Pc, b: Pc)
    requires Apart(a, b)
    ensures Owns(a).Some? ==> Owns(a) != Owns(b)
  {
  }

  lemma EffectSame(t: Table<nat>, a: Pc, b: Pc)
    requires StatusOf(a) == StatusOf(b) || (StatusOf(a).Done? && b.Idle?) || (a.Idle? && StatusOf(b).Called?)
    ensures Effect(t, StatusOf(a), t, StatusOf(b))
  {
    hide Atomic;
  }

  lemma FreeGood(s: Sys, p: nat)
    requires Inv(s) && p < |s.ts| && s.ts[p].pc.ReleFree? && Granted(s.ts, p)
    ensures Reaches(s, s.ts[p].pc) && Good(s, p, Advance(s, p))
  {
    hide Inv, Good, Apart, Granted, Shows, Counts, Effect;
    AlwaysReaches(s, p);
    InvAt(s, p);
    var s' := Advance(s, p);
    forall q | 0 <= q < |s.ts| && q != p
      ensures Owns(s.ts[q].pc) != Some(s.ts[p].pc.o) && Apart(Idle, s.ts[q].pc)
    {
      ApartFollows(s, p, q, Idle);
      InvApart(s, p, q);
      OwnsApart(s.ts[p].pc, s.ts[q].pc);
    }
    EffectSame(s.table, s.ts[p].pc, Idle);
    PrivateGood(s, s', p, s.ts[p].pc.o, Idle);
  }

  // ---------- Starting a call ----------

  lemma BeginGood(s: Sys, p: nat, op: Op, o: nat, s': Sys)
    requires Inv(s) && p < |s.ts| && s.ts[p].pc.Idle? && Begins(s, p, op, o, s')
    ensures Good(s, p, s')
  {
    hide Inv, Good, Apart, Shows, Counts, Effect, Refs;
    InvAt(s, p);
    var pc := s'.ts[p].pc;
    forall q | 0 <= q < |s.ts| && q != p
      ensures Apart(pc, s.ts[q].pc) && (op.AllocOp? ==> Owns(s.ts[q].pc) != Some(o))
    {
      InvApart(s, p, q);
      InvAt(s, q);
      BeginApart(pc, s.ts[q].pc);
    }
    EffectSame(s.table, Idle, pc);
    if op.AllocOp? {
      if o in s.table.objs {
        Shown(s, o);
      }
      PrivateGood(s, s', p, o, pc);
    } else {
      QuietGood(s, p, pc);
    }
  }

  lemma BeginApart(a: Pc, b: Pc)
    requires a.AllocLock? || a.HoldLock? || a.FindLock? || a.ReleLock?
    requires a.AllocLock? ==> Owns(b) != Some(a.o)
    ensures Apart(a, b)
  {
  }

  // ---------- Handing a reference over ----------

  lemma GiveGood(s: Sys, p: nat, q: nat, o: nat, s': Sys)
    requires Inv(s) && p < |s.ts| && s.ts[p].pc.Idle? && Gives(s, p, q, o, s')
    ensures Good(s, p, s')
  {
    hide Inv, Shows, TableOk, Apart;
    InvAt(s, p);
    var x, y := s'.ts[p], s'.ts[q];
    forall k
      ensures Refs(s'.ts, k) == Refs(s.ts, k)
    {
      RefsUpdate(s.ts, p, x, k);
      RefsUpdate(s.ts[p := x], q, y, k);
    }
    assert Counts(s') by {
      forall r, k | 0 <= r < |s'.ts| && k in s'.ts[r].refs
        ensures k in s'.table.objs
      {
        assert k in s.ts[r].refs || k in s.ts[p].refs;
      }
    }
    assert Shows(s') by { GiveShows(s, s'); }
    GivePcs(s, p, q, o, s');
    hide Counts, Refs, StatusOf, Effect;
    assert Inv(s') by { GiveInv(s, p, q, o, s'); }
    assert Effect(s.table, Out, s'.table, Out) by { EffectSame(s.table, Idle, Idle); }
  }

  lemma GiveShows(s: Sys, s': Sys)
    requires Shows(s) && s'.heap == s.heap && s'.fh == s.fh && s'.table == s.table
    ensures Shows(s')
  {
    hide TableOk;
  }

  lemma GivePcs(s: Sys, p: nat, q: nat, o: nat, s': Sys)
    requires Inv(s) && p < |s.ts| && s.ts[p].pc.Idle? && Gives(s, p, q, o, s')
    ensures forall r :: 0 <= r < |s.ts| ==> PcOk(s', s'.ts[r])
  {
    hide Inv, Shows, Counts;
    forall r | 0 <= r < |s.ts|
      ensures PcOk(s', s'.ts[r])
    {
      InvAt(s, r);
      if r != p {
        assert s.ts[r].refs <= s'.ts[r].refs;
        PcFrame(s, s', s.ts[r], s'.ts[r]);
      }
    }
  }

  lemma GiveInv(s: Sys, p: nat, q: nat, o: nat, s': Sys)
    requires Inv(s) && p < |s.ts| && Gives(s, p, q, o, s')
    requires Shows(s') && Counts(s') && forall r :: 0 <= r < |s.ts| ==> PcOk(s', s'.ts[r])
    ensures Inv(s')
  {
    hide Shows, Counts, PcOk, Apart;
  }

  // ---------- Counting ----------

  /** Object o of the table has its count changed by delta, in memory and in the table. */
  ghost predicate Recounts(s: Sys, s': Sys, o: nat, delta: int) {
    && o in s.heap && o in s.table.objs && s.table.objs[o].count + delta > 0
    && s'.heap == Counted(s.heap, o, delta) && s'.fh == s.fh
    && s'.table == s.table.(objs := s.table.objs[o := Obj(s.table.objs[o].id, s.table.objs[o].count + delta)])
  }

  lemma RecountShows(s: Sys, s': Sys, o: nat, delta: int)
    requires Shows(s) && Recounts(s, s', o, delta)
    ensures Shows(s')
  {
    var t, t' := s.table, s'.table;
    forall h | 0 <= h < NHASH
      ensures BucketOk(t', h)
    {
      assert BucketOk(t, h);
    }
    hide IndexOf, Bucket;
    forall k | k in t'.objs
      ensures k in s'.heap && s'.heap[k] == Cell(t'.objs[k].id, t'.objs[k].count, Next(t', k))
    {
      Shown(s, k);
    }
  }

  lemma RecountGood(s: Sys, s': Sys, p: nat, o: nat, delta: int, x: Thread)
    requires Inv(s) && p < |s.ts| && Recounts(s, s', o, delta) && Granted(s.ts, p)
    requires Reaches(s, s.ts[p].pc) && HoldsF(s.ts[p].pc) == Some(o)
    requires s'.ts == s.ts[p := x] && Follows(s.ts[p].pc, x.pc) && PcOk(s', x)
    requires forall k :: k != o ==> x.refs[k] == s.ts[p].refs[k]
    requires x.refs[o] == s.ts[p].refs[o] + delta
    requires Effect(s.table, StatusOf(s.ts[p].pc), s'.table, StatusOf(x.pc))
    ensures Good(s, p, s')
  {
    hide Inv, Apart, PcOk, Follows, Reaches, Effect, StatusOf, Shows, Granted, Owns, HoldsHash;
    InvAt(s, p);
    RecountShows(s, s', o, delta);
    hide TableOk;
    CountsFrom(s, s', p, o, x);
    forall q | 0 <= q < |s.ts| && q != p
      ensures Undisturbed(s, s', s.ts[q].pc) && Apart(x.pc, s.ts[q].pc)
    {
      ApartFollows(s, p, q, x.pc);
      InvApart(s, p, q);
      LockApart(s.ts[p].pc, s.ts[q].pc);
    }
    hide Undisturbed, Counts;
    InvFrom(s, s', p, x);
  }

  lemma LockApart(a: Pc, b: Pc)
    requires Apart(a, b)
    ensures HoldsF(a).Some? ==> HoldsF(a) != HoldsF(b)
    ensures HoldsHash(a) ==> !HoldsHash(b)
  {
  }

  lemma HoldGood(s: Sys, p: nat)
    requires Inv(s) && p < |s.ts| && (s.ts[p].pc.HoldInc? || s.ts[p].pc.FindInc?) && Granted(s.ts, p)
    ensures Reaches(s, s.ts[p].pc) && Good(s, p, Advance(s, p))
  {
    hide Inv, Good, Granted, Reaches, Advance;
    if s.ts[p].pc.HoldInc? {
      HoldIncGood(s, p);
    } else {
      FindIncGood(s, p);
    }
  }

  lemma HoldIncGood(s: Sys, p: nat)
    requires Inv(s) && p < |s.ts| && s.ts[p].pc.HoldInc? && Granted(s.ts, p)
    ensures Reaches(s, s.ts[p].pc) && Good(s, p, Advance(s, p))
  {
    hide Inv, Good, Granted, Shows, Counts, Next, Bucket, IndexOf;
    AlwaysReaches(s, p);
    InvAt(s, p);
    var o, s' := s.ts[p].pc.o, Advance(s, p);
    Shown(s, o);
    RecountGood(s, s', p, o, 1, s'.ts[p]);
  }

  lemma FindIncGood(s: Sys, p: nat)
    requires Inv(s) && p < |s.ts| && s.ts[p].pc.FindInc? && Granted(s.ts, p)
    ensures Reaches(s, s.ts[p].pc) && Good(s, p, Advance(s, p))
  {
    hide Inv, Good, Granted, Shows, Counts, Next, Bucket, IndexOf;
    AlwaysReaches(s, p);
    InvAt(s, p);
    var o, s' := s.ts[p].pc.o, Advance(s, p);
    Shown(s, o);
    FirstWithIs(s.table, s.table.buckets[Bucket(s.ts[p].pc.id)], s.ts[p].pc.id, s.ts[p].pc.pos);
    hide FirstWith;
    RecountGood(s, s', p, o, 1, s'.ts[p]);
  }

  lemma ReleDecGood(s: Sys, p: nat)
    requires Inv(s) && p < |s.ts| && (s.ts[p].pc.ReleDec? || s.ts[p].pc.ReleDec2?) && Granted(s.ts, p)
    ensures Reaches(s, s.ts[p].pc) && Good(s, p, Advance(s, p))
  {
    hide Inv, Good, Granted, Reaches, Advance;
    if s.ts[p].pc.ReleDec? {
      DecGood(s, p);
    } else {
      Dec2Good(s, p);
    }
  }

  lemma DecGood(s: Sys, p: nat)
    requires Inv(s) && p < |s.ts| && s.ts[p].pc.ReleDec? && Granted(s.ts, p)
    ensures Reaches(s, s.ts[p].pc) && Good(s, p, Advance(s, p))
  {
    hide Inv, Good, Granted, Shows, Counts, Next, Bucket, IndexOf;
    AlwaysReaches(s, p);
    InvAt(s, p);
    var o, s' := s.ts[p].pc.o, Advance(s, p);
    Shown(s, o);
    RecountGood(s, s', p, o, -1, s'.ts[p]);
  }

  lemma Dec2Good(s: Sys, p: nat)
    requires Inv(s) && p < |s.ts| && s.ts[p].pc.ReleDec2? && Granted(s.ts, p)
    ensures Reaches(s, s.ts[p].pc) && Good(s, p, Advance(s, p))
  {
    hide Inv, Good, Granted, Shows, Counts, Next, Bucket, IndexOf;
    AlwaysReaches(s, p);
    InvAt(s, p);
    var o, s' := s.ts[p].pc.o, Advance(s, p);
    Shown(s, o);
    RecountGood(s, s', p, o, -1, s'.ts[p]);
  }

  // ---------- Into the table ----------

  lemma AllocShows(s: Sys, s': Sys, o: nat, id: int)
    requires Shows(s) && o !in s.table.objs && o in s.heap && s.heap[o] == Cell(id, 1, s.fh[Bucket(id)])
    requires s'.heap == s.heap && s'.fh == s.fh[Bucket(id) := Some(o)] && s'.table == Alloc(s.table, o, id)
    ensures Shows(s')
  {
    AllocKeeps(s.table, o, id);
    AllocLinks(s.table, o, id);
    hide TableOk, Next;
    forall k | k in s'.table.objs
      ensures k in s'.heap && s'.heap[k] == Cell(s'.table.objs[k].id, s'.table.objs[k].count, Next(s'.table, k))
    {
      if k != o {
        Shown(s, k);
      }
    }
  }

  lemma AllocHeadGood(s: Sys, p: nat)
    requires Inv(s) && p < |s.ts| && s.ts[p].pc.AllocHead? && Granted(s.ts, p)
    ensures Reaches(s, s.ts[p].pc) && Good(s, p, Advance(s, p))
  {
    hide Inv, Granted, Shows, Apart, Bucket, TableOk;
    AlwaysReaches(s, p);
    InvAt(s, p);
    ShowsSizes(s);
    var o, id, s' := s.ts[p].pc.o, s.ts[p].pc.id, Advance(s, p);
    var x := s'.ts[p];
    AllocShows(s, s', o, id);
    NoRefs(s, o);
    hide Refs;
    CountsFrom(s, s', p, o, x);
    hide Counts;
    assert PcOk(s', x);
    forall q | 0 <= q < |s.ts| && q != p
      ensures Undisturbed(s, s', s.ts[q].pc) && Apart(x.pc, s.ts[q].pc)
    {
      ApartFollows(s, p, q, x.pc);
      InvApart(s, p, q);
      LockApart(s.ts[p].pc, s.ts[q].pc);
      OwnsApart(s.ts[p].pc, s.ts[q].pc);
    }
    InvFrom(s, s', p, x);
  }

  // ---------- Out of the table ----------

  /** The pointer in front of the object is led past it: the head of its bucket, or its predecessor's. */
  ghost predicate CutsOut(s: Sys, s': Sys, o: nat, tfp: Option<nat>) {
    && o in s.heap && |s.fh| == NHASH
    && match tfp
       case None =>
         var h := Bucket(s.heap[o].id);
         s.fh[h] == Some(o) && s'.fh == s.fh[h := s.heap[o].next] && s'.heap == s.heap
       case Some(k) =>
         && k in s.table.objs && k in s.heap && s.heap[k].next == Some(o)
         && s'.fh == s.fh && s'.heap == s.heap[k := s.heap[k].(next := s.heap[o].next)]
  }

  lemma CutShows(s: Sys, s': Sys, o: nat, tfp: Option<nat>)
    requires Shows(s) && o in s.table.objs && s.table.objs[o].count == 1 && CutsOut(s, s', o, tfp)
    requires |s.table.buckets| == NHASH && s'.table == Rele(s.table, o)
    ensures Shows(s')
  {
    hide TableOk, Next, Rele, IndexOf, Bucket, First, CutsOut;
    ShowsSizes(s);
    CutHeads(s, s', o, tfp);
    forall k | k in s'.table.objs
      ensures k in s'.heap && s'.heap[k] == Cell(s'.table.objs[k].id, s'.table.objs[k].count, Next(s'.table, k))
    {
      CutCell(s, s', o, tfp, k);
    }
  }

  lemma CutHeads(s: Sys, s': Sys, o: nat, tfp: Option<nat>)
    requires Shows(s) && o in s.table.objs && s.table.objs[o].count == 1 && CutsOut(s, s', o, tfp)
    requires |s.table.buckets| == NHASH && s'.table == Rele(s.table, o)
    ensures TableOk(s'.table) && |s'.fh| == NHASH && forall h :: 0 <= h < NHASH ==> s'.fh[h] == First(s'.table.buckets[h])
  {
    var t := s.table;
    Shown(s, o);
    ReleKeeps(t, o);
    ReleLinks(t, o);
    OnlyPredecessor(t, o, Bucket(t.objs[o].id), IndexOf(t.buckets[Bucket(t.objs[o].id)], o));
    hide TableOk, Next, Rele, IndexOf, Bucket, First;
  }

  lemma CutCell(s: Sys, s': Sys, o: nat, tfp: Option<nat>, k: nat)
    requires Shows(s) && o in s.table.objs && s.table.objs[o].count == 1 && CutsOut(s, s', o, tfp)
    requires |s.table.buckets| == NHASH && s'.table == Rele(s.table, o) && TableOk(s'.table) && k in s'.table.objs
    ensures k in s'.heap && s'.heap[k] == Cell(s'.table.objs[k].id, s'.table.objs[k].count, Next(s'.table, k))
  {
    var t := s.table;
    Shown(s, o);
    ReleLinks(t, o);
    OnlyPredecessor(t, o, Bucket(t.objs[o].id), IndexOf(t.buckets[Bucket(t.objs[o].id)], o));
    hide TableOk, Next, Rele, IndexOf, Bucket, First;
    Shown(s, k);
  }

  lemma CutIs(s: Sys, p: nat) returns (tfp: Option<nat>)
    requires Inv(s) && p < |s.ts| && (s.ts[p].pc.ReleCutHead? || s.ts[p].pc.ReleCut?) && Reaches(s, s.ts[p].pc)
    ensures var o, s' := s.ts[p].pc.o, Advance(s, p);
      && o in s.ts[p].refs && o in s.table.objs && s.table.objs[o].count == 1 == Refs(s.ts, o)
      && CutsOut(s, s', o, tfp) && s'.table == Rele(s.table, o)
      && s'.ts == s.ts[p := Thread(ReleUnhash(o), s.ts[p].refs - multiset{o})]
  {
    hide Inv, Shows, Counts, Rele, Bucket, Next, IndexOf, Refs;
    InvAt(s, p);
    Referenced(s, p, s.ts[p].pc.o);
    tfp := if s.ts[p].pc.ReleCut? then Some(s.ts[p].pc.tfp) else None;
  }

  /** What the step leaves of the table: one object less, which had this one reference. */
  lemma CutFacts(s: Sys, p: nat, o: nat, tfp: Option<nat>, s': Sys)
    requires Shows(s) && Counts(s) && p < |s.ts| && |s.table.buckets| == NHASH
    requires o in s.ts[p].refs && o in s.table.objs && s.table.objs[o].count == 1 == Refs(s.ts, o)
    requires CutsOut(s, s', o, tfp) && s'.table == Rele(s.table, o)
    requires s'.ts == s.ts[p := Thread(ReleUnhash(o), s.ts[p].refs - multiset{o})]
    ensures Shows(s') && Counts(s') && o in s'.heap
    ensures s'.table.objs == s.table.objs - {o} && s'.heap.Keys == s.heap.Keys
    ensures forall k :: k in s.heap ==> s'.heap[k].id == s.heap[k].id && s'.heap[k].count == s.heap[k].count
    ensures forall k :: k in s.heap && k !in s.table.objs ==> s'.heap[k] == s.heap[k]
  {
    hide Shows, Bucket, IndexOf, Refs, Without;
    CutShows(s, s', o, tfp);
    CountsFrom(s, s', p, o, s'.ts[p]);
  }

  /** The holder of both locks takes out an object; that is nothing to the others. */
  lemma CutFrame(s: Sys, s': Sys, a: Pc, o: nat, y: Thread)
    requires PcOk(s, y) && Apart(a, y.pc) && (a.ReleCutHead? || a.ReleCut?) && a.o == o && o in s.table.objs
    requires s'.table.objs == s.table.objs - {o} && s'.heap.Keys == s.heap.Keys
    requires forall k :: k in s.heap ==> s'.heap[k].id == s.heap[k].id && s'.heap[k].count == s.heap[k].count
    requires forall k :: k in s.heap && k !in s.table.objs ==> s'.heap[k] == s.heap[k]
    ensures Undisturbed(s, s', y.pc) && Apart(ReleUnhash(o), y.pc)
  {
    LockApart(a, y.pc);
    assert Owns(y.pc) != Some(o);
    CutApart(a, ReleUnhash(o), y.pc);
    hide PcOk, Apart;
  }

  lemma CutGood(s: Sys, p: nat)
    requires Inv(s) && p < |s.ts| && (s.ts[p].pc.ReleCutHead? || s.ts[p].pc.ReleCut?) && Granted(s.ts, p)
    ensures Reaches(s, s.ts[p].pc) && Good(s, p, Advance(s, p))
  {
    hide Inv, Granted, Shows, Counts, Apart, Effect, StatusOf, Reaches, PcOk, Undisturbed, TableOk;
    AlwaysReaches(s, p);
    InvAt(s, p);
    var o, s' := s.ts[p].pc.o, Advance(s, p);
    CutSizes(s, p);
    var tfp := CutIs(s, p);
    hide Advance, CutsOut, Rele;
    CutFacts(s, p, o, tfp, s');
    CutEffect(s, p, s');
    forall q | 0 <= q < |s.ts| && q != p
      ensures Undisturbed(s, s', s.ts[q].pc) && Apart(s'.ts[p].pc, s.ts[q].pc)
    {
      InvAt(s, q);
      InvApart(s, p, q);
      CutFrame(s, s', s.ts[p].pc, o, s.ts[q]);
    }
    UnhashOk(s', s'.ts[p]);
    InvFrom(s, s', p, s'.ts[p]);
  }

  lemma CutSizes(s: Sys, p: nat)
    requires p < |s.ts| && Reaches(s, s.ts[p].pc)
    ensures |s.table.buckets| == NHASH && |s.fh| == NHASH
  {
  }

  lemma UnhashOk(s: Sys, x: Thread)
    requires x.pc.ReleUnhash? && x.pc.o in s.heap && x.pc.o !in s.table.objs
    ensures PcOk(s, x)
  {
  }

  lemma CutEffect(s: Sys, p: nat, s': Sys)
    requires p < |s.ts| && (s.ts[p].pc.ReleCutHead? || s.ts[p].pc.ReleCut?) && s.ts[p].pc.o in s.table.objs
    requires |s.table.buckets| == NHASH && s'.table == Rele(s.table, s.ts[p].pc.o)
    ensures Effect(s.table, StatusOf(s.ts[p].pc), s'.table, StatusOf(ReleUnhash(s.ts[p].pc.o)))
  {
    hide Rele;
  }

  lemma CutApart(a: Pc, a': Pc, b: Pc)
    requires Apart(a, b) && (a.ReleCutHead? || a.ReleCut?) && a' == ReleUnhash(a.o) && Owns(b) != Some(a.o)
    ensures Apart(a', b)
  {
  }

  // ---------- All of them ----------

  /** Every step of every thread keeps the invariant and is worth one operation of the table or none. */
  lemma StepGood(s: Sys, p: nat, s': Sys)
    requires Inv(s) && Step(s, p, s')
    ensures Good(s, p, s')
  {
    hide Inv, Good, Granted, Advance, Reaches, Begins, Gives;
    var pc := s.ts[p].pc;
    if pc.Idle? {
      if op, o :| Begins(s, p, op, o, s') {
        BeginGood(s, p, op, o, s');
      } else {
        var q, o :| Gives(s, p, q, o, s');
        GiveGood(s, p, q, o, s');
      }
    } else if Quiet(pc) {
      QuietStepGood(s, p);
    } else if pc.AllocNext? {
      AllocNextGood(s, p);
    } else if pc.AllocHead? {
      AllocHeadGood(s, p);
    } else if pc.HoldInc? || pc.FindInc? {
      HoldGood(s, p);
    } else if pc.ReleDec? || pc.ReleDec2? {
      ReleDecGood(s, p);
    } else if pc.ReleFree? {
      FreeGood(s, p);
    } else {
      CutGood(s, p);
    }
  }
}
