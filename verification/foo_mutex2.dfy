/**
 threads/mutex2.c: any number of threads at the table, with two levels of locks. hashlock
 guards the buckets and the f_next links, each object's f_lock guards its count; the last
 release gives up f_lock, takes both locks in order, and looks again.

 Every step is one statement or one lock operation of one thread. The table
 of the state is history: what the one-lock version would hold at this point.
 */
module FooMutex2 {
  import opened Basics
  import opened FooTable

  /** An object in memory. */
  datatype Cell = Cell(id: int, count: int, next: Option<nat>)

  datatype Op = AllocOp(id: int) | HoldOp(o: nat) | FindOp(id: int) | ReleOp(o: nat)

  datatype Pc =
    | Idle
    // foo_alloc, after malloc and the initialisation
    | AllocLock(id: int, o: nat)              // lock hashlock
    | AllocNext(id: int, o: nat)              // f_next = fh[idx]
    | AllocHead(id: int, o: nat)              // fh[idx] = fp
    | AllocFlock(id: int, o: nat)             // lock f_lock
    | AllocUnhash(id: int, o: nat)            // unlock hashlock
    | AllocDone(id: int, o: nat)              // unlock f_lock
    // foo_hold
    | HoldLock(o: nat)
    | HoldInc(o: nat)
    | HoldUnlock(o: nat)
    // foo_find
    | FindLock(id: int)
    | FindHead(id: int)                       // fp = fh[HASH(id)]
    | FindLook(id: int, fp: Option<nat>, pos: nat)
    | FindFlock(id: int, o: nat, pos: nat)
    | FindInc(id: int, o: nat, pos: nat)
    | FindFunlock(id: int, o: nat)
    | FindUnlock(id: int, res: Option<nat>)   // unlock hashlock
    // foo_rele
    | ReleLock(o: nat)
    | ReleTest(o: nat)                        // f_count == 1?
    | ReleDec(o: nat)
    | ReleUnlock(o: nat)
    | ReleDrop(o: nat)                        // last reference: unlock f_lock
    | ReleHash(o: nat)                        // lock hashlock
    | ReleFlock(o: nat)                       // lock f_lock
    | ReleRecheck(o: nat)                     // f_count != 1?
    | ReleDec2(o: nat)
    | ReleFun2(o: nat)                        // unlock f_lock
    | ReleHun2(o: nat)                        // unlock hashlock
    | ReleHead(o: nat)                        // tfp = fh[idx]
    | ReleWalk(o: nat, tfp: nat, pos: nat)    // tfp->f_next != fp?
    | ReleCutHead(o: nat)                     // fh[idx] = fp->f_next
    | ReleCut(o: nat, tfp: nat)               // tfp->f_next = fp->f_next
    | ReleUnhash(o: nat)                      // unlock hashlock
    | ReleFunlock(o: nat)                     // unlock f_lock
    | ReleFree(o: nat)                        // destroy and free

  /** refs: the references the thread owns. */
  datatype Thread = Thread(pc: Pc, refs: multiset<nat>)

  datatype Sys = Sys(heap: map<nat, Cell>, fh: seq<Option<nat>>, table: Table<nat>, ts: seq<Thread>)

  // ---------- Locks ----------

  predicate HoldsHash(pc: Pc) {
    || pc.AllocNext? || pc.AllocHead? || pc.AllocFlock? || pc.AllocUnhash?
    || pc.FindHead? || pc.FindLook? || pc.FindFlock? || pc.FindInc? || pc.FindFunlock? || pc.FindUnlock?
    || pc.ReleFlock? || pc.ReleRecheck? || pc.ReleDec2? || pc.ReleFun2? || pc.ReleHun2?
    || pc.ReleHead? || pc.ReleWalk? || pc.ReleCutHead? || pc.ReleCut? || pc.ReleUnhash?
  }

  /** The object whose f_lock the thread holds. */
  function HoldsF(pc: Pc): Option<nat> {
    match pc
    case AllocUnhash(id, o) => Some(o)
    case AllocDone(id, o) => Some(o)
    case HoldInc(o) => Some(o)
    case HoldUnlock(o) => Some(o)
    case FindInc(_, o, _) => Some(o)
    case FindFunlock(_, o) => Some(o)
    case ReleTest(o) => Some(o)
    case ReleDec(o) => Some(o)
    case ReleUnlock(o) => Some(o)
    case ReleDrop(o) => Some(o)
    case ReleRecheck(o) => Some(o)
    case ReleDec2(o) => Some(o)
    case ReleFun2(o) => Some(o)
    case ReleHead(o) => Some(o)
    case ReleWalk(o, _, _) => Some(o)
    case ReleCutHead(o) => Some(o)
    case ReleCut(o, _) => Some(o)
    case ReleUnhash(o) => Some(o)
    case ReleFunlock(o) => Some(o)
    case _ => None
  }

  predicate Clash(a: Pc, b: Pc) {
    (HoldsHash(a) && HoldsHash(b)) || (HoldsF(a).Some? && HoldsF(a) == HoldsF(b))
  }

  /** A thread with the lock it waits for. */
  function Locked(pc: Pc): Pc {
    match pc
    case AllocLock(id, o) => AllocNext(id, o)
    case AllocFlock(id, o) => AllocUnhash(id, o)
    case HoldLock(o) => HoldInc(o)
    case FindLock(id) => FindHead(id)
    case FindFlock(id, o, pos) => FindInc(id, o, pos)
    case ReleLock(o) => ReleTest(o)
    case ReleHash(o) => ReleFlock(o)
    case ReleFlock(o) => ReleRecheck(o)
    case _ => pc
  }

  predicate Waits(pc: Pc) {
    || pc.AllocLock? || pc.AllocFlock? || pc.HoldLock? || pc.FindLock? || pc.FindFlock?
    || pc.ReleLock? || pc.ReleHash? || pc.ReleFlock?
  }

  predicate Granted(ts: seq<Thread>, p: nat)
    requires p < |ts|
  {
    forall q :: 0 <= q < |ts| && q != p ==> !Clash(Locked(ts[p].pc), ts[q].pc)
  }

  // ---------- Steps ----------

  ghost function Goto(s: Sys, p: nat, pc: Pc): Sys
    requires p < |s.ts|
  {
    s.(ts := s.ts[p := s.ts[p].(pc := pc)])
  }

  /** The object whose memory the next step of the thread touches, its f_lock included. */
  function Touches(pc: Pc): Option<nat> {
    match pc
    case AllocNext(_, o) => Some(o)
    case AllocHead(_, o) => Some(o)
    case AllocFlock(_, o) => Some(o)
    case AllocDone(_, o) => Some(o)
    case HoldLock(o) => Some(o)
    case HoldInc(o) => Some(o)
    case HoldUnlock(o) => Some(o)
    case FindLook(_, fp, _) => fp
    case FindFlock(_, o, _) => Some(o)
    case FindInc(_, o, _) => Some(o)
    case FindFunlock(_, o) => Some(o)
    case ReleLock(o) => Some(o)
    case ReleTest(o) => Some(o)
    case ReleDec(o) => Some(o)
    case ReleUnlock(o) => Some(o)
    case ReleDrop(o) => Some(o)
    case ReleFlock(o) => Some(o)
    case ReleRecheck(o) => Some(o)
    case ReleDec2(o) => Some(o)
    case ReleFun2(o) => Some(o)
    case ReleHead(o) => Some(o)
    case ReleWalk(_, tfp, _) => Some(tfp)
    case ReleCutHead(o) => Some(o)
    case ReleCut(o, _) => Some(o)
    case ReleFunlock(o) => Some(o)
    case ReleFree(o) => Some(o)
    case _ => None
  }

  /** The next step of the thread touches no memory that has been freed and follows no null pointer. */
  ghost predicate Reaches(s: Sys, pc: Pc) {
    && |s.fh| == NHASH && |s.table.buckets| == NHASH
    && (Touches(pc).Some? ==> Touches(pc).value in s.heap)
    && match pc
       case HoldInc(o) => o in s.table.objs
       case FindInc(_, o, _) => o in s.table.objs
       case ReleDec(o) => o in s.table.objs
       case ReleDec2(o) => o in s.table.objs
       case ReleHead(o) => s.fh[Bucket(s.heap[o].id)].Some?
       case ReleWalk(_, tfp, _) => s.heap[tfp].next.Some?
       case ReleCutHead(o) => o in s.table.objs
       case ReleCut(o, tfp) => o in s.table.objs && tfp in s.heap
       case _ => true
  }

  /** The next step of a thread inside a call. */
  ghost function Advance(s: Sys, p: nat): Sys
    requires p < |s.ts| && Reaches(s, s.ts[p].pc)
  {
    var x := s.ts[p];
    match x.pc
    case Idle => s
    case AllocLock(_, _) => Goto(s, p, Locked(x.pc))
    case AllocNext(id, o) =>
      Goto(s.(heap := s.heap[o := s.heap[o].(next := s.fh[Bucket(id)])]), p, AllocHead(id, o))
    case AllocHead(id, o) =>
      s.(fh := s.fh[Bucket(id) := Some(o)],
         table := Alloc(s.table, o, id),
         ts := s.ts[p := Thread(AllocFlock(id, o), x.refs + multiset{o})])
    case AllocFlock(_, _) => Goto(s, p, Locked(x.pc))
    case AllocUnhash(id, o) => Goto(s, p, AllocDone(id, o))
    case AllocDone(_, _) => Goto(s, p, Idle)
    case HoldLock(_) => Goto(s, p, Locked(x.pc))
    case HoldInc(o) =>
      s.(heap := Counted(s.heap, o, 1), table := Hold(s.table, o), ts := s.ts[p := Thread(HoldUnlock(o), x.refs + multiset{o})])
    case HoldUnlock(_) => Goto(s, p, Idle)
    case FindLock(_) => Goto(s, p, Locked(x.pc))
    case FindHead(id) => Goto(s, p, FindLook(id, s.fh[Bucket(id)], 0))
    case FindLook(id, fp, pos) =>
      if fp.None? then Goto(s, p, FindUnlock(id, None))
      else if s.heap[fp.value].id == id then Goto(s, p, FindFlock(id, fp.value, pos))
      else Goto(s, p, FindLook(id, s.heap[fp.value].next, pos + 1))
    case FindFlock(_, _, _) => Goto(s, p, Locked(x.pc))
    case FindInc(id, o, _) =>
      s.(heap := Counted(s.heap, o, 1), table := Hold(s.table, o), ts := s.ts[p := Thread(FindFunlock(id, o), x.refs + multiset{o})])
    case FindFunlock(id, o) => Goto(s, p, FindUnlock(id, Some(o)))
    case FindUnlock(_, _) => Goto(s, p, Idle)
    case ReleLock(_) => Goto(s, p, Locked(x.pc))
    case ReleTest(o) => Goto(s, p, if s.heap[o].count == 1 then ReleDrop(o) else ReleDec(o))
    case ReleDec(o) =>
      s.(heap := Counted(s.heap, o, -1), table := Rele(s.table, o), ts := s.ts[p := Thread(ReleUnlock(o), x.refs - multiset{o})])
    case ReleUnlock(_) => Goto(s, p, Idle)
    case ReleDrop(o) => Goto(s, p, ReleHash(o))
    case ReleHash(_) => Goto(s, p, Locked(x.pc))
    case ReleFlock(_) => Goto(s, p, Locked(x.pc))
    case ReleRecheck(o) => Goto(s, p, if s.heap[o].count != 1 then ReleDec2(o) else ReleHead(o))
    case ReleDec2(o) =>
      s.(heap := Counted(s.heap, o, -1), table := Rele(s.table, o), ts := s.ts[p := Thread(ReleFun2(o), x.refs - multiset{o})])
    case ReleFun2(o) => Goto(s, p, ReleHun2(o))
    case ReleHun2(_) => Goto(s, p, Idle)
    case ReleHead(o) =>
      var tfp := s.fh[Bucket(s.heap[o].id)].value;
      Goto(s, p, if tfp == o then ReleCutHead(o) else ReleWalk(o, tfp, 0))
    case ReleWalk(o, tfp, pos) =>
      var next := s.heap[tfp].next.value;
      Goto(s, p, if next != o then ReleWalk(o, next, pos + 1) else ReleCut(o, tfp))
    case ReleCutHead(o) =>
      s.(fh := s.fh[Bucket(s.heap[o].id) := s.heap[o].next], table := Rele(s.table, o),
         ts := s.ts[p := Thread(ReleUnhash(o), x.refs - multiset{o})])
    case ReleCut(o, tfp) =>
      s.(heap := s.heap[tfp := s.heap[tfp].(next := s.heap[o].next)], table := Rele(s.table, o),
         ts := s.ts[p := Thread(ReleUnhash(o), x.refs - multiset{o})])
    case ReleUnhash(o) => Goto(s, p, ReleFunlock(o))
    case ReleFunlock(o) => Goto(s, p, ReleFree(o))
    case ReleFree(o) => Goto(s.(heap := s.heap - {o}), p, Idle)
  }

  /** f_count++ or f_count--. */
  function Counted(heap: map<nat, Cell>, o: nat, delta: int): map<nat, Cell>
    requires o in heap
  {
    heap[o := heap[o].(count := heap[o].count + delta)]
  }

  /** A thread starts a call: hold and rele only of objects it has a reference to. */
  ghost predicate Begins(s: Sys, p: nat, op: Op, o: nat, s': Sys)
    requires p < |s.ts|
  {
    match op
    case AllocOp(id) => o !in s.heap && s' == Goto(s.(heap := s.heap[o := Cell(id, 1, None)]), p, AllocLock(id, o))
    case HoldOp(x) => x in s.ts[p].refs && s' == Goto(s, p, HoldLock(x))
    case FindOp(id) => s' == Goto(s, p, FindLock(id))
    case ReleOp(x) => x in s.ts[p].refs && s' == Goto(s, p, ReleLock(x))
  }

  /** A thread hands a reference over to another. */
  ghost predicate Gives(s: Sys, p: nat, q: nat, o: nat, s': Sys)
    requires p < |s.ts|
  {
    && q < |s.ts| && q != p && o in s.ts[p].refs
    && s' == s.(ts := s.ts[p := s.ts[p].(refs := s.ts[p].refs - multiset{o})]
                          [q := s.ts[q].(refs := s.ts[q].refs + multiset{o})])
  }

  ghost predicate Step(s: Sys, p: nat, s': Sys) {
    && p < |s.ts|
    && if s.ts[p].pc.Idle? then
         (exists op, o :: Begins(s, p, op, o, s')) || (exists q, o :: Gives(s, p, q, o, s'))
       else
         Granted(s.ts, p) && Reaches(s, s.ts[p].pc) && s' == Advance(s, p)
  }

  ghost predicate Init(s: Sys) {
    && s.heap == map[] && s.fh == seq(NHASH, i => None)
    && s.table == Table(map[], seq(NHASH, i => []))
    && forall p :: 0 <= p < |s.ts| ==> s.ts[p] == Thread(Idle, multiset{})
  }

  // ---------- The invariant ----------

  /** How many references to o the threads own together. */
  function Refs(ts: seq<Thread>, o: nat): nat {
    if ts == [] then 0 else Refs(ts[..|ts| - 1], o) + ts[|ts| - 1].refs[o]
  }

  /** Memory and links say what the table says. */
  ghost predicate Shows(s: Sys) {
    && TableOk(s.table) && |s.fh| == NHASH
    && (forall h :: 0 <= h < NHASH ==> s.fh[h] == First(s.table.buckets[h]))
    && forall o :: o in s.table.objs ==>
         && o in s.heap && s.heap[o] == Cell(s.table.objs[o].id, s.table.objs[o].count, Next(s.table, o))
  }

  /** The count of every object is the number of references to it; references are to objects of the table. */
  ghost predicate Counts(s: Sys) {
    && (forall o :: o in s.table.objs ==> s.table.objs[o].count == Refs(s.ts, o))
    && (forall p, o :: 0 <= p < |s.ts| && o in s.ts[p].refs ==> o in s.table.objs)
  }

  /** The object a thread has to itself: not yet in the table, or no more. */
  function Owns(pc: Pc): Option<nat> {
    match pc
    case AllocLock(id, o) => Some(o)
    case AllocNext(id, o) => Some(o)
    case AllocHead(id, o) => Some(o)
    case ReleUnhash(o) => Some(o)
    case ReleFunlock(o) => Some(o)
    case ReleFree(o) => Some(o)
    case _ => None
  }

  /** The object of a call that needs a reference of the thread. */
  function Needs(pc: Pc): Option<nat> {
    match pc
    case AllocFlock(id, o) => Some(o)
    case AllocUnhash(id, o) => Some(o)
    case AllocDone(id, o) => Some(o)
    case HoldLock(o) => Some(o)
    case HoldInc(o) => Some(o)
    case HoldUnlock(o) => Some(o)
    case FindFunlock(_, o) => Some(o)
    case ReleLock(o) => Some(o)
    case ReleTest(o) => Some(o)
    case ReleDec(o) => Some(o)
    case ReleDrop(o) => Some(o)
    case ReleHash(o) => Some(o)
    case ReleFlock(o) => Some(o)
    case ReleRecheck(o) => Some(o)
    case ReleDec2(o) => Some(o)
    case ReleHead(o) => Some(o)
    case ReleWalk(o, _, _) => Some(o)
    case ReleCutHead(o) => Some(o)
    case ReleCut(o, _) => Some(o)
    case _ => None
  }

  /** Between giving up f_lock and having both locks, on the way out of a last reference. */
  function Window(pc: Pc): Option<nat> {
    match pc
    case ReleDrop(o) => Some(o)
    case ReleHash(o) => Some(o)
    case ReleFlock(o) => Some(o)
    case ReleRecheck(o) => Some(o)
    case _ => None
  }

  /** Position pos of the bucket of id, all before it having other identifiers. */
  ghost predicate Passed(t: Table<nat>, id: int, pos: nat) {
    && |t.buckets| == NHASH && pos <= |t.buckets[Bucket(id)]|
    && forall i :: 0 <= i < pos ==> t.buckets[Bucket(id)][i] in t.objs && t.objs[t.buckets[Bucket(id)][i]].id != id
  }

  ghost predicate PcOk(s: Sys, x: Thread) {
    && (Needs(x.pc).Some? ==> Needs(x.pc).value in x.refs)
    && (Owns(x.pc).Some? ==> Owns(x.pc).value in s.heap && Owns(x.pc).value !in s.table.objs)
    && (HoldsF(x.pc).Some? && Owns(x.pc).None? ==> HoldsF(x.pc).value in s.table.objs && HoldsF(x.pc).value in s.heap)
    && match x.pc
       case AllocLock(id, o) => s.heap[o].id == id && s.heap[o].count == 1
       case AllocNext(id, o) => s.heap[o].id == id && s.heap[o].count == 1
       case AllocHead(id, o) => |s.fh| == NHASH && s.heap[o] == Cell(id, 1, s.fh[Bucket(id)])
       case FindLook(id, fp, pos) =>
         Passed(s.table, id, pos) && fp == At(s.table.buckets[Bucket(id)], pos)
       case FindFlock(id, o, pos) => Finds(s, id, o, pos)
       case FindInc(id, o, pos) => Finds(s, id, o, pos)
       case ReleDec(o) => s.heap[o].count != 1
       case ReleDec2(o) => s.heap[o].count != 1
       case ReleHead(o) => s.heap[o].count == 1
       case ReleWalk(o, tfp, pos) => s.heap[o].count == 1 && Walks(s, o, tfp, pos)
       case ReleCutHead(o) => s.heap[o].count == 1 && |s.fh| == NHASH && s.fh[Bucket(s.heap[o].id)] == Some(o)
       case ReleCut(o, tfp) => s.heap[o].count == 1 && tfp in s.table.objs && tfp in s.heap && s.heap[tfp].next == Some(o)
       case _ => true
  }

  function At<O>(l: seq<O>, pos: nat): Option<O> {
    if pos < |l| then Some(l[pos]) else None
  }

  ghost predicate Finds(s: Sys, id: int, o: nat, pos: nat) {
    && Passed(s.table, id, pos) && pos < |s.table.buckets[Bucket(id)]| && s.table.buckets[Bucket(id)][pos] == o
    && o in s.table.objs && s.table.objs[o].id == id
  }

  /** The unlink loop is at tfp, in front of its target. */
  ghost predicate Walks(s: Sys, o: nat, tfp: nat, pos: nat)
    requires o in s.heap
  {
    var h := Bucket(s.heap[o].id);
    && |s.table.buckets| == NHASH && pos < |s.table.buckets[h]| && s.table.buckets[h][pos] == tfp
    && o in s.table.buckets[h] && pos < IndexOf(s.table.buckets[h], o)
  }

  ghost predicate Apart(a: Pc, b: Pc) {
    && !Clash(a, b)
    && (Owns(a).Some? ==> Owns(a) != Owns(b))
    && (Window(a).Some? ==> Window(a) != Window(b))
  }

  ghost predicate Inv(s: Sys) {
    && Shows(s)
    && Counts(s)
    && (forall p :: 0 <= p < |s.ts| ==> PcOk(s, s.ts[p]))
    && (forall p, q :: 0 <= p < |s.ts| && 0 <= q < |s.ts| && p != q ==> Apart(s.ts[p].pc, s.ts[q].pc))
  }
}
