/**
 Several processes at one database (db/db.c): each runs fetch, store, delete or a scan as
 a sequence of single reads and writes of the two files, and waits for the record locks
 of the source: the first byte of a hash chain, the first byte of the file for the free
 list, the whole data file and the tail of the index file for appends.

 The lists of the disk and the abstract map are history: no step depends on them.
 */
module DbProcesses {
  import opened DbFormat
  import opened DbImage
  import opened DbLists
  import opened DbSteps
  import opened DbSpec

  // ---------- States ----------

  /**
   Where a process is in a call; each constructor names what it does next.
   pos is its place on the list it walks, repl whether it has deleted the key it stores.
   */
  datatype At =
    | Wait                                                           // lock the chain
    | Head                                                           // read the chain head
    | Look(off: nat, ptroff: nat, pos: nat)                          // read the record at off
    | Fetching(o: nat, ptroff: nat, pos: nat, rec: Rec)              // read its data
    | Over(o: nat, ptroff: nat, pos: nat, rec: Rec)                  // overwrite its data
    | DelWait(o: nat, ptroff: nat, pos: nat, rec: Rec)               // lock the free list
    | DelData(o: nat, ptroff: nat, pos: nat, rec: Rec)               // blank the data
    | DelFree(o: nat, ptroff: nat, pos: nat, rec: Rec)               // read the free pointer
    | DelRec(o: nat, ptroff: nat, pos: nat, rec: Rec, freeptr: nat)  // blank the record
    | DelPush(o: nat, ptroff: nat, pos: nat, rec: Rec)               // write the free pointer
    | DelLink(ptroff: nat, pos: nat, rec: Rec)                       // write the chain pointer
    | DelDone                                                        // unlock the free list
    | InsHead(repl: bool)                                            // read the chain head
    | FreeWait(ptr: nat)                                             // lock the free list
    | FreeHead(ptr: nat)                                             // read the free pointer
    | FreeLook(ptr: nat, off: nat, save: nat, pos: nat)              // read the record at off
    | FreeTake(ptr: nat, o: nat, save: nat, pos: nat, rec: Rec)      // write the pointer to it
    | FreeNone(ptr: nat)                                             // unlock the free list
    | FreeGot(ptr: nat, o: nat, rec: Rec)                            // unlock the free list
    | ReuseData(ptr: nat, o: nat, rec: Rec)                          // write the data
    | ReuseRec(ptr: nat, o: nat, rec: Rec)                           // write the record
    | DatWait(ptr: nat, repl: bool)                                  // lock the data file
    | DatSeek(ptr: nat, repl: bool)                                  // find its end
    | DatWrite(ptr: nat, repl: bool, off: nat)                       // write the data there
    | DatDone(ptr: nat, repl: bool, off: nat)                        // unlock the data file
    | TailWait(ptr: nat, repl: bool, off: nat)                       // lock the index tail
    | TailSeek(ptr: nat, repl: bool, off: nat)                       // find its end
    | TailWrite(ptr: nat, repl: bool, off: nat, end: nat)            // write the record there
    | TailDone(repl: bool, o: nat)                                   // unlock the index tail
    | Link(repl: bool, o: nat)                                       // write the chain head
    | Release(ans: Answer)                                           // unlock the chain

  datatype Orphan = NoOrphan | Orphan(o: nat)

  datatype Pc =
    | Idle
    | ScanWait              // db_nextrec: read-lock the free list
    | Scanning              // reading records under that lock
    | Dead(orphan: Orphan)  // ended by err_dump or err_quit
    | Busy(op: Op, at: At)

  /** A chain pointer not yet rewritten: that of position pos on chain h should be val. */
  datatype Pending = Settled | Pend(h: nat, pos: nat, val: nat)

  datatype Disk = Disk(im: Image, dat: string, ls: Lists, pend: Pending)

  datatype Sys = Sys(d: Disk, abs: map<string, string>, pcs: seq<Pc>)

  ghost function PendSlot(d: Disk): nat
    requires d.pend.Pend? && d.pend.h < |d.ls.chains| && d.pend.pos <= |d.ls.chains[d.pend.h]|
  {
    SlotOf(ChainOff(d.pend.h), d.ls.chains[d.pend.h], d.pend.pos)
  }

  ghost predicate PendFits(d: Disk) {
    d.pend.Pend? ==>
      && d.pend.h < |d.ls.chains| && d.pend.pos <= |d.ls.chains[d.pend.h]|
      && IsSlot(d.im, PendSlot(d))
  }

  /** The image once the pending write is done. */
  ghost function View(d: Disk): Image {
    if d.pend.Pend? && PendFits(d) then SetPtr(d.im, PendSlot(d), d.pend.val) else d.im
  }

  // ---------- Locks ----------

  function Chain(op: Op, nhash: nat): nat
    requires nhash > 0
  {
    Hash(op.key, nhash)
  }

  predicate HoldsChain(pc: Pc) {
    pc.Busy? && !pc.at.Wait?
  }

  predicate HoldsFree(pc: Pc) {
    pc.Busy? && (pc.at.DelData? || pc.at.DelFree? || pc.at.DelRec? || pc.at.DelPush? || pc.at.DelLink? || pc.at.DelDone?
                 || pc.at.FreeHead? || pc.at.FreeLook? || pc.at.FreeTake? || pc.at.FreeNone? || pc.at.FreeGot?)
  }

  predicate HoldsData(pc: Pc) {
    pc.Busy? && (pc.at.DatSeek? || pc.at.DatWrite? || pc.at.DatDone?)
  }

  predicate HoldsTail(pc: Pc) {
    pc.Busy? && (pc.at.TailSeek? || pc.at.TailWrite? || pc.at.TailDone?)
  }

  /** The chain locks of two processes exclude each other: same chain, and one of them writes. */
  predicate ChainClash(nhash: nat, a: Pc, b: Pc)
    requires nhash > 0
  {
    && a.Busy? && b.Busy?
    && Chain(a.op, nhash) == Chain(b.op, nhash)
    && !(a.op.FetchOp? && b.op.FetchOp?)
  }

  /** Two processes hold locks that the kernel never grants together. */
  predicate Clash(nhash: nat, a: Pc, b: Pc)
    requires nhash > 0
  {
    || (HoldsChain(a) && HoldsChain(b) && ChainClash(nhash, a, b))
    || (HoldsFree(a) && (HoldsFree(b) || b.Scanning?))
    || (HoldsFree(b) && a.Scanning?)
    || (HoldsData(a) && HoldsData(b))
    || (HoldsTail(a) && HoldsTail(b))
  }

  /** The lock the next step of a process needs is granted. */
  ghost predicate Granted(nhash: nat, pcs: seq<Pc>, p: nat)
    requires nhash > 0 && p < |pcs|
  {
    forall q :: 0 <= q < |pcs| && q != p ==> !Clash(nhash, Locked(pcs[p]), pcs[q])
  }

  /** A process with the lock it waits for. */
  function Locked(pc: Pc): Pc {
    match pc
    case ScanWait => Scanning
    case Busy(op, Wait) => Busy(op, Head)
    case Busy(op, DelWait(o, ptroff, pos, rec)) => Busy(op, DelData(o, ptroff, pos, rec))
    case Busy(op, FreeWait(ptr)) => Busy(op, FreeHead(ptr))
    case Busy(op, DatWait(ptr, repl)) => Busy(op, DatSeek(ptr, repl))
    case Busy(op, TailWait(ptr, repl, off)) => Busy(op, TailSeek(ptr, repl, off))
    case _ => pc
  }

  predicate Waits(pc: Pc) {
    pc.ScanWait? || (pc.Busy? && (pc.at.Wait? || pc.at.DelWait? || pc.at.FreeWait? || pc.at.DatWait? || pc.at.TailWait?))
  }

  // ---------- Steps ----------

  /** A call that gets as far as the files; a stored key has no separator. */
  predicate Reaches(op: Op) {
    WellFormed(op) && (op.StoreOp? ==>
      SEP !in op.key && DB_INSERT <= op.flag <= DB_STORE && DATLEN_MIN <= |op.data| + 1 <= DATLEN_MAX)
  }

  ghost function Goto(s: Sys, p: nat, pc: Pc): Sys
    requires p < |s.pcs|
  {
    s.(pcs := s.pcs[p := pc])
  }

  ghost function Move(s: Sys, p: nat, d: Disk, pc: Pc): Sys
    requires p < |s.pcs|
  {
    s.(d := d, pcs := s.pcs[p := pc])
  }

  /** The call takes effect on the abstract map. */
  ghost function Commit(s: Sys, op: Op): Sys {
    s.(abs := Apply(s.abs, op).0)
  }

  /** A replace that has deleted the old record and cannot store the new one. */
  ghost function GiveUp(s: Sys, op: Op, repl: bool): Sys {
    if repl then s.(abs := s.abs - {op.key}) else s
  }

  /** What follows when the record at off has the key. */
  function OnHit(op: Op, off: nat, ptroff: nat, pos: nat, rec: Rec): At {
    match op
    case FetchOp(_) => Fetching(off, ptroff, pos, rec)
    case DeleteOp(_) => DelWait(off, ptroff, pos, rec)
    case StoreOp(_, data, flag) =>
      if flag == DB_INSERT then Release(Code(1))
      else if |data| + 1 == rec.datlen then Over(off, ptroff, pos, rec)
      else DelWait(off, ptroff, pos, rec)
  }

  /** What follows when the chain ends without the key. */
  function OnMiss(op: Op): At {
    match op
    case FetchOp(_) => Release(NoText)
    case DeleteOp(_) => Release(Code(-1))
    case StoreOp(_, _, flag) => if flag == DB_REPLACE then Release(Code(-1)) else InsHead(false)
  }

  /** The next step of a process inside a call; reads and writes are those of the source. */
  ghost function Advance(s: Sys, p: nat): Sys
    requires p < |s.pcs| && s.pcs[p].Busy? && |s.d.im.heads| > 0
  {
    var op, at, d := s.pcs[p].op, s.pcs[p].at, s.d;
    var im, dat, ls := d.im, d.dat, d.ls;
    var h := Chain(op, |im.heads|);
    match at
    case Wait => Goto(s, p, Locked(s.pcs[p]))
    case Head => Goto(s, p, Busy(op, Look(im.heads[h], ChainOff(h), 0)))
    case Look(off, ptroff, pos) =>
      if off == 0 then
        var next := OnMiss(op);
        Goto(if next.Release? then Commit(s, op) else s, p, Busy(op, next))
      else if off !in im.recs then s
      else
        var rec := im.recs[off];
        if rec.key != op.key then Goto(s, p, Busy(op, Look(rec.ptr, off, pos + 1)))
        else
          var next := OnHit(op, off, ptroff, pos, rec);
          Goto(if next.Release? then Commit(s, op) else s, p, Busy(op, next))
    case Fetching(o, _, _, rec) =>
      if rec.datlen == 0 || rec.datoff + rec.datlen > |dat| then s
      else Goto(Commit(s, op), p, Busy(op, Release(Text(dat[rec.datoff..rec.datoff + rec.datlen - 1]))))
    case Over(_, _, _, rec) =>
      if !op.StoreOp? || rec.datoff > |dat| then s
      else Move(Commit(s, op), p, d.(dat := Overwrite(dat, rec.datoff, op.data + [NEWLINE])), Busy(op, Release(Code(0))))
    case DelWait(_, _, _, _) => Goto(s, p, Locked(s.pcs[p]))
    case DelData(o, ptroff, pos, rec) =>
      if rec.datlen == 0 || rec.datoff > |dat| || h >= |ls.chains| || pos >= |ls.chains[h]| then s
      else
        var d' := Disk(im, Overwrite(dat, rec.datoff, Blanks(rec.datlen - 1) + [NEWLINE]),
                       Unlinked(ls, h, pos, op.key), Pend(h, pos, rec.ptr));
        Move(if op.DeleteOp? then Commit(s, op) else s, p, d', Busy(op, DelFree(o, ptroff, pos, rec)))
    case DelFree(o, ptroff, pos, rec) => Goto(s, p, Busy(op, DelRec(o, ptroff, pos, rec, im.free)))
    case DelRec(o, ptroff, pos, rec, freeptr) =>
      var r := Rec(freeptr, Blanks(|rec.key|), rec.datoff, rec.datlen);
      Move(s, p, d.(im := SetRec(im, o, r)), Busy(op, DelPush(o, ptroff, pos, rec)))
    case DelPush(o, ptroff, pos, rec) =>
      Move(s, p, d.(im := im.(free := o), ls := PushedFree(ls, o)), Busy(op, DelLink(ptroff, pos, rec)))
    case DelLink(ptroff, pos, rec) =>
      if !IsSlot(im, ptroff) then s
      else Move(s, p, d.(im := SetPtr(im, ptroff, rec.ptr), pend := Settled), Busy(op, DelDone))
    case DelDone => Goto(s, p, Busy(op, if op.DeleteOp? then Release(Code(0)) else InsHead(true)))
    case InsHead(repl) => Goto(s, p, Busy(op, if repl then DatWait(im.heads[h], true) else FreeWait(im.heads[h])))
    case FreeWait(_) => Goto(s, p, Locked(s.pcs[p]))
    case FreeHead(ptr) => Goto(s, p, Busy(op, FreeLook(ptr, im.free, 0, 0)))
    case FreeLook(ptr, off, save, pos) =>
      if off == 0 then Goto(s, p, Busy(op, FreeNone(ptr)))
      else if off !in im.recs || !op.StoreOp? then s
      else
        var rec := im.recs[off];
        Goto(s, p, Busy(op, if |rec.key| == |op.key| && rec.datlen == |op.data| + 1 then FreeTake(ptr, off, save, pos, rec)
                            else FreeLook(ptr, rec.ptr, off, pos + 1)))
    case FreeTake(ptr, o, save, pos, rec) =>
      if !IsSlot(im, save) || pos >= |ls.freel| then s
      else Move(s, p, d.(im := SetPtr(im, save, rec.ptr), ls := TakenFree(ls, pos)), Busy(op, FreeGot(ptr, o, rec)))
    case FreeNone(ptr) => Goto(s, p, Busy(op, DatWait(ptr, false)))
    case FreeGot(ptr, o, rec) => Goto(s, p, Busy(op, ReuseData(ptr, o, rec)))
    case ReuseData(ptr, o, rec) =>
      if !op.StoreOp? || rec.datoff > |dat| then s
      else Move(s, p, d.(dat := Overwrite(dat, rec.datoff, op.data + [NEWLINE])), Busy(op, ReuseRec(ptr, o, rec)))
    case ReuseRec(ptr, o, rec) =>
      if !op.StoreOp? then s
      else Move(s, p, d.(im := SetRec(im, o, Rec(ptr, op.key, rec.datoff, |op.data| + 1))), Busy(op, Link(false, o)))
    case DatWait(_, _) => Goto(s, p, Locked(s.pcs[p]))
    case DatSeek(ptr, repl) => Goto(s, p, Busy(op, DatWrite(ptr, repl, |dat|)))
    case DatWrite(ptr, repl, off) =>
      if !op.StoreOp? || off > |dat| then s
      else Move(s, p, d.(dat := Overwrite(dat, off, op.data + [NEWLINE])), Busy(op, DatDone(ptr, repl, off)))
    case DatDone(ptr, repl, off) => Goto(s, p, Busy(op, TailWait(ptr, repl, off)))
    case TailWait(_, _, _) => Goto(s, p, Locked(s.pcs[p]))
    case TailSeek(ptr, repl, off) => Goto(s, p, Busy(op, TailWrite(ptr, repl, off, End(im))))
    case TailWrite(ptr, repl, off, end) =>
      if !op.StoreOp? then s
      else
        var r := Rec(ptr, op.key, off, |op.data| + 1);
        if !(IDXLEN_MIN <= r.EntryLen() <= IDXLEN_MAX) then Goto(GiveUp(s, op, repl), p, Dead(NoOrphan))
        else Move(s, p, d.(im := AddRec(im, end, r), ls := AddedHeld(ls, end)), Busy(op, TailDone(repl, end)))
    case TailDone(repl, o) => Goto(s, p, Busy(op, Link(repl, o)))
    case Link(repl, o) =>
      if o > PTR_MAX then Goto(GiveUp(s, op, repl), p, Dead(Orphan(o)))
      else if h >= |ls.chains| then s
      else Move(Commit(s, op), p, d.(im := im.(heads := im.heads[h := o]), ls := Linked(ls, h, o, op.key)),
                Busy(op, Release(Code(0))))
    case Release(_) => Goto(s, p, Idle)
  }

  /** One step of process p: start a call, start, continue or end a scan, or go on with a call. */
  ghost predicate Step(s: Sys, p: nat, s': Sys)
    requires |s.d.im.heads| > 0
  {
    && p < |s.pcs|
    && Granted(|s.d.im.heads|, s.pcs, p)
    && match s.pcs[p]
       case Idle => s' == Goto(s, p, ScanWait) || exists op :: Reaches(op) && s' == Goto(s, p, Busy(op, Wait))
       case ScanWait => s' == Goto(s, p, Scanning)
       case Scanning => s' == s || s' == Goto(s, p, Idle)
       case Dead(_) => false
       case Busy(_, _) => s' == Advance(s, p)
  }

  // ---------- What every state satisfies ----------

  /** A call is past the point where it takes effect, and answers this. */
  datatype Status = Out | Called(op: Op) | Done(op: Op, ans: Answer) | Gone

  function StatusOf(pc: Pc): Status {
    match pc
    case Busy(op, Release(ans)) => Done(op, ans)
    case Busy(op, at) =>
      if op.DeleteOp? && (at.DelFree? || at.DelRec? || at.DelPush? || at.DelLink? || at.DelDone?) then Done(op, Code(0))
      else Called(op)
    case Dead(_) => Gone
    case _ => Out
  }

  /** The process has deleted the old record of the key it replaces and not yet put in the new one. */
  predicate Replacing(pc: Pc) {
    && pc.Busy? && pc.op.StoreOp?
    && match pc.at
       case DelFree(_, _, _, _) => true
       case DelRec(_, _, _, _, _) => true
       case DelPush(_, _, _, _) => true
       case DelLink(_, _, _) => true
       case DelDone => true
       case InsHead(repl) => repl
       case DatWait(_, repl) => repl
       case DatSeek(_, repl) => repl
       case DatWrite(_, repl, _) => repl
       case DatDone(_, repl, _) => repl
       case TailWait(_, repl, _) => repl
       case TailSeek(_, repl, _) => repl
       case TailWrite(_, repl, _, _) => repl
       case TailDone(repl, _) => repl
       case Link(repl, _) => repl
       case _ => false
  }

  /** The write of a chain pointer is still to come. */
  predicate InWindow(pc: Pc) {
    pc.Busy? && (pc.at.DelFree? || pc.at.DelRec? || pc.at.DelPush? || pc.at.DelLink?)
  }

  /** The record that is the process's own. */
  function HeldBy(pc: Pc): Orphan {
    match pc
    case Dead(orphan) => orphan
    case Busy(_, DelFree(o, _, _, _)) => Orphan(o)
    case Busy(_, DelRec(o, _, _, _, _)) => Orphan(o)
    case Busy(_, DelPush(o, _, _, _)) => Orphan(o)
    case Busy(_, FreeGot(_, o, _)) => Orphan(o)
    case Busy(_, ReuseData(_, o, _)) => Orphan(o)
    case Busy(_, ReuseRec(_, o, _)) => Orphan(o)
    case Busy(_, TailDone(_, o)) => Orphan(o)
    case Busy(_, Link(_, o)) => Orphan(o)
    case _ => NoOrphan
  }

  /** Data appended to the data file whose record is not written yet: its offset. */
  function Appended(pc: Pc): Orphan {
    match pc
    case Busy(_, DatDone(_, _, off)) => Orphan(off)
    case Busy(_, TailWait(_, _, off)) => Orphan(off)
    case Busy(_, TailSeek(_, _, off)) => Orphan(off)
    case Busy(_, TailWrite(_, _, off, _)) => Orphan(off)
    case _ => NoOrphan
  }
}
