/**
 The invariant of several processes at one database. PcOk says what a process in the middle
 of a call knows about the disk; Undisturbed says which changes of the disk leave that
 knowledge alone.
 */
module DbInvariant {
  import opened DbFormat
  import opened DbImage
  import opened DbLists
  import opened DbSteps
  import opened DbSpec
  import opened DbProcesses

  ghost predicate DiskOk(d: Disk) {
    && 0 < |d.im.heads|
    && Tiled(d.im)
    && (forall h :: 0 <= h < |d.im.heads| ==> d.im.heads[h] <= PTR_MAX)
    && PendFits(d)
    && Sound(View(d), d.dat, d.ls)
  }

  /** The map the files stand for, once the pending write is done. */
  ghost function Meaning(d: Disk): map<string, string>
    requires DiskOk(d)
  {
    Contents(View(d), d.dat, d.ls)
  }

  function At0(l: seq<nat>, pos: nat): nat {
    if pos < |l| then l[pos] else 0
  }

  /** A store that may put its key into the database. */
  predicate Inserts(op: Op, repl: bool) {
    && op.StoreOp? && Reaches(op)
    && op.flag != (if repl then DB_INSERT else DB_REPLACE)
  }

  /** Position pos of the process's chain holds the record rec of its key, at offset o. */
  ghost predicate Located(d: Disk, op: Op, o: nat, ptroff: nat, pos: nat, rec: Rec)
    requires DiskOk(d)
  {
    var h := Chain(op, |d.im.heads|);
    && pos < |d.ls.chains[h]| && d.ls.chains[h][pos] == o
    && ptroff == SlotOf(ChainOff(h), d.ls.chains[h], pos)
    && o in View(d).recs && View(d).recs[o] == rec && rec.key == op.key
  }

  /** The record of the key has just left position pos of its chain, but for one pointer. */
  ghost predicate Cut(d: Disk, op: Op, ptroff: nat, pos: nat, rec: Rec)
    requires DiskOk(d)
  {
    var h := Chain(op, |d.im.heads|);
    && pos <= |d.ls.chains[h]|
    && ptroff == SlotOf(ChainOff(h), d.ls.chains[h], pos)
    && d.pend == Pend(h, pos, rec.ptr)
    && op.key !in d.ls.loc && rec.key == op.key
    && (op.DeleteOp? || Inserts(op, true))
  }

  ghost predicate Owned(d: Disk, o: nat)
    requires DiskOk(d)
  {
    o in View(d).recs && o in d.ls.home && d.ls.home[o] == Held
  }

  /** The key is absent and ptr is the head of its chain. */
  ghost predicate Ready(d: Disk, op: Op, repl: bool, ptr: nat)
    requires DiskOk(d)
  {
    && Inserts(op, repl) && op.key !in d.ls.loc
    && ptr == d.im.heads[Chain(op, |d.im.heads|)]
  }

  /** The data stands in the data file at off, outside every record's extent. */
  ghost predicate Stands(d: Disk, off: nat, data: string)
    requires DiskOk(d)
  {
    && off + |data| + 1 <= |d.dat|
    && d.dat[off..off + |data| + 1] == data + [NEWLINE]
    && forall o :: o in View(d).recs ==> Apart(View(d).recs[o], Rec(0, "", off, |data| + 1))
  }

  /** A record of the process's own that is ready to go in front of the chain. */
  ghost predicate Prepared(d: Disk, op: Op, repl: bool, o: nat)
    requires DiskOk(d)
  {
    var h := Chain(op, |d.im.heads|);
    && Inserts(op, repl) && op.key !in d.ls.loc
    && Owned(d, o)
    && View(d).recs[o].key == op.key && View(d).recs[o].ptr == d.im.heads[h]
    && HasData(d, o, op.data)
  }

  ghost predicate HasData(d: Disk, o: nat, data: string)
    requires DiskOk(d)
  {
    o in View(d).recs && Value(View(d), d.dat, o) == data
  }

  /** A record taken off the free list, of the sizes the process needs. */
  ghost predicate Taken(d: Disk, op: Op, ptr: nat, o: nat, rec: Rec)
    requires DiskOk(d)
  {
    && Ready(d, op, false, ptr)
    && Owned(d, o) && o <= PTR_MAX && View(d).recs[o] == rec
    && |rec.key| == |op.key| && rec.datlen == |op.data| + 1 && rec.key == Blanks(|rec.key|)
  }

  ghost predicate PcOk(d: Disk, pc: Pc)
    requires DiskOk(d)
  {
    match pc
    case Idle => true
    case ScanWait => true
    case Scanning => true
    case Dead(NoOrphan) => true
    case Dead(Orphan(o)) => Owned(d, o)
    case Busy(op, at) => Reaches(op) && AtOk(d, op, at)
  }

  ghost predicate AtOk(d: Disk, op: Op, at: At)
    requires DiskOk(d)
  {
    var v, ls, h := View(d), d.ls, Chain(op, |d.im.heads|);
    match at
    case Wait => true
    case Head => true
    case Look(off, ptroff, pos) =>
      && pos <= |ls.chains[h]| && off == At0(ls.chains[h], pos)
      && ptroff == SlotOf(ChainOff(h), ls.chains[h], pos)
      && Passed(v, ls.chains[h], pos, op.key)
    case Fetching(o, ptroff, pos, rec) => op.FetchOp? && Located(d, op, o, ptroff, pos, rec)
    case Over(o, ptroff, pos, rec) =>
      Inserts(op, true) && Located(d, op, o, ptroff, pos, rec) && |op.data| + 1 == rec.datlen
    case DelWait(o, ptroff, pos, rec) => (op.DeleteOp? || Inserts(op, true)) && Located(d, op, o, ptroff, pos, rec)
    case DelData(o, ptroff, pos, rec) => (op.DeleteOp? || Inserts(op, true)) && Located(d, op, o, ptroff, pos, rec)
    case DelFree(o, ptroff, pos, rec) =>
      Cut(d, op, ptroff, pos, rec) && Owned(d, o) && o <= PTR_MAX && v.recs[o] == rec
    case DelRec(o, ptroff, pos, rec, freeptr) =>
      Cut(d, op, ptroff, pos, rec) && Owned(d, o) && o <= PTR_MAX && v.recs[o] == rec && freeptr == v.free
    case DelPush(o, ptroff, pos, rec) =>
      && Cut(d, op, ptroff, pos, rec) && Owned(d, o) && o <= PTR_MAX
      && v.recs[o] == Rec(v.free, Blanks(|rec.key|), rec.datoff, rec.datlen)
    case DelLink(ptroff, pos, rec) => Cut(d, op, ptroff, pos, rec)
    case DelDone => op.key !in ls.loc && (op.DeleteOp? || Inserts(op, true))
    case InsHead(repl) => Inserts(op, repl) && op.key !in ls.loc
    case FreeWait(ptr) => Ready(d, op, false, ptr)
    case FreeHead(ptr) => Ready(d, op, false, ptr)
    case FreeLook(ptr, off, save, pos) =>
      && Ready(d, op, false, ptr)
      && pos <= |ls.freel| && off == At0(ls.freel, pos) && save == SlotOf(0, ls.freel, pos)
    case FreeTake(ptr, o, save, pos, rec) =>
      && Ready(d, op, false, ptr)
      && pos < |ls.freel| && o == ls.freel[pos] && save == SlotOf(0, ls.freel, pos)
      && o in v.recs && v.recs[o] == rec
      && |rec.key| == |op.key| && rec.datlen == |op.data| + 1
    case FreeNone(ptr) => Ready(d, op, false, ptr)
    case FreeGot(ptr, o, rec) => Taken(d, op, ptr, o, rec)
    case ReuseData(ptr, o, rec) => Taken(d, op, ptr, o, rec)
    case ReuseRec(ptr, o, rec) => Taken(d, op, ptr, o, rec) && HasData(d, o, op.data)
    case DatWait(ptr, repl) => Ready(d, op, repl, ptr)
    case DatSeek(ptr, repl) => Ready(d, op, repl, ptr)
    case DatWrite(ptr, repl, off) => Ready(d, op, repl, ptr) && off == |d.dat|
    case DatDone(ptr, repl, off) => Ready(d, op, repl, ptr) && Stands(d, off, op.data)
    case TailWait(ptr, repl, off) => Ready(d, op, repl, ptr) && Stands(d, off, op.data)
    case TailSeek(ptr, repl, off) => Ready(d, op, repl, ptr) && Stands(d, off, op.data)
    case TailWrite(ptr, repl, off, end) => Ready(d, op, repl, ptr) && Stands(d, off, op.data) && end == End(d.im)
    case TailDone(repl, o) => Prepared(d, op, repl, o)
    case Link(repl, o) => Prepared(d, op, repl, o)
    case Release(_) => true
  }

  // ---------- The processes together ----------

  ghost predicate LocksOk(nhash: nat, pcs: seq<Pc>)
    requires nhash > 0
  {
    forall p, q :: 0 <= p < |pcs| && 0 <= q < |pcs| && p != q ==> !Clash(nhash, pcs[p], pcs[q])
  }

  /** No two processes own one record; every held record has its owner. */
  ghost predicate OwnersOk(ls: Lists, pcs: seq<Pc>) {
    && (forall p, q :: 0 <= p < |pcs| && 0 <= q < |pcs| && p != q && HeldBy(pcs[p]).Orphan? ==>
          HeldBy(pcs[p]) != HeldBy(pcs[q]))
    && (forall o :: o in ls.home && ls.home[o] == Held ==> Owner(pcs, o))
  }

  ghost predicate Owner(pcs: seq<Pc>, o: nat) {
    exists p :: 0 <= p < |pcs| && HeldBy(pcs[p]) == Orphan(o)
  }

  /** Data appended and not yet recorded lies apart from other such data. */
  ghost predicate AppendsApart(pcs: seq<Pc>) {
    forall p, q :: 0 <= p < |pcs| && 0 <= q < |pcs| && p != q && Appended(pcs[p]).Orphan? && Appended(pcs[q]).Orphan? ==>
      NewApart(pcs[p], pcs[q])
  }

  ghost predicate NewApart(a: Pc, b: Pc) {
    a.Busy? && b.Busy? && a.op.StoreOp? && b.op.StoreOp? && Appended(a).Orphan? && Appended(b).Orphan? ==>
      Apart(Rec(0, "", Appended(a).o, |a.op.data| + 1), Rec(0, "", Appended(b).o, |b.op.data| + 1))
  }

  /** An unfinished pointer write belongs to a process in the middle of a deletion. */
  ghost predicate PendOwned(d: Disk, pcs: seq<Pc>)
    requires |d.im.heads| > 0
  {
    d.pend.Pend? ==>
      exists p :: 0 <= p < |pcs| && InWindow(pcs[p]) && Chain(pcs[p].op, |d.im.heads|) == d.pend.h
  }

  /** A process is replacing this key. */
  ghost predicate Exempt(pcs: seq<Pc>, k: string) {
    exists p :: 0 <= p < |pcs| && Replacing(pcs[p]) && pcs[p].op.key == k
  }

  ghost predicate SameAt(m: map<string, string>, c: map<string, string>, k: string) {
    (k in m <==> k in c) && (k in m ==> m[k] == c[k])
  }

  /** The files stand for the abstract map, but for keys whose replacement is under way. */
  ghost predicate AbsOk(s: Sys)
    requires DiskOk(s.d)
  {
    && (forall k :: SameAt(s.abs, Meaning(s.d), k) || Exempt(s.pcs, k))
    && (forall p :: 0 <= p < |s.pcs| && Replacing(s.pcs[p]) ==>
          s.pcs[p].op.key in s.abs && s.pcs[p].op.key !in s.d.ls.loc)
  }

  ghost predicate Inv(s: Sys) {
    && DiskOk(s.d)
    && LocksOk(|s.d.im.heads|, s.pcs)
    && (forall p :: 0 <= p < |s.pcs| ==> PcOk(s.d, s.pcs[p]))
    && OwnersOk(s.d.ls, s.pcs)
    && AppendsApart(s.pcs)
    && PendOwned(s.d, s.pcs)
    && AbsOk(s)
  }
}
