/**
 What one process writes does not disturb what another one knows: the locks keep their
 chains, the free list and the ends of the files apart.
 */
module DbFrames {
  import opened DbFormat
  import opened DbImage
  import opened DbLists
  import opened DbSteps
  import opened DbSpec
  import opened DbProcesses
  import opened DbInvariant
  import opened DbMoves

  /** The own record of a change is off all lists, or on the chain the change may touch. */
  ghost predicate OwnPlace(d: Disk, h: nat, own: Orphan)
    requires DiskOk(d)
  {
    own.Orphan? && own.o in View(d).recs && own.o in d.ls.home ==>
      && d.ls.home[own.o] != Free
      && (d.ls.home[own.o] == Live ==> Hash(View(d).recs[own.o].key, |View(d).heads|) == h)
  }

  lemma KeptChain(d: Disk, d': Disk, h: nat, own: Orphan, free: bool, g: nat)
    requires DiskOk(d) && DiskOk(d') && Within(d, d', h, own, free) && OwnPlace(d, h, own)
    requires g != h && g < |d.im.heads|
    ensures g < |d.ls.chains| && g < |d'.ls.chains| && d'.ls.chains[g] == d.ls.chains[g]
    ensures forall i :: 0 <= i < |d.ls.chains[g]| ==>
      var x := d.ls.chains[g][i];
      x in View(d).recs && x in d.ls.home && SameAtRec(d, d', x)
  {
    hide FreeOk, HomesOk, LocOk, ExtentsOk, TextOk, Hash, Tiled, View, Value, KeysKept;
    ViewFacts(d);
    assert ChainOk(View(d), d.ls, g);
    forall i | 0 <= i < |d.ls.chains[g]|
      ensures var x := d.ls.chains[g][i];
        x in View(d).recs && x in d.ls.home && SameAtRec(d, d', x)
    {
      OnChain(View(d), d.ls, g, i);
      assert Beyond(d, h, own, free, d.ls.chains[g][i]);
    }
  }

  lemma KeptFree(d: Disk, d': Disk, h: nat, own: Orphan)
    requires DiskOk(d) && DiskOk(d') && Within(d, d', h, own, false) && OwnPlace(d, h, own)
    ensures d'.ls.freel == d.ls.freel && View(d').free == View(d).free
    ensures forall i :: 0 <= i < |d.ls.freel| ==>
      var x := d.ls.freel[i];
      x in View(d).recs && x in d.ls.home && SameAtRec(d, d', x)
  {
    hide ChainOk, HomesOk, LocOk, ExtentsOk, TextOk, Hash, Tiled, View, Value, KeysKept;
    forall i | 0 <= i < |d.ls.freel|
      ensures var x := d.ls.freel[i];
        x in View(d).recs && x in d.ls.home && SameAtRec(d, d', x)
    {
      OnFreeList(View(d), d.ls, i);
      assert Beyond(d, h, own, false, d.ls.freel[i]);
    }
  }

  lemma KeptHeld(d: Disk, d': Disk, h: nat, own: Orphan, free: bool, o: nat)
    requires DiskOk(d) && DiskOk(d') && Within(d, d', h, own, free)
    requires Owned(d, o) && own != Orphan(o)
    ensures Owned(d', o) && SameAtRec(d, d', o)
  {
    hide ListsOk, ExtentsOk, TextOk, Hash, Tiled, View, Value, KeysKept, ChainsKept;
    assert Beyond(d, h, own, free, o);
  }

  /** A change that a process's locks and ownership shut out of its business. */
  ghost predicate Undisturbed(d: Disk, d': Disk, h: nat, own: Orphan, free: bool, pc: Pc)
    requires DiskOk(d) && DiskOk(d')
  {
    && Within(d, d', h, own, free) && OwnPlace(d, h, own)
    && (HoldsChain(pc) ==> Chain(pc.op, |d.im.heads|) != h)
    && (HeldBy(pc).Orphan? ==> HeldBy(pc) != own)
    && (HoldsFree(pc) ==> !free)
    && (InWindow(pc) ==> d'.pend == d.pend)
    && (pc.Busy? && pc.op.StoreOp? && Appended(pc).Orphan? ==>
          (Stands(d, Appended(pc).o, pc.op.data) ==> Stands(d', Appended(pc).o, pc.op.data)))
    && (HoldsData(pc) ==> |d'.dat| == |d.dat|)
    && (HoldsTail(pc) ==> End(d'.im) == End(d.im))
  }

  lemma FrameLook(d: Disk, d': Disk, h: nat, own: Orphan, free: bool, op: Op, at: At)
    requires DiskOk(d) && DiskOk(d') && at.Look? && Undisturbed(d, d', h, own, free, Busy(op, at))
    requires AtOk(d, op, at)
    ensures AtOk(d', op, at)
  {
    var g := Chain(op, |d.im.heads|);
    hide DiskOk, Hash, View, KeysKept, RecsKept, Stands, OwnPlace, Passed, SameAtRec;
    KeptChain(d, d', h, own, free, g);
    FramePassed(d, d', d.ls.chains[g], at.pos, op.key);
  }

  lemma FramePassed(d: Disk, d': Disk, l: seq<nat>, pos: nat, key: string)
    requires DiskOk(d) && DiskOk(d') && pos <= |l| && Passed(View(d), l, pos, key)
    requires forall i :: 0 <= i < |l| ==> l[i] in View(d).recs && l[i] in d.ls.home && SameAtRec(d, d', l[i])
    ensures Passed(View(d'), l, pos, key)
  {
    hide DiskOk, View, Value;
  }

  lemma FrameLocated(d: Disk, d': Disk, h: nat, own: Orphan, free: bool, op: Op, o: nat, ptroff: nat, pos: nat, rec: Rec)
    requires DiskOk(d) && DiskOk(d') && Within(d, d', h, own, free) && OwnPlace(d, h, own)
    requires Chain(op, |d.im.heads|) != h && Located(d, op, o, ptroff, pos, rec)
    ensures Located(d', op, o, ptroff, pos, rec)
  {
    hide ListsOk, ExtentsOk, TextOk, Hash, Tiled, View, Value, KeysKept, RecsKept, OwnPlace;
    KeptChain(d, d', h, own, free, Chain(op, |d.im.heads|));
    assert SameAtRec(d, d', d.ls.chains[Chain(op, |d.im.heads|)][pos]);
  }

  lemma FrameReady(d: Disk, d': Disk, h: nat, own: Orphan, free: bool, op: Op, repl: bool, ptr: nat)
    requires DiskOk(d) && DiskOk(d') && Within(d, d', h, own, free)
    requires Chain(op, |d.im.heads|) != h && Ready(d, op, repl, ptr)
    ensures Ready(d', op, repl, ptr)
  {
    hide ListsOk, ExtentsOk, TextOk, Hash, Tiled, View, RecsKept;
  }

  lemma FrameCut(d: Disk, d': Disk, h: nat, own: Orphan, free: bool, op: Op, ptroff: nat, pos: nat, rec: Rec)
    requires DiskOk(d) && DiskOk(d') && Within(d, d', h, own, free) && d'.pend == d.pend
    requires Chain(op, |d.im.heads|) != h && Cut(d, op, ptroff, pos, rec)
    ensures Cut(d', op, ptroff, pos, rec)
  {
    hide ListsOk, ExtentsOk, TextOk, Hash, Tiled, View, RecsKept;
  }

  lemma FrameOwned(d: Disk, d': Disk, h: nat, own: Orphan, free: bool, o: nat)
    requires DiskOk(d) && DiskOk(d') && Within(d, d', h, own, free)
    requires Owned(d, o) && own != Orphan(o)
    ensures Owned(d', o) && View(d').recs[o] == View(d).recs[o]
    ensures Value(View(d'), d'.dat, o) == Value(View(d), d.dat, o)
  {
    hide ListsOk, ExtentsOk, TextOk, Hash, Tiled, View, Value, RecsKept, Within;
    KeptHeld(d, d', h, own, free, o);
  }

  lemma FrameDelete(d: Disk, d': Disk, h: nat, own: Orphan, free: bool, op: Op, at: At)
    requires DiskOk(d) && DiskOk(d') && Undisturbed(d, d', h, own, free, Busy(op, at))
    requires at.DelFree? || at.DelRec? || at.DelPush? || at.DelLink? || at.DelDone?
    requires AtOk(d, op, at)
    ensures AtOk(d', op, at)
  {
    hide ListsOk, ExtentsOk, TextOk, Hash, Tiled, View, Value, KeysKept, RecsKept, OwnPlace, Cut, Owned, Blanks, Stands;
    KeptFree(d, d', h, own);
    match at
    case DelFree(o, ptroff, pos, rec) =>
      FrameCut(d, d', h, own, free, op, ptroff, pos, rec);
      FrameOwned(d, d', h, own, free, o);
    case DelRec(o, ptroff, pos, rec, _) =>
      FrameCut(d, d', h, own, free, op, ptroff, pos, rec);
      FrameOwned(d, d', h, own, free, o);
    case DelPush(o, ptroff, pos, rec) =>
      FrameCut(d, d', h, own, free, op, ptroff, pos, rec);
      FrameOwned(d, d', h, own, free, o);
    case DelLink(ptroff, pos, rec) =>
      FrameCut(d, d', h, own, free, op, ptroff, pos, rec);
    case DelDone =>
      assert KeysKept(d, d', h);
      FrameAbsent(d, d', h, op);
  }

  lemma FrameAbsent(d: Disk, d': Disk, h: nat, op: Op)
    requires DiskOk(d) && KeysKept(d, d', h) && Chain(op, |d.im.heads|) != h
    ensures op.key in d.ls.loc <==> op.key in d'.ls.loc
  {
    hide DiskOk, Hash;
  }

  lemma FrameFree(d: Disk, d': Disk, h: nat, own: Orphan, free: bool, op: Op, at: At)
    requires DiskOk(d) && DiskOk(d') && Undisturbed(d, d', h, own, free, Busy(op, at))
    requires at.FreeHead? || at.FreeLook? || at.FreeTake? || at.FreeNone? || at.FreeGot?
    requires AtOk(d, op, at)
    ensures AtOk(d', op, at)
  {
    hide ListsOk, ExtentsOk, TextOk, Hash, Tiled, View, Value, KeysKept, RecsKept, OwnPlace, Ready, Owned, Blanks, Stands;
    KeptFree(d, d', h, own);
    match at
    case FreeHead(ptr) => FrameReady(d, d', h, own, free, op, false, ptr);
    case FreeLook(ptr, off, save, pos) => FrameReady(d, d', h, own, free, op, false, ptr);
    case FreeTake(ptr, o, save, pos, rec) =>
      FrameReady(d, d', h, own, free, op, false, ptr);
      assert SameAtRec(d, d', d.ls.freel[pos]);
    case FreeNone(ptr) => FrameReady(d, d', h, own, free, op, false, ptr);
    case FreeGot(ptr, o, rec) =>
      FrameReady(d, d', h, own, free, op, false, ptr);
      FrameOwned(d, d', h, own, free, o);
  }

  lemma FrameStore(d: Disk, d': Disk, h: nat, own: Orphan, free: bool, op: Op, at: At)
    requires DiskOk(d) && DiskOk(d') && Undisturbed(d, d', h, own, free, Busy(op, at))
    requires at.ReuseData? || at.ReuseRec? || at.TailDone? || at.Link?
    requires AtOk(d, op, at)
    ensures AtOk(d', op, at)
  {
    hide ListsOk, ExtentsOk, TextOk, Hash, Tiled, View, Value, KeysKept, RecsKept, OwnPlace, Ready, Blanks, Stands;
    match at
    case ReuseData(ptr, o, rec) =>
      FrameReady(d, d', h, own, free, op, false, ptr);
      FrameOwned(d, d', h, own, free, o);
    case ReuseRec(ptr, o, rec) =>
      FrameReady(d, d', h, own, free, op, false, ptr);
      FrameOwned(d, d', h, own, free, o);
    case TailDone(repl, o) =>
      FramePrepared(d, d', h, own, free, op, repl, o);
    case Link(repl, o) =>
      FramePrepared(d, d', h, own, free, op, repl, o);
  }

  lemma FramePrepared(d: Disk, d': Disk, h: nat, own: Orphan, free: bool, op: Op, repl: bool, o: nat)
    requires DiskOk(d) && DiskOk(d') && Within(d, d', h, own, free)
    requires Chain(op, |d.im.heads|) != h && own != Orphan(o) && Prepared(d, op, repl, o)
    ensures Prepared(d', op, repl, o)
  {
    hide ListsOk, ExtentsOk, TextOk, Hash, Tiled, View, Value, KeysKept, RecsKept;
    FrameAbsent(d, d', h, op);
    FrameOwned(d, d', h, own, free, o);
  }

  lemma FrameAppend(d: Disk, d': Disk, h: nat, own: Orphan, free: bool, op: Op, at: At)
    requires DiskOk(d) && DiskOk(d') && Undisturbed(d, d', h, own, free, Busy(op, at))
    requires at.DatWait? || at.DatSeek? || at.DatWrite? || at.DatDone? || at.TailWait? || at.TailSeek? || at.TailWrite?
    requires AtOk(d, op, at)
    ensures AtOk(d', op, at)
  {
    hide DiskOk, ExtentsOk, TextOk, Hash, Tiled, View, Value, KeysKept, RecsKept, OwnPlace, Owned, Blanks, Stands, End, Within;
    FrameReady(d, d', h, own, free, op, at.repl, at.ptr);
  }

  lemma Frame(d: Disk, d': Disk, h: nat, own: Orphan, free: bool, pc: Pc)
    requires DiskOk(d) && DiskOk(d') && Undisturbed(d, d', h, own, free, pc)
    requires PcOk(d, pc)
    ensures PcOk(d', pc)
  {
    hide DiskOk, ExtentsOk, TextOk, Hash, Tiled, View, Value, KeysKept, RecsKept, OwnPlace, Owned, Blanks, Stands, End, Ready,
      Located, Cut, Prepared, Taken, AtOk;
    match pc
    case Idle =>
    case ScanWait =>
    case Scanning =>
    case Dead(orphan) =>
      if orphan.Orphan? {
        FrameOwned(d, d', h, own, free, orphan.o);
      }
    case Busy(op, at) => FrameAt(d, d', h, own, free, op, at);
  }

  lemma FrameAt(d: Disk, d': Disk, h: nat, own: Orphan, free: bool, op: Op, at: At)
    requires DiskOk(d) && DiskOk(d') && Undisturbed(d, d', h, own, free, Busy(op, at))
    requires AtOk(d, op, at)
    ensures AtOk(d', op, at)
  {
    hide DiskOk, ExtentsOk, TextOk, Hash, Tiled, View, Value, KeysKept, RecsKept, OwnPlace, Owned, Blanks, Stands, End, Ready,
      Located, Cut, Prepared, Taken;
    match at
    case Wait =>
    case Head =>
    case Look(_, _, _) => FrameLook(d, d', h, own, free, op, at);
    case Fetching(o, ptroff, pos, rec) => FrameLocated(d, d', h, own, free, op, o, ptroff, pos, rec);
    case Over(o, ptroff, pos, rec) => FrameLocated(d, d', h, own, free, op, o, ptroff, pos, rec);
    case DelWait(o, ptroff, pos, rec) => FrameLocated(d, d', h, own, free, op, o, ptroff, pos, rec);
    case DelData(o, ptroff, pos, rec) => FrameLocated(d, d', h, own, free, op, o, ptroff, pos, rec);
    case DelFree(_, _, _, _) => FrameDelete(d, d', h, own, free, op, at);
    case DelRec(_, _, _, _, _) => FrameDelete(d, d', h, own, free, op, at);
    case DelPush(_, _, _, _) => FrameDelete(d, d', h, own, free, op, at);
    case DelLink(_, _, _) => FrameDelete(d, d', h, own, free, op, at);
    case DelDone => FrameDelete(d, d', h, own, free, op, at);
    case InsHead(_) => FrameAbsent(d, d', h, op);
    case FreeWait(ptr) => FrameReady(d, d', h, own, free, op, false, ptr);
    case FreeHead(_) => FrameFree(d, d', h, own, free, op, at);
    case FreeLook(_, _, _, _) => FrameFree(d, d', h, own, free, op, at);
    case FreeTake(_, _, _, _, _) => FrameFree(d, d', h, own, free, op, at);
    case FreeNone(_) => FrameFree(d, d', h, own, free, op, at);
    case FreeGot(_, _, _) => FrameFree(d, d', h, own, free, op, at);
    case ReuseData(_, _, _) => FrameStore(d, d', h, own, free, op, at);
    case ReuseRec(_, _, _) => FrameStore(d, d', h, own, free, op, at);
    case DatWait(_, _) => FrameAppend(d, d', h, own, free, op, at);
    case DatSeek(_, _) => FrameAppend(d, d', h, own, free, op, at);
    case DatWrite(_, _, _) => FrameAppend(d, d', h, own, free, op, at);
    case DatDone(_, _, _) => FrameAppend(d, d', h, own, free, op, at);
    case TailWait(_, _, _) => FrameAppend(d, d', h, own, free, op, at);
    case TailSeek(_, _, _) => FrameAppend(d, d', h, own, free, op, at);
    case TailWrite(_, _, _, _) => FrameAppend(d, d', h, own, free, op, at);
    case TailDone(_, _) => FrameStore(d, d', h, own, free, op, at);
    case Link(_, _) => FrameStore(d, d', h, own, free, op, at);
    case Release(_) =>
  }
}
