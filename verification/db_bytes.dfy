/**
 The bytes of the index file under several processes: each step writes at most one string
 into one of the two files, the bytes keep holding the records of the model, and what a
 process reads of the records is what _db_readptr and _db_readidx make of the bytes.
 */
module DbBytes {
  import opened DbFormat
  import opened DbImage
  import opened DbLists
  import opened DbSteps
  import opened DbSpec
  import opened DbProcesses
  import opened DbInvariant
  import opened DbMoves
  import opened DbConcurrent
  import opened DbAtomic
  import opened DbTheorems
  import DbScan

  /** A write to a file: a string at an offset. */
  datatype Write = NoWrite | Put(off: nat, text: string)

  function Written(file: string, w: Write): string {
    if w.Put? && w.off <= |file| then Overwrite(file, w.off, w.text) else file
  }

  /** What the next step of a process writes into the index file. */
  function IdxWrite(pc: Pc, nhash: nat): Write
    requires nhash > 0
  {
    match pc
    case Busy(op, DelRec(o, _, _, rec, freeptr)) =>
      Put(o, Rec(freeptr, Blanks(|rec.key|), rec.datoff, rec.datlen).Text())
    case Busy(op, DelPush(o, _, _, _)) => Put(0, PtrText(o))
    case Busy(op, DelLink(ptroff, _, rec)) => Put(ptroff, PtrText(rec.ptr))
    case Busy(op, FreeTake(_, _, save, _, rec)) => Put(save, PtrText(rec.ptr))
    case Busy(StoreOp(key, data, _), ReuseRec(ptr, o, rec)) => Put(o, Rec(ptr, key, rec.datoff, |data| + 1).Text())
    case Busy(StoreOp(key, data, _), TailWrite(ptr, _, off, end)) =>
      var r := Rec(ptr, key, off, |data| + 1);
      if IDXLEN_MIN <= r.EntryLen() <= IDXLEN_MAX then Put(end, r.Text()) else NoWrite
    case Busy(op, Link(_, o)) => if o <= PTR_MAX then Put(ChainOff(Chain(op, nhash)), PtrText(o)) else NoWrite
    case _ => NoWrite
  }

  /** What it writes into the data file. */
  function DataWrite(pc: Pc): Write {
    match pc
    case Busy(StoreOp(_, data, _), Over(_, _, _, rec)) => Put(rec.datoff, data + [NEWLINE])
    case Busy(op, DelData(_, _, _, rec)) =>
      if rec.datlen > 0 then Put(rec.datoff, Blanks(rec.datlen - 1) + [NEWLINE]) else NoWrite
    case Busy(StoreOp(_, data, _), ReuseData(_, _, rec)) => Put(rec.datoff, data + [NEWLINE])
    case Busy(StoreOp(_, data, _), DatWrite(_, _, off)) => Put(off, data + [NEWLINE])
    case _ => NoWrite
  }

  // ---------- Each write ----------

  /** The pointer a deletion has still to write fits its field. */
  lemma PendingFits(d: Disk)
    requires DiskOk(d) && d.pend.Pend?
    ensures d.pend.val <= PTR_MAX
  {
    hide FreeOk, HomesOk, LocOk, ExtentsOk, TextOk, Hash, Tiled, LiveOn;
    ViewSlot(d);
    var h, pos := d.pend.h, d.pend.pos;
    assert ChainOk(View(d), d.ls, h);
    SlotShape(View(d), d.ls, h, pos);
    if pos > 0 {
      OnChain(View(d), d.ls, h, pos - 1);
    } else {
      ChainStart(View(d), d.ls, h);
      if d.ls.chains[h] != [] {
        OnChain(View(d), d.ls, h, 0);
      }
    }
  }

  lemma DelRecBytes(s: Sys, p: nat, idx: string)
    requires Inv(s) && p < |s.pcs| && s.pcs[p].Busy? && s.pcs[p].at.DelRec? && Holds(s.d.im, idx)
    ensures Holds(Advance(s, p).d.im, Written(idx, IdxWrite(s.pcs[p], |s.d.im.heads|)))
  {
    hide Inv, DiskOk, Holds, View, Blanks, Rec.Text, Rec.Size, Overwrite;
    PcOkAt(s, p);
    DiskOfInv(s);
    var d, at := s.d, s.pcs[p].at;
    OwnRec(d, at.o);
    FieldsInFile(d.im, idx);
    BlankKeepsLength(d.im, at.o);
    RecordStart(d.im, idx, at.o);
    RewriteHolds(d.im, idx, at.o, BlankRec(d.im, at.o));
  }

  lemma RecordStart(im: Image, idx: string, o: nat)
    requires Holds(im, idx) && o in im.recs
    ensures o <= |idx|
  {
    hide Tiled, Rec.Size;
    RecordInFile(im, o);
  }

  lemma DelPushBytes(s: Sys, p: nat, idx: string)
    requires Inv(s) && p < |s.pcs| && s.pcs[p].Busy? && s.pcs[p].at.DelPush? && Holds(s.d.im, idx)
    ensures Holds(Advance(s, p).d.im, Written(idx, IdxWrite(s.pcs[p], |s.d.im.heads|)))
  {
    hide Inv, DiskOk, Holds, View, Blanks, PtrText, Overwrite, Cut, Owned;
    PcOkAt(s, p);
    DiskOfInv(s);
    SetFreeHolds(s.d.im, idx, s.pcs[p].at.o);
  }

  lemma DelLinkBytes(s: Sys, p: nat, idx: string)
    requires Inv(s) && p < |s.pcs| && s.pcs[p].Busy? && s.pcs[p].at.DelLink? && Holds(s.d.im, idx)
    ensures Holds(Advance(s, p).d.im, Written(idx, IdxWrite(s.pcs[p], |s.d.im.heads|)))
  {
    hide Inv, DiskOk, Holds, View, PtrText, Overwrite, SetPtr, IsSlot, Atol;
    PcOkAt(s, p);
    DiskOfInv(s);
    var d, at := s.d, s.pcs[p].at;
    ViewFacts(d);
    PendingFits(d);
    PtrInFile(d.im, idx, at.ptroff);
    SetPtrHolds(d.im, idx, at.ptroff, at.rec.ptr);
  }

  lemma FreeTakeBytes(s: Sys, p: nat, idx: string)
    requires Inv(s) && p < |s.pcs| && s.pcs[p].Busy? && s.pcs[p].at.FreeTake? && Holds(s.d.im, idx)
    ensures Holds(Advance(s, p).d.im, Written(idx, IdxWrite(s.pcs[p], |s.d.im.heads|)))
  {
    hide Inv, DiskOk, Holds, PtrText, Overwrite, SetPtr, IsSlot, Atol, Ready, Contents, Within, SameShape, End;
    PcOkAt(s, p);
    DiskOfInv(s);
    var d, at := s.d, s.pcs[p].at;
    NonePending(s, p);
    MoveTake(d, at.pos, 0);
    FieldsInFile(d.im, idx);
    PtrInFile(d.im, idx, at.save);
    SetPtrHolds(d.im, idx, at.save, at.rec.ptr);
  }

  lemma ReuseRecBytes(s: Sys, p: nat, idx: string)
    requires Inv(s) && p < |s.pcs| && s.pcs[p].Busy? && s.pcs[p].at.ReuseRec? && Holds(s.d.im, idx)
    ensures Holds(Advance(s, p).d.im, Written(idx, IdxWrite(s.pcs[p], |s.d.im.heads|)))
  {
    hide Inv, Holds, Rec.Text, Rec.Size, Rec.Ok, Overwrite, Hash;
    var d, op, at := s.d, s.pcs[p].op, s.pcs[p].at;
    ReuseFacts(s, p, idx);
    RecordStart(d.im, idx, at.o);
    RewriteHolds(d.im, idx, at.o, Rec(at.ptr, op.key, at.rec.datoff, |op.data| + 1));
  }

  /** The record that is written has the size of the one it replaces. */
  lemma ReuseFacts(s: Sys, p: nat, idx: string)
    requires Inv(s) && p < |s.pcs| && s.pcs[p].Busy? && s.pcs[p].at.ReuseRec? && Holds(s.d.im, idx)
    ensures var op, at := s.pcs[p].op, s.pcs[p].at;
      && op.StoreOp? && at.o in s.d.im.recs && 0 < |s.d.im.heads|
      && var r := Rec(at.ptr, op.key, at.rec.datoff, |op.data| + 1);
      r.Ok() && r.Size() == s.d.im.recs[at.o].Size()
  {
    hide Inv, DiskOk, Holds, View, Rec.Text, Rec.Size, Rec.Ok, HasData, Hash, Blanks, KeyText;
    PcOkAt(s, p);
    DiskOfInv(s);
    var d, op, at := s.d, s.pcs[p].op, s.pcs[p].at;
    OwnRec(d, at.o);
    FieldsInFile(d.im, idx);
    ChainInTable(op, |d.im.heads|);
    StoredKey(op);
    SizeOf(d.im.recs[at.o], Rec(at.ptr, op.key, at.rec.datoff, |op.data| + 1));
  }

  lemma StoredKey(op: Op)
    requires op.StoreOp? && Reaches(op)
    ensures KeyText(op.key)
  {
  }

  lemma SizeOf(r: Rec, t: Rec)
    requires |r.key| == |t.key| && r.datoff == t.datoff && r.datlen == t.datlen
    ensures r.Size() == t.Size() && (r.Ok() && t.ptr <= PTR_MAX && KeyText(t.key) ==> t.Ok())
  {
    hide Entry;
    EntryLenOf(r.key, t.key, r.datoff, r.datlen);
  }

  lemma ChainInTable(op: Op, nhash: nat)
    requires nhash > 0
    ensures Chain(op, nhash) < nhash
  {
  }

  lemma TailWriteBytes(s: Sys, p: nat, idx: string)
    requires Inv(s) && p < |s.pcs| && s.pcs[p].Busy? && s.pcs[p].at.TailWrite? && Holds(s.d.im, idx)
    ensures Holds(Advance(s, p).d.im, Written(idx, IdxWrite(s.pcs[p], |s.d.im.heads|)))
  {
    hide Inv, DiskOk, Holds, View, Rec.Text, Rec.Size, Overwrite, Entry, Hash, Stands, End;
    PcOkAt(s, p);
    DiskOfInv(s);
    var d, op, at := s.d, s.pcs[p].op, s.pcs[p].at;
    FieldsInFile(d.im, idx);
    ChainInTable(op, |d.im.heads|);
    var r := Rec(at.ptr, op.key, at.off, |op.data| + 1);
    if IDXLEN_MIN <= r.EntryLen() <= IDXLEN_MAX {
      IndexEnd(d.im, idx);
      AppendHolds(d.im, idx, r);
    }
  }

  lemma IndexEnd(im: Image, idx: string)
    requires Holds(im, idx)
    ensures |idx| == End(im)
  {
  }

  lemma LinkBytes(s: Sys, p: nat, idx: string)
    requires Inv(s) && p < |s.pcs| && s.pcs[p].Busy? && s.pcs[p].at.Link? && Holds(s.d.im, idx)
    ensures Holds(Advance(s, p).d.im, Written(idx, IdxWrite(s.pcs[p], |s.d.im.heads|)))
  {
    hide Inv, DiskOk, Holds, View, PtrText, Overwrite, Hash, Prepared, Apply, Atol;
    DiskOfInv(s);
    var d, op, at := s.d, s.pcs[p].op, s.pcs[p].at;
    if at.o <= PTR_MAX {
      var h := Chain(op, |d.im.heads|);
      ChainInTable(op, |d.im.heads|);
      HeadSlots(d.im, h);
      PtrInFile(d.im, idx, ChainOff(h));
      SetHeadHolds(d.im, idx, h, at.o);
    }
  }

  // ---------- Steps and runs ----------

  /** Every step is one write at most, and the bytes hold the records of the model afterwards. */
  lemma StepBytes(s: Sys, p: nat, s': Sys, idx: string)
    requires Inv(s) && |s.d.im.heads| > 0 && Step(s, p, s') && Holds(s.d.im, idx)
    ensures Holds(s'.d.im, Written(idx, IdxWrite(s.pcs[p], |s.d.im.heads|)))
    ensures s'.d.dat == Written(s.d.dat, DataWrite(s.pcs[p]))
    ensures IdxWrite(s.pcs[p], |s.d.im.heads|).NoWrite? || DataWrite(s.pcs[p]).NoWrite?
  {
    hide Inv, Holds, Granted, Reaches, Hash, Overwrite, Rec.Text, Blanks, Apply, SetPtr, IsSlot, Entry, PtrText, End;
    if s.pcs[p].Busy? {
      var at := s.pcs[p].at;
      DataWritten(s, p);
      hide Advance, IdxWrite, DataWrite, Written;
      if at.DelRec? {
        DelRecBytes(s, p, idx);
      } else if at.DelPush? {
        DelPushBytes(s, p, idx);
      } else if at.DelLink? {
        DelLinkBytes(s, p, idx);
      } else if at.FreeTake? {
        FreeTakeBytes(s, p, idx);
      } else if at.ReuseRec? {
        ReuseRecBytes(s, p, idx);
      } else if at.TailWrite? {
        TailWriteBytes(s, p, idx);
      } else if at.Link? {
        LinkBytes(s, p, idx);
      } else {
        NothingWritten(s, p, idx);
      }
    }
  }

  lemma NothingWritten(s: Sys, p: nat, idx: string)
    requires p < |s.pcs| && s.pcs[p].Busy? && |s.d.im.heads| > 0
    requires var at := s.pcs[p].at;
      && !at.DelRec? && !at.DelPush? && !at.DelLink? && !at.FreeTake? && !at.ReuseRec? && !at.TailWrite? && !at.Link?
    ensures IdxWrite(s.pcs[p], |s.d.im.heads|).NoWrite? && Advance(s, p).d.im == s.d.im
  {
    hide Hash, Overwrite, Rec.Text, Blanks, Apply, SetPtr, IsSlot, Entry, PtrText, End;
  }

  lemma DataWritten(s: Sys, p: nat)
    requires Inv(s) && p < |s.pcs| && s.pcs[p].Busy? && |s.d.im.heads| > 0
    ensures Advance(s, p).d.dat == Written(s.d.dat, DataWrite(s.pcs[p]))
    ensures IdxWrite(s.pcs[p], |s.d.im.heads|).NoWrite? || DataWrite(s.pcs[p]).NoWrite?
  {
    hide Inv, Hash, Overwrite, Rec.Text, Blanks, Apply, SetPtr, IsSlot, Entry, PtrText, End, Locked, OnHit, OnMiss, Unlinked,
      TakenFree, PushedFree, Linked;
    if s.pcs[p].at.DelData? {
      hide Advance, Written, DataWrite;
      BlankWritten(s, p);
    }
  }

  lemma BlankWritten(s: Sys, p: nat)
    requires Inv(s) && p < |s.pcs| && s.pcs[p].Busy? && |s.d.im.heads| > 0 && s.pcs[p].at.DelData?
    ensures Advance(s, p).d.dat == Written(s.d.dat, DataWrite(s.pcs[p]))
    ensures IdxWrite(s.pcs[p], |s.d.im.heads|).NoWrite?
  {
    hide Inv, DiskOk, View, Hash, Overwrite, Blanks, Apply;
    PcOkAt(s, p);
    DiskOfInv(s);
    ChainInTable(s.pcs[p].op, |s.d.im.heads|);
  }

  /** The bytes of the index file after n steps of a run that starts with these. */
  ghost function FileAfter(r: Run, idx: string, n: nat): string
    requires n <= |r.pids| && |r.states| == |r.pids| + 1
  {
    if n == 0 then idx
    else
      var s, p := r.states[n - 1], r.pids[n - 1];
      var before := FileAfter(r, idx, n - 1);
      if p < |s.pcs| && |s.d.im.heads| > 0 then Written(before, IdxWrite(s.pcs[p], |s.d.im.heads|)) else before
  }

  /** In every state of every run the bytes of the index file hold the records of the state. */
  lemma {:induction false} RunBytes(r: Run, idx: string, n: nat)
    requires IsRun(r) && n <= |r.pids| && Holds(r.states[0].d.im, idx)
    ensures Holds(r.states[n].d.im, FileAfter(r, idx, n))
  {
    hide Init, Inv, Holds, Step, IdxWrite, DataWrite, Written;
    if n > 0 {
      RunBytes(r, idx, n - 1);
      RunInv(r, n - 1);
      assert StepsAt(r, n - 1);
      StepBytes(r.states[n - 1], r.pids[n - 1], r.states[n], FileAfter(r, idx, n - 1));
      StepHasProcess(r.states[n - 1], r.pids[n - 1], r.states[n]);
    }
  }

  lemma StepHasProcess(s: Sys, p: nat, s': Sys)
    requires |s.d.im.heads| > 0 && Step(s, p, s')
    ensures p < |s.pcs|
  {
  }

  ghost predicate ReadsAs(idx: string, o: nat, r: Rec) {
    ParseRecord(idx, o, false) == Record(r.ptr, r.EntryLen(), r.key, r.datoff, r.datlen)
  }

  /** Pointers and records that a process reads are what the source makes of the bytes. */
  lemma ReadsAreBytes(s: Sys, p: nat, idx: string)
    requires Inv(s) && p < |s.pcs| && s.pcs[p].Busy? && Holds(s.d.im, idx)
    ensures var im, op, at := s.d.im, s.pcs[p].op, s.pcs[p].at;
      var c := ChainOff(Chain(op, |im.heads|));
      && PTR_SZ <= |idx| && c + PTR_SZ <= |idx| && Chain(op, |im.heads|) < |im.heads|
      && Atol(idx[c..c + PTR_SZ]) == im.heads[Chain(op, |im.heads|)] && Atol(idx[..PTR_SZ]) == im.free
      && (at.Look? || at.FreeLook? ==> at.off == 0 || (at.off in im.recs && ReadsAs(idx, at.off, im.recs[at.off])))
  {
    hide Inv, DiskOk, Holds, View, Hash, Atol, ParseRecord, Ready, Passed, ListsOk, ExtentsOk, Tiled;
    PcOkAt(s, p);
    DiskOfInv(s);
    var d, op, at := s.d, s.pcs[p].op, s.pcs[p].at;
    var h := Chain(op, |d.im.heads|);
    ChainInTable(op, |d.im.heads|);
    HeadSlots(d.im, h);
    PtrInFile(d.im, idx, ChainOff(h));
    PtrInFile(d.im, idx, 0);
    if (at.Look? || at.FreeLook?) && at.off != 0 {
      OffsetThere(s, p);
      RecordInBytes(d.im, idx, at.off, false);
    }
  }

  lemma OffsetThere(s: Sys, p: nat)
    requires Inv(s) && p < |s.pcs| && s.pcs[p].Busy? && (s.pcs[p].at.Look? || s.pcs[p].at.FreeLook?) && s.pcs[p].at.off != 0
    ensures s.pcs[p].at.off in s.d.im.recs
  {
    hide Inv, DiskOk, View, Hash, Ready, Passed, ExtentsOk, Tiled, FreeOk, HomesOk, LocOk, Threaded, LiveOn;
    PcOkAt(s, p);
    DiskOfInv(s);
    var d, op, at := s.d, s.pcs[p].op, s.pcs[p].at;
    ViewFacts(d);
    if at.Look? {
      var h := Chain(op, |d.im.heads|);
      ChainInTable(op, |d.im.heads|);
      assert ChainOk(View(d), d.ls, h);
      OnChain(View(d), d.ls, h, at.pos);
    } else {
      OnFreeList(View(d), d.ls, at.pos);
    }
  }

  /** Between calls the bytes of both files are a sound database for the abstract map. */
  lemma QuiescentFiles(r: Run, idx: string, n: nat)
    requires IsRun(r) && n <= |r.pids| && Holds(r.states[0].d.im, idx)
    requires forall p :: 0 <= p < |r.states[n].pcs| ==>
      !r.states[n].pcs[p].Busy? && !(r.states[n].pcs[p].Dead? && r.states[n].pcs[p].orphan.Orphan?)
    ensures var d := r.states[n].d;
      && Holds(d.im, FileAfter(r, idx, n)) && Sound(d.im, d.dat, d.ls) && DbScan.Settled(d.ls)
      && Contents(d.im, d.dat, d.ls) == r.states[n].abs
  {
    hide Init, Inv, Holds, Sound, FileAfter;
    RunBytes(r, idx, n);
    RunInv(r, n);
    QuiescentIsSound(r.states[n]);
  }
}
