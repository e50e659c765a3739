/**
 The single writes of several processes, seen from the disk: each keeps the partition of
 the records and the meaning of the lists, and reaches no further than one chain, one
 record of the writer's own and, under its lock, the free list.
 */
module DbMoves {
  import opened DbFormat
  import opened DbImage
  import opened DbLists
  import opened DbSteps
  import opened DbSpec
  import opened DbProcesses
  import opened DbInvariant

  // ---------- The view and the real files ----------

  /** Position pos of the list of chain h is led to by its head or by a live record. */
  lemma SlotShape(v: Image, ls: Lists, h: nat, pos: nat)
    requires ListsOk(v, ls) && h < |v.heads| && pos <= |ls.chains[h]|
    ensures var slot := SlotOf(ChainOff(h), ls.chains[h], pos);
      && IsSlot(v, slot) && slot != 0
      && (pos == 0 ==> IsHeadSlot(v, slot) && slot / PTR_SZ - 1 == h && slot !in v.recs)
      && (pos > 0 ==> !IsHeadSlot(v, slot) && slot in v.recs && LiveOn(v, ls, slot, h))
  {
    hide FreeOk, LocOk, Hash;
    HeadSlots(v, h);
    assert ChainOk(v, ls, h);
    if pos > 0 {
      OnChain(v, ls, h, pos - 1);
    }
  }

  /** The view differs from the index file in one chain pointer at most. */
  lemma ViewFacts(d: Disk)
    requires DiskOk(d)
    ensures var v := View(d);
      && v.free == d.im.free && v.order == d.im.order && |v.heads| == |d.im.heads| == |d.ls.chains|
      && v.recs.Keys == d.im.recs.Keys
      && (forall o :: o in d.im.recs ==> v.recs[o].(ptr := d.im.recs[o].ptr) == d.im.recs[o])
      && (forall g :: 0 <= g < |v.heads| && !(d.pend.Pend? && d.pend.h == g) ==> v.heads[g] == d.im.heads[g])
    ensures forall o :: o in d.im.recs && View(d).recs[o] != d.im.recs[o] ==>
      d.pend.Pend? && LiveOn(View(d), d.ls, o, d.pend.h)
    ensures d.pend.Pend? ==> PendSlot(d) != 0 && IsSlot(d.im, PendSlot(d))
    ensures d.pend.Pend? ==> d.pend.h < |d.im.heads|
  {
    hide ChainOk, FreeOk, HomesOk, LocOk, ExtentsOk, TextOk, Hash, Rec.Size, Tiled, LiveOn;
    if d.pend.Pend? {
      var slot := PendSlot(d);
      ViewSlot(d);
      SlotShape(View(d), d.ls, d.pend.h, d.pend.pos);
    }
  }

  lemma ViewSlot(d: Disk)
    requires PendFits(d) && d.pend.Pend?
    ensures |View(d).heads| == |d.im.heads|
    ensures View(d).recs.Keys == d.im.recs.Keys
    ensures IsHeadSlot(View(d), PendSlot(d)) <==> IsHeadSlot(d.im, PendSlot(d))
  {
  }

  // ---------- Reach ----------

  /** A record that a change of chain h, of an own record and perhaps of the free list leaves alone. */
  ghost predicate Beyond(d: Disk, h: nat, own: Orphan, free: bool, x: nat)
    requires DiskOk(d) && x in View(d).recs && x in d.ls.home
  {
    && own != Orphan(x)
    && (d.ls.home[x] == Live ==> Hash(View(d).recs[x].key, |View(d).heads|) != h)
    && (free ==> d.ls.home[x] != Free)
  }

  ghost predicate SameAtRec(d: Disk, d': Disk, x: nat)
    requires DiskOk(d) && DiskOk(d') && x in View(d).recs && x in d.ls.home
  {
    && x in View(d').recs && View(d').recs[x] == View(d).recs[x]
    && x in d'.ls.home && d'.ls.home[x] == d.ls.home[x]
    && Value(View(d'), d'.dat, x) == Value(View(d), d.dat, x)
  }

  ghost predicate ChainsKept(d: Disk, d': Disk, h: nat) {
    && |d'.im.heads| == |d.im.heads| == |d.ls.chains| == |d'.ls.chains|
    && forall g :: 0 <= g < |d.im.heads| && g != h ==>
         d'.ls.chains[g] == d.ls.chains[g] && d'.im.heads[g] == d.im.heads[g]
  }

  ghost predicate RecsKept(d: Disk, d': Disk, h: nat, own: Orphan, free: bool)
    requires DiskOk(d) && DiskOk(d')
  {
    forall x :: x in View(d).recs && x in d.ls.home && Beyond(d, h, own, free, x) ==> SameAtRec(d, d', x)
  }

  ghost predicate KeysKept(d: Disk, d': Disk, h: nat)
    requires |d.im.heads| > 0
  {
    forall k :: Hash(k, |d.im.heads|) != h ==> (k in d.ls.loc <==> k in d'.ls.loc)
  }

  /** The change from d to d' stays within chain h, the record own and, if free, the free list. */
  ghost predicate Within(d: Disk, d': Disk, h: nat, own: Orphan, free: bool)
    requires DiskOk(d) && DiskOk(d')
  {
    && ChainsKept(d, d', h)
    && RecsKept(d, d', h, own, free)
    && KeysKept(d, d', h)
    && (!free ==> d'.ls.freel == d.ls.freel && View(d').free == View(d).free)
  }

  // ---------- Writes to an own record ----------

  lemma OwnRec(d: Disk, o: nat)
    requires DiskOk(d) && Owned(d, o)
    ensures o in d.im.recs && d.im.recs[o] == View(d).recs[o]
    ensures d.pend.Pend? ==> PendSlot(d) != o
  {
    hide ChainOk, FreeOk, HomesOk, LocOk, ExtentsOk, TextOk, Hash, Rec.Size, Tiled, View, PendSlot;
    ViewFacts(d);
    if d.pend.Pend? {
      SlotShape(View(d), d.ls, d.pend.h, d.pend.pos);
      hide LiveOn;
      PendSlotIs(d);
    }
  }

  lemma PendSlotIs(d: Disk)
    requires DiskOk(d) && d.pend.Pend?
    ensures d.pend.h < |View(d).heads| && d.pend.pos <= |d.ls.chains[d.pend.h]|
    ensures PendSlot(d) == SlotOf(ChainOff(d.pend.h), d.ls.chains[d.pend.h], d.pend.pos)
    ensures d.pend.pos > 0 ==> PendSlot(d) in d.ls.home && d.ls.home[PendSlot(d)] == Live
  {
    hide FreeOk, LocOk, ExtentsOk, TextOk, Hash, Rec.Size, Tiled;
    ViewSlot(d);
    SlotShape(View(d), d.ls, d.pend.h, d.pend.pos);
  }

  lemma ViewSetRec(d: Disk, o: nat, r: Rec)
    requires DiskOk(d) && Owned(d, o)
    ensures var d' := d.(im := SetRec(d.im, o, r));
      PendFits(d') && View(d') == SetRec(View(d), o, r)
  {
    hide DiskOk, Owned, SetPtr, IsSlot;
    PendFitsIn(d);
    OwnRec(d, o);
    ViewFacts(d);
    var d' := d.(im := SetRec(d.im, o, r));
    if d.pend.Pend? {
      SetRecElsewhere(d.im, o, r, PendSlot(d), d.pend.val);
    }
  }

  lemma SetRecElsewhere(im: Image, o: nat, r: Rec, slot: nat, p: nat)
    requires o in im.recs && IsSlot(im, slot) && slot != o
    ensures IsSlot(SetRec(im, o, r), slot)
    ensures SetPtr(SetRec(im, o, r), slot, p) == SetRec(SetPtr(im, slot, p), o, r)
  {
    if slot != 0 && !IsHeadSlot(im, slot) {
      assert im.recs[o := r][slot] == im.recs[slot];
    }
  }

  /** An own record is rewritten at its size. */
  lemma MoveRec(d: Disk, o: nat, r: Rec, h: nat)
    requires DiskOk(d) && Owned(d, o) && SameRec(View(d).recs[o], r)
    ensures var d' := d.(im := SetRec(d.im, o, r));
      && DiskOk(d') && View(d') == SetRec(View(d), o, r) && End(d'.im) == End(d.im)
      && Within(d, d', h, Orphan(o), false)
      && SameShape(View(d), View(d'))
      && Contents(View(d'), d'.dat, d'.ls) == Contents(View(d), d.dat, d.ls)
      && Value(View(d'), d'.dat, o) == Value(View(d), d.dat, o)
  {
    hide ListsOk, ExtentsOk, TextOk, Hash, Rec.Size, Tiled, View, End, Value, SameShape, Adjacent;
    var d' := d.(im := SetRec(d.im, o, r));
    OwnRec(d, o);
    ViewSetRec(d, o, r);
    ViewFacts(d);
    OwnedLists(d, o);
    WriteHeldRec(View(d), d.dat, d.ls, o, r);
    TiledRewrite(d.im, o, r);
    assert DiskOk(d');
    SameExtents(View(d), View(d'), d.dat);
    assert RecsKept(d, d', h, Orphan(o), false);
  }

  lemma OwnedLists(d: Disk, o: nat)
    requires DiskOk(d) && Owned(d, o)
    ensures ListsOk(View(d), d.ls) && LocOk(View(d), d.ls) && ExtentsOk(View(d), d.dat) && d.ls.home[o] == Held
    ensures |d.im.heads| == |d.ls.chains|
  {
    ViewFacts(d);
  }

  /** The data of an own record is overwritten at its length. */
  lemma MoveOwnData(d: Disk, o: nat, data: string, h: nat)
    requires DiskOk(d) && Owned(d, o) && |data| + 1 == View(d).recs[o].datlen
    ensures View(d).recs[o].datoff <= |d.dat|
    ensures var d' := d.(dat := Overwrite(d.dat, View(d).recs[o].datoff, data + [NEWLINE]));
      && DiskOk(d') && View(d') == View(d) && |d'.dat| == |d.dat|
      && Within(d, d', h, Orphan(o), false)
      && Contents(View(d'), d'.dat, d'.ls) == Contents(View(d), d.dat, d.ls)
      && Value(View(d'), d'.dat, o) == data
  {
    hide ListsOk, ExtentsOk, TextOk, Hash, Rec.Size, Tiled, View, End, Value, Adjacent, Overwrite;
    OwnedLists(d, o);
    ViewFacts(d);
    ExtentPositive(View(d), d.dat, o);
    var d' := d.(dat := Overwrite(d.dat, View(d).recs[o].datoff, data + [NEWLINE]));
    ViewOfDat(d, d'.dat);
    WriteHeldData(View(d), d.dat, d.ls, o, data);
    OverwriteData(View(d), d.dat, o, data);
    assert RecsKept(d, d', h, Orphan(o), false);
  }

  lemma ViewOfDat(d: Disk, dat: string)
    ensures View(d.(dat := dat)) == View(d)
    ensures PendFits(d.(dat := dat)) <==> PendFits(d)
  {
  }

  /** The data of the record of a key is overwritten at its length. */
  lemma MoveOver(d: Disk, op: Op, o: nat, ptroff: nat, pos: nat, rec: Rec)
    requires DiskOk(d) && Located(d, op, o, ptroff, pos, rec)
    requires op.StoreOp? && Reaches(op) && |op.data| + 1 == rec.datlen
    ensures rec.datoff <= |d.dat|
    ensures var d' := d.(dat := Overwrite(d.dat, rec.datoff, op.data + [NEWLINE]));
      && DiskOk(d') && View(d') == View(d) && |d'.dat| == |d.dat|
      && Within(d, d', Chain(op, |d.im.heads|), NoOrphan, false)
      && op.key in d.ls.loc
      && Contents(View(d'), d'.dat, d'.ls) == Contents(View(d), d.dat, d.ls)[op.key := op.data]
  {
    hide FreeOk, HomesOk, ExtentsOk, TextOk, Hash, Rec.Size, Tiled, View, End, Value, Adjacent, Overwrite, Threaded, LocOk;
    var h := Chain(op, |d.im.heads|);
    ViewFacts(d);
    assert ChainOk(View(d), d.ls, h);
    assert LiveOn(View(d), d.ls, d.ls.chains[h][pos], h);
    ExtentPositive(View(d), d.dat, o);
    var d' := d.(dat := Overwrite(d.dat, rec.datoff, op.data + [NEWLINE]));
    ViewOfDat(d, d'.dat);
    WriteLiveData(View(d), d.dat, d.ls, op.key, op.data);
    OverwriteData(View(d), d.dat, o, op.data);
    hide ChainOk;
    assert RecsKept(d, d', h, NoOrphan, false);
  }

  /** Data goes to the end of the data file. */
  lemma MoveAppend(d: Disk, data: string, h: nat)
    requires DiskOk(d)
    ensures var d' := d.(dat := Overwrite(d.dat, |d.dat|, data + [NEWLINE]));
      && d'.dat == d.dat + (data + [NEWLINE])
      && DiskOk(d') && View(d') == View(d)
      && Within(d, d', h, NoOrphan, false)
      && Contents(View(d'), d'.dat, d'.ls) == Contents(View(d), d.dat, d.ls)
      && Stands(d', |d.dat|, data)
  {
    hide ListsOk, ExtentsOk, TextOk, Hash, Rec.Size, Tiled, View, End, Value, Adjacent;
    ViewFacts(d);
    SoundParts(View(d), d.dat, d.ls);
    var d' := d.(dat := Overwrite(d.dat, |d.dat|, data + [NEWLINE]));
    assert d'.dat == d.dat + (data + [NEWLINE]);
    ViewOfDat(d, d'.dat);
    AppendDataOnly(View(d), d.dat, d.ls, data);
    AppendData(View(d), d.dat, data + [NEWLINE]);
    ExtentsInFile(View(d), d.dat);
    assert RecsKept(d, d', h, NoOrphan, false);
  }

  lemma SoundParts(v: Image, dat: string, ls: Lists)
    requires Sound(v, dat, ls)
    ensures ListsOk(v, ls) && LocOk(v, ls) && ExtentsOk(v, dat) && |v.heads| == |ls.chains| && |v.heads| > 0
    ensures forall o :: o in v.recs <==> o in ls.home
    ensures forall o :: o in v.recs ==> Base(|v.heads|) <= o
  {
  }

  /** A record for appended data goes to the end of the index file. */
  lemma MoveAdd(d: Disk, r: Rec, data: string, h: nat)
    requires DiskOk(d) && Stands(d, r.datoff, data) && r.datlen == |data| + 1
    ensures var e := End(d.im);
      var d' := d.(im := AddRec(d.im, e, r), ls := AddedHeld(d.ls, e));
      && e !in View(d).recs && e !in d.ls.home
      && DiskOk(d') && View(d') == AddRec(View(d), e, r) && Owned(d', e)
      && Within(d, d', h, NoOrphan, false)
      && Contents(View(d'), d'.dat, d'.ls) == Contents(View(d), d.dat, d.ls)
      && Value(View(d'), d'.dat, e) == data
  {
    hide ListsOk, ExtentsOk, TextOk, Hash, Rec.Size, Tiled, View, End, Value, Adjacent, LocOk;
    var e := End(d.im);
    var d' := d.(im := AddRec(d.im, e, r), ls := AddedHeld(d.ls, e));
    ViewFacts(d);
    SoundParts(View(d), d.dat, d.ls);
    TiledAppend(d.im, r);
    ViewAddRec(d, e, r);
    AddHeldKeeps(View(d), d.ls, e, r);
    AddStanding(View(d), d.dat, e, r, data);
    SoundAdded(View(d), d.dat, d.ls, e, r);
    assert RecsKept(d, d', h, NoOrphan, false);
  }

  lemma ViewAddRec(d: Disk, e: nat, r: Rec)
    requires DiskOk(d) && e !in d.im.recs
    ensures var d' := d.(im := AddRec(d.im, e, r), ls := AddedHeld(d.ls, e));
      PendFits(d') && View(d') == AddRec(View(d), e, r)
  {
    hide DiskOk, SetPtr, IsSlot;
    PendFitsIn(d);
    ViewFacts(d);
    if d.pend.Pend? {
      AddRecElsewhere(d.im, e, r, PendSlot(d), d.pend.val);
    }
  }

  lemma AddRecElsewhere(im: Image, e: nat, r: Rec, slot: nat, p: nat)
    requires e !in im.recs && IsSlot(im, slot)
    ensures IsSlot(AddRec(im, e, r), slot)
    ensures SetPtr(AddRec(im, e, r), slot, p) == AddRec(SetPtr(im, slot, p), e, r)
  {
    if slot != 0 && !IsHeadSlot(im, slot) {
      assert slot in im.recs && slot != e;
    }
  }

  lemma AddStanding(v: Image, dat: string, e: nat, r: Rec, data: string)
    requires ExtentsOk(v, dat) && e !in v.recs && r.datlen == |data| + 1
    requires r.datoff + r.datlen <= |dat| && dat[r.datoff..r.datoff + r.datlen] == data + [NEWLINE]
    requires forall o :: o in v.recs ==> Apart(v.recs[o], Rec(0, "", r.datoff, r.datlen))
    ensures ExtentsOk(AddRec(v, e, r), dat)
    ensures Value(AddRec(v, e, r), dat, e) == data
    ensures forall o :: o in v.recs ==> Value(AddRec(v, e, r), dat, o) == Value(v, dat, o)
  {
    var t := dat[r.datoff..r.datoff + r.datlen];
    assert dat[r.datoff + r.datlen - 1] == t[|data|] == NEWLINE;
    assert dat[r.datoff..r.datoff + r.datlen - 1] == t[..|data|] == data;
    AddApart(v, e, r);
    hide Apart;
  }

  lemma AddApart(v: Image, e: nat, r: Rec)
    requires e !in v.recs
    requires forall o, o' {:trigger Apart(v.recs[o], v.recs[o'])} ::
      o in v.recs && o' in v.recs && o != o' ==> Apart(v.recs[o], v.recs[o'])
    requires forall o :: o in v.recs ==> Apart(v.recs[o], Rec(0, "", r.datoff, r.datlen))
    ensures var v' := AddRec(v, e, r);
      forall o, o' {:trigger Apart(v'.recs[o], v'.recs[o'])} ::
        o in v'.recs && o' in v'.recs && o != o' ==> Apart(v'.recs[o], v'.recs[o'])
  {
    var v' := AddRec(v, e, r);
    forall o, o' | o in v'.recs && o' in v'.recs && o != o'
      ensures Apart(v'.recs[o], v'.recs[o'])
    {
      if o != e && o' != e {
        assert Apart(v.recs[o], v.recs[o']);
      } else if o == e {
        assert Apart(v.recs[o'], Rec(0, "", r.datoff, r.datlen));
      } else {
        assert Apart(v.recs[o], Rec(0, "", r.datoff, r.datlen));
      }
    }
  }

  lemma SoundAdded(v: Image, dat: string, ls: Lists, e: nat, r: Rec)
    requires Sound(v, dat, ls) && e !in v.recs && ExtentsOk(AddRec(v, e, r), dat)
    requires ListsOk(AddRec(v, e, r), AddedHeld(ls, e))
    requires forall o :: o in v.recs ==> Value(AddRec(v, e, r), dat, o) == Value(v, dat, o)
    ensures Sound(AddRec(v, e, r), dat, AddedHeld(ls, e))
    ensures Contents(AddRec(v, e, r), dat, AddedHeld(ls, e)) == Contents(v, dat, ls)
  {
    hide ExtentsOk, ChainOk, FreeOk, HomesOk, Value, Hash;
    SameContents(v, dat, AddRec(v, e, r), dat, ls, AddedHeld(ls, e));
  }

  // ---------- Deleting ----------

  /** Where the first write of a deletion leads. */
  ghost function CutDisk(d: Disk, op: Op, pos: nat, rec: Rec): Disk
    requires |d.im.heads| > 0 && rec.datoff <= |d.dat| && rec.datlen > 0
    requires Chain(op, |d.im.heads|) < |d.ls.chains| && pos < |d.ls.chains[Chain(op, |d.im.heads|)]|
  {
    var h := Chain(op, |d.im.heads|);
    Disk(d.im, Overwrite(d.dat, rec.datoff, Blanks(rec.datlen - 1) + [NEWLINE]),
         Unlinked(d.ls, h, pos, op.key), Pend(h, pos, rec.ptr))
  }

  /** The data of a record on a chain is blanked: from here on the record is the process's own. */
  lemma MoveCut(d: Disk, op: Op, o: nat, ptroff: nat, pos: nat, rec: Rec)
    requires DiskOk(d) && d.pend.Settled? && Located(d, op, o, ptroff, pos, rec)
    ensures rec.datoff <= |d.dat| && rec.datlen > 0 && op.key in d.ls.loc
    ensures var d' := CutDisk(d, op, pos, rec);
      && |d'.dat| == |d.dat|
      && DiskOk(d') && SameShape(View(d), View(d'))
      && Within(d, d', Chain(op, |d.im.heads|), Orphan(o), false)
      && Contents(View(d'), d'.dat, d'.ls) == Contents(View(d), d.dat, d.ls) - {op.key}
      && pos <= |d'.ls.chains[Chain(op, |d.im.heads|)]|
      && ptroff == SlotOf(ChainOff(Chain(op, |d.im.heads|)), d'.ls.chains[Chain(op, |d.im.heads|)], pos)
      && Owned(d', o) && o <= PTR_MAX && View(d').recs[o] == rec
      && (forall x :: x in View(d').recs ==> x in View(d).recs)
  {
    hide ChainOk, FreeOk, HomesOk, LocOk, ExtentsOk, TextOk, Hash, Rec.Size, Tiled, End, Value, Adjacent, Overwrite, Blanks, SetPtr,
      IsSlot;
    var h := Chain(op, |d.im.heads|);
    var l := d.ls.chains[h];
    assert ChainOk(d.im, d.ls, h);
    OnChain(d.im, d.ls, h, pos);
    UnlinkBlank(d.im, d.dat, d.ls, h, pos);
    var d' := CutDisk(d, op, pos, rec);
    assert SlotOf(ChainOff(h), Without(l, pos), pos) == ptroff;
    assert View(d') == SetPtr(d.im, ptroff, rec.ptr);
    PtrKeepsShape(d.im, ptroff, rec.ptr);
    CutKeeps(d, op, o, ptroff, pos, rec);
  }

  lemma CutKeeps(d: Disk, op: Op, o: nat, ptroff: nat, pos: nat, rec: Rec)
    requires DiskOk(d) && d.pend.Settled? && Located(d, op, o, ptroff, pos, rec)
    requires rec.datoff <= |d.dat| && rec.datlen > 0 && IsSlot(d.im, ptroff)
    requires rec.ptr == NextIn(d.ls.chains[Chain(op, |d.im.heads|)], pos)
    requires var d' := CutDisk(d, op, pos, rec);
      DiskOk(d') && View(d') == SetPtr(d.im, ptroff, rec.ptr)
    ensures Within(d, CutDisk(d, op, pos, rec), Chain(op, |d.im.heads|), Orphan(o), false)
  {
    hide ChainOk, FreeOk, HomesOk, LocOk, ExtentsOk, TextOk, Hash, Rec.Size, Tiled, End, Value, Adjacent, Overwrite, Blanks, SetPtr,
      IsSlot;
    var h, d' := Chain(op, |d.im.heads|), CutDisk(d, op, pos, rec);
    ChainSlotWrite(d.im, d.ls, h, pos, rec.ptr);
    SlotShape(d.im, d.ls, h, pos);
    PtrKeepsShape(d.im, ptroff, rec.ptr);
    ViewSettled(d);
    CutValues(d.im, View(d'), d.dat, o);
    assert KeysKept(d, d', h);
    assert RecsKept(d, d', h, Orphan(o), false);
  }

  lemma CutValues(v: Image, v': Image, dat: string, o: nat)
    requires ExtentsOk(v, dat) && SameShape(v, v') && o in v.recs
    requires v.recs[o].datlen > 0 && v.recs[o].datoff <= |dat|
    requires ExtentsOk(v', Overwrite(dat, v.recs[o].datoff, Blanks(v.recs[o].datlen - 1) + [NEWLINE]))
    ensures var dat' := Overwrite(dat, v.recs[o].datoff, Blanks(v.recs[o].datlen - 1) + [NEWLINE]);
      forall x :: x in v.recs && x != o ==> x in v'.recs && Value(v', dat', x) == Value(v, dat, x)
  {
    hide Rec.Size, Overwrite, Blanks, Value;
    OverwriteData(v, dat, o, Blanks(v.recs[o].datlen - 1));
    ValuesByExtent(v, v', Overwrite(dat, v.recs[o].datoff, Blanks(v.recs[o].datlen - 1) + [NEWLINE]));
  }

  lemma ViewSettled(d: Disk)
    requires d.pend.Settled?
    ensures View(d) == d.im
  {
  }

  lemma ValuesByExtent(v: Image, v': Image, dat: string)
    requires ExtentsOk(v, dat) && ExtentsOk(v', dat) && SameShape(v, v')
    ensures forall o :: o in v.recs ==> Value(v', dat, o) == Value(v, dat, o)
  {
    hide Rec.Size;
  }

  /** An own blank record goes in front of the free list. */
  lemma MovePush(d: Disk, o: nat, h: nat)
    requires DiskOk(d) && Owned(d, o) && o <= PTR_MAX
    requires View(d).recs[o].ptr == View(d).free && View(d).recs[o].key == Blanks(|View(d).recs[o].key|)
    ensures var d' := d.(im := d.im.(free := o), ls := PushedFree(d.ls, o));
      && DiskOk(d') && View(d') == View(d).(free := o) && End(d'.im) == End(d.im)
      && Within(d, d', h, Orphan(o), true)
      && Contents(View(d'), d'.dat, d'.ls) == Contents(View(d), d.dat, d.ls)
  {
    hide ListsOk, ExtentsOk, TextOk, Hash, Rec.Size, Tiled, View, End, Value, Adjacent, Blanks, LocOk;
    var d' := d.(im := d.im.(free := o), ls := PushedFree(d.ls, o));
    ViewFacts(d);
    SoundParts(View(d), d.dat, d.ls);
    PushFreeDone(View(d), d.dat, d.ls, o);
    TiledSameRecs(d.im, d'.im);
    ViewFree(d, o);
    SameExtents(View(d), View(d'), d.dat);
    assert RecsKept(d, d', h, Orphan(o), true);
  }

  lemma ViewFree(d: Disk, o: nat)
    requires DiskOk(d)
    ensures var d' := d.(im := d.im.(free := o), ls := PushedFree(d.ls, o));
      PendFits(d') && View(d') == View(d).(free := o)
  {
    hide DiskOk, SetPtr, IsSlot;
    PendFitsIn(d);
    ViewFacts(d);
    if d.pend.Pend? {
      SetFreeElsewhere(d.im, o, PendSlot(d), d.pend.val);
    }
  }

  lemma PendFitsIn(d: Disk)
    requires DiskOk(d)
    ensures PendFits(d)
  {
  }

  lemma SetFreeElsewhere(im: Image, o: nat, slot: nat, p: nat)
    requires IsSlot(im, slot) && slot != 0
    ensures IsSlot(im.(free := o), slot)
    ensures SetPtr(im.(free := o), slot, p) == SetPtr(im, slot, p).(free := o)
  {
  }

  /** The pending pointer write is done: nothing to see. */
  lemma MoveSettle(d: Disk)
    requires DiskOk(d) && d.pend.Pend?
    ensures IsSlot(d.im, PendSlot(d))
    ensures var d' := d.(im := SetPtr(d.im, PendSlot(d), d.pend.val), pend := Settled);
      && DiskOk(d') && View(d') == View(d) && End(d'.im) == End(d.im)
      && Within(d, d', d.pend.h, NoOrphan, false)
  {
    hide ListsOk, ExtentsOk, TextOk, Hash, Rec.Size, Tiled, End, Value, Adjacent;
    var d' := d.(im := SetPtr(d.im, PendSlot(d), d.pend.val), pend := Settled);
    ViewFacts(d);
    SoundParts(View(d), d.dat, d.ls);
    TiledSetPtr(d.im, PendSlot(d), d.pend.val);
    assert View(d') == View(d);
    SettleHeads(d);
    assert RecsKept(d, d', d.pend.h, NoOrphan, false);
  }

  lemma SettleHeads(d: Disk)
    requires DiskOk(d) && d.pend.Pend?
    ensures forall h :: 0 <= h < |View(d).heads| ==> View(d).heads[h] <= PTR_MAX
  {
    hide FreeOk, HomesOk, LocOk, ExtentsOk, TextOk, Hash, Rec.Size, Tiled, View;
    forall h | 0 <= h < |View(d).heads|
      ensures View(d).heads[h] <= PTR_MAX
    {
      assert ChainOk(View(d), d.ls, h);
    }
  }

  lemma TiledSetPtr(im: Image, off: nat, p: nat)
    requires Tiled(im) && IsSlot(im, off)
    ensures Tiled(SetPtr(im, off, p)) && End(SetPtr(im, off, p)) == End(im)
  {
    hide Tiled, End;
    if off == 0 || IsHeadSlot(im, off) {
      TiledSameRecs(im, SetPtr(im, off, p));
    } else {
      TiledRewrite(im, off, im.recs[off].(ptr := p));
    }
  }

  // ---------- Storing ----------

  /** A record is taken off the free list: it is the process's own. */
  lemma MoveTake(d: Disk, pos: nat, h: nat)
    requires DiskOk(d) && d.pend.Settled? && pos < |d.ls.freel|
    ensures var slot, o := SlotOf(0, d.ls.freel, pos), d.ls.freel[pos];
      && IsSlot(d.im, slot) && o in d.im.recs && d.im.recs[o].ptr == NextIn(d.ls.freel, pos) && o <= PTR_MAX
      && d.ls.home[o] == Free
      && var d' := d.(im := SetPtr(d.im, slot, d.im.recs[o].ptr), ls := TakenFree(d.ls, pos));
      && DiskOk(d') && End(d'.im) == End(d.im) && SameShape(View(d), View(d')) && d'.im.heads == d.im.heads
      && Owned(d', o) && View(d').recs[o] == d.im.recs[o]
      && Within(d, d', h, NoOrphan, true)
      && Contents(View(d'), d'.dat, d'.ls) == Contents(View(d), d.dat, d.ls)
  {
    hide ChainOk, HomesOk, LocOk, ExtentsOk, TextOk, Hash, Rec.Size, Tiled, End, Value, Adjacent, SetPtr, IsSlot, Threaded, FreeRec,
      SameShape;
    var slot, o := SlotOf(0, d.ls.freel, pos), d.ls.freel[pos];
    OnFreeList(d.im, d.ls, pos);
    TakeFreeDone(d.im, d.dat, d.ls, pos);
    TiledSetPtr(d.im, slot, d.im.recs[o].ptr);
    FreeSlotWrite(d.im, d.ls, pos, d.im.recs[o].ptr);
    FreeSlotHome(d.im, d.ls, pos);
    var d' := d.(im := SetPtr(d.im, slot, d.im.recs[o].ptr), ls := TakenFree(d.ls, pos));
    assert View(d') == d'.im;
    ValuesByExtent(d.im, d'.im, d.dat);
    assert RecsKept(d, d', h, NoOrphan, true);
  }

  lemma FreeSlotHome(im: Image, ls: Lists, pos: nat)
    requires FreeOk(im, ls) && pos < |ls.freel|
    ensures ls.freel[pos] in ls.home && ls.home[ls.freel[pos]] == Free
    ensures pos > 0 ==> ls.freel[pos - 1] in ls.home && ls.home[ls.freel[pos - 1]] == Free
    ensures pos > 0 ==> ls.freel[pos - 1] != ls.freel[pos]
  {
    assert FreeRec(im, ls, ls.freel[pos]);
    if pos > 0 {
      assert FreeRec(im, ls, ls.freel[pos - 1]);
    }
  }

  /** The disk with the record in front of its chain. */
  ghost function LinkDisk(d: Disk, op: Op, o: nat): Disk
    requires |d.im.heads| > 0 && Chain(op, |d.im.heads|) < |d.ls.chains|
  {
    var h := Chain(op, |d.im.heads|);
    d.(im := d.im.(heads := d.im.heads[h := o]), ls := Linked(d.ls, h, o, op.key))
  }

  /** An own record that is ready goes in front of its chain. */
  lemma MoveLink(d: Disk, op: Op, o: nat)
    requires DiskOk(d) && (Prepared(d, op, false, o) || Prepared(d, op, true, o))
    requires o <= PTR_MAX && !(d.pend.Pend? && d.pend.h == Chain(op, |d.im.heads|))
    ensures Chain(op, |d.im.heads|) < |d.ls.chains|
    ensures var d' := LinkDisk(d, op, o);
      && DiskOk(d') && End(d'.im) == End(d.im) && View(d').recs == View(d).recs
      && Within(d, d', Chain(op, |d.im.heads|), Orphan(o), false)
      && Contents(View(d'), d'.dat, d'.ls) == Contents(View(d), d.dat, d.ls)[op.key := op.data]
  {
    hide DiskOk, Within, Hash, View, Contents, End;
    LinkMoves(d, op, o);
    LinkWithin(d, op, o);
  }

  lemma LinkMoves(d: Disk, op: Op, o: nat)
    requires DiskOk(d) && (Prepared(d, op, false, o) || Prepared(d, op, true, o))
    requires o <= PTR_MAX && !(d.pend.Pend? && d.pend.h == Chain(op, |d.im.heads|))
    ensures Chain(op, |d.im.heads|) < |d.ls.chains|
    ensures var d' := LinkDisk(d, op, o);
      && DiskOk(d') && End(d'.im) == End(d.im) && View(d').recs == View(d).recs
      && Contents(View(d'), d'.dat, d'.ls) == Contents(View(d), d.dat, d.ls)[op.key := op.data]
  {
    hide ListsOk, ExtentsOk, TextOk, Hash, Rec.Size, Tiled, View, End, Value, Adjacent, LocOk, PendSlot;
    var h := Chain(op, |d.im.heads|);
    ViewFacts(d);
    SoundParts(View(d), d.dat, d.ls);
    var d' := LinkDisk(d, op, o);
    LinkDone(View(d), d.dat, d.ls, h, o, op.data);
    TiledSameRecs(d.im, d'.im);
    ViewHead(d, h, o, op.key);
  }

  lemma LinkKept(d: Disk, op: Op, o: nat)
    requires 0 < |d.im.heads| == |d.ls.chains|
    ensures var h := Chain(op, |d.im.heads|);
      h < |d.ls.chains| && ChainsKept(d, LinkDisk(d, op, o), h) && KeysKept(d, LinkDisk(d, op, o), h)
  {
    hide Hash;
  }

  lemma LinkRecs(d: Disk, op: Op, o: nat)
    requires DiskOk(d) && Owned(d, o) && Chain(op, |d.im.heads|) < |d.ls.chains| && DiskOk(LinkDisk(d, op, o))
    requires View(LinkDisk(d, op, o)).recs == View(d).recs
    ensures RecsKept(d, LinkDisk(d, op, o), Chain(op, |d.im.heads|), Orphan(o), false)
  {
    hide ListsOk, ExtentsOk, TextOk, Hash, Rec.Size, Tiled, View, End, Value, Adjacent, LocOk, PendSlot;
    var d' := LinkDisk(d, op, o);
    SoundParts(View(d), d.dat, d.ls);
    SoundParts(View(d'), d'.dat, d'.ls);
    SameExtents(View(d), View(d'), d.dat);
  }

  lemma LinkWithin(d: Disk, op: Op, o: nat)
    requires DiskOk(d) && Owned(d, o) && Chain(op, |d.im.heads|) < |d.ls.chains| && DiskOk(LinkDisk(d, op, o))
    requires View(LinkDisk(d, op, o)).recs == View(d).recs
    ensures Within(d, LinkDisk(d, op, o), Chain(op, |d.im.heads|), Orphan(o), false)
  {
    hide DiskOk, RecsKept, ChainsKept, KeysKept, Hash, View;
    ViewFacts(d);
    ViewFacts(LinkDisk(d, op, o));
    LinkRecs(d, op, o);
    LinkKept(d, op, o);
  }

  lemma ViewHead(d: Disk, h: nat, o: nat, key: string)
    requires DiskOk(d) && h < |d.im.heads| && h < |d.ls.chains| && !(d.pend.Pend? && d.pend.h == h)
    ensures |View(d).heads| == |d.im.heads|
    ensures var d' := d.(im := d.im.(heads := d.im.heads[h := o]), ls := Linked(d.ls, h, o, key));
      PendFits(d') && View(d') == View(d).(heads := View(d).heads[h := o])
  {
    hide ExtentsOk, TextOk, Hash, Rec.Size, Tiled, ChainOk, FreeOk, LocOk, HomesOk;
    ViewFacts(d);
    if d.pend.Pend? {
      ViewSlot(d);
      SlotShape(View(d), d.ls, d.pend.h, d.pend.pos);
    }
  }
}
