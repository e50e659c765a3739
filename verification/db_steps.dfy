/**
 What the operations of the database do to its records, its lists and the map they stand
 for: each lemma takes one group of writes of db_store, db_delete or their helpers.
 */
module DbSteps {
  import opened DbFormat
  import opened DbImage
  import opened DbLists

  /** Everything about the records that no call ever changes: where they are and how big. */
  ghost predicate SameShape(im: Image, im': Image) {
    && |im.heads| == |im'.heads|
    && im.order <= im'.order
    && forall o :: o in im.recs ==> o in im'.recs && SameRec(im.recs[o], im'.recs[o])
  }

  ghost predicate SameRec(r: Rec, r': Rec) {
    r'.Size() == r.Size() && |r'.key| == |r.key| && r'.datoff == r.datoff && r'.datlen == r.datlen
  }

  /** The lists partition the records, and the map they stand for holds C strings. */
  ghost predicate Sound(im: Image, dat: string, ls: Lists) {
    && ExtentsOk(im, dat)
    && ListsOk(im, ls)
    && TextOk(Contents(im, dat, ls))
  }

  ghost predicate TextOk(m: map<string, string>) {
    forall k :: k in m ==> NUL !in m[k]
  }

  // ---------- Frames ----------

  lemma SameExtents(im: Image, im': Image, dat: string)
    requires ExtentsOk(im, dat)
    requires forall o :: o in im'.recs <==> o in im.recs
    requires forall o :: o in im.recs ==> im'.recs[o].datoff == im.recs[o].datoff && im'.recs[o].datlen == im.recs[o].datlen
    ensures ExtentsOk(im', dat)
    ensures forall o :: o in im.recs ==> Value(im', dat, o) == Value(im, dat, o)
  {
    hide Apart;
    forall o, o' | o in im'.recs && o' in im'.recs && o != o'
      ensures Apart(im'.recs[o], im'.recs[o'])
    {
      ApartBy(im.recs[o], im.recs[o'], im'.recs[o], im'.recs[o']);
    }
  }

  lemma ApartBy(r: Rec, t: Rec, r': Rec, t': Rec)
    requires Apart(r, t) && r'.datoff == r.datoff && r'.datlen == r.datlen && t'.datoff == t.datoff && t'.datlen == t.datlen
    ensures Apart(r', t')
  {
  }

  lemma SameContents(im: Image, dat: string, im': Image, dat': string, ls: Lists, ls': Lists)
    requires ExtentsOk(im, dat) && LocOk(im, ls) && ExtentsOk(im', dat') && LocOk(im', ls')
    requires ls'.loc == ls.loc
    requires forall k :: k in ls.loc ==> Value(im', dat', ls.loc[k]) == Value(im, dat, ls.loc[k])
    ensures Contents(im', dat', ls') == Contents(im, dat, ls)
  {
  }

  /** Data written for a held record does not show in the map. */
  lemma WriteHeldData(im: Image, dat: string, ls: Lists, o: nat, data: string)
    requires Sound(im, dat, ls) && o in im.recs && ls.home[o] == Held
    requires |data| + 1 == im.recs[o].datlen && im.recs[o].datoff <= |dat|
    ensures var dat' := Overwrite(dat, im.recs[o].datoff, data + [NEWLINE]);
      && |dat'| == |dat|
      && Sound(im, dat', ls)
      && Contents(im, dat', ls) == Contents(im, dat, ls)
      && Value(im, dat', o) == data
  {
    hide Value, Overwrite, ExtentsOk, ChainOk, FreeOk;
    var dat' := Overwrite(dat, im.recs[o].datoff, data + [NEWLINE]);
    OverwriteData(im, dat, o, data);
    assert forall k :: k in ls.loc ==> ls.loc[k] != o;
    SameContents(im, dat, im, dat', ls, ls);
  }

  /** Data of the same length written over a live record changes the map at its key only. */
  lemma WriteLiveData(im: Image, dat: string, ls: Lists, key: string, data: string)
    requires Sound(im, dat, ls) && key in ls.loc && NUL !in data
    requires |data| + 1 == im.recs[ls.loc[key]].datlen && im.recs[ls.loc[key]].datoff <= |dat|
    ensures var dat' := Overwrite(dat, im.recs[ls.loc[key]].datoff, data + [NEWLINE]);
      && |dat'| == |dat|
      && Sound(im, dat', ls)
      && Contents(im, dat', ls) == Contents(im, dat, ls)[key := data]
  {
    hide Value, Overwrite, ExtentsOk, ChainOk, FreeOk;
    var o := ls.loc[key];
    OverwriteData(im, dat, o, data);
    assert forall k :: k in ls.loc && k != key ==> ls.loc[k] != o;
  }

  /** Writing the record of a held offset anew, with its length and extent, shows nowhere else. */
  lemma WriteHeldRec(im: Image, dat: string, ls: Lists, o: nat, r: Rec)
    requires Sound(im, dat, ls) && o in im.recs && ls.home[o] == Held
    requires SameRec(im.recs[o], r)
    ensures Sound(SetRec(im, o, r), dat, ls)
    ensures Contents(SetRec(im, o, r), dat, ls) == Contents(im, dat, ls)
    ensures SameShape(im, SetRec(im, o, r))
    ensures Value(SetRec(im, o, r), dat, o) == Value(im, dat, o)
  {
    hide Value, ChainOk, FreeOk, ExtentsOk;
    RewriteHeldKeeps(im, ls, o, r);
    SameExtents(im, SetRec(im, o, r), dat);
    SameContents(im, dat, SetRec(im, o, r), dat, ls, ls);
    hide Rec.Size;
  }

  /** A record appended together with its data is held, and shows nowhere else. */
  lemma AddHeldRec(im: Image, dat: string, ls: Lists, r: Rec, data: string)
    requires Tiled(im) && Sound(im, dat, ls)
    requires r.datoff == |dat| && r.datlen == |data| + 1
    ensures var im', ls', dat' := AddRec(im, End(im), r), AddedHeld(ls, End(im)), dat + (data + [NEWLINE]);
      && End(im) !in im.recs
      && Sound(im', dat', ls')
      && Contents(im', dat', ls') == Contents(im, dat, ls)
      && SameShape(im, im')
      && Value(im', dat', End(im)) == data
  {
    hide ChainOk, FreeOk, ExtentsOk, Value, Hash, HomesOk, Rec.Size, Tiled, End, Threaded;
    var e := End(im);
    var im', ls', dat' := AddRec(im, e, r), AddedHeld(ls, e), dat + (data + [NEWLINE]);
    TiledAppend(im, r);
    AddHeldKeeps(im, ls, e, r);
    AppendData(im, dat, data + [NEWLINE]);
    ExtentsInFile(im, dat);
    AddedExtent(im, dat', e, r, |dat|);
    AppendedValue(im', dat, data, e);
    SameContents(im, dat, im', dat', ls, ls');
  }

  lemma ExtentsInFile(im: Image, dat: string)
    requires ExtentsOk(im, dat)
    ensures forall o :: o in im.recs ==> im.recs[o].datoff + im.recs[o].datlen <= |dat|
  {
  }

  lemma AppendedValue(im: Image, dat: string, data: string, o: nat)
    requires ExtentsOk(im, dat + (data + [NEWLINE])) && o in im.recs
    requires im.recs[o].datoff == |dat| && im.recs[o].datlen == |data| + 1
    ensures Value(im, dat + (data + [NEWLINE]), o) == data
  {
  }

  lemma AddedExtent(im: Image, dat: string, e: nat, r: Rec, n: nat)
    requires ExtentsOk(im, dat) && e !in im.recs
    requires forall o :: o in im.recs ==> im.recs[o].datoff + im.recs[o].datlen <= n
    requires r.datoff == n && r.datlen > 0 && n + r.datlen == |dat| && dat[|dat| - 1] == NEWLINE
    ensures ExtentsOk(AddRec(im, e, r), dat)
    ensures forall o :: o in im.recs ==> Value(AddRec(im, e, r), dat, o) == Value(im, dat, o)
  {
    var im' := AddRec(im, e, r);
    forall o, o' | o in im'.recs && o' in im'.recs && o != o'
      ensures Apart(im'.recs[o], im'.recs[o'])
    {
      if o != e && o' != e {
        assert Apart(im.recs[o], im.recs[o']);
      }
    }
  }

  // ---------- Operations ----------

  /** A held record with the key, the data and the old head of its chain goes in front of that chain. */
  lemma LinkDone(im: Image, dat: string, ls: Lists, h: nat, o: nat, data: string)
    requires Sound(im, dat, ls) && o in im.recs && o <= PTR_MAX && ls.home[o] == Held
    requires im.recs[o].key !in ls.loc && h == Hash(im.recs[o].key, |im.heads|)
    requires NUL !in data && Value(im, dat, o) == data
    requires im.recs[o].ptr == im.heads[h]
    ensures var key := im.recs[o].key;
      var im', ls' := im.(heads := im.heads[h := o]), Linked(ls, h, o, key);
      && Sound(im', dat, ls')
      && Contents(im', dat, ls') == Contents(im, dat, ls)[key := data]
      && SameShape(im, im')
  {
    hide ChainOk, FreeOk, ExtentsOk, Value, Hash, Rec.Size;
    var key := im.recs[o].key;
    LinkKeeps(im, ls, o);
    var im', ls' := im.(heads := im.heads[h := o]), Linked(ls, h, o, key);
    SameExtents(im, im', dat);
    hide HomesOk;
    LinkedContents(im, im', dat, ls, h, o);
  }

  lemma LinkedContents(im: Image, im': Image, dat: string, ls: Lists, h: nat, o: nat)
    requires ExtentsOk(im, dat) && ExtentsOk(im', dat) && LocOk(im, ls)
    requires forall p :: p in im.recs ==> p in im'.recs && Value(im', dat, p) == Value(im, dat, p)
    requires h < |ls.chains| && o in im.recs && LocOk(im', Linked(ls, h, o, im.recs[o].key))
    ensures Contents(im', dat, Linked(ls, h, o, im.recs[o].key))
         == Contents(im, dat, ls)[im.recs[o].key := Value(im, dat, o)]
  {
    hide ExtentsOk, Value;
  }

  /** The first match taken off the free list is held, and the map stays. */
  lemma TakeFreeDone(im: Image, dat: string, ls: Lists, j: nat)
    requires Sound(im, dat, ls) && j < |ls.freel|
    ensures ls.freel[j] in im.recs && im.recs[ls.freel[j]].ptr == NextIn(ls.freel, j)
    ensures IsSlot(im, SlotOf(0, ls.freel, j))
    ensures var im', ls' := SetPtr(im, SlotOf(0, ls.freel, j), NextIn(ls.freel, j)), TakenFree(ls, j);
      && Sound(im', dat, ls')
      && Contents(im', dat, ls') == Contents(im, dat, ls)
      && SameShape(im, im')
      && ls.freel[j] in im'.recs && im'.heads == im.heads
  {
    hide ChainOk, FreeOk, ExtentsOk, Value, Hash, SetPtr, IsSlot, HomesOk, Rec.Size;
    OnFreeList(im, ls, j);
    TakeFreeKeeps(im, ls, j);
    FreeSlotWrite(im, ls, j, NextIn(ls.freel, j));
    var im', ls' := SetPtr(im, SlotOf(0, ls.freel, j), NextIn(ls.freel, j)), TakenFree(ls, j);
    SameExtents(im, im', dat);
    SameContents(im, dat, im', dat, ls, ls');
    PtrKeepsShape(im, SlotOf(0, ls.freel, j), NextIn(ls.freel, j));
  }

  lemma PtrKeepsShape(im: Image, off: nat, p: nat)
    requires IsSlot(im, off)
    ensures SameShape(im, SetPtr(im, off, p))
    ensures forall o :: o in im.recs <==> o in SetPtr(im, off, p).recs
  {
    hide Entry;
  }

  lemma ShapeTrans(im: Image, im': Image, im'': Image)
    requires SameShape(im, im') && SameShape(im', im'')
    ensures SameShape(im, im'')
  {
    hide Rec.Size;
  }

  /** A deleted record as it is rewritten: blank key, and the old free pointer as its own. */
  function BlankRec(im: Image, o: nat): Rec
    requires o in im.recs
  {
    var r := im.recs[o];
    Rec(im.free, Blanks(|r.key|), r.datoff, r.datlen)
  }

  /** The four writes of _db_dodelete to the index file, in the order of the source. */
  function Deleted(im: Image, o: nat, slot: nat): Image
    requires o in im.recs && IsSlot(im, slot)
  {
    SetPtr(SetRec(im, o, BlankRec(im, o)).(free := o), slot, im.recs[o].ptr)
  }

  lemma DeleteOrder(im: Image, o: nat, slot: nat)
    requires o in im.recs && IsSlot(im, slot) && slot != 0 && slot != o
    ensures Deleted(im, o, slot) == SetRec(SetPtr(im, slot, im.recs[o].ptr), o, BlankRec(im, o)).(free := o)
  {
    hide Blanks;
    var im1 := SetRec(im, o, BlankRec(im, o)).(free := o);
    assert IsSlot(im1, slot);
    if !IsHeadSlot(im, slot) {
      assert im1.recs[slot] == im.recs[slot];
    }
  }

  lemma BlankKeepsLength(im: Image, o: nat)
    requires o in im.recs && im.recs[o].Ok() && im.free <= PTR_MAX
    ensures BlankRec(im, o).Ok() && SameRec(im.recs[o], BlankRec(im, o))
  {
    EntryLenOf(im.recs[o].key, Blanks(|im.recs[o].key|), im.recs[o].datoff, im.recs[o].datlen);
  }

  /** The same writes on the bytes of the index file. */
  lemma DeletedBytes(im: Image, idx: string, o: nat, slot: nat)
    requires Holds(im, idx) && o in im.recs && o <= PTR_MAX && IsSlot(im, slot)
    ensures BlankRec(im, o).Ok()
    ensures o <= |idx| && slot <= |idx|
    ensures var idx1 := Overwrite(idx, o, BlankRec(im, o).Text());
      && |idx1| == |idx|
      && var idx2 := Overwrite(idx1, 0, PtrText(o));
      && |idx2| == |idx|
      && Holds(Deleted(im, o, slot), Overwrite(idx2, slot, PtrText(im.recs[o].ptr)))
      && |Overwrite(idx2, slot, PtrText(im.recs[o].ptr))| == |idx|
  {
    hide Rec.Size, Rec.Text, Tiled, PtrText, Blanks, SetPtr, Overwrite;
    RecordInFile(im, o);
    BlankKeepsLength(im, o);
    PtrInFile(im, idx, slot);
    RecTextShape(BlankRec(im, o));
    RewriteHolds(im, idx, o, BlankRec(im, o));
    var im1, idx1 := SetRec(im, o, BlankRec(im, o)), Overwrite(idx, o, BlankRec(im, o).Text());
    assert SetPtr(im1, 0, o) == im1.(free := o) by { FreePtr(im1, o); }
    SetPtrHolds(im1, idx1, 0, o);
    var im2, idx2 := im1.(free := o), Overwrite(idx1, 0, PtrText(o));
    SetPtrHolds(im2, idx2, slot, im.recs[o].ptr);
    PtrInFile(im2, idx2, slot);
    PtrRoundTrip(im.recs[o].ptr);
    OverwriteSelf(idx2, slot, PtrText(im.recs[o].ptr));
  }

  lemma FreePtr(im: Image, p: nat)
    ensures SetPtr(im, 0, p) == im.(free := p)
  {
  }

  function DeletedLists(ls: Lists, h: nat, j: nat, key: string): Lists
    requires h < |ls.chains| && j < |ls.chains[h]|
  {
    PushedFree(Unlinked(ls, h, j, key), ls.chains[h][j])
  }

  /** _db_dodelete: the record moves from its chain to the free list, and its key leaves the map. */
  lemma DeleteDone(im: Image, dat: string, ls: Lists, h: nat, j: nat)
    requires Sound(im, dat, ls) && h < |im.heads| && j < |ls.chains[h]|
    requires im.free <= PTR_MAX && (forall o :: o in im.recs ==> im.recs[o].Ok())
    ensures ls.chains[h][j] in im.recs
    ensures IsSlot(im, SlotOf(ChainOff(h), ls.chains[h], j))
    ensures var o, slot := ls.chains[h][j], SlotOf(ChainOff(h), ls.chains[h], j);
      var key := im.recs[o].key;
      var im', ls' := Deleted(im, o, slot), DeletedLists(ls, h, j, key);
      var dat' := Overwrite(dat, im.recs[o].datoff, Blanks(im.recs[o].datlen - 1) + [NEWLINE]);
      && |dat'| == |dat|
      && Sound(im', dat', ls')
      && Contents(im', dat', ls') == Contents(im, dat, ls) - {key}
      && SameShape(im, im')
  {
    hide ChainOk, FreeOk, ExtentsOk, Value, Hash, Rec.Ok, SetPtr, IsSlot, Blanks, Rec.Size, Overwrite, LocOk, HomesOk;
    UnlinkBlank(im, dat, ls, h, j);
    var l := ls.chains[h];
    var o, slot := l[j], SlotOf(ChainOff(h), l, j);
    var key := im.recs[o].key;
    var im1, ls1 := SetPtr(im, slot, NextIn(l, j)), Unlinked(ls, h, j, key);
    var dat' := Overwrite(dat, im.recs[o].datoff, Blanks(im.recs[o].datlen - 1) + [NEWLINE]);
    SlotElsewhere(im, ls, h, j);
    BlankKeepsLength(im, o);
    WriteHeldRec(im1, dat', ls1, o, BlankRec(im, o));
    var im2 := SetRec(im1, o, BlankRec(im, o));
    PushFreeDone(im2, dat', ls1, o);
    DeleteOrder(im, o, slot);
    ShapeTrans(im, im1, im2);
  }

  /** A held record with a blank key and the old free pointer goes in front of the free list. */
  lemma PushFreeDone(im: Image, dat: string, ls: Lists, o: nat)
    requires Sound(im, dat, ls) && o in im.recs && o <= PTR_MAX && ls.home[o] == Held
    requires im.recs[o].ptr == im.free && im.recs[o].key == Blanks(|im.recs[o].key|)
    ensures Sound(im.(free := o), dat, PushedFree(ls, o))
    ensures Contents(im.(free := o), dat, PushedFree(ls, o)) == Contents(im, dat, ls)
  {
    hide ChainOk, FreeOk, ExtentsOk, Value, Hash, Blanks, Rec.Size, HomesOk;
    PushFreeKeeps(im, ls, o);
    SameExtents(im, im.(free := o), dat);
    SameContents(im, dat, im.(free := o), dat, ls, PushedFree(ls, o));
  }

  /** A record leaves its chain and its data is blanked: it is held, and its key leaves the map. */
  lemma UnlinkBlank(im: Image, dat: string, ls: Lists, h: nat, j: nat)
    requires Sound(im, dat, ls) && h < |im.heads| && j < |ls.chains[h]|
    ensures ls.chains[h][j] in im.recs && ls.chains[h][j] <= PTR_MAX
    ensures IsSlot(im, SlotOf(ChainOff(h), ls.chains[h], j))
    ensures var l := ls.chains[h];
      var o, slot := l[j], SlotOf(ChainOff(h), l, j);
      var r := im.recs[o];
      && r.ptr == NextIn(l, j) && r.datoff <= |dat| && 0 < r.datlen && r.key in ls.loc
      && var im1, ls1 := SetPtr(im, slot, NextIn(l, j)), Unlinked(ls, h, j, r.key);
      && var dat' := Overwrite(dat, r.datoff, Blanks(r.datlen - 1) + [NEWLINE]);
      && |dat'| == |dat|
      && Sound(im1, dat', ls1)
      && Contents(im1, dat', ls1) == Contents(im, dat, ls) - {r.key}
      && SameShape(im, im1)
      && im1.recs[o] == r && im1.free == im.free
  {
    hide ChainOk, FreeOk, ExtentsOk, Value, Hash, Rec.Ok, SetPtr, IsSlot, Blanks, Rec.Size, Overwrite, HomesOk, SameShape;
    assert ChainOk(im, ls, h);
    OnChain(im, ls, h, j);
    ListedRecord(im, dat, ls, h, j);
    var l := ls.chains[h];
    var o, slot := l[j], SlotOf(ChainOff(h), l, j);
    UnlinkKeeps(im, ls, h, j);
    ChainSlotWrite(im, ls, h, j, NextIn(l, j));
    PtrKeepsShape(im, slot, NextIn(l, j));
    SlotElsewhere(im, ls, h, j);
    var im1, ls1 := SetPtr(im, slot, NextIn(l, j)), Unlinked(ls, h, j, im.recs[o].key);
    SameExtents(im, im1, dat);
    UnlinkedContents(im, im1, dat, ls, h, j);
    ExtentPositive(im, dat, o);
    WriteHeldData(im1, dat, ls1, o, Blanks(im.recs[o].datlen - 1));
  }

  lemma ExtentPositive(im: Image, dat: string, o: nat)
    requires ExtentsOk(im, dat) && o in im.recs
    ensures 0 < im.recs[o].datlen && im.recs[o].datoff + im.recs[o].datlen <= |dat|
  {
  }

  lemma ChainThreaded(im: Image, ls: Lists, h: nat)
    requires h < |im.heads| == |ls.chains| && ChainOk(im, ls, h)
    ensures Threaded(im.recs, im.heads[h], ls.chains[h])
  {
  }

  lemma SlotElsewhere(im: Image, ls: Lists, h: nat, j: nat)
    requires ListsOk(im, ls) && h < |im.heads| && j < |ls.chains[h]|
    ensures var slot := SlotOf(ChainOff(h), ls.chains[h], j);
      slot != 0 && slot != ls.chains[h][j]
  {
    hide FreeOk, Hash, Threaded, LiveOn, LocOk, ChainOk;
    assert ChainOk(im, ls, h);
    ChainThreaded(im, ls, h);
    OnChain(im, ls, h, j);
    if j > 0 {
      OnChain(im, ls, h, j - 1);
      ListDistinct(im.recs, im.heads[h], ls.chains[h], j - 1, j);
    }
  }

  lemma UnlinkedContents(im: Image, im1: Image, dat: string, ls: Lists, h: nat, j: nat)
    requires ExtentsOk(im, dat) && ExtentsOk(im1, dat) && LocOk(im, ls)
    requires forall o :: o in im.recs ==> o in im1.recs && Value(im1, dat, o) == Value(im, dat, o)
    requires h < |ls.chains| && j < |ls.chains[h]| && ls.chains[h][j] in im.recs
    requires LocOk(im1, Unlinked(ls, h, j, im.recs[ls.chains[h][j]].key))
    ensures Contents(im1, dat, Unlinked(ls, h, j, im.recs[ls.chains[h][j]].key))
         == Contents(im, dat, ls) - {im.recs[ls.chains[h][j]].key}
  {
    hide ExtentsOk, Value;
  }

  /** All _db_dodelete does to the two files of a database. */
  lemma DeleteWrites(im: Image, idx: string, dat: string, ls: Lists, h: nat, j: nat)
    requires Holds(im, idx) && Sound(im, dat, ls) && h < |im.heads| && j < |ls.chains[h]|
    ensures var o, slot := ls.chains[h][j], SlotOf(ChainOff(h), ls.chains[h], j);
      && o in im.recs && IsSlot(im, slot) && o <= |idx|
      && PTR_SZ <= |idx| && Atol(idx[0..PTR_SZ]) == im.free
      && var r := im.recs[o];
      && r.datoff <= |dat| && 0 < r.datlen
      && 0 <= im.free <= PTR_MAX && o <= PTR_MAX && r.ptr <= PTR_MAX
      && IDXLEN_MIN <= |Entry(Blanks(|r.key|), r.datoff, r.datlen)| <= IDXLEN_MAX
      && var idx1 := Overwrite(idx, o, BlankRec(im, o).Text());
      && var idx2 := Overwrite(idx1, 0, PtrText(o));
      && slot <= |idx2|
      && var idx3 := Overwrite(idx2, slot, PtrText(r.ptr));
      && var dat' := Overwrite(dat, r.datoff, Blanks(r.datlen - 1) + [NEWLINE]);
      && var im', ls' := Deleted(im, o, slot), DeletedLists(ls, h, j, r.key);
      && |idx3| == |idx| && |dat'| == |dat|
      && Holds(im', idx3)
      && Sound(im', dat', ls')
      && Contents(im', dat', ls') == Contents(im, dat, ls) - {r.key}
      && SameShape(im, im')
  {
    hide Sound, Holds, Rec.Size, Rec.Text, Rec.Ok, PtrText, Blanks, SetPtr, Overwrite, Atol, Entry, Deleted, IsSlot,
      DeletedLists, SameShape, BlankRec;
    FieldsInFile(im, idx);
    ListedRecord(im, dat, ls, h, j);
    var o, slot := ls.chains[h][j], SlotOf(ChainOff(h), ls.chains[h], j);
    DeleteDone(im, dat, ls, h, j);
    DeletedBytes(im, idx, o, slot);
    PtrInFile(im, idx, 0);
    RecordInBytes(im, idx, o, false);
    BlankEntry(im, o);
  }

  lemma BlankEntry(im: Image, o: nat)
    requires o in im.recs && im.recs[o].Ok() && im.free <= PTR_MAX
    ensures var r := im.recs[o];
      r.datlen > 0 && r.ptr <= PTR_MAX && IDXLEN_MIN <= |Entry(Blanks(|r.key|), r.datoff, r.datlen)| <= IDXLEN_MAX
  {
    BlankKeepsLength(im, o);
  }

  lemma FieldsInFile(im: Image, idx: string)
    requires Holds(im, idx)
    ensures im.free <= PTR_MAX && PTR_SZ <= |idx| && PtrAt(im, 0) == im.free && IsSlot(im, 0)
    ensures forall h :: 0 <= h < |im.heads| ==> im.heads[h] <= PTR_MAX
    ensures forall o :: o in im.recs ==> im.recs[o].Ok()
  {
  }

  lemma ListedRecord(im: Image, dat: string, ls: Lists, h: nat, j: nat)
    requires Sound(im, dat, ls) && h < |im.heads| && j < |ls.chains[h]|
    ensures h < |ls.chains|
    ensures var o := ls.chains[h][j];
      o <= PTR_MAX && o in im.recs && im.recs[o].datoff + im.recs[o].datlen <= |dat|
  {
    hide Hash, LiveOn, HomesOk, LocOk, FreeOk;
    assert ChainOk(im, ls, h);
    OnChain(im, ls, h, j);
  }

  // ---------- Storing ----------

  /** A free record of exactly these sizes: what _db_findfree looks for. */
  ghost predicate Matches(im: Image, o: nat, keylen: nat, datlen: nat) {
    o in im.recs && |im.recs[o].key| == keylen && im.recs[o].datlen == datlen
  }

  /** An append stays within the limits of a record and of a pointer field. */
  ghost predicate Fits(idx: string, dat: string, key: string, data: string) {
    && IDXLEN_MIN <= |Entry(key, |dat|, |data| + 1)| <= IDXLEN_MAX
    && |idx| <= PTR_MAX
  }

  /** Storing this data needs new space at the ends of the files. */
  ghost predicate NeedsAppend(im: Image, ls: Lists, key: string, data: string) {
    if key in ls.loc then !Matches(im, ls.loc[key], |key|, |data| + 1)
    else forall j :: 0 <= j < |ls.freel| ==> !Matches(im, ls.freel[j], |key|, |data| + 1)
  }

  lemma FileEnd(im: Image, dat: string, ls: Lists, idx: string)
    requires Holds(im, idx) && Sound(im, dat, ls)
    ensures Tiled(im) && |idx| == End(im)
    ensures End(im) !in im.recs ==> End(im) !in ls.home
  {
    hide Tiled, HeaderBytes, FieldsOk, ChainOk, FreeOk, LocOk, ExtentsOk;
  }

  /** The two writes that put a record and its data at the ends of the files. */
  lemma AppendWrites(im: Image, idx: string, dat: string, ls: Lists, r: Rec, data: string)
    requires Holds(im, idx) && Sound(im, dat, ls) && r.Ok()
    requires r.datoff == |dat| && r.datlen == |data| + 1
    ensures var im', ls' := AddRec(im, |idx|, r), AddedHeld(ls, |idx|);
      var dat' := Overwrite(dat, |dat|, data + [NEWLINE]);
      && |idx| !in im.recs && |idx| !in ls.home && |idx| in im'.recs
      && Holds(im', Overwrite(idx, |idx|, r.Text()))
      && Sound(im', dat', ls')
      && Contents(im', dat', ls') == Contents(im, dat, ls)
      && SameShape(im, im')
      && Value(im', dat', |idx|) == data
  {
    hide Holds, ExtentsOk, ListsOk, LocOk, Contents, Value, TextOk, Rec.Size, Rec.Text, Rec.Ok, SameShape;
    AppendHolds(im, idx, r);
    FileEnd(im, dat, ls, idx);
    AddHeldRec(im, dat, ls, r, data);
    assert Overwrite(dat, |dat|, data + [NEWLINE]) == dat + (data + [NEWLINE]);
  }

  /** Data of any kind at the end of the data file, without a record for it, changes nothing. */
  lemma AppendDataOnly(im: Image, dat: string, ls: Lists, data: string)
    requires Sound(im, dat, ls)
    ensures var dat' := Overwrite(dat, |dat|, data + [NEWLINE]);
      Sound(im, dat', ls) && Contents(im, dat', ls) == Contents(im, dat, ls)
  {
    hide ExtentsOk, ChainOk, FreeOk, HomesOk, Value, Hash;
    AppendData(im, dat, data + [NEWLINE]);
    assert Overwrite(dat, |dat|, data + [NEWLINE]) == dat + (data + [NEWLINE]);
    SameContents(im, dat, im, dat + (data + [NEWLINE]), ls, ls);
  }

  /** The write of a chain head that makes a prepared record live. */
  lemma LinkWrites(im: Image, idx: string, dat: string, ls: Lists, h: nat, o: nat, data: string)
    requires Holds(im, idx) && Sound(im, dat, ls)
    requires o in im.recs && o <= PTR_MAX && ls.home[o] == Held
    requires im.recs[o].key !in ls.loc && h == Hash(im.recs[o].key, |im.heads|)
    requires NUL !in data && Value(im, dat, o) == data && im.recs[o].ptr == im.heads[h]
    ensures ChainOff(h) <= |idx|
    ensures var key := im.recs[o].key;
      var im', ls' := im.(heads := im.heads[h := o]), Linked(ls, h, o, key);
      && Holds(im', Overwrite(idx, ChainOff(h), PtrText(o)))
      && Sound(im', dat, ls')
      && Contents(im', dat, ls') == Contents(im, dat, ls)[key := data]
      && SameShape(im, im')
  {
    hide ExtentsOk, FreeOk, LocOk, ChainOk, HomesOk, Value, TextOk, Hash, Rec.Size, Rec.Text, SameShape, PtrText, Tiled;
    LinkDone(im, dat, ls, h, o, data);
    SetHeadHolds(im, idx, h, o);
  }

  /** All writes of an append: the record stands at the end of the file and goes live. */
  lemma AppendAll(im: Image, idx: string, dat: string, ls: Lists, h: nat, r: Rec, data: string)
    requires Holds(im, idx) && Sound(im, dat, ls) && r.Ok() && |idx| <= PTR_MAX
    requires r.datoff == |dat| && r.datlen == |data| + 1 && NUL !in data
    requires r.key !in ls.loc && h == Hash(r.key, |im.heads|) && r.ptr == im.heads[h]
    ensures |idx| !in ls.home && ChainOff(h) <= |Overwrite(idx, |idx|, r.Text())|
    ensures var im' := AddRec(im, |idx|, r);
      var im'', ls'' := im'.(heads := im'.heads[h := |idx|]), Linked(AddedHeld(ls, |idx|), h, |idx|, r.key);
      var dat' := Overwrite(dat, |dat|, data + [NEWLINE]);
      && Holds(im'', Overwrite(Overwrite(idx, |idx|, r.Text()), ChainOff(h), PtrText(|idx|)))
      && Sound(im'', dat', ls'')
      && Contents(im'', dat', ls'') == Contents(im, dat, ls)[r.key := data]
      && SameShape(im, im'')
  {
    hide Holds, Sound, ExtentsOk, LocOk, Contents, Value, Hash, Rec.Size, Rec.Text, Rec.Ok, SameShape, PtrText, Overwrite;
    AppendWrites(im, idx, dat, ls, r, data);
    var im', ls', dat' := AddRec(im, |idx|, r), AddedHeld(ls, |idx|), Overwrite(dat, |dat|, data + [NEWLINE]);
    LinkWrites(im', Overwrite(idx, |idx|, r.Text()), dat', ls', h, |idx|, data);
    ShapeTrans(im, im', im'.(heads := im'.heads[h := |idx|]));
  }

  /** All writes of a reuse: the record taken off the free list goes live with its new key and data. */
  lemma ReuseAll(im: Image, idx: string, dat: string, ls: Lists, h: nat, o: nat, key: string, data: string)
    requires Holds(im, idx) && Sound(im, dat, ls) && KeyText(key) && NUL !in data
    requires Matches(im, o, |key|, |data| + 1) && o in ls.home && ls.home[o] == Held && o <= PTR_MAX
    requires key !in ls.loc && h == Hash(key, |im.heads|)
    ensures h < |im.heads| && h < |ls.chains| && im.heads[h] <= PTR_MAX && o <= |idx| && im.recs[o].datoff <= |dat|
    ensures var r := Rec(im.heads[h], key, im.recs[o].datoff, im.recs[o].datlen);
      var im' := SetRec(im, o, r);
      var im'', ls'' := im'.(heads := im'.heads[h := o]), Linked(ls, h, o, key);
      var dat' := Overwrite(dat, r.datoff, data + [NEWLINE]);
      && r.Writable()
      && ChainOff(h) <= |Overwrite(idx, o, r.Text())|
      && Holds(im'', Overwrite(Overwrite(idx, o, r.Text()), ChainOff(h), PtrText(o)))
      && Sound(im'', dat', ls'')
      && Contents(im'', dat', ls'') == Contents(im, dat, ls)[key := data]
      && SameShape(im, im'')
  {
    hide Holds, ExtentsOk, LocOk, FreeOk, ChainOk, HomesOk, TextOk, Contents, Value, Hash, Rec.Size, Rec.Text, SameShape, PtrText,
      Overwrite, Tiled;
    FieldsInFile(im, idx);
    HashBelow(key, |im.heads|);
    var r := Rec(im.heads[h], key, im.recs[o].datoff, im.recs[o].datlen);
    ReuseWrites(im, idx, dat, ls, o, r.ptr, key, data);
    hide Sound;
    var im', dat' := SetRec(im, o, r), Overwrite(dat, r.datoff, data + [NEWLINE]);
    LinkWrites(im', Overwrite(idx, o, r.Text()), dat', ls, h, o, data);
    ShapeTrans(im, im', im'.(heads := im'.heads[h := o]));
  }

  lemma HashBelow(key: string, nhash: nat)
    requires nhash > 0
    ensures Hash(key, nhash) < nhash
  {
  }

  /** The first record of chain h cannot be read: every walk along the chain dumps. */
  ghost predicate Jammed(idx: string, h: nat) {
    && ChainOff(h) + PTR_SZ <= |idx|
    && var o := Atol(idx[ChainOff(h)..ChainOff(h) + PTR_SZ]);
       o > 0 && ParseRecord(idx, o, false) == Malformed
  }

  /** A record of a chain reads as what it is, and leads to the next. */
  ghost predicate RecordReads(im: Image, idx: string, ls: Lists, h: nat, pos: nat)
    requires h < |ls.chains| && pos < |ls.chains[h]|
  {
    var o := ls.chains[h][pos];
    && 0 < o && o in im.recs && im.recs[o].ptr == NextIn(ls.chains[h], pos)
    && ParseRecord(idx, o, false)
       == Record(im.recs[o].ptr, im.recs[o].EntryLen(), im.recs[o].key, im.recs[o].datoff, im.recs[o].datlen)
    && im.recs[o].key in ls.loc && ls.loc[im.recs[o].key] == o
  }

  /** A walk along chain h finds its records in these bytes, and the chain has all keys of its hash. */
  ghost predicate ChainReads(im: Image, idx: string, ls: Lists, h: nat)
    requires |im.heads| > 0
  {
    && h < |ls.chains| && ChainOff(h) + PTR_SZ <= |idx|
    && Atol(idx[ChainOff(h)..ChainOff(h) + PTR_SZ]) == FirstOf(ls.chains[h])
    && (forall pos :: 0 <= pos < |ls.chains[h]| ==> RecordReads(im, idx, ls, h, pos))
    && (forall k :: k in ls.loc && Hash(k, |im.heads|) == h ==> OnIts(im, ls, h, k))
  }

  ghost predicate OnIts(im: Image, ls: Lists, h: nat, k: string)
    requires h < |ls.chains|
  {
    k in ls.loc && ls.loc[k] in ls.chains[h] && ls.loc[k] in im.recs && im.recs[ls.loc[k]].key == k
  }

  /** In a sound database every chain can be walked. */
  lemma SoundReads(im: Image, idx: string, ls: Lists, h: nat)
    requires Holds(im, idx) && ListsOk(im, ls) && h < |im.heads|
    ensures ChainReads(im, idx, ls, h)
  {
    hide Tiled, Hash, FreeOk, HomesOk, LocOk, Threaded, HeaderBytes, Atol, ParseRecord;
    assert ChainOk(im, ls, h);
    HeadSlots(im, h);
    PtrInFile(im, idx, ChainOff(h));
    ChainStart(im, ls, h);
    forall pos | 0 <= pos < |ls.chains[h]|
      ensures RecordReads(im, idx, ls, h, pos)
    {
      OnChain(im, ls, h, pos);
      RecordInBytes(im, idx, ls.chains[h][pos], false);
    }
    forall k | k in ls.loc && Hash(k, |im.heads|) == h
      ensures OnIts(im, ls, h, k)
    {
      KeyOnChain(im, ls, k);
    }
  }

  /** A chain that can be walked is not jammed. */
  lemma ReadsOrJams(im: Image, idx: string, ls: Lists, h: nat)
    requires |im.heads| > 0 && ChainReads(im, idx, ls, h)
    ensures !Jammed(idx, h)
  {
    hide ParseRecord, Atol, Hash;
    if ls.chains[h] != [] {
      assert RecordReads(im, idx, ls, h, 0);
    }
  }

  /** Bytes that differ from these at most in a stretch, in one pointer field, and behind their end. */
  ghost predicate SameBut(idx: string, idx': string, lo: nat, hi: nat, slot: nat) {
    && |idx| <= |idx'|
    && forall i :: 0 <= i < |idx| && !(lo <= i < hi) && !(slot <= i < slot + PTR_SZ) ==> idx'[i] == idx[i]
  }

  lemma TwoWrites(idx: string, o: nat, t: string, slot: nat, u: string)
    requires slot + PTR_SZ <= o <= |idx| && |u| == PTR_SZ
    ensures slot <= |Overwrite(idx, o, t)|
    ensures SameBut(idx, Overwrite(Overwrite(idx, o, t), slot, u), o, o + |t|, slot)
  {
    var a := Overwrite(idx, o, t);
    assert forall i :: 0 <= i < |idx| && !(o <= i < o + |t|) ==> a[i] == idx[i];
  }

  lemma SameSlice(idx: string, idx': string, lo: nat, hi: nat, slot: nat, from: nat, to: nat)
    requires SameBut(idx, idx', lo, hi, slot) && from <= to <= |idx|
    requires (to <= lo || hi <= from) && (to <= slot || slot + PTR_SZ <= from)
    ensures idx'[from..to] == idx[from..to]
  {
  }

  /** A record written off a chain, and the head of another chain, leave a chain as it reads. */
  lemma OtherChainReads(im: Image, idx: string, ls: Lists, idx': string, o: nat, hi: nat, h: nat, g: nat)
    requires Holds(im, idx) && ListsOk(im, ls) && h < |im.heads| && g < |im.heads| && g != h
    requires SameBut(idx, idx', o, hi, ChainOff(h))
    requires o == |idx| || (o in im.recs && hi == o + im.recs[o].Size() && o in ls.home && ls.home[o] == Held)
    ensures ChainReads(im, idx', ls, g)
  {
    hide Hash, FreeOk, HomesOk, LocOk, Threaded, HeaderBytes, Atol, ParseRecord, Rec.Size, Rec.Text, Tiled, SameBut, LiveOn;
    SoundReads(im, idx, ls, g);
    assert ChainOk(im, ls, g);
    HoldsBase(im, idx, o);
    SameSlice(idx, idx', o, hi, ChainOff(h), ChainOff(g), ChainOff(g) + PTR_SZ);
    SameLength(idx, idx', o, hi, ChainOff(h));
    forall pos | 0 <= pos < |ls.chains[g]|
      ensures RecordReads(im, idx', ls, g, pos)
    {
      OtherRecordReads(im, idx, ls, idx', o, hi, h, g, pos);
    }
  }

  lemma OtherRecordReads(im: Image, idx: string, ls: Lists, idx': string, o: nat, hi: nat, h: nat, g: nat, pos: nat)
    requires Holds(im, idx) && ListsOk(im, ls) && h < |im.heads| && g < |im.heads| && g != h && pos < |ls.chains[g]|
    requires SameBut(idx, idx', o, hi, ChainOff(h)) && RecordReads(im, idx, ls, g, pos)
    requires o == |idx| || (o in im.recs && hi == o + im.recs[o].Size() && o in ls.home && ls.home[o] == Held)
    ensures RecordReads(im, idx', ls, g, pos)
  {
    hide Hash, FreeOk, HomesOk, LocOk, Threaded, HeaderBytes, Atol, ParseRecord, Rec.Size, Rec.Text, Tiled, SameBut;
    var x := ls.chains[g][pos];
    assert ChainOk(im, ls, g);
    HoldsBase(im, idx, o);
    OnChain(im, ls, g, pos);
    RecordInFile(im, x);
    LiveHome(im, ls, x, g);
    if o in im.recs {
      RecordsApart(im, o, x);
    }
    SameSlice(idx, idx', o, hi, ChainOff(h), x, x + im.recs[x].Size());
    SameLength(idx, idx', o, hi, ChainOff(h));
    RecordRoundTrip(idx', x, im.recs[x], false);
  }

  lemma SameLength(idx: string, idx': string, lo: nat, hi: nat, slot: nat)
    requires SameBut(idx, idx', lo, hi, slot)
    ensures |idx| <= |idx'|
  {
  }

  lemma HoldsBase(im: Image, idx: string, o: nat)
    requires Holds(im, idx) && (o == |idx| || o in im.recs)
    ensures Base(|im.heads|) <= o && |idx| == End(im) && (o == |idx| ==> o !in im.recs)
    ensures forall h :: 0 <= h < |im.heads| ==> ChainOff(h) + PTR_SZ < Base(|im.heads|)
  {
    hide HeaderBytes, Rec.Size;
    if o in im.recs {
      RecordInFile(im, o);
      SizePositive(im.recs[o]);
    }
  }

  /** A record whose key has a separator, put in front of a chain, jams the chain. */
  lemma SeparatorJams(idx: string, o: nat, r: Rec, h: nat)
    requires r.Writable() && NUL !in r.key && SEP in r.key
    requires ChainOff(h) + PTR_SZ <= o <= |idx| && o <= PTR_MAX
    ensures ChainOff(h) <= |Overwrite(idx, o, r.Text())|
    ensures Jammed(Overwrite(Overwrite(idx, o, r.Text()), ChainOff(h), PtrText(o)), h)
  {
    hide Digits, Field, Atol, ParseRecord, PtrText, Rec.Text, Rec.Writable;
    PtrRoundTrip(o);
    var s := Overwrite(idx, o, r.Text());
    var s' := Overwrite(s, ChainOff(h), PtrText(o));
    RecTextParts(r);
    assert s[o..o + r.Size()] == r.Text();
    OverwriteElsewhere(s, ChainOff(h), PtrText(o), o, o + r.Size());
    OverwriteSelf(s, ChainOff(h), PtrText(o));
    hide Overwrite, Rec.Size;
    RoundTripExactlyWhen(s', o, r, false);
  }

  /** No chain of a sound database is jammed. */
  lemma NotJammed(im: Image, idx: string, ls: Lists, h: nat)
    requires Holds(im, idx) && ListsOk(im, ls) && h < |im.heads|
    ensures !Jammed(idx, h)
  {
    hide Holds, ListsOk, ChainReads, Jammed;
    ListsHeads(im, ls);
    SoundReads(im, idx, ls, h);
    ReadsOrJams(im, idx, ls, h);
  }

  lemma ListsHeads(im: Image, ls: Lists)
    requires ListsOk(im, ls)
    ensures 0 < |im.heads| == |ls.chains|
  {
  }

  /** The writes that give a record taken off the free list its new key and data. */
  lemma ReuseWrites(im: Image, idx: string, dat: string, ls: Lists, o: nat, ptr: nat, key: string, data: string)
    requires Holds(im, idx) && Sound(im, dat, ls)
    requires Matches(im, o, |key|, |data| + 1) && ls.home[o] == Held
    requires ptr <= PTR_MAX && KeyText(key)
    ensures o <= |idx| && im.recs[o].datoff <= |dat|
    ensures var r := Rec(ptr, key, im.recs[o].datoff, im.recs[o].datlen);
      var im', dat' := SetRec(im, o, r), Overwrite(dat, im.recs[o].datoff, data + [NEWLINE]);
      && IDXLEN_MIN <= |Entry(key, r.datoff, r.datlen)| <= IDXLEN_MAX
      && Holds(im', Overwrite(idx, o, r.Text()))
      && Sound(im', dat', ls)
      && Contents(im', dat', ls) == Contents(im, dat, ls)
      && SameShape(im, im')
      && Value(im', dat', o) == data
  {
    hide FreeOk, LocOk, ChainOk, HomesOk, Value, TextOk, Hash, Digits, PtrText, Tiled, SameShape, Overwrite;
    var r := Rec(ptr, key, im.recs[o].datoff, im.recs[o].datlen);
    EntryLenOf(im.recs[o].key, key, r.datoff, r.datlen);
    RecordInFile(im, o);
    hide Rec.Size, Rec.Text, Rec.Ok, ExtentsOk, Entry;
    WriteHeldData(im, dat, ls, o, data);
    var dat' := Overwrite(dat, im.recs[o].datoff, data + [NEWLINE]);
    WriteHeldRec(im, dat', ls, o, r);
    RewriteHolds(im, idx, o, r);
  }

  /** The one write of _db_findfree: the record leaves the free list and is held. */
  lemma TakeFreeWrites(im: Image, idx: string, dat: string, ls: Lists, j: nat)
    requires Holds(im, idx) && Sound(im, dat, ls) && j < |ls.freel|
    ensures var o, slot := ls.freel[j], SlotOf(0, ls.freel, j);
      && o in im.recs && IsSlot(im, slot) && slot <= |idx| && im.recs[o].ptr == NextIn(ls.freel, j) <= PTR_MAX
      && var im', ls' := SetPtr(im, slot, im.recs[o].ptr), TakenFree(ls, j);
      && Holds(im', Overwrite(idx, slot, PtrText(im.recs[o].ptr)))
      && |Overwrite(idx, slot, PtrText(im.recs[o].ptr))| == |idx|
      && Sound(im', dat, ls')
      && Contents(im', dat, ls') == Contents(im, dat, ls)
      && SameShape(im, im') && im'.heads == im.heads
      && o in im'.recs
  {
    hide Tiled, HeaderBytes, ExtentsOk, FreeOk, LocOk, ChainOk, Value, TextOk, Hash, Rec.Size, Rec.Text, SameShape, PtrText,
      SetPtr, IsSlot;
    TakeFreeDone(im, dat, ls, j);
    PtrInFile(im, idx, SlotOf(0, ls.freel, j));
    RecPtrBound(im, ls.freel[j]);
    SetPtrHolds(im, idx, SlotOf(0, ls.freel, j), NextIn(ls.freel, j));
    PtrRoundTrip(NextIn(ls.freel, j));
    OverwriteSelf(idx, SlotOf(0, ls.freel, j), PtrText(NextIn(ls.freel, j)));
  }

  lemma RecPtrBound(im: Image, o: nat)
    requires o in im.recs && im.recs[o].Ok()
    ensures im.recs[o].ptr <= PTR_MAX
  {
  }

  lemma ShapeMatches(im: Image, im': Image, o: nat, keylen: nat, dlen: nat)
    requires SameShape(im, im') && o in im.recs
    ensures Matches(im', o, keylen, dlen) <==> Matches(im, o, keylen, dlen)
    ensures im'.recs[o].datoff == im.recs[o].datoff
  {
    hide Rec.Size;
  }
}
