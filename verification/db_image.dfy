/**
 The two files of a database as records (db/db.c:13-29): an index file is a free-list
 pointer, a table of chain heads, a newline, and then index records back to back;
 the data file holds the extents those records name.

 Every record is identified by its offset in the index file, as in the source.
 */
module DbImage {
  import opened DbFormat

  /** A record of the index file per offset; order lists the offsets as they stand in the file. */
  datatype Image = Image(free: nat, heads: seq<nat>, recs: map<nat, Rec>, order: seq<nat>)

  function ChainOff(h: nat): nat {
    h * PTR_SZ + PTR_SZ
  }

  /** Where the records start: after the free pointer, the table and its newline. */
  function Base(nhash: nat): nat {
    (nhash + 1) * PTR_SZ + 1
  }

  /** Where the last record ends: the length of the index file. */
  function End(im: Image): nat {
    var n := |im.order|;
    if n == 0 || im.order[n - 1] !in im.recs then Base(|im.heads|)
    else im.order[n - 1] + im.recs[im.order[n - 1]].Size()
  }

  /** Record i of the file starts where the one before it ends. */
  ghost predicate Adjacent(im: Image, i: nat)
    requires 1 <= i < |im.order| && im.order[i - 1] in im.recs
  {
    im.order[i] == im.order[i - 1] + im.recs[im.order[i - 1]].Size()
  }

  /** The records fill the file from the end of the table to its own end, without gaps. */
  ghost predicate Tiled(im: Image) {
    && |im.heads| > 0
    && (forall i :: 0 <= i < |im.order| ==> im.order[i] in im.recs)
    && (forall o :: o in im.recs ==> o in im.order)
    && (|im.order| > 0 ==> im.order[0] == Base(|im.heads|))
    && (forall i :: 1 <= i < |im.order| ==> Adjacent(im, i))
    && (forall o :: o in im.recs ==> Base(|im.heads|) <= o && o + im.recs[o].Size() <= End(im))
    && (forall o, o' :: o in im.recs && o' in im.recs && o < o' ==> o + im.recs[o].Size() <= o')
  }

  ghost predicate FieldsOk(im: Image) {
    && im.free <= PTR_MAX
    && (forall h :: 0 <= h < |im.heads| ==> im.heads[h] <= PTR_MAX)
    && (forall o :: o in im.recs ==> im.recs[o].Ok())
  }

  ghost predicate HeaderBytes(im: Image, idx: string)
    requires |idx| >= Base(|im.heads|)
  {
    && idx[0..PTR_SZ] == PtrText(im.free)
    && (forall h :: 0 <= h < |im.heads| ==> idx[ChainOff(h)..ChainOff(h) + PTR_SZ] == PtrText(im.heads[h]))
    && idx[Base(|im.heads|) - 1] == NEWLINE
  }

  /** The index file with these bytes holds exactly these records. */
  ghost predicate Holds(im: Image, idx: string) {
    && Tiled(im)
    && FieldsOk(im)
    && |idx| == End(im) >= Base(|im.heads|)
    && HeaderBytes(im, idx)
    && (forall o :: o in im.recs ==> idx[o..o + im.recs[o].Size()] == im.recs[o].Text())
  }

  // ---------- Pointer fields ----------

  predicate IsHeadSlot(im: Image, off: nat) {
    PTR_SZ <= off < Base(|im.heads|) - 1 && off % PTR_SZ == 0
  }

  /** An offset at which a pointer field starts. */
  predicate IsSlot(im: Image, off: nat) {
    off == 0 || IsHeadSlot(im, off) || off in im.recs
  }

  lemma HeadSlots(im: Image, h: nat)
    requires h < |im.heads|
    ensures IsHeadSlot(im, ChainOff(h)) && ChainOff(h) / PTR_SZ - 1 == h
  {
  }

  function PtrAt(im: Image, off: nat): nat
    requires IsSlot(im, off)
  {
    if off == 0 then im.free
    else if IsHeadSlot(im, off) then im.heads[off / PTR_SZ - 1]
    else im.recs[off].ptr
  }

  function SetPtr(im: Image, off: nat, p: nat): Image
    requires IsSlot(im, off)
  {
    if off == 0 then im.(free := p)
    else if IsHeadSlot(im, off) then im.(heads := im.heads[off / PTR_SZ - 1 := p])
    else SetRec(im, off, im.recs[off].(ptr := p))
  }

  function SetRec(im: Image, o: nat, r: Rec): Image {
    im.(recs := im.recs[o := r])
  }

  function AddRec(im: Image, o: nat, r: Rec): Image {
    im.(recs := im.recs[o := r], order := im.order + [o])
  }

  // ---------- Writing into a file ----------

  /** A write of a string at an offset inside the file or at its end. */
  function Overwrite(s: string, off: nat, t: string): (r: string)
    requires off <= |s|
  {
    if off + |t| <= |s| then s[..off] + t + s[off + |t|..] else s[..off] + t
  }

  lemma OverwriteSelf(s: string, off: nat, t: string)
    requires off + |t| <= |s|
    ensures |Overwrite(s, off, t)| == |s|
    ensures Overwrite(s, off, t)[off..off + |t|] == t
  {
  }

  lemma OverwriteElsewhere(s: string, off: nat, t: string, lo: nat, hi: nat)
    requires off + |t| <= |s| && lo <= hi <= |s|
    requires hi <= off || off + |t| <= lo
    ensures Overwrite(s, off, t)[lo..hi] == s[lo..hi]
  {
  }

  lemma RecordInFile(im: Image, o: nat)
    requires Tiled(im) && o in im.recs
    ensures Base(|im.heads|) <= o && o + im.recs[o].Size() <= End(im)
  {
  }

  lemma RecordsInFile(im: Image)
    requires Tiled(im)
    ensures forall o :: o in im.recs ==> Base(|im.heads|) <= o && o + im.recs[o].Size() <= End(im)
  {
    hide Rec.Size;
  }

  lemma RecordsApart(im: Image, o: nat, p: nat)
    requires Tiled(im) && o in im.recs && p in im.recs && o != p
    ensures o + im.recs[o].Size() <= p || p + im.recs[p].Size() <= o
  {
  }

  /** A record rewritten at its old length leaves the tiling and all other records alone. */
  lemma RewriteHolds(im: Image, idx: string, o: nat, r: Rec)
    requires Holds(im, idx) && o in im.recs
    requires r.Ok() && r.Size() == im.recs[o].Size()
    ensures Holds(SetRec(im, o, r), Overwrite(idx, o, r.Text()))
    ensures End(SetRec(im, o, r)) == End(im)
  {
    hide Rec.Size, Rec.Text, Rec.Ok, Tiled, HeaderBytes, FieldsOk, Overwrite;
    RecTextShape(r);
    RecordInFile(im, o);
    var idx', im' := Overwrite(idx, o, r.Text()), SetRec(im, o, r);
    TiledRewrite(im, o, r);
    FieldsRewrite(im, o, r);
    HeaderUnchanged(im, idx, o, r.Text());
    OverwriteSelf(idx, o, r.Text());
    HeaderSame(im, im', idx');
    forall p | p in im'.recs
      ensures p + im'.recs[p].Size() <= |idx'| && idx'[p..p + im'.recs[p].Size()] == im'.recs[p].Text()
    {
      if p != o {
        RecordInFile(im, p);
        RecordsApart(im, o, p);
        OverwriteElsewhere(idx, o, r.Text(), p, p + im.recs[p].Size());
      }
    }
  }

  lemma FieldsRewrite(im: Image, o: nat, r: Rec)
    requires FieldsOk(im) && r.Ok()
    ensures FieldsOk(SetRec(im, o, r))
  {
    hide Rec.Ok;
  }

  lemma HeaderSame(im: Image, im': Image, idx: string)
    requires |idx| >= Base(|im.heads|) && HeaderBytes(im, idx) && im'.heads == im.heads && im'.free == im.free
    ensures HeaderBytes(im', idx)
  {
    hide PtrText;
  }

  lemma TiledRewrite(im: Image, o: nat, r: Rec)
    requires Tiled(im) && o in im.recs && r.Size() == im.recs[o].Size()
    ensures Tiled(SetRec(im, o, r)) && End(SetRec(im, o, r)) == End(im)
  {
    var im' := SetRec(im, o, r);
    hide Rec.Size;
    assert im'.recs.Keys == im.recs.Keys;
    assert forall p :: p in im.recs ==> im'.recs[p].Size() == im.recs[p].Size();
    forall i | 1 <= i < |im.order|
      ensures Adjacent(im', i)
    {
      assert Adjacent(im, i);
    }
  }

  lemma TiledSameRecs(im: Image, im': Image)
    requires Tiled(im) && im'.recs == im.recs && im'.order == im.order && |im'.heads| == |im.heads|
    ensures Tiled(im') && End(im') == End(im)
  {
    hide Rec.Size;
    forall i | 1 <= i < |im.order|
      ensures Adjacent(im', i)
    {
      assert Adjacent(im, i);
    }
  }

  /** A write past the header leaves it alone. */
  lemma HeaderUnchanged(im: Image, idx: string, o: nat, t: string)
    requires Base(|im.heads|) <= o && o + |t| <= |idx| && HeaderBytes(im, idx)
    ensures HeaderBytes(im, Overwrite(idx, o, t))
  {
    var idx' := Overwrite(idx, o, t);
    OverwriteElsewhere(idx, o, t, 0, PTR_SZ);
    forall h | 0 <= h < |im.heads|
      ensures idx'[ChainOff(h)..ChainOff(h) + PTR_SZ] == PtrText(im.heads[h])
    {
      OverwriteElsewhere(idx, o, t, ChainOff(h), ChainOff(h) + PTR_SZ);
    }
    assert idx'[Base(|im.heads|) - 1] == idx[Base(|im.heads|) - 1];
  }

  lemma RecordsBelowHeader(im: Image, idx: string, off: nat, t: string)
    requires Tiled(im) && End(im) == |idx| && off + |t| <= Base(|im.heads|) <= |idx|
    requires forall o :: o in im.recs ==>
      o + im.recs[o].Size() <= |idx| && idx[o..o + im.recs[o].Size()] == im.recs[o].Text()
    ensures forall o :: o in im.recs ==>
      Overwrite(idx, off, t)[o..o + im.recs[o].Size()] == im.recs[o].Text()
  {
    hide Rec.Size, Rec.Text, Tiled, End, Overwrite;
    OverwriteSelf(idx, off, t);
    forall o | o in im.recs
      ensures Overwrite(idx, off, t)[o..o + im.recs[o].Size()] == im.recs[o].Text()
    {
      RecordInFile(im, o);
      OverwriteElsewhere(idx, off, t, o, o + im.recs[o].Size());
    }
  }

  lemma SetFreeHolds(im: Image, idx: string, p: nat)
    requires Holds(im, idx) && p <= PTR_MAX
    ensures Holds(im.(free := p), Overwrite(idx, 0, PtrText(p)))
  {
    hide Rec.Size, Rec.Text, Rec.Ok, PtrText, Tiled;
    PtrRoundTrip(p);
    var t, im' := PtrText(p), im.(free := p);
    var idx' := Overwrite(idx, 0, t);
    TiledSameRecs(im, im');
    OverwriteSelf(idx, 0, t);
    forall h | 0 <= h < |im.heads|
      ensures idx'[ChainOff(h)..ChainOff(h) + PTR_SZ] == PtrText(im'.heads[h])
    {
      OverwriteElsewhere(idx, 0, t, ChainOff(h), ChainOff(h) + PTR_SZ);
    }
    RecordsInFile(im);
    RecordsBelowHeader(im, idx, 0, t);
  }

  lemma SetHeadHolds(im: Image, idx: string, h: nat, p: nat)
    requires Holds(im, idx) && h < |im.heads| && p <= PTR_MAX
    ensures Holds(im.(heads := im.heads[h := p]), Overwrite(idx, ChainOff(h), PtrText(p)))
  {
    hide Rec.Size, Rec.Text, Rec.Ok, PtrText, Tiled;
    PtrRoundTrip(p);
    var t, im' := PtrText(p), im.(heads := im.heads[h := p]);
    var idx' := Overwrite(idx, ChainOff(h), t);
    TiledSameRecs(im, im');
    OverwriteSelf(idx, ChainOff(h), t);
    OverwriteElsewhere(idx, ChainOff(h), t, 0, PTR_SZ);
    forall g | 0 <= g < |im.heads|
      ensures idx'[ChainOff(g)..ChainOff(g) + PTR_SZ] == PtrText(im'.heads[g])
    {
      if g != h {
        OverwriteElsewhere(idx, ChainOff(h), t, ChainOff(g), ChainOff(g) + PTR_SZ);
      }
    }
    RecordsInFile(im);
    RecordsBelowHeader(im, idx, ChainOff(h), t);
  }

  /** _db_writeptr on any pointer field: just that pointer changes. */
  lemma SetPtrHolds(im: Image, idx: string, off: nat, p: nat)
    requires Holds(im, idx) && IsSlot(im, off) && p <= PTR_MAX
    ensures Holds(SetPtr(im, off, p), Overwrite(idx, off, PtrText(p)))
  {
    hide Rec.Size, Rec.Text, Rec.Ok, Tiled, HeaderBytes;
    PtrRoundTrip(p);
    if off == 0 {
      SetFreeHolds(im, idx, p);
    } else if IsHeadSlot(im, off) {
      SetHeadHolds(im, idx, off / PTR_SZ - 1, p);
    } else {
      SetRecPtrHolds(im, idx, off, p);
    }
  }

  lemma SetRecPtrHolds(im: Image, idx: string, o: nat, p: nat)
    requires Holds(im, idx) && o in im.recs && p <= PTR_MAX
    ensures Holds(SetRec(im, o, im.recs[o].(ptr := p)), Overwrite(idx, o, PtrText(p)))
  {
    hide Rec.Size, Rec.Text, Rec.Ok, Tiled, HeaderBytes, PtrText;
    PtrRoundTrip(p);
    var r := im.recs[o];
    RecTextPtr(r, p);
    RecTextShape(r);
    RewriteHolds(im, idx, o, r.(ptr := p));
    hide Holds;
    RecordInFile(im, o);
    SizePositive(r);
    OverwritePrefix(idx, o, r.Text(), PtrText(p));
  }

  /** Rewriting a stretch with a new beginning and its old rest writes the beginning only. */
  lemma OverwritePrefix(s: string, off: nat, t: string, u: string)
    requires |u| <= |t| && off + |t| <= |s| && s[off..off + |t|] == t
    ensures Overwrite(s, off, u) == Overwrite(s, off, u + t[|u|..])
  {
    assert s[off + |u|..off + |t|] == t[|u|..];
    assert s[off + |u|..] == t[|u|..] + s[off + |t|..];
  }

  /** A record written at the end of the file. */
  lemma AppendHolds(im: Image, idx: string, r: Rec)
    requires Holds(im, idx) && r.Ok()
    ensures End(im) !in im.recs
    ensures Holds(AddRec(im, End(im), r), Overwrite(idx, End(im), r.Text()))
  {
    hide Rec.Size, Rec.Text, Rec.Ok, PtrText, Tiled, HeaderBytes, FieldsOk, End;
    RecTextShape(r);
    var e := End(im);
    var idx', im' := idx + r.Text(), AddRec(im, e, r);
    assert Overwrite(idx, e, r.Text()) == idx';
    TiledAppend(im, r);
    FieldsAppend(im, e, r);
    HeaderAppend(im, idx, r.Text());
    HeaderSame(im, im', idx');
    forall o | o in im'.recs
      ensures o + im'.recs[o].Size() <= |idx'| && idx'[o..o + im'.recs[o].Size()] == im'.recs[o].Text()
    {
      if o != e {
        RecordInFile(im, o);
        SliceOfFront(idx, r.Text(), o, o + im.recs[o].Size());
      } else {
        SliceOfBack(idx, r.Text());
      }
    }
  }

  lemma SliceOfFront(s: string, t: string, lo: nat, hi: nat)
    requires lo <= hi <= |s|
    ensures (s + t)[lo..hi] == s[lo..hi]
  {
  }

  lemma SliceOfBack(s: string, t: string)
    ensures (s + t)[|s|..|s| + |t|] == t
  {
  }

  lemma FieldsAppend(im: Image, e: nat, r: Rec)
    requires FieldsOk(im) && r.Ok()
    ensures FieldsOk(AddRec(im, e, r))
  {
    hide Rec.Ok;
  }

  lemma HeaderAppend(im: Image, idx: string, t: string)
    requires |idx| >= Base(|im.heads|) && HeaderBytes(im, idx)
    ensures HeaderBytes(im, idx + t)
  {
    hide PtrText;
    var idx' := idx + t;
    assert idx'[0..PTR_SZ] == idx[0..PTR_SZ];
    forall h | 0 <= h < |im.heads|
      ensures idx'[ChainOff(h)..ChainOff(h) + PTR_SZ] == PtrText(im.heads[h])
    {
      assert idx'[ChainOff(h)..ChainOff(h) + PTR_SZ] == idx[ChainOff(h)..ChainOff(h) + PTR_SZ];
    }
  }

  lemma TiledAppend(im: Image, r: Rec)
    requires Tiled(im)
    ensures End(im) >= Base(|im.heads|)
    ensures End(im) !in im.recs
    ensures Tiled(AddRec(im, End(im), r)) && End(AddRec(im, End(im), r)) == End(im) + r.Size()
  {
    hide Rec.Size;
    var e := End(im);
    var im' := AddRec(im, e, r);
    if im.order != [] {
      assert im.order[|im.order| - 1] in im.recs;
    }
    forall o | o in im.recs
      ensures o < e && o in im'.order && im'.recs[o] == im.recs[o]
    {
      RecordInFile(im, o);
      assert im.recs[o].Size() > 0 by { SizePositive(im.recs[o]); }
      assert o in im.order;
    }
    SizePositive(r);
    forall i | 1 <= i < |im'.order|
      ensures Adjacent(im', i)
    {
      if i < |im.order| {
        assert Adjacent(im, i);
      }
    }
  }

  lemma SizePositive(r: Rec)
    ensures r.Size() > HDR_SZ
  {
  }

  /** _db_readptr finds at any pointer field the pointer that is there. */
  lemma PtrInFile(im: Image, idx: string, off: nat)
    requires Holds(im, idx) && IsSlot(im, off)
    ensures off + PTR_SZ <= |idx| && Atol(idx[off..off + PTR_SZ]) == PtrAt(im, off) <= PTR_MAX
  {
    hide Rec.Size, Rec.Text, Tiled, PtrText, Atol;
    PtrRoundTrip(PtrAt(im, off));
    if off == 0 {
    } else if IsHeadSlot(im, off) {
      assert off == ChainOff(off / PTR_SZ - 1);
    } else {
      var r := im.recs[off];
      RecordInFile(im, off);
      SizePositive(r);
      RecTextShape(r);
      SliceOfSlice(idx, off, off + r.Size(), 0, PTR_SZ);
    }
  }

  /** _db_readidx finds at the offset of a record the fields of that record. */
  lemma RecordInBytes(im: Image, idx: string, o: nat, sequential: bool)
    requires Holds(im, idx) && o in im.recs
    ensures o > 0 && im.recs[o].Ok() && o + im.recs[o].Size() <= |idx|
    ensures var r := im.recs[o];
      ParseRecord(idx, o, sequential) == Record(r.ptr, r.EntryLen(), r.key, r.datoff, r.datlen)
  {
    RecordInFile(im, o);
    RecordRoundTrip(idx, o, im.recs[o], sequential);
  }

  // ---------- The data file ----------

  ghost predicate Apart(r: Rec, t: Rec) {
    r.datoff + r.datlen <= t.datoff || t.datoff + t.datlen <= r.datoff
  }

  /** Every extent lies in the file and ends in a newline; no two extents overlap. */
  ghost predicate ExtentsOk(im: Image, dat: string) {
    && (forall o :: o in im.recs ==>
          0 < im.recs[o].datlen && im.recs[o].datoff + im.recs[o].datlen <= |dat| &&
          dat[im.recs[o].datoff + im.recs[o].datlen - 1] == NEWLINE)
    && (forall o, o' {:trigger Apart(im.recs[o], im.recs[o'])} ::
          o in im.recs && o' in im.recs && o != o' ==> Apart(im.recs[o], im.recs[o']))
  }

  /** The data of a record, without its newline. */
  ghost function Value(im: Image, dat: string, o: nat): string
    requires ExtentsOk(im, dat) && o in im.recs
  {
    var r := im.recs[o];
    dat[r.datoff..r.datoff + r.datlen - 1]
  }

  /** Data written over the extent of a record reaches that record only. */
  lemma OverwriteData(im: Image, dat: string, o: nat, data: string)
    requires ExtentsOk(im, dat) && o in im.recs && |data| + 1 == im.recs[o].datlen
    ensures var dat' := Overwrite(dat, im.recs[o].datoff, data + [NEWLINE]);
            && |dat'| == |dat|
            && ExtentsOk(im, dat')
            && Value(im, dat', o) == data
            && forall p :: p in im.recs && p != o ==> Value(im, dat', p) == Value(im, dat, p)
  {
    hide Overwrite, Apart;
    var at, t := im.recs[o].datoff, data + [NEWLINE];
    var dat' := Overwrite(dat, at, t);
    OverwriteSelf(dat, at, t);
    forall p | p in im.recs && p != o
      ensures dat'[im.recs[p].datoff..im.recs[p].datoff + im.recs[p].datlen - 1]
           == dat[im.recs[p].datoff..im.recs[p].datoff + im.recs[p].datlen - 1]
      ensures dat'[im.recs[p].datoff + im.recs[p].datlen - 1] == NEWLINE
    {
      assert Apart(im.recs[o], im.recs[p]);
      OverwriteApart(dat, im.recs[o], t, im.recs[p]);
    }
    SliceLast(dat', at, data);
    assert ExtentsOk(im, dat');
  }

  lemma SliceLast(dat: string, at: nat, data: string)
    requires at + |data| + 1 <= |dat| && dat[at..at + |data| + 1] == data + [NEWLINE]
    ensures dat[at + |data|] == NEWLINE && dat[at..at + |data|] == data
  {
    SliceOfSlice(dat, at, at + |data| + 1, 0, |data|);
    assert dat[at..at + |data| + 1][|data|] == NEWLINE;
    assert (data + [NEWLINE])[..|data|] == data;
  }

  lemma OverwriteApart(dat: string, r: Rec, t: string, other: Rec)
    requires |t| == r.datlen && r.datoff + r.datlen <= |dat| && Apart(r, other)
    requires 0 < other.datlen && other.datoff + other.datlen <= |dat|
    ensures var dat' := Overwrite(dat, r.datoff, t);
      var lo, hi := other.datoff, other.datoff + other.datlen;
      && |dat'| == |dat| && dat'[lo..hi - 1] == dat[lo..hi - 1] && dat'[hi - 1] == dat[hi - 1]
  {
    hide Overwrite;
    OverwriteSelf(dat, r.datoff, t);
    OverwriteElsewhere(dat, r.datoff, t, other.datoff, other.datoff + other.datlen - 1);
    OverwriteAt(dat, r.datoff, t, other.datoff + other.datlen - 1);
  }

  lemma OverwriteAt(s: string, off: nat, t: string, i: nat)
    requires off + |t| <= |s| && i < |s| && !(off <= i < off + |t|)
    ensures i < |Overwrite(s, off, t)| && Overwrite(s, off, t)[i] == s[i]
  {
  }

  /** Data written at the end of the file reaches no record. */
  lemma AppendData(im: Image, dat: string, t: string)
    requires ExtentsOk(im, dat)
    ensures ExtentsOk(im, dat + t)
    ensures forall p :: p in im.recs ==> Value(im, dat + t, p) == Value(im, dat, p)
  {
    forall p | p in im.recs
      ensures ExtentsOk(im, dat + t) && Value(im, dat + t, p) == Value(im, dat, p)
    {
      assert forall o :: o in im.recs ==>
          (dat + t)[im.recs[o].datoff + im.recs[o].datlen - 1] == dat[im.recs[o].datoff + im.recs[o].datlen - 1];
    }
  }
}
