/**
 The steps of several processes at one database that write one of the files, and all steps
 together: each keeps the invariant and is one step of a call on the abstract map.
 */
module DbAtomic {
  import opened DbFormat
  import opened DbImage
  import opened DbLists
  import opened DbSteps
  import opened DbSpec
  import opened DbProcesses
  import opened DbInvariant
  import opened DbMoves
  import opened DbFrames
  import opened DbConcurrent

  // ---------- A step that writes ----------

  /** Two maps agree but for one key. */
  ghost predicate AgreeOff(m: map<string, string>, m': map<string, string>, key: string) {
    forall k :: k != key ==> SameAt(m', m, k)
  }

  /** What the process owns after the step is its own, and it loses sight of no record. */
  ghost predicate OwnsAfter(d: Disk, d': Disk, pc: Pc, pc': Pc)
    requires DiskOk(d)
  {
    && (HeldBy(pc').Orphan? ==> HeldBy(pc') == HeldBy(pc) || !Owned(d, HeldBy(pc').o))
    && (forall o :: o in d'.ls.home && d'.ls.home[o] == Held ==>
          HeldBy(pc') == Orphan(o) || (o in d.ls.home && d.ls.home[o] == Held && HeldBy(pc) != Orphan(o)))
  }

  lemma OwnersAfter(s: Sys, p: nat, d': Disk, pc': Pc)
    requires Inv(s) && p < |s.pcs| && OwnsAfter(s.d, d', s.pcs[p], pc')
    ensures OwnersOk(d'.ls, s.pcs[p := pc'])
  {
    hide DiskOk, AppendsApart, PendOwned, AbsOk, LocksOk, PcOk, HeldBy, Owned;
    var pcs' := s.pcs[p := pc'];
    forall q | 0 <= q < |s.pcs| && q != p && HeldBy(pc').Orphan?
      ensures HeldBy(pc') != HeldBy(s.pcs[q])
    {
      if HeldBy(s.pcs[q]).Orphan? {
        PcOkAt(s, q);
        OwnerOwns(s.d, s.pcs[q]);
      }
    }
    forall o | o in d'.ls.home && d'.ls.home[o] == Held
      ensures Owner(pcs', o)
    {
      if HeldBy(pc') == Orphan(o) {
        assert HeldBy(pcs'[p]) == Orphan(o);
      } else {
        assert Owner(s.pcs, o) by {
          assert OwnersOk(s.d.ls, s.pcs);
        }
        var q: nat :| q < |s.pcs| && HeldBy(s.pcs[q]) == Orphan(o);
        assert HeldBy(pcs'[q]) == Orphan(o);
      }
    }
  }

  lemma AbsAfter(s: Sys, p: nat, d': Disk, abs': map<string, string>, pc': Pc)
    requires Inv(s) && p < |s.pcs| && HoldsChain(s.pcs[p]) && DiskOk(d')
    requires AgreeOff(Meaning(s.d), Meaning(d'), s.pcs[p].op.key) && AgreeOff(s.abs, abs', s.pcs[p].op.key)
    requires SameAt(abs', Meaning(d'), s.pcs[p].op.key) || Replacing(pc')
    requires Replacing(pc') ==> pc'.op == s.pcs[p].op && s.pcs[p].op.key in abs' && s.pcs[p].op.key !in d'.ls.loc
    ensures AbsOk(Sys(d', abs', s.pcs[p := pc']))
  {
    hide DiskOk, AppendsApart, PendOwned, LocksOk, PcOk, Meaning, OwnersOk;
    var pcs', key := s.pcs[p := pc'], s.pcs[p].op.key;
    forall k
      ensures SameAt(abs', Meaning(d'), k) || Exempt(pcs', k)
    {
      if k == key {
        if Replacing(pc') {
          assert Replacing(pcs'[p]) && pcs'[p].op.key == k;
        }
      } else {
        assert SameAt(abs', s.abs, k) && SameAt(Meaning(d'), Meaning(s.d), k);
        if !SameAt(s.abs, Meaning(s.d), k) {
          var q: nat :| q < |s.pcs| && Replacing(s.pcs[q]) && s.pcs[q].op.key == k;
          assert Replacing(pcs'[q]) && pcs'[q].op.key == k;
        }
      }
    }
    MeaningKeys(s.d);
    MeaningKeys(d');
    forall q | 0 <= q < |pcs'| && Replacing(pcs'[q])
      ensures pcs'[q].op.key in abs' && pcs'[q].op.key !in d'.ls.loc
    {
      if q != p {
        NotExempt(s, p, q);
        assert SameAt(abs', s.abs, s.pcs[q].op.key) && SameAt(Meaning(d'), Meaning(s.d), s.pcs[q].op.key);
      }
    }
  }

  /** Everything a write has to satisfy to be a good step. */
  lemma WriteGood(s: Sys, p: nat, d': Disk, abs': map<string, string>, pc': Pc, own: Orphan, free: bool)
    requires Inv(s) && p < |s.pcs| && HoldsChain(s.pcs[p]) && !s.pcs[p].op.FetchOp?
    requires DiskOk(d') && |d'.im.heads| == |s.d.im.heads|
    requires Within(s.d, d', Chain(s.pcs[p].op, |s.d.im.heads|), own, free)
    requires OwnPlace(s.d, Chain(s.pcs[p].op, |s.d.im.heads|), own)
    requires own.Orphan? ==> own == HeldBy(s.pcs[p]) || !Owned(s.d, own.o)
    requires free ==> HoldsFree(s.pcs[p])
    requires d'.pend != s.d.pend ==> HoldsFree(s.pcs[p])
    requires forall q :: 0 <= q < |s.pcs| && q != p ==> StandsKept(s.d, d', s.pcs[q])
    requires |d'.dat| == |s.d.dat| || HoldsData(s.pcs[p])
    requires End(d'.im) == End(s.d.im) || HoldsTail(s.pcs[p])
    requires PcOk(d', pc') && pc'.Busy? && pc'.op == s.pcs[p].op && pc' != s.pcs[p]
    requires (HoldsFree(pc') ==> HoldsFree(s.pcs[p])) && (HoldsData(pc') ==> HoldsData(s.pcs[p])) &&
      (HoldsTail(pc') ==> HoldsTail(s.pcs[p]))
    requires OwnsAfter(s.d, d', s.pcs[p], pc')
    requires forall q :: 0 <= q < |s.pcs| && q != p ==> NewApart(pc', s.pcs[q])
    requires PendOwned(d', s.pcs[p := pc'])
    requires AgreeOff(Meaning(s.d), Meaning(d'), s.pcs[p].op.key) && AgreeOff(s.abs, abs', s.pcs[p].op.key)
    requires SameAt(abs', Meaning(d'), s.pcs[p].op.key) || Replacing(pc')
    requires Replacing(pc') ==> s.pcs[p].op.key in abs' && s.pcs[p].op.key !in d'.ls.loc
    requires Effect(s.abs, StatusOf(s.pcs[p]), abs', StatusOf(pc'))
    ensures Good(s, p, Sys(d', abs', s.pcs[p := pc']))
  {
    hide Inv, DiskOk, Within, OwnPlace, PcOk, HoldsFree, HoldsData, HoldsTail, HeldBy, Appended, Replacing, InWindow, StatusOf, Effect,
      StandsKept, OwnsAfter, NewApart, PendOwned, Meaning, AgreeOff, SameAt, Owned, Clash, Hash, AbsOk, OwnersOk, End;
    DiskOfInv(s);
    Shield(s, p, d', Chain(s.pcs[p].op, |s.d.im.heads|), own, free);
    forall q | 0 <= q < |s.pcs| && q != p
      ensures !Clash(|s.d.im.heads|, pc', s.pcs[q])
    {
      NoClash(s, p, q);
      FewerLocks(|s.d.im.heads|, s.pcs[p], pc', s.pcs[q]);
    }
    OwnersAfter(s, p, d', pc');
    AbsAfter(s, p, d', abs', pc');
    Assemble(s, p, d', abs', pc');
  }

  // ---------- Appended data that is not recorded yet ----------

  ghost predicate SameExtentsAs(v: Image, v': Image) {
    && (forall o :: o in v'.recs <==> o in v.recs)
    && (forall o :: o in v.recs ==> v'.recs[o].datoff == v.recs[o].datoff && v'.recs[o].datlen == v.recs[o].datlen)
  }

  lemma StandsUnmoved(d: Disk, d': Disk, off: nat, data: string)
    requires DiskOk(d) && DiskOk(d') && SameExtentsAs(View(d), View(d')) && Stands(d, off, data)
    requires |d'.dat| >= |d.dat| && d'.dat[off..off + |data| + 1] == d.dat[off..off + |data| + 1]
    ensures Stands(d', off, data)
  {
    hide DiskOk, View;
    forall o | o in View(d').recs
      ensures Apart(View(d').recs[o], Rec(0, "", off, |data| + 1))
    {
      assert Apart(View(d).recs[o], Rec(0, "", off, |data| + 1));
    }
  }

  /** A step that keeps the data file and all extents. */
  lemma AllStandSame(d: Disk, d': Disk, pcs: seq<Pc>)
    requires DiskOk(d) && DiskOk(d') && SameExtentsAs(View(d), View(d')) && d'.dat == d.dat
    ensures forall q :: 0 <= q < |pcs| ==> StandsKept(d, d', pcs[q])
  {
    hide DiskOk, View, Appended, SameExtentsAs;
    forall q | 0 <= q < |pcs|
      ensures StandsKept(d, d', pcs[q])
    {
      if pcs[q].Busy? && pcs[q].op.StoreOp? && Appended(pcs[q]).Orphan? && Stands(d, Appended(pcs[q]).o, pcs[q].op.data) {
        StandsUnmoved(d, d', Appended(pcs[q]).o, pcs[q].op.data);
      }
    }
  }

  /** A step that overwrites the data of a record. */
  lemma AllStandOver(d: Disk, d': Disk, o: nat, data: string, pcs: seq<Pc>)
    requires DiskOk(d) && DiskOk(d') && SameExtentsAs(View(d), View(d')) && o in View(d).recs
    requires View(d).recs[o].datlen == |data| + 1 && View(d).recs[o].datoff + |data| + 1 <= |d.dat|
    requires d'.dat == Overwrite(d.dat, View(d).recs[o].datoff, data + [NEWLINE])
    ensures forall q :: 0 <= q < |pcs| ==> StandsKept(d, d', pcs[q])
  {
    hide DiskOk, View, Appended, SameExtentsAs, Overwrite;
    forall q | 0 <= q < |pcs|
      ensures StandsKept(d, d', pcs[q])
    {
      if pcs[q].Busy? && pcs[q].op.StoreOp? && Appended(pcs[q]).Orphan? && Stands(d, Appended(pcs[q]).o, pcs[q].op.data) {
        var off, n := Appended(pcs[q]).o, |pcs[q].op.data| + 1;
        assert Apart(View(d).recs[o], Rec(0, "", off, n));
        OverwriteElsewhere(d.dat, View(d).recs[o].datoff, data + [NEWLINE], off, off + n);
        OverwriteSelf(d.dat, View(d).recs[o].datoff, data + [NEWLINE]);
        StandsUnmoved(d, d', off, pcs[q].op.data);
      }
    }
  }

  /** A step that appends to the data file. */
  lemma AllStandAppend(d: Disk, d': Disk, t: string, pcs: seq<Pc>)
    requires DiskOk(d) && DiskOk(d') && SameExtentsAs(View(d), View(d')) && d'.dat == d.dat + t
    ensures forall q :: 0 <= q < |pcs| ==> StandsKept(d, d', pcs[q])
  {
    hide DiskOk, View, Appended, SameExtentsAs;
    forall q | 0 <= q < |pcs|
      ensures StandsKept(d, d', pcs[q])
    {
      if pcs[q].Busy? && pcs[q].op.StoreOp? && Appended(pcs[q]).Orphan? && Stands(d, Appended(pcs[q]).o, pcs[q].op.data) {
        StandsUnmoved(d, d', Appended(pcs[q]).o, pcs[q].op.data);
      }
    }
  }

  /** A step that adds a record for data that stood apart. */
  lemma StandsBeside(d: Disk, d': Disk, e: nat, r: Rec, pc: Pc)
    requires DiskOk(d) && DiskOk(d') && d'.dat == d.dat && View(d') == AddRec(View(d), e, r)
    requires pc.Busy? && pc.op.StoreOp? && Appended(pc).Orphan? ==>
      Apart(r, Rec(0, "", Appended(pc).o, |pc.op.data| + 1))
    ensures StandsKept(d, d', pc)
  {
    hide DiskOk, View, Appended;
  }

  // ---------- The pending write and its owner ----------

  lemma PendKept(s: Sys, p: nat, d': Disk, pc': Pc)
    requires Inv(s) && p < |s.pcs| && d'.pend == s.d.pend && |d'.im.heads| == |s.d.im.heads|
    requires InWindow(s.pcs[p]) ==> InWindow(pc') && pc'.op == s.pcs[p].op
    ensures |d'.im.heads| > 0 && PendOwned(d', s.pcs[p := pc'])
  {
    hide DiskOk, AppendsApart, AbsOk, LocksOk, PcOk, OwnersOk, Hash;
    HeadsPositive(s);
    if d'.pend.Pend? {
      var q: nat :| q < |s.pcs| && InWindow(s.pcs[q]) && Chain(s.pcs[q].op, |s.d.im.heads|) == s.d.pend.h;
      var pcs' := s.pcs[p := pc'];
      assert InWindow(pcs'[q]) && Chain(pcs'[q].op, |d'.im.heads|) == d'.pend.h;
    }
  }

  // ---------- Replacing data in place ----------

  lemma AgreeAfter(m: map<string, string>, key: string, data: string)
    ensures AgreeOff(m, m[key := data], key)
  {
  }

  lemma AgreeWithout(m: map<string, string>, key: string)
    ensures AgreeOff(m, m - {key}, key)
  {
  }

  lemma AgreeSame(m: map<string, string>, key: string)
    ensures AgreeOff(m, m, key)
  {
  }

  lemma OverGood(s: Sys, p: nat)
    requires Inv(s) && p < |s.pcs| && s.pcs[p].Busy? && s.pcs[p].at.Over?
    ensures Good(s, p, Advance(s, p))
  {
    hide Inv, DiskOk, Within, PendOwned, Meaning, AgreeOff, Clash, Hash, AbsOk, OwnersOk, Overwrite, View, StandsKept, Value, ExtentsOk,
      ListsOk, Tiled, End, NewApart;
    var op, at, d := s.pcs[p].op, s.pcs[p].at, s.d;
    PcOkAt(s, p);
    DiskOfInv(s);
    MoveOver(d, op, at.o, at.ptroff, at.pos, at.rec);
    var d' := d.(dat := Overwrite(d.dat, at.rec.datoff, op.data + [NEWLINE]));
    MeaningIs(d);
    MeaningIs(d');
    MeaningKeys(d);
    TruthAtKey(s, p);
    AgreeAfter(Meaning(d), op.key, op.data);
    AgreeAfter(s.abs, op.key, op.data);
    ExtentPositive(View(d), d.dat, at.o);
    AllStandOver(d, d', at.o, op.data, s.pcs);
    PendKept(s, p, d', Busy(op, Release(Code(0))));
    NoAppend(Busy(op, Release(Code(0))), s.pcs);
    hide Located;
    assert Apply(s.abs, op) == (s.abs[op.key := op.data], Code(0));
    WriteGood(s, p, d', s.abs[op.key := op.data], Busy(op, Release(Code(0))), NoOrphan, false);
  }

  lemma MeaningIs(d: Disk)
    requires DiskOk(d)
    ensures Meaning(d) == Contents(View(d), d.dat, d.ls)
  {
  }

  lemma NoAppend(pc: Pc, pcs: seq<Pc>)
    requires Appended(pc) == NoOrphan
    ensures forall q :: 0 <= q < |pcs| ==> NewApart(pc, pcs[q])
  {
  }

  // ---------- Deleting ----------

  lemma CutGood(s: Sys, p: nat)
    requires Inv(s) && p < |s.pcs| && s.pcs[p].Busy? && s.pcs[p].at.DelData?
    ensures Good(s, p, Advance(s, p))
  {
    hide Inv, DiskOk, Within, Meaning, AgreeOff, Clash, Hash, AbsOk, OwnersOk, Overwrite, View, StandsKept, Value, ExtentsOk,
      ListsOk, Tiled, End, NewApart, Blanks, SameShape, Located, Advance, Apply;
    var op, at, d := s.pcs[p].op, s.pcs[p].at, s.d;
    PcOkAt(s, p);
    DiskOfInv(s);
    NonePending(s, p);
    HashBound(op, |d.im.heads|);
    MoveCut(d, op, at.o, at.ptroff, at.pos, at.rec);
    LocatedHash(d, op, at.o, at.ptroff, at.pos, at.rec);
    var d' := CutDisk(d, op, at.pos, at.rec);
    var pc' := Busy(op, DelFree(at.o, at.ptroff, at.pos, at.rec));
    CutStep(s, p);
    MeaningIs(d);
    MeaningIs(d');
    MeaningKeys(d);
    MeaningKeys(d');
    TruthAtKey(s, p);
    AgreeWithout(Meaning(d), op.key);
    AgreeWithout(s.abs, op.key);
    AgreeSame(s.abs, op.key);
    ShapeExtents(View(d), View(d'));
    CutStands(d, d', at.o, at.rec, s.pcs);
    CutPend(s, p, d', pc');
    NoAppend(pc', s.pcs);
    CutOwns(d, d', s.pcs[p], pc', at.o, at.pos, at.rec);
    assert PcOk(d', pc');
    hide CutDisk;
    assert op.DeleteOp? ==> Apply(s.abs, op) == (s.abs - {op.key}, Code(0)) by { DeleteApplies(s.abs, op); }
    WriteGood(s, p, d', if op.DeleteOp? then s.abs - {op.key} else s.abs, pc', Orphan(at.o), false);
  }

  lemma DeleteApplies(m: map<string, string>, op: Op)
    ensures op.DeleteOp? && op.key in m ==> Apply(m, op) == (m - {op.key}, Code(0))
  {
  }

  lemma LocatedHash(d: Disk, op: Op, o: nat, ptroff: nat, pos: nat, rec: Rec)
    requires DiskOk(d) && Located(d, op, o, ptroff, pos, rec)
    ensures o in View(d).recs && View(d).recs[o] == rec && OwnPlace(d, Chain(op, |d.im.heads|), Orphan(o)) && !Owned(d, o)
    ensures Chain(op, |d.im.heads|) < |d.ls.chains| && pos < |d.ls.chains[Chain(op, |d.im.heads|)]|
    ensures rec.datoff + rec.datlen <= |d.dat| && rec.datlen > 0 && rec.key == op.key
  {
    hide FreeOk, HomesOk, LocOk, TextOk, Hash, Tiled, View, Threaded;
    ViewFacts(d);
    var h := Chain(op, |d.im.heads|);
    assert ChainOk(View(d), d.ls, h);
    assert LiveOn(View(d), d.ls, d.ls.chains[h][pos], h);
    ExtentPositive(View(d), d.dat, o);
  }

  lemma CutStep(s: Sys, p: nat)
    requires p < |s.pcs| && s.pcs[p].Busy? && s.pcs[p].at.DelData? && |s.d.im.heads| > 0
    requires var op, at := s.pcs[p].op, s.pcs[p].at;
      && at.rec.datlen > 0 && at.rec.datoff <= |s.d.dat|
      && Chain(op, |s.d.im.heads|) < |s.d.ls.chains| && at.pos < |s.d.ls.chains[Chain(op, |s.d.im.heads|)]|
    ensures var op, at := s.pcs[p].op, s.pcs[p].at;
      Advance(s, p) == Sys(CutDisk(s.d, op, at.pos, at.rec), if op.DeleteOp? then s.abs - {op.key} else s.abs,
                           s.pcs[p := Busy(op, DelFree(at.o, at.ptroff, at.pos, at.rec))])
  {
    hide Hash, Overwrite, Blanks;
  }

  lemma ShapeExtents(v: Image, v': Image)
    requires SameShape(v, v') && (forall o :: o in v'.recs ==> o in v.recs)
    ensures SameExtentsAs(v, v')
  {
    hide Rec.Size;
  }

  lemma CutStands(d: Disk, d': Disk, o: nat, rec: Rec, pcs: seq<Pc>)
    requires DiskOk(d) && DiskOk(d') && SameExtentsAs(View(d), View(d')) && o in View(d).recs && View(d).recs[o] == rec
    requires rec.datlen > 0 && rec.datoff + rec.datlen <= |d.dat|
    requires d'.dat == Overwrite(d.dat, rec.datoff, Blanks(rec.datlen - 1) + [NEWLINE])
    ensures forall q :: 0 <= q < |pcs| ==> StandsKept(d, d', pcs[q])
  {
    hide DiskOk, View, Appended, SameExtentsAs, Overwrite, Blanks, StandsKept;
    AllStandOver(d, d', o, Blanks(rec.datlen - 1), pcs);
  }

  lemma CutPend(s: Sys, p: nat, d': Disk, pc': Pc)
    requires p < |s.pcs| && |d'.im.heads| > 0
    requires InWindow(pc') && d'.pend.Pend? && d'.pend.h == Chain(pc'.op, |d'.im.heads|)
    ensures PendOwned(d', s.pcs[p := pc'])
  {
    hide Hash;
    assert s.pcs[p := pc'][p] == pc';
  }

  lemma CutOwns(d: Disk, d': Disk, pc: Pc, pc': Pc, o: nat, pos: nat, rec: Rec)
    requires DiskOk(d) && !Owned(d, o) && HeldBy(pc) == NoOrphan && HeldBy(pc') == Orphan(o)
    requires d'.ls.home == d.ls.home[o := Held]
    ensures OwnsAfter(d, d', pc, pc')
  {
    hide DiskOk, View, HeldBy, Owned;
  }

  lemma DelRecGood(s: Sys, p: nat)
    requires Inv(s) && p < |s.pcs| && s.pcs[p].Busy? && s.pcs[p].at.DelRec?
    ensures Good(s, p, Advance(s, p))
  {
    hide Inv, DiskOk, Within, Meaning, AgreeOff, Clash, Hash, AbsOk, OwnersOk, View, StandsKept, Value, ExtentsOk,
      ListsOk, Tiled, End, NewApart, Blanks, SameShape, Located, Advance, Apply, PendOwned, Entry;
    var op, at, d := s.pcs[p].op, s.pcs[p].at, s.d;
    PcOkAt(s, p);
    DiskOfInv(s);
    var r := Rec(at.freeptr, Blanks(|at.rec.key|), at.rec.datoff, at.rec.datlen);
    assert SameRec(at.rec, r) by { EntryLenOf(at.rec.key, r.key, r.datoff, r.datlen); }
    var pc' := Busy(op, DelPush(at.o, at.ptroff, at.pos, at.rec));
    DelRecStep(s, p);
    OwnRecGood(s, p, at.o, r, pc');
  }

  lemma DelRecStep(s: Sys, p: nat)
    requires p < |s.pcs| && s.pcs[p].Busy? && s.pcs[p].at.DelRec? && |s.d.im.heads| > 0
    ensures var op, at := s.pcs[p].op, s.pcs[p].at;
      var r := Rec(at.freeptr, Blanks(|at.rec.key|), at.rec.datoff, at.rec.datlen);
      Advance(s, p) == Move(s, p, s.d.(im := SetRec(s.d.im, at.o, r)), Busy(op, DelPush(at.o, at.ptroff, at.pos, at.rec)))
  {
    hide Hash, Blanks;
  }

  /** The record a process owns is rewritten at its size. */
  lemma OwnRecGood(s: Sys, p: nat, o: nat, r: Rec, pc': Pc)
    requires Inv(s) && p < |s.pcs| && HoldsChain(s.pcs[p]) && !s.pcs[p].op.FetchOp?
    requires HeldBy(s.pcs[p]) == Orphan(o) == HeldBy(pc') && DiskOk(s.d) && Owned(s.d, o) && SameRec(View(s.d).recs[o], r)
    requires pc'.Busy? && pc'.op == s.pcs[p].op && pc' != s.pcs[p]
    requires (HoldsFree(pc') ==> HoldsFree(s.pcs[p])) && (HoldsData(pc') ==> HoldsData(s.pcs[p])) &&
      (HoldsTail(pc') ==> HoldsTail(s.pcs[p]))
    requires Replacing(pc') == Replacing(s.pcs[p]) && (InWindow(s.pcs[p]) ==> InWindow(pc')) && Appended(pc') == NoOrphan
    requires StatusOf(pc') == StatusOf(s.pcs[p])
    requires var d' := s.d.(im := SetRec(s.d.im, o, r));
      (DiskOk(d') && View(d') == SetRec(View(s.d), o, r) &&
       Value(View(d'), d'.dat, o) == Value(View(s.d), s.d.dat, o)) ==> PcOk(d', pc')
    ensures Good(s, p, Move(s, p, s.d.(im := SetRec(s.d.im, o, r)), pc'))
  {
    hide Inv, DiskOk, Within, Meaning, AgreeOff, Clash, Hash, OwnersOk, View, StandsKept, Value, ExtentsOk,
      ListsOk, Tiled, End, NewApart, SameShape, PendOwned, PcOk, HoldsFree, HoldsData, HoldsTail, Replacing, InWindow, Appended,
      HeldBy, StatusOf, SameAt;
    var d, op := s.d, s.pcs[p].op;
    var d' := d.(im := SetRec(d.im, o, r));
    DiskOfInv(s);
    MoveRec(d, o, r, Chain(op, |d.im.heads|));
    MeaningIs(d);
    MeaningIs(d');
    AgreeSame(Meaning(d), op.key);
    AgreeSame(s.abs, op.key);
    AllStandSame(d, d', s.pcs);
    PendKept(s, p, d', pc');
    NoAppend(pc', s.pcs);
    AbsAtKey(s, p);
    WriteGood(s, p, d', s.abs, pc', Orphan(o), false);
  }

  /** What AbsOk says about the key of a process that holds its chain. */
  lemma AbsAtKey(s: Sys, p: nat)
    requires Inv(s) && p < |s.pcs| && HoldsChain(s.pcs[p])
    ensures SameAt(s.abs, Meaning(s.d), s.pcs[p].op.key) || Replacing(s.pcs[p])
    ensures Replacing(s.pcs[p]) ==> s.pcs[p].op.key in s.abs && s.pcs[p].op.key !in s.d.ls.loc
  {
    hide PcOk, OwnersOk, AppendsApart, Hash, PendOwned, LocksOk, DiskOk, Meaning, HoldsChain, Exempt, SameAt;
    if !Replacing(s.pcs[p]) {
      TruthAtKey(s, p);
    }
  }

  lemma DelPushGood(s: Sys, p: nat)
    requires Inv(s) && p < |s.pcs| && s.pcs[p].Busy? && s.pcs[p].at.DelPush?
    ensures Good(s, p, Advance(s, p))
  {
    hide Inv, DiskOk, Within, Meaning, AgreeOff, Clash, Hash, AbsOk, OwnersOk, View, StandsKept, Value, ExtentsOk,
      ListsOk, Tiled, End, NewApart, Blanks, SameShape, Located, Apply, PendOwned, Entry;
    var op, at, d := s.pcs[p].op, s.pcs[p].at, s.d;
    PcOkAt(s, p);
    DiskOfInv(s);
    MovePush(d, at.o, Chain(op, |d.im.heads|));
    var d' := d.(im := d.im.(free := at.o), ls := PushedFree(d.ls, at.o));
    var pc' := Busy(op, DelLink(at.ptroff, at.pos, at.rec));
    MeaningIs(d);
    MeaningIs(d');
    AgreeSame(Meaning(d), op.key);
    AgreeSame(s.abs, op.key);
    AllStandSame(d, d', s.pcs);
    PendKept(s, p, d', pc');
    NoAppend(pc', s.pcs);
    AbsAtKey(s, p);
    hide Owned;
    WriteGood(s, p, d', s.abs, pc', Orphan(at.o), true);
  }

  lemma DelLinkGood(s: Sys, p: nat)
    requires Inv(s) && p < |s.pcs| && s.pcs[p].Busy? && s.pcs[p].at.DelLink?
    ensures Good(s, p, Advance(s, p))
  {
    hide Inv, DiskOk, Within, Meaning, AgreeOff, Clash, Hash, AbsOk, OwnersOk, View, StandsKept, Value, ExtentsOk,
      ListsOk, Tiled, End, NewApart, Blanks, SameShape, Located, Apply, Entry, IsSlot, SetPtr;
    var op, at, d := s.pcs[p].op, s.pcs[p].at, s.d;
    PcOkAt(s, p);
    DiskOfInv(s);
    MoveSettle(d);
    var d' := d.(im := SetPtr(d.im, PendSlot(d), d.pend.val), pend := Settled);
    var pc' := Busy(op, DelDone);
    MeaningIs(d);
    MeaningIs(d');
    AgreeSame(Meaning(d), op.key);
    AgreeSame(s.abs, op.key);
    AllStandSame(d, d', s.pcs);
    NoAppend(pc', s.pcs);
    AbsAtKey(s, p);
    hide Owned;
    assert |d'.im.heads| == |d.im.heads| by { SetPtrHeads(d.im, PendSlot(d), d.pend.val); }
    WriteGood(s, p, d', s.abs, pc', NoOrphan, false);
  }

  lemma SetPtrHeads(im: Image, off: nat, p: nat)
    requires IsSlot(im, off)
    ensures |SetPtr(im, off, p).heads| == |im.heads|
  {
  }

  // ---------- Storing ----------

  lemma TakeGood(s: Sys, p: nat)
    requires Inv(s) && p < |s.pcs| && s.pcs[p].Busy? && s.pcs[p].at.FreeTake?
    ensures Good(s, p, Advance(s, p))
  {
    hide Inv, DiskOk, Within, Meaning, AgreeOff, Clash, Hash, AbsOk, OwnersOk, StandsKept, Value, ExtentsOk,
      ListsOk, Tiled, End, NewApart, Blanks, SameShape, Located, Apply, Entry, IsSlot, SetPtr, PendOwned;
    var op, at, d := s.pcs[p].op, s.pcs[p].at, s.d;
    PcOkAt(s, p);
    DiskOfInv(s);
    NonePending(s, p);
    MoveTake(d, at.pos, Chain(op, |d.im.heads|));
    FreeBlank(d, at.pos);
    var d' := d.(im := SetPtr(d.im, at.save, at.rec.ptr), ls := TakenFree(d.ls, at.pos));
    var pc' := Busy(op, FreeGot(at.ptr, at.o, at.rec));
    hide View;
    SetPtrHeads(d.im, at.save, at.rec.ptr);
    MeaningIs(d);
    MeaningIs(d');
    AgreeSame(Meaning(d), op.key);
    AgreeSame(s.abs, op.key);
    TakeKeeps(d, d', at.save, at.rec.ptr);
    AllStandSame(d, d', s.pcs);
    PendKept(s, p, d', pc');
    NoAppend(pc', s.pcs);
    AbsAtKey(s, p);
    WriteGood(s, p, d', s.abs, pc', NoOrphan, true);
  }

  lemma FreeBlank(d: Disk, pos: nat)
    requires DiskOk(d) && pos < |d.ls.freel|
    ensures var o := d.ls.freel[pos]; o in View(d).recs && View(d).recs[o].key == Blanks(|View(d).recs[o].key|)
  {
    hide ChainOk, HomesOk, LocOk, ExtentsOk, TextOk, Tiled, View, Blanks;
    OnFreeList(View(d), d.ls, pos);
  }

  lemma TakeKeeps(d: Disk, d': Disk, off: nat, ptr: nat)
    requires DiskOk(d) && d.pend.Settled? && d'.pend.Settled? && IsSlot(d.im, off) && d'.im == SetPtr(d.im, off, ptr)
    ensures SameExtentsAs(View(d), View(d'))
  {
    hide DiskOk;
  }

  lemma ReuseDataGood(s: Sys, p: nat)
    requires Inv(s) && p < |s.pcs| && s.pcs[p].Busy? && s.pcs[p].at.ReuseData?
    ensures Good(s, p, Advance(s, p))
  {
    hide Inv, DiskOk, Within, Meaning, AgreeOff, Clash, Hash, AbsOk, OwnersOk, StandsKept, Value, ExtentsOk, View,
      ListsOk, Tiled, End, NewApart, Located, Apply, Entry, PendOwned, Overwrite;
    var op, at, d := s.pcs[p].op, s.pcs[p].at, s.d;
    PcOkAt(s, p);
    DiskOfInv(s);
    MoveOwnData(d, at.o, op.data, Chain(op, |d.im.heads|));
    var d' := d.(dat := Overwrite(d.dat, at.rec.datoff, op.data + [NEWLINE]));
    var pc' := Busy(op, ReuseRec(at.ptr, at.o, at.rec));
    MeaningIs(d);
    MeaningIs(d');
    AgreeSame(Meaning(d), op.key);
    AgreeSame(s.abs, op.key);
    ExtentPositive(View(d), d.dat, at.o);
    AllStandOver(d, d', at.o, op.data, s.pcs);
    PendKept(s, p, d', pc');
    NoAppend(pc', s.pcs);
    AbsAtKey(s, p);
    WriteGood(s, p, d', s.abs, pc', Orphan(at.o), false);
  }

  lemma ReuseRecGood(s: Sys, p: nat)
    requires Inv(s) && p < |s.pcs| && s.pcs[p].Busy? && s.pcs[p].at.ReuseRec?
    ensures Good(s, p, Advance(s, p))
  {
    hide Inv, DiskOk, Within, Meaning, AgreeOff, Clash, Hash, AbsOk, OwnersOk, View, StandsKept, Value, ExtentsOk,
      ListsOk, Tiled, End, NewApart, SameShape, Located, Apply, PendOwned, Entry;
    var op, at, d := s.pcs[p].op, s.pcs[p].at, s.d;
    PcOkAt(s, p);
    DiskOfInv(s);
    var r := Rec(at.ptr, op.key, at.rec.datoff, |op.data| + 1);
    assert SameRec(at.rec, r) by { EntryLenOf(at.rec.key, r.key, r.datoff, r.datlen); }
    OwnRecGood(s, p, at.o, r, Busy(op, Link(false, at.o)));
  }

  lemma AppendGood(s: Sys, p: nat)
    requires Inv(s) && p < |s.pcs| && s.pcs[p].Busy? && s.pcs[p].at.DatWrite?
    ensures Good(s, p, Advance(s, p))
  {
    hide Inv, DiskOk, Within, Meaning, AgreeOff, Clash, Hash, AbsOk, OwnersOk, StandsKept, Value, ExtentsOk, View,
      ListsOk, Tiled, End, NewApart, Located, Apply, Entry, PendOwned, Overwrite, Stands;
    var op, at, d := s.pcs[p].op, s.pcs[p].at, s.d;
    PcOkAt(s, p);
    DiskOfInv(s);
    MoveAppend(d, op.data, Chain(op, |d.im.heads|));
    var d' := d.(dat := Overwrite(d.dat, at.off, op.data + [NEWLINE]));
    var pc' := Busy(op, DatDone(at.ptr, at.repl, at.off));
    MeaningIs(d);
    MeaningIs(d');
    AgreeSame(Meaning(d), op.key);
    AgreeSame(s.abs, op.key);
    AllStandAppend(d, d', op.data + [NEWLINE], s.pcs);
    PendKept(s, p, d', pc');
    AbsAtKey(s, p);
    forall q | 0 <= q < |s.pcs| && q != p
      ensures NewApart(pc', s.pcs[q])
    {
      PcOkAt(s, q);
      NewAtEnd(d, op, at, s.pcs[q]);
    }
    WriteGood(s, p, d', s.abs, pc', NoOrphan, false);
  }

  /** What stands in the data file stands before its end. */
  lemma NewAtEnd(d: Disk, op: Op, at: At, pc: Pc)
    requires DiskOk(d) && PcOk(d, pc) && at.DatWrite? && at.off == |d.dat|
    ensures NewApart(Busy(op, DatDone(at.ptr, at.repl, at.off)), pc)
  {
    hide DiskOk, View, Hash, Owned, Cut, Value, Located, End;
  }

  lemma AddGood(s: Sys, p: nat)
    requires Inv(s) && p < |s.pcs| && s.pcs[p].Busy? && s.pcs[p].at.TailWrite?
    requires IDXLEN_MIN <= Rec(s.pcs[p].at.ptr, s.pcs[p].op.key, s.pcs[p].at.off, |s.pcs[p].op.data| + 1).EntryLen() <= IDXLEN_MAX
      || !s.pcs[p].op.StoreOp?
    ensures Good(s, p, Advance(s, p))
  {
    hide Inv, DiskOk, Within, Meaning, AgreeOff, Clash, Hash, AbsOk, OwnersOk, StandsKept, Value, ExtentsOk, View,
      ListsOk, Tiled, End, NewApart, Located, Apply, Entry, PendOwned, Stands, SameShape, Advance;
    var op, at, d := s.pcs[p].op, s.pcs[p].at, s.d;
    PcOkAt(s, p);
    DiskOfInv(s);
    var r := Rec(at.ptr, op.key, at.off, |op.data| + 1);
    MoveAdd(d, r, op.data, Chain(op, |d.im.heads|));
    var d' := d.(im := AddRec(d.im, at.end, r), ls := AddedHeld(d.ls, at.end));
    var pc' := Busy(op, TailDone(at.repl, at.end));
    AddStep(s, p);
    MeaningIs(d);
    MeaningIs(d');
    AgreeSame(Meaning(d), op.key);
    AgreeSame(s.abs, op.key);
    PendKept(s, p, d', pc');
    NoAppend(pc', s.pcs);
    AbsAtKey(s, p);
    forall q | 0 <= q < |s.pcs| && q != p
      ensures StandsKept(d, d', s.pcs[q])
    {
      if s.pcs[q].Busy? && s.pcs[q].op.StoreOp? && Appended(s.pcs[q]).Orphan? {
        AppendedApart(s, p, q, at.off);
      }
      StandsBeside(d, d', at.end, r, s.pcs[q]);
    }
    WriteGood(s, p, d', s.abs, pc', NoOrphan, false);
  }

  lemma AddStep(s: Sys, p: nat)
    requires p < |s.pcs| && s.pcs[p].Busy? && s.pcs[p].at.TailWrite? && |s.d.im.heads| > 0 && s.pcs[p].op.StoreOp?
    requires IDXLEN_MIN <= Rec(s.pcs[p].at.ptr, s.pcs[p].op.key, s.pcs[p].at.off, |s.pcs[p].op.data| + 1).EntryLen() <= IDXLEN_MAX
    ensures var op, at := s.pcs[p].op, s.pcs[p].at;
      var r := Rec(at.ptr, op.key, at.off, |op.data| + 1);
      Advance(s, p) == Move(s, p, s.d.(im := AddRec(s.d.im, at.end, r), ls := AddedHeld(s.d.ls, at.end)),
                            Busy(op, TailDone(at.repl, at.end)))
  {
    hide Hash, Entry;
  }

  lemma TailWriteGood(s: Sys, p: nat)
    requires Inv(s) && p < |s.pcs| && s.pcs[p].Busy? && s.pcs[p].at.TailWrite?
    ensures Good(s, p, Advance(s, p))
  {
    hide Inv, Good, Hash, Entry, DiskOk, Stands, View;
    var op, at := s.pcs[p].op, s.pcs[p].at;
    DiskOfInv(s);
    PcOkAt(s, p);
    var r := Rec(at.ptr, op.key, at.off, |op.data| + 1);
    if IDXLEN_MIN <= r.EntryLen() <= IDXLEN_MAX {
      AddGood(s, p);
    } else {
      GiveUpGood(s, p, at.repl, NoOrphan);
    }
  }

  lemma AppendedApart(s: Sys, p: nat, q: nat, off: nat)
    requires Inv(s) && p < |s.pcs| && q < |s.pcs| && p != q
    requires s.pcs[p].Busy? && s.pcs[p].op.StoreOp? && Appended(s.pcs[p]) == Orphan(off)
    requires s.pcs[q].Busy? && s.pcs[q].op.StoreOp? && Appended(s.pcs[q]).Orphan?
    ensures Apart(Rec(0, "", off, |s.pcs[p].op.data| + 1), Rec(0, "", Appended(s.pcs[q]).o, |s.pcs[q].op.data| + 1))
  {
    hide DiskOk, PcOk, LocksOk, OwnersOk, AbsOk, PendOwned, Appended;
    assert NewApart(s.pcs[p], s.pcs[q]);
  }

  lemma LinkOwnsAfter(d: Disk, d': Disk, pc: Pc, pc': Pc, o: nat)
    requires DiskOk(d) && HeldBy(pc) == Orphan(o) && HeldBy(pc') == NoOrphan && d'.ls.home == d.ls.home[o := Live]
    ensures OwnsAfter(d, d', pc, pc')
  {
    hide DiskOk, HeldBy;
  }

  lemma LinkStep(s: Sys, p: nat)
    requires p < |s.pcs| && s.pcs[p].Busy? && s.pcs[p].at.Link? && s.pcs[p].at.o <= PTR_MAX && |s.d.im.heads| > 0
    requires s.pcs[p].op.StoreOp? && Chain(s.pcs[p].op, |s.d.im.heads|) < |s.d.ls.chains|
    requires Apply(s.abs, s.pcs[p].op).0 == s.abs[s.pcs[p].op.key := s.pcs[p].op.data]
    ensures var op := s.pcs[p].op;
      Advance(s, p) == Sys(LinkDisk(s.d, op, s.pcs[p].at.o), s.abs[op.key := op.data], s.pcs[p := Busy(op, Release(Code(0)))])
  {
    hide Hash, Linked, Apply;
  }

  lemma LinkShape(op: Op, repl: bool, o: nat)
    requires Inserts(op, repl)
    ensures var pc, pc' := Busy(op, Link(repl, o)), Busy(op, Release(Code(0)));
      && HoldsChain(pc) && !HoldsFree(pc') && !HoldsData(pc') && !HoldsTail(pc')
      && HeldBy(pc') == NoOrphan && Appended(pc') == NoOrphan && !Replacing(pc') && !InWindow(pc)
      && Replacing(pc) == repl && StatusOf(pc) == Called(op) && StatusOf(pc') == Done(op, Code(0))
  {
  }

  /** What the locks and possessions of the process are before and after. */
  lemma LinkOwns(s: Sys, p: nat)
    requires Inv(s) && p < |s.pcs| && s.pcs[p].Busy? && s.pcs[p].at.Link? && s.pcs[p].at.o <= PTR_MAX
    ensures |s.d.im.heads| > 0 && DiskOk(s.d)
    ensures var op, o, d := s.pcs[p].op, s.pcs[p].at.o, s.d;
      && (Prepared(d, op, false, o) || Prepared(d, op, true, o)) && Inserts(op, s.pcs[p].at.repl)
      && OwnPlace(d, Chain(op, |d.im.heads|), Orphan(o)) && HeldBy(s.pcs[p]) == Orphan(o)
      && Chain(op, |d.im.heads|) < |d.ls.chains| && op.key !in d.ls.loc
  {
    hide Inv, Hash, Meaning, View, ExtentsOk, ListsOk, Tiled, HasData, TextOk;
    PcOkAt(s, p);
    DiskOfInv(s);
    ViewFacts(s.d);
  }

  lemma LinkGood(s: Sys, p: nat)
    requires Inv(s) && p < |s.pcs| && s.pcs[p].Busy? && s.pcs[p].at.Link? && s.pcs[p].at.o <= PTR_MAX
    ensures Good(s, p, Advance(s, p))
  {
    hide Inv, DiskOk, Within, Meaning, AgreeOff, Clash, Hash, AbsOk, OwnersOk, StandsKept, Value, ExtentsOk, View, Advance,
      ListsOk, Tiled, End, NewApart, Located, Entry, PendOwned, Stands, SameShape, Prepared, OwnPlace, Owned, Apply;
    var op, at, d := s.pcs[p].op, s.pcs[p].at, s.d;
    LinkOwns(s, p);
    LinkShape(op, at.repl, at.o);
    hide HoldsChain, HoldsFree, HoldsData, HoldsTail, HeldBy, Appended, Replacing, InWindow, StatusOf;
    NotPending(s, p);
    MoveLink(d, op, at.o);
    AbsAtKey(s, p);
    MeaningIs(d);
    MeaningKeys(d);
    LinkApplies(s.abs, op, at.repl);
    LinkStep(s, p);
    var d' := LinkDisk(d, op, at.o);
    var pc' := Busy(op, Release(Code(0)));
    MeaningIs(d');
    AgreeAfter(Meaning(d), op.key, op.data);
    AgreeAfter(s.abs, op.key, op.data);
    AllStandSame(d, d', s.pcs);
    PendKept(s, p, d', pc');
    NoAppend(pc', s.pcs);
    LinkOwnsAfter(d, d', s.pcs[p], pc', at.o);
    hide Linked, LinkDisk;
    WriteGood(s, p, d', s.abs[op.key := op.data], pc', Orphan(at.o), false);
  }

  lemma LinkApplies(m: map<string, string>, op: Op, repl: bool)
    requires Inserts(op, repl) && (op.key in m <==> repl)
    ensures Apply(m, op) == (m[op.key := op.data], Code(0))
  {
  }

  // ---------- Giving up ----------

  /** A store that cannot be finished ends, with what it owns. */
  lemma GiveUpGood(s: Sys, p: nat, repl: bool, orphan: Orphan)
    requires Inv(s) && p < |s.pcs| && s.pcs[p].Busy? && Inserts(s.pcs[p].op, repl)
    requires HoldsChain(s.pcs[p]) && HeldBy(s.pcs[p]) == orphan && Replacing(s.pcs[p]) == repl && !InWindow(s.pcs[p])
    requires StatusOf(s.pcs[p]) == Called(s.pcs[p].op)
    ensures Good(s, p, Goto(GiveUp(s, s.pcs[p].op, repl), p, Dead(orphan)))
  {
    hide Inv, DiskOk, Within, Meaning, Clash, Hash, OwnersOk, StandsKept, Value, ExtentsOk, View, ListsOk, Tiled, End, NewApart,
      Located, Entry, PendOwned, Stands, HeldBy, Replacing, InWindow, StatusOf, SameAt, AbsOk;
    var op, pc', abs' := s.pcs[p].op, Dead(orphan), GiveUp(s, s.pcs[p].op, repl).abs;
    DiskOfInv(s);
    PcOkAt(s, p);
    if orphan.Orphan? {
      OwnerOwns(s.d, s.pcs[p]);
    }
    assert PcOk(s.d, pc') by { DeadOk(s.d, orphan); }
    forall q | 0 <= q < |s.pcs| && q != p
      ensures PcOk(s.d, s.pcs[q]) && !Clash(|s.d.im.heads|, pc', s.pcs[q])
    {
      PcOkAt(s, q);
      DeadHoldsNothing(|s.d.im.heads|, orphan, s.pcs[q]);
    }
    DeadOwns(s.d, s.pcs[p], orphan);
    OwnersAfter(s, p, s.d, pc');
    NoAppend(pc', s.pcs);
    PendKept(s, p, s.d, pc');
    AgreeSame(Meaning(s.d), op.key);
    AgreeSame(s.abs, op.key);
    AgreeWithout(s.abs, op.key);
    AbsAtKey(s, p);
    MeaningKeys(s.d);
    DeadFrees(abs', Meaning(s.d), op.key, orphan);
    hide AgreeOff;
    AbsAfter(s, p, s.d, abs', pc');
    Assemble(s, p, s.d, abs', pc');
    assert StatusOf(pc') == Gone by { DeadStatus(orphan); }
  }

  lemma DeadStatus(orphan: Orphan)
    ensures StatusOf(Dead(orphan)) == Gone && !Replacing(Dead(orphan)) && !InWindow(Dead(orphan))
  {
  }

  lemma DeadFrees(m: map<string, string>, c: map<string, string>, key: string, orphan: Orphan)
    ensures key !in m && key !in c ==> SameAt(m, c, key)
    ensures !Replacing(Dead(orphan)) && !InWindow(Dead(orphan))
  {
  }

  lemma DeadOk(d: Disk, orphan: Orphan)
    requires DiskOk(d) && (orphan.Orphan? ==> Owned(d, orphan.o))
    ensures PcOk(d, Dead(orphan))
  {
    hide DiskOk, Owned;
  }

  lemma DeadHoldsNothing(nhash: nat, orphan: Orphan, pc: Pc)
    requires nhash > 0
    ensures !Clash(nhash, Dead(orphan), pc)
  {
  }

  lemma DeadOwns(d: Disk, pc: Pc, orphan: Orphan)
    requires DiskOk(d) && HeldBy(pc) == orphan
    ensures OwnsAfter(d, d, pc, Dead(orphan))
  {
    hide DiskOk, Owned;
  }

  lemma LinkStepGood(s: Sys, p: nat)
    requires Inv(s) && p < |s.pcs| && s.pcs[p].Busy? && s.pcs[p].at.Link?
    ensures Good(s, p, Advance(s, p))
  {
    hide Inv, Good, Hash, DiskOk, Owned, View, HasData;
    DiskOfInv(s);
    PcOkAt(s, p);
    if s.pcs[p].at.o <= PTR_MAX {
      LinkGood(s, p);
    } else {
      GiveUpGood(s, p, s.pcs[p].at.repl, Orphan(s.pcs[p].at.o));
    }
  }

  // ---------- Every step ----------

  lemma AdvanceGood(s: Sys, p: nat)
    requires Inv(s) && p < |s.pcs| && s.pcs[p].Busy? && Granted(|s.d.im.heads|, s.pcs, p)
    ensures Good(s, p, Advance(s, p))
  {
    hide Inv, Good, Hash, Granted;
    HeadsPositive(s);
    match s.pcs[p].at
    case Wait => LockGood(s, p);
    case Head => HeadGood(s, p);
    case Look(off, _, _) =>
      if off == 0 {
        LookMissGood(s, p);
      } else {
        LookOnGood(s, p);
      }
    case Fetching(_, _, _, _) => FetchingGood(s, p);
    case Over(_, _, _, _) => OverGood(s, p);
    case DelWait(_, _, _, _) => LockGood(s, p);
    case DelData(_, _, _, _) => CutGood(s, p);
    case DelFree(_, _, _, _) => DelFreeGood(s, p);
    case DelRec(_, _, _, _, _) => DelRecGood(s, p);
    case DelPush(_, _, _, _) => DelPushGood(s, p);
    case DelLink(_, _, _) => DelLinkGood(s, p);
    case DelDone => DelDoneGood(s, p);
    case InsHead(_) => InsHeadGood(s, p);
    case FreeWait(_) => LockGood(s, p);
    case FreeHead(_) => FreeHeadGood(s, p);
    case FreeLook(_, _, _, _) => FreeLookGood(s, p);
    case FreeTake(_, _, _, _, _) => TakeGood(s, p);
    case FreeNone(_) => UnlockGood(s, p);
    case FreeGot(_, _, _) => UnlockGood(s, p);
    case ReuseData(_, _, _) => ReuseDataGood(s, p);
    case ReuseRec(_, _, _) => ReuseRecGood(s, p);
    case DatWait(_, _) => LockGood(s, p);
    case DatSeek(_, _) => UnlockGood(s, p);
    case DatWrite(_, _, _) => AppendGood(s, p);
    case DatDone(_, _, _) => UnlockGood(s, p);
    case TailWait(_, _, _) => LockGood(s, p);
    case TailSeek(_, _, _) => UnlockGood(s, p);
    case TailWrite(_, _, _, _) => TailWriteGood(s, p);
    case TailDone(_, _) => UnlockGood(s, p);
    case Link(_, _) => LinkStepGood(s, p);
    case Release(_) => ReleaseGood(s, p);
  }

  /** Every step of every process keeps the invariant, and is one step of a call on the abstract map. */
  lemma StepGood(s: Sys, p: nat, s': Sys)
    requires Inv(s) && |s.d.im.heads| > 0 && Step(s, p, s')
    ensures Good(s, p, s')
  {
    hide Inv, Hash, Granted, Reaches, Advance;
    match s.pcs[p]
    case Idle =>
      if s' == Goto(s, p, ScanWait) {
        BeginGood(s, p, ScanWait);
      } else {
        var op :| Reaches(op) && s' == Goto(s, p, Busy(op, Wait));
        BeginGood(s, p, Busy(op, Wait));
      }
    case ScanWait => LockGood(s, p);
    case Scanning =>
      if s' == s {
        assert s.pcs[p := s.pcs[p]] == s.pcs;
      } else {
        BeginGood(s, p, Idle);
      }
    case Busy(op, at) => AdvanceGood(s, p);
  }
}
