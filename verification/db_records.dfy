/**
 What no step of any process changes of the records of the index file: their places and
 sizes, the record a key has, and the keys of the records that others own.
 */
module DbRecords {
  import opened DbFormat
  import opened DbImage
  import opened DbLists
  import opened DbSteps
  import opened DbSpec
  import opened DbProcesses
  import opened DbInvariant
  import opened DbMoves
  import opened DbConcurrent
  import opened DbAtomic
  import opened DbTheorems
  import opened DbBytes
  import opened DbScanning
  import DbScan

  // ---------- Records keep their places ----------

  /** No step moves a record or changes its size or its extent. */
  lemma StepShape(s: Sys, p: nat, s': Sys, idx: string)
    requires Inv(s) && |s.d.im.heads| > 0 && Step(s, p, s') && Holds(s.d.im, idx)
    ensures SameShape(s.d.im, s'.d.im)
  {
    hide Inv, Holds, Granted, Reaches, Hash, SameShape, Advance;
    ShapeSelf(s.d.im);
    if s.pcs[p].Busy? {
      CallShape(s, p, idx);
    } else {
      hide Step;
      IdleStep(s, p, s');
    }
  }

  lemma IdleStep(s: Sys, p: nat, s': Sys)
    requires |s.d.im.heads| > 0 && Step(s, p, s') && !s.pcs[p].Busy?
    ensures s'.d == s.d
  {
    hide Hash, Granted, Reaches;
  }

  lemma ShapeSelf(im: Image)
    ensures SameShape(im, im)
  {
  }

  lemma CallShape(s: Sys, p: nat, idx: string)
    requires Inv(s) && p < |s.pcs| && s.pcs[p].Busy? && |s.d.im.heads| > 0 && Holds(s.d.im, idx)
    ensures SameShape(s.d.im, Advance(s, p).d.im)
  {
    hide Inv, Holds, Hash, SameShape, Advance;
    var at := s.pcs[p].at;
    if at.DelRec? {
      DelRecShape(s, p, idx);
    } else if at.ReuseRec? {
      ReuseShape(s, p, idx);
    } else if at.TailWrite? {
      TailShape(s, p, idx);
    } else if at.DelPush? || at.DelLink? || at.FreeTake? || at.Link? {
      PointerShape(s, p);
    } else {
      NothingWritten(s, p, idx);
      ShapeSelf(s.d.im);
    }
  }

  lemma SetRecShape(im: Image, o: nat, r: Rec)
    requires o in im.recs && SameRec(im.recs[o], r)
    ensures SameShape(im, SetRec(im, o, r))
  {
    hide Rec.Size;
  }

  lemma DelRecShape(s: Sys, p: nat, idx: string)
    requires Inv(s) && p < |s.pcs| && s.pcs[p].Busy? && s.pcs[p].at.DelRec? && |s.d.im.heads| > 0 && Holds(s.d.im, idx)
    ensures SameShape(s.d.im, Advance(s, p).d.im)
  {
    hide Inv, DiskOk, Holds, View, Blanks, Rec.Size, SameShape, SameRec;
    PcOkAt(s, p);
    DiskOfInv(s);
    var d, at := s.d, s.pcs[p].at;
    OwnRec(d, at.o);
    FieldsInFile(d.im, idx);
    BlankKeepsLength(d.im, at.o);
    SetRecShape(d.im, at.o, BlankRec(d.im, at.o));
  }

  lemma ReuseShape(s: Sys, p: nat, idx: string)
    requires Inv(s) && p < |s.pcs| && s.pcs[p].Busy? && s.pcs[p].at.ReuseRec? && |s.d.im.heads| > 0 && Holds(s.d.im, idx)
    ensures SameShape(s.d.im, Advance(s, p).d.im)
  {
    hide Inv, DiskOk, Holds, View, Blanks, Rec.Size, Rec.Ok, SameShape, HasData, Hash, Ready;
    PcOkAt(s, p);
    DiskOfInv(s);
    var d, op, at := s.d, s.pcs[p].op, s.pcs[p].at;
    ReuseFacts(s, p, idx);
    OwnRec(d, at.o);
    SetRecShape(d.im, at.o, Rec(at.ptr, op.key, at.rec.datoff, |op.data| + 1));
  }

  lemma TailShape(s: Sys, p: nat, idx: string)
    requires Inv(s) && p < |s.pcs| && s.pcs[p].Busy? && s.pcs[p].at.TailWrite? && |s.d.im.heads| > 0 && Holds(s.d.im, idx)
    ensures SameShape(s.d.im, Advance(s, p).d.im)
  {
    hide Inv, DiskOk, Holds, View, Rec.Size, Entry, SameShape, Stands, Hash, End;
    PcOkAt(s, p);
    DiskOfInv(s);
    ShapeSelf(s.d.im);
    var r := Rec(s.pcs[p].at.ptr, s.pcs[p].op.key, s.pcs[p].at.off, |s.pcs[p].op.data| + 1);
    TiledAppend(s.d.im, r);
    AddRecShape(s.d.im, End(s.d.im), r);
  }

  lemma AddRecShape(im: Image, e: nat, r: Rec)
    requires e !in im.recs
    ensures SameShape(im, AddRec(im, e, r))
  {
    hide Rec.Size;
  }

  lemma PointerShape(s: Sys, p: nat)
    requires p < |s.pcs| && s.pcs[p].Busy? && |s.d.im.heads| > 0
    requires s.pcs[p].at.DelPush? || s.pcs[p].at.DelLink? || s.pcs[p].at.FreeTake? || s.pcs[p].at.Link?
    ensures SameShape(s.d.im, Advance(s, p).d.im)
  {
    hide Hash, Rec.Size, SetPtr, IsSlot, PushedFree, TakenFree, Linked, Apply, SameShape;
    var at := s.pcs[p].at;
    ShapeSelf(s.d.im);
    if at.DelLink? {
      if IsSlot(s.d.im, at.ptroff) {
        PtrKeepsShape(s.d.im, at.ptroff, at.rec.ptr);
      }
    } else if at.FreeTake? {
      if IsSlot(s.d.im, at.save) {
        PtrKeepsShape(s.d.im, at.save, at.rec.ptr);
      }
    } else {
      SameRecsShape(s.d.im, Advance(s, p).d.im);
    }
  }

  lemma SameRecsShape(im: Image, im': Image)
    requires im'.recs == im.recs && im'.order == im.order && |im'.heads| == |im.heads|
    ensures SameShape(im, im')
  {
  }

  /** From one state of a run to any later one. */
  lemma {:induction false} RunShape(r: Run, idx: string, i: nat, j: nat)
    requires IsRun(r) && Holds(r.states[0].d.im, idx) && i <= j <= |r.pids|
    ensures SameShape(r.states[i].d.im, r.states[j].d.im)
    decreases j
  {
    hide Init, Inv, Holds, Step, SameShape;
    if i == j {
      ShapeSelf(r.states[i].d.im);
    } else {
      RunShape(r, idx, i, j - 1);
      RunInv(r, j - 1);
      RunBytes(r, idx, j - 1);
      assert StepsAt(r, j - 1);
      StepShape(r.states[j - 1], r.pids[j - 1], r.states[j], FileAfter(r, idx, j - 1));
      ShapeTrans(r.states[i].d.im, r.states[j - 1].d.im, r.states[j].d.im);
    }
  }

  /** Where record n starts, or the file ends, is where record n starts from then on. */
  lemma PosStays(im: Image, im': Image, n: nat)
    requires Tiled(im) && Tiled(im') && SameShape(im, im') && n <= |im.order|
    ensures n <= |im'.order| && DbScan.PosAt(im', n) == DbScan.PosAt(im, n)
  {
    hide Rec.Size;
    if n == |im.order| {
      if n == 0 {
        if im'.order != [] {
          assert im'.order[0] == Base(|im'.heads|);
        }
      } else {
        var o := im.order[n - 1];
        assert o in im.recs && im'.order[n - 1] == o && SameRec(im.recs[o], im'.recs[o]);
        DbScan.ScanStep(im, n - 1);
        DbScan.ScanStep(im', n - 1);
      }
    }
  }

  // ---------- A key keeps its record ----------

  /** A key that stays in the database stays with its record. */
  lemma LocStays(s: Sys, p: nat, s': Sys, k: string)
    requires Inv(s) && |s.d.im.heads| > 0 && Step(s, p, s') && k in s.d.ls.loc && k in s'.d.ls.loc
    ensures s'.d.ls.loc[k] == s.d.ls.loc[k]
  {
    hide Inv, Granted, Hash, Reaches, Advance;
    if s.pcs[p].Busy? {
      if s.pcs[p].at.Link? {
        WritesNew(s, p);
      }
      CallLoc(s, p, k);
    } else {
      hide Step;
      IdleStep(s, p, s');
    }
  }

  /** A key is written into a record, or the record put on its chain, only while no live record has it. */
  lemma WritesNew(s: Sys, p: nat)
    requires Inv(s) && p < |s.pcs| && s.pcs[p].Busy?
    requires s.pcs[p].at.Link? || s.pcs[p].at.ReuseRec? || s.pcs[p].at.TailWrite?
    ensures s.pcs[p].op.key !in s.d.ls.loc
  {
    hide Inv, DiskOk, View, Hash, Owned, HasData, Value, ListsOk, ExtentsOk, Tiled, Inserts, Stands;
    DiskOfInv(s);
    PcOkAt(s, p);
  }

  lemma CallLoc(s: Sys, p: nat, k: string)
    requires p < |s.pcs| && s.pcs[p].Busy? && |s.d.im.heads| > 0
    requires s.pcs[p].at.Link? ==> s.pcs[p].op.key !in s.d.ls.loc
    requires k in s.d.ls.loc && k in Advance(s, p).d.ls.loc
    ensures Advance(s, p).d.ls.loc[k] == s.d.ls.loc[k]
  {
    hide Hash, Overwrite, Blanks, Apply, SetPtr, IsSlot, Entry, End, OnHit, OnMiss, Without;
  }

  // ---------- Who has a key ----------

  /** A step gives no further record a nonblank key that a live record has. */
  lemma NoNewKeys(s: Sys, p: nat, s': Sys, k: string, o: nat)
    requires Inv(s) && |s.d.im.heads| > 0 && Step(s, p, s') && k in s.d.ls.loc && !DbScan.BlankKey(k)
    requires Shows(s', k, o)
    ensures Shows(s, k, o)
  {
    hide Inv, Granted, Hash, Reaches, Advance, DbScan.BlankKey;
    if s.pcs[p].Busy? {
      var at := s.pcs[p].at;
      if at.ReuseRec? || at.TailWrite? {
        WritesNew(s, p);
      }
      CallKeys(s, p, k, o);
    } else {
      hide Step;
      IdleStep(s, p, s');
    }
  }

  lemma CallKeys(s: Sys, p: nat, k: string, o: nat)
    requires p < |s.pcs| && s.pcs[p].Busy? && |s.d.im.heads| > 0 && !DbScan.BlankKey(k)
    requires s.pcs[p].at.ReuseRec? || s.pcs[p].at.TailWrite? ==> s.pcs[p].op.key != k
    requires Shows(Advance(s, p), k, o)
    ensures Shows(s, k, o)
  {
    hide Hash, Overwrite, Apply, Entry, End, OnHit, OnMiss, Without, Blanks, DbScan.BlankKey;
    if s.pcs[p].at.DelRec? {
      BlanksAreBlank(|s.pcs[p].at.rec.key|);
    }
  }

  lemma BlanksAreBlank(n: nat)
    ensures DbScan.BlankKey(Blanks(n))
  {
  }

  /** A step rewrites the key of no record but one of its process's own. */
  lemma OthersKeep(s: Sys, p: nat, s': Sys, k: string, o: nat)
    requires Inv(s) && |s.d.im.heads| > 0 && Step(s, p, s') && Shows(s, k, o) && HeldBy(s.pcs[p]) != Orphan(o)
    ensures Shows(s', k, o)
  {
    hide Inv, Granted, Hash, Reaches, Advance;
    if s.pcs[p].Busy? {
      if s.pcs[p].at.TailWrite? {
        TailIsNew(s, p);
      }
      CallKeeps(s, p, k, o);
    } else {
      hide Step;
      IdleStep(s, p, s');
    }
  }

  lemma TailIsNew(s: Sys, p: nat)
    requires Inv(s) && p < |s.pcs| && s.pcs[p].Busy? && s.pcs[p].at.TailWrite?
    ensures s.pcs[p].at.end !in s.d.im.recs
  {
    hide Inv, DiskOk, View, Hash, ListsOk, ExtentsOk, Tiled, Inserts, Stands, End, Ready;
    DiskOfInv(s);
    PcOkAt(s, p);
    TiledAppend(s.d.im, Rec(0, "", 0, 1));
  }

  lemma CallKeeps(s: Sys, p: nat, k: string, o: nat)
    requires p < |s.pcs| && s.pcs[p].Busy? && |s.d.im.heads| > 0
    requires Shows(s, k, o) && HeldBy(s.pcs[p]) != Orphan(o)
    requires s.pcs[p].at.TailWrite? ==> s.pcs[p].at.end != o
    ensures Shows(Advance(s, p), k, o)
  {
    hide Hash, Overwrite, Apply, IsSlot, Entry, End, OnHit, OnMiss, Without, Blanks;
  }

  /** A record left behind by a process that ended keeps its key, and stays left behind. */
  lemma LeftStays(s: Sys, p: nat, s': Sys, q: nat, k: string, o: nat)
    requires Inv(s) && |s.d.im.heads| > 0 && Step(s, p, s') && LeftByDead(s, q, o) && Shows(s, k, o)
    ensures LeftByDead(s', q, o) && Shows(s', k, o)
  {
    hide Inv, Granted, Hash, Reaches, Shows;
    DeadOwns(s, p, q, o);
    OthersKeep(s, p, s', k, o);
    DeadStays(s, p, s', q);
  }

  lemma DeadOwns(s: Sys, p: nat, q: nat, o: nat)
    requires Inv(s) && p < |s.pcs| && LeftByDead(s, q, o) && !s.pcs[p].Dead?
    ensures HeldBy(s.pcs[p]) != Orphan(o)
  {
    hide DiskOk, PcOk, LocksOk, AppendsApart, PendOwned, AbsOk;
    assert HeldBy(s.pcs[q]) == Orphan(o);
  }

  lemma DeadStays(s: Sys, p: nat, s': Sys, q: nat)
    requires Inv(s) && |s.d.im.heads| > 0 && Step(s, p, s') && q < |s.pcs| && s.pcs[q].Dead?
    ensures q < |s'.pcs| && s'.pcs[q] == s.pcs[q]
  {
    hide Inv, Granted, Good, Advance, Effect, Hash, Reaches;
    StepGood(s, p, s');
    GoodInv(s, p, s');
  }

  // ---------- Over a run ----------

  /** In each of these states the key is in the map, and nobody is replacing it. */
  ghost predicate Present(r: Run, from: nat, to: nat, k: string) {
    forall t :: from <= t <= to && t < |r.states| ==> PresentAt(r.states[t], k)
  }

  ghost predicate PresentAt(s: Sys, k: string) {
    k in s.abs && !Exempt(s.pcs, k)
  }

  lemma PresentIsThere(s: Sys, k: string)
    requires Inv(s) && PresentAt(s, k)
    ensures k in s.d.ls.loc && s.d.ls.loc[k] in s.d.im.recs
    ensures s.d.im.recs[s.d.ls.loc[k]].key == k
  {
    hide PcOk, AppendsApart, PendOwned, LocksOk, OwnersOk, ChainOk, FreeOk, HomesOk, ExtentsOk, TextOk, Tiled, View, Value, Hash;
    ViewFacts(s.d);
    assert SameAt(s.abs, Meaning(s.d), k) || Exempt(s.pcs, k);
  }

  lemma {:induction false} SameRecord(r: Run, i: nat, j: nat, k: string)
    requires IsRun(r) && i <= j <= |r.pids| && Present(r, i, j, k)
    ensures k in r.states[i].d.ls.loc && k in r.states[j].d.ls.loc
    ensures r.states[j].d.ls.loc[k] == r.states[i].d.ls.loc[k]
    decreases j
  {
    hide Init, Inv, Step, PresentAt;
    RunInv(r, j);
    assert PresentAt(r.states[j], k);
    PresentIsThere(r.states[j], k);
    if i < j {
      SameRecord(r, i, j - 1, k);
      RunInv(r, j - 1);
      assert StepsAt(r, j - 1);
      LocStays(r.states[j - 1], r.pids[j - 1], r.states[j], k);
    }
  }

  /** Over states in which a key stays present, only records that had it have it. */
  lemma {:induction false} KeyIsOld(r: Run, i: nat, j: nat, k: string, o: nat)
    requires IsRun(r) && i <= j <= |r.pids| && Present(r, i, j, k) && !DbScan.BlankKey(k) && Shows(r.states[j], k, o)
    ensures Shows(r.states[i], k, o)
    decreases j
  {
    hide Init, Inv, Step, PresentAt, Shows, DbScan.BlankKey;
    if i < j {
      RunInv(r, j - 1);
      assert PresentAt(r.states[j - 1], k);
      PresentIsThere(r.states[j - 1], k);
      assert StepsAt(r, j - 1);
      NoNewKeys(r.states[j - 1], r.pids[j - 1], r.states[j], k, o);
      KeyIsOld(r, i, j - 1, k, o);
    }
  }

  lemma {:induction false} LeftRemains(r: Run, i: nat, j: nat, q: nat, k: string, o: nat)
    requires IsRun(r) && i <= j <= |r.pids| && LeftByDead(r.states[i], q, o) && Shows(r.states[i], k, o)
    ensures LeftByDead(r.states[j], q, o) && Shows(r.states[j], k, o)
    decreases j
  {
    hide Init, Inv, Step, LeftByDead, Shows;
    if i < j {
      LeftRemains(r, i, j - 1, q, k, o);
      RunInv(r, j - 1);
      assert StepsAt(r, j - 1);
      LeftStays(r.states[j - 1], r.pids[j - 1], r.states[j], q, k, o);
    }
  }
}
