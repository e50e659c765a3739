/**
 Calls come to an end (db/db.c:259-301, 752-805): every step of a process brings its call
 nearer to the end, and no step of another process takes it back. The walks along a chain
 and along the free list are as long as the lists, which the locks keep as they are.
 */
module DbProgress {
  import opened DbFormat
  import opened DbImage
  import opened DbLists
  import opened DbSteps
  import opened DbSpec
  import opened DbProcesses
  import opened DbInvariant
  import opened DbMoves
  import opened DbConcurrent
  import opened DbAtomic
  import opened DbTheorems

  /** How many places of a call are still in front of this one at most; the two walks are one place each. */
  function Rank(at: At): nat {
    match at
    case Wait => 27
    case Head => 26
    case Look(_, _, _) => 25
    case Fetching(_, _, _, _) => 24
    case Over(_, _, _, _) => 24
    case DelWait(_, _, _, _) => 24
    case DelData(_, _, _, _) => 23
    case DelFree(_, _, _, _) => 22
    case DelRec(_, _, _, _, _) => 21
    case DelPush(_, _, _, _) => 20
    case DelLink(_, _, _) => 19
    case DelDone => 18
    case InsHead(_) => 17
    case FreeWait(_) => 16
    case FreeHead(_) => 15
    case FreeLook(_, _, _, _) => 14
    case FreeTake(_, _, _, _, _) => 13
    case FreeNone(_) => 13
    case FreeGot(_, _, _) => 12
    case ReuseData(_, _, _) => 11
    case ReuseRec(_, _, _) => 10
    case DatWait(_, _) => 9
    case DatSeek(_, _) => 8
    case DatWrite(_, _, _) => 7
    case DatDone(_, _, _) => 6
    case TailWait(_, _, _) => 5
    case TailSeek(_, _, _) => 4
    case TailWrite(_, _, _, _) => 3
    case TailDone(_, _) => 2
    case Link(_, _) => 1
    case Release(_) => 0
  }

  /** How many records of the list a walk has not passed yet. */
  ghost function ToGo(d: Disk, pc: Pc): int
    requires |d.im.heads| > 0
  {
    match pc
    case Busy(op, Look(_, _, pos)) =>
      if Chain(op, |d.im.heads|) < |d.ls.chains| then |d.ls.chains[Chain(op, |d.im.heads|)]| - pos else 0
    case Busy(op, FreeLook(_, _, _, pos)) => |d.ls.freel| - pos
    case _ => 0
  }

  /** A call is over, or nearer to its end. */
  ghost predicate Nearer(d: Disk, pc: Pc, d': Disk, pc': Pc)
    requires |d.im.heads| > 0 && |d'.im.heads| > 0 && pc.Busy?
  {
    || !pc'.Busy?
    || (pc'.op == pc.op && Rank(pc'.at) < Rank(pc.at))
    || (pc'.op == pc.op && Rank(pc'.at) == Rank(pc.at) && 0 <= ToGo(d', pc') < ToGo(d, pc))
  }

  lemma ToGoNatural(s: Sys, p: nat)
    requires Inv(s) && p < |s.pcs|
    ensures |s.d.im.heads| > 0 && ToGo(s.d, s.pcs[p]) >= 0
  {
    hide Inv, DiskOk, View, Hash, Ready, Passed;
    DiskOfInv(s);
    PcOkAt(s, p);
  }

  /** A step along a list leaves it as it is and passes one record. */
  lemma WalkTurn(s: Sys, p: nat)
    requires Inv(s) && p < |s.pcs| && s.pcs[p].Busy? && (s.pcs[p].at.Look? || s.pcs[p].at.FreeLook?)
    requires |s.d.im.heads| > 0
    ensures var s' := Advance(s, p); |s'.pcs| == |s.pcs| && s'.d == s.d && Nearer(s.d, s.pcs[p], s.d, s'.pcs[p])
  {
    hide Inv, Advance, Nearer, ToGo;
    ToGoNatural(s, p);
    WalkKnows(s, p);
    if s.pcs[p].at.Look? {
      LookTurn(s, p);
    } else {
      FreeLookTurn(s, p);
    }
  }

  lemma LookTurn(s: Sys, p: nat)
    requires p < |s.pcs| && s.pcs[p].Busy? && s.pcs[p].at.Look? && |s.d.im.heads| > 0
    requires s.pcs[p].at.off != 0 ==> s.pcs[p].at.off in s.d.im.recs && ToGo(s.d, s.pcs[p]) > 0
    ensures var s' := Advance(s, p); |s'.pcs| == |s.pcs| && s'.d == s.d && Nearer(s.d, s.pcs[p], s.d, s'.pcs[p])
  {
    hide Hash, Apply;
  }

  lemma FreeLookTurn(s: Sys, p: nat)
    requires p < |s.pcs| && s.pcs[p].Busy? && s.pcs[p].at.FreeLook? && |s.d.im.heads| > 0 && s.pcs[p].op.StoreOp?
    requires s.pcs[p].at.off != 0 ==> s.pcs[p].at.off in s.d.im.recs && ToGo(s.d, s.pcs[p]) > 0
    ensures var s' := Advance(s, p); |s'.pcs| == |s.pcs| && s'.d == s.d && Nearer(s.d, s.pcs[p], s.d, s'.pcs[p])
  {
    hide Hash, Apply;
  }

  /** A walk that has reached a record has not passed the end of its list. */
  lemma WalkKnows(s: Sys, p: nat)
    requires Inv(s) && p < |s.pcs| && s.pcs[p].Busy? && (s.pcs[p].at.Look? || s.pcs[p].at.FreeLook?)
    ensures |s.d.im.heads| > 0
    ensures s.pcs[p].at.off != 0 ==> s.pcs[p].at.off in s.d.im.recs && ToGo(s.d, s.pcs[p]) > 0
    ensures s.pcs[p].at.FreeLook? ==> s.pcs[p].op.StoreOp?
  {
    hide Inv, DiskOk, View, Hash, Passed, ExtentsOk, Tiled, FreeOk, HomesOk, LocOk, Threaded, LiveOn;
    PcOkAt(s, p);
    DiskOfInv(s);
    ViewFacts(s.d);
    var d, op, at := s.d, s.pcs[p].op, s.pcs[p].at;
    if at.off != 0 && at.Look? {
      var h := Chain(op, |d.im.heads|);
      ChainBelow(op, |d.im.heads|);
      assert ChainOk(View(d), d.ls, h);
      OnChain(View(d), d.ls, h, at.pos);
    } else if at.off != 0 {
      OnFreeList(View(d), d.ls, at.pos);
    }
  }

  lemma ChainBelow(op: Op, nhash: nat)
    requires nhash > 0
    ensures Chain(op, nhash) < nhash
  {
  }

  /** Every other step goes to a later place. */
  lemma OwnStep(s: Sys, p: nat)
    requires Inv(s) && p < |s.pcs| && s.pcs[p].Busy? && |s.d.im.heads| > 0 && Granted(|s.d.im.heads|, s.pcs, p)
    ensures var s' := Advance(s, p); |s'.pcs| == |s.pcs| && |s'.d.im.heads| > 0 && Nearer(s.d, s.pcs[p], s'.d, s'.pcs[p])
  {
    hide Inv, Good, Granted, Hash, Advance, Nearer, GoesLater, Rank;
    AdvanceGood(s, p);
    var s' := Advance(s, p);
    GoodInv(s, p, s');
    HeadsPositive(s');
    if s.pcs[p].at.Look? || s.pcs[p].at.FreeLook? {
      WalkTurn(s, p);
    } else {
      LaterPlace(s, p);
      LaterIs(s, p);
      GoodMoves(s, p, s');
      ByRank(s.d, s.pcs[p], s'.d, s'.pcs[p]);
    }
  }

  lemma LaterIs(s: Sys, p: nat)
    requires p < |s.pcs| && s.pcs[p].Busy? && |s.d.im.heads| > 0 && GoesLater(s, p)
    ensures var pc, s' := s.pcs[p], Advance(s, p);
      |s'.pcs| == |s.pcs| && (s'.pcs[p] != pc ==> !s'.pcs[p].Busy? || (s'.pcs[p].op == pc.op && Rank(s'.pcs[p].at) < Rank(pc.at)))
  {
    hide Advance, Rank;
  }

  lemma GoodMoves(s: Sys, p: nat, s': Sys)
    requires Good(s, p, s') && s.pcs[p].Busy?
    ensures s'.pcs[p] != s.pcs[p]
  {
    hide Inv;
  }

  lemma ByRank(d: Disk, pc: Pc, d': Disk, pc': Pc)
    requires |d.im.heads| > 0 && |d'.im.heads| > 0 && pc.Busy?
    requires !pc'.Busy? || (pc'.op == pc.op && Rank(pc'.at) < Rank(pc.at))
    ensures Nearer(d, pc, d', pc')
  {
  }

  /** The next place of a call, if it goes on, is a later one. */
  ghost predicate GoesLater(s: Sys, p: nat)
    requires p < |s.pcs| && s.pcs[p].Busy? && |s.d.im.heads| > 0
  {
    var pc, s' := s.pcs[p], Advance(s, p);
    |s'.pcs| == |s.pcs| && (s'.pcs[p] != pc ==> !s'.pcs[p].Busy? || (s'.pcs[p].op == pc.op && Rank(s'.pcs[p].at) < Rank(pc.at)))
  }

  lemma LaterPlace(s: Sys, p: nat)
    requires p < |s.pcs| && s.pcs[p].Busy? && |s.d.im.heads| > 0 && !s.pcs[p].at.Look? && !s.pcs[p].at.FreeLook?
    ensures GoesLater(s, p)
  {
    hide GoesLater;
    var at := s.pcs[p].at;
    if at.Wait? || at.Head? || at.Fetching? || at.Over? || at.DelWait? || at.Release? {
      LaterInSearch(s, p);
    } else if at.DelData? || at.DelFree? || at.DelRec? || at.DelPush? || at.DelLink? || at.DelDone? {
      LaterInDelete(s, p);
    } else if at.InsHead? || at.FreeWait? || at.FreeHead? || at.FreeTake? || at.FreeNone? || at.FreeGot? || at.ReuseData? || at.ReuseRec? {
      LaterInReuse(s, p);
    } else if at.DatWait? || at.DatSeek? || at.DatWrite? || at.DatDone? || at.TailWait? || at.TailSeek? {
      LaterInAppend(s, p);
    } else {
      LaterAtEnd(s, p);
    }
  }

  lemma LaterInSearch(s: Sys, p: nat)
    requires p < |s.pcs| && s.pcs[p].Busy? && |s.d.im.heads| > 0
    requires var at := s.pcs[p].at;
      at.Wait? || at.Head? || at.Fetching? || at.Over? || at.DelWait? || at.Release?
    ensures GoesLater(s, p)
  {
    hide Hash, Overwrite, Blanks, Apply, SetPtr, IsSlot, Entry, End, Unlinked, TakenFree, PushedFree, Linked, OnHit, OnMiss;
  }

  lemma LaterInDelete(s: Sys, p: nat)
    requires p < |s.pcs| && s.pcs[p].Busy? && |s.d.im.heads| > 0
    requires var at := s.pcs[p].at;
      at.DelData? || at.DelFree? || at.DelRec? || at.DelPush? || at.DelLink? || at.DelDone?
    ensures GoesLater(s, p)
  {
    hide Hash, Overwrite, Blanks, Apply, SetPtr, IsSlot, Entry, End, Unlinked, TakenFree, PushedFree, Linked, OnHit, OnMiss;
  }

  lemma LaterInReuse(s: Sys, p: nat)
    requires p < |s.pcs| && s.pcs[p].Busy? && |s.d.im.heads| > 0
    requires var at := s.pcs[p].at;
      at.InsHead? || at.FreeWait? || at.FreeHead? || at.FreeTake? || at.FreeNone? || at.FreeGot? || at.ReuseData? || at.ReuseRec?
    ensures GoesLater(s, p)
  {
    hide Hash, Overwrite, Blanks, Apply, SetPtr, IsSlot, Entry, End, Unlinked, TakenFree, PushedFree, Linked, OnHit, OnMiss;
  }

  lemma LaterInAppend(s: Sys, p: nat)
    requires p < |s.pcs| && s.pcs[p].Busy? && |s.d.im.heads| > 0
    requires var at := s.pcs[p].at;
      at.DatWait? || at.DatSeek? || at.DatWrite? || at.DatDone? || at.TailWait? || at.TailSeek?
    ensures GoesLater(s, p)
  {
    hide Hash, Overwrite, Blanks, Apply, SetPtr, IsSlot, Entry, End, Unlinked, TakenFree, PushedFree, Linked, OnHit, OnMiss;
  }

  lemma LaterAtEnd(s: Sys, p: nat)
    requires p < |s.pcs| && s.pcs[p].Busy? && |s.d.im.heads| > 0
    requires var at := s.pcs[p].at;
      at.TailWrite? || at.TailDone? || at.Link?
    ensures GoesLater(s, p)
  {
    hide Hash, Overwrite, Blanks, Apply, SetPtr, IsSlot, Entry, End, Unlinked, TakenFree, PushedFree, Linked, OnHit, OnMiss;
  }

  /** A step of another process leaves the list that a process walks on. */
  lemma OthersStep(s: Sys, q: nat, s': Sys, p: nat)
    requires Inv(s) && |s.d.im.heads| > 0 && Step(s, q, s') && p < |s.pcs| && p != q
    ensures q < |s.pcs| == |s'.pcs| && s'.pcs[p] == s.pcs[p] && |s'.d.im.heads| == |s.d.im.heads|
    ensures ToGo(s'.d, s.pcs[p]) == ToGo(s.d, s.pcs[p])
  {
    hide Inv, Good, Granted, Hash, Advance, ToGo, Reaches;
    StepGood(s, q, s');
    GoodInv(s, q, s');
    GoodHeads(s, q, s');
    if s.pcs[q].Busy? {
      NoClash(s, p, q);
      ListsStay(s, q, s.pcs[p]);
    }
  }

  lemma GoodHeads(s: Sys, p: nat, s': Sys)
    requires Good(s, p, s')
    ensures |s'.d.im.heads| == |s.d.im.heads|
  {
    hide Inv;
  }

  lemma ListsStay(s: Sys, q: nat, pc: Pc)
    requires Inv(s) && q < |s.pcs| && s.pcs[q].Busy? && |s.d.im.heads| > 0 && !Clash(|s.d.im.heads|, pc, s.pcs[q])
    requires |Advance(s, q).d.im.heads| == |s.d.im.heads|
    ensures ToGo(Advance(s, q).d, pc) == ToGo(s.d, pc)
  {
    hide Inv, Advance, Hash, Clash, ToGo;
    ListsWritten(s, q);
    WritersLock(s, q);
    KeptToGo(s.d, Advance(s, q).d, pc, s.pcs[q]);
  }

  /** Which lists a step changes: one chain, or the free list. */
  ghost predicate KeepsLists(d: Disk, d': Disk, pc: Pc)
    requires pc.Busy? && |d.im.heads| > 0
  {
    var h := Chain(pc.op, |d.im.heads|);
    && |d'.ls.chains| == |d.ls.chains|
    && (forall g :: 0 <= g < |d.ls.chains| && (g != h || !(pc.at.DelData? || pc.at.Link?)) ==> d'.ls.chains[g] == d.ls.chains[g])
    && (!pc.at.DelPush? && !pc.at.FreeTake? ==> d'.ls.freel == d.ls.freel)
  }

  lemma ListsWritten(s: Sys, q: nat)
    requires q < |s.pcs| && s.pcs[q].Busy? && |s.d.im.heads| > 0
    ensures KeepsLists(s.d, Advance(s, q).d, s.pcs[q])
  {
    hide Hash, Overwrite, Blanks, Apply, SetPtr, IsSlot, Entry, End, OnHit, OnMiss, Without, Locked, KeepsLists, Advance;
    var at := s.pcs[q].at;
    if at.DelData? || at.DelPush? || at.FreeTake? || at.TailWrite? || at.Link? {
      ListsChanged(s, q);
    } else {
      ListsUntouched(s, q);
      ListsSame(s.d, Advance(s, q).d, s.pcs[q]);
    }
  }

  lemma ListsChanged(s: Sys, q: nat)
    requires q < |s.pcs| && s.pcs[q].Busy? && |s.d.im.heads| > 0
    requires var at := s.pcs[q].at; at.DelData? || at.DelPush? || at.FreeTake? || at.TailWrite? || at.Link?
    ensures KeepsLists(s.d, Advance(s, q).d, s.pcs[q])
  {
    hide Hash, Overwrite, Blanks, Apply, SetPtr, IsSlot, Entry, End, Without;
  }

  lemma ListsUntouched(s: Sys, q: nat)
    requires q < |s.pcs| && s.pcs[q].Busy? && |s.d.im.heads| > 0
    requires var at := s.pcs[q].at; !at.DelData? && !at.DelPush? && !at.FreeTake? && !at.TailWrite? && !at.Link?
    ensures Advance(s, q).d.ls == s.d.ls
  {
    hide Hash, Overwrite, Blanks, Apply, SetPtr, IsSlot, Entry, End, OnHit, OnMiss, Locked, Unlinked, Linked, TakenFree;
  }

  lemma ListsSame(d: Disk, d': Disk, pc: Pc)
    requires pc.Busy? && |d.im.heads| > 0 && d'.ls == d.ls
    ensures KeepsLists(d, d', pc)
  {
    hide Hash;
  }

  lemma WritersLock(s: Sys, q: nat)
    requires Inv(s) && q < |s.pcs| && s.pcs[q].Busy?
    ensures s.pcs[q].at.DelData? || s.pcs[q].at.Link? ==> !s.pcs[q].op.FetchOp?
  {
    hide Inv, DiskOk, View, Hash, Owned, Located, HasData, Prepared;
    PcOkAt(s, q);
    DiskOfInv(s);
    if s.pcs[q].at.Link? {
      PreparedStores(s.d, s.pcs[q].op, s.pcs[q].at.repl, s.pcs[q].at.o);
    }
  }

  lemma PreparedStores(d: Disk, op: Op, repl: bool, o: nat)
    requires DiskOk(d) && Prepared(d, op, repl, o)
    ensures op.StoreOp?
  {
    hide DiskOk, View, Hash;
  }

  lemma KeptToGo(d: Disk, d': Disk, pc: Pc, other: Pc)
    requires |d.im.heads| == |d'.im.heads| && |d.im.heads| > 0 && other.Busy? && !Clash(|d.im.heads|, pc, other)
    requires KeepsLists(d, d', other) && (other.at.DelData? || other.at.Link? ==> !other.op.FetchOp?)
    ensures ToGo(d', pc) == ToGo(d, pc)
  {
    hide Hash;
  }

  /**
   A step of its own brings a call nearer to its end; a step of another process changes neither
   its place nor what it has still to walk.
   */
  lemma CallsComeNearer(s: Sys, q: nat, s': Sys, p: nat)
    requires Inv(s) && |s.d.im.heads| > 0 && Step(s, q, s') && p < |s.pcs| && s.pcs[p].Busy?
    ensures |s'.pcs| == |s.pcs| && |s'.d.im.heads| > 0 && ToGo(s.d, s.pcs[p]) >= 0
    ensures q != p ==> s'.pcs[p] == s.pcs[p] && ToGo(s'.d, s.pcs[p]) == ToGo(s.d, s.pcs[p])
    ensures q == p ==> Nearer(s.d, s.pcs[p], s'.d, s'.pcs[p])
  {
    hide Inv, Granted, Hash, Advance, ToGo, Nearer, Reaches;
    ToGoNatural(s, p);
    if q == p {
      OwnStep(s, p);
    } else {
      OthersStep(s, q, s', p);
    }
  }

  // ---------- Runs without end ----------

  /** A run that goes on for ever, and the process that takes each step. */
  ghost predicate IsEndless(r: nat -> Sys, pid: nat -> nat) {
    && Inv(r(0))
    && forall i: nat :: StepsOn(r, pid, i)
  }

  ghost predicate StepsOn(r: nat -> Sys, pid: nat -> nat, i: nat) {
    |r(i).d.im.heads| > 0 && Step(r(i), pid(i), r(i + 1))
  }

  /** The process takes a step at some time or another, again and again. */
  ghost predicate Served(pid: nat -> nat, p: nat) {
    forall i: nat :: ServedAfter(pid, p, i)
  }

  ghost predicate ServedAfter(pid: nat -> nat, p: nat, i: nat) {
    exists j: nat :: i <= j && pid(j) == p
  }

  lemma {:induction false} EndlessInv(r: nat -> Sys, pid: nat -> nat, i: nat)
    requires IsEndless(r, pid)
    ensures Inv(r(i))
  {
    hide Inv, Step, Good;
    if i > 0 {
      EndlessInv(r, pid, i - 1);
      assert StepsOn(r, pid, i - 1);
      StepGood(r(i - 1), pid(i - 1), r(i));
      GoodInv(r(i - 1), pid(i - 1), r(i));
    }
  }

  /** Until its next step the process stays where it is. */
  lemma {:induction false} NextTurn(r: nat -> Sys, pid: nat -> nat, p: nat, i: nat, m: nat) returns (j: nat)
    requires IsEndless(r, pid) && i <= m && pid(m) == p && p < |r(i).pcs| && r(i).pcs[p].Busy?
    ensures |r(i).d.im.heads| > 0 && |r(j).d.im.heads| > 0
    ensures i <= j && pid(j) == p && p < |r(j).pcs| && r(j).pcs[p] == r(i).pcs[p]
    ensures ToGo(r(j).d, r(j).pcs[p]) == ToGo(r(i).d, r(i).pcs[p])
    decreases m - i
  {
    hide Inv, Step, ToGo;
    assert StepsOn(r, pid, i);
    if pid(i) == p {
      j := i;
    } else {
      EndlessInv(r, pid, i);
      CallsComeNearer(r(i), pid(i), r(i + 1), p);
      j := NextTurn(r, pid, p, i + 1, m);
    }
  }

  /** Every call of a process that is served again and again comes to its end. */
  lemma {:induction false} CallsEnd(r: nat -> Sys, pid: nat -> nat, p: nat, i: nat) returns (j: nat)
    requires IsEndless(r, pid) && Served(pid, p) && p < |r(i).pcs| && r(i).pcs[p].Busy? && |r(i).d.im.heads| > 0
    ensures i < j && p < |r(j).pcs| && !r(j).pcs[p].Busy?
    decreases Rank(r(i).pcs[p].at), ToGo(r(i).d, r(i).pcs[p])
  {
    hide Inv, Step, ToGo, Rank;
    assert ServedAfter(pid, p, i);
    var m: nat :| i <= m && pid(m) == p;
    var k := NextTurn(r, pid, p, i, m);
    EndlessInv(r, pid, k);
    assert StepsOn(r, pid, k);
    CallsComeNearer(r(k), p, r(k + 1), p);
    if r(k + 1).pcs[p].Busy? {
      ToGoNatural(r(k), p);
      j := CallsEnd(r, pid, p, k + 1);
    } else {
      j := k + 1;
    }
  }
}
