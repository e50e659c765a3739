/**
 The steps of several processes at one database that take a lock, read or give a lock back:
 each keeps the invariant and is one step of a call on the abstract map.
 */
module DbConcurrent {
  import opened DbFormat
  import opened DbImage
  import opened DbLists
  import opened DbSteps
  import opened DbSpec
  import opened DbProcesses
  import opened DbInvariant
  import opened DbMoves
  import opened DbFrames

  // ---------- What the locks give ----------

  lemma NoClash(s: Sys, p: nat, q: nat)
    requires Inv(s) && p < |s.pcs| && q < |s.pcs| && p != q
    ensures !Clash(|s.d.im.heads|, s.pcs[p], s.pcs[q])
  {
    hide DiskOk, PcOk, OwnersOk, AppendsApart, PendOwned, AbsOk, Clash;
  }

  lemma PcOkAt(s: Sys, p: nat)
    requires Inv(s) && p < |s.pcs|
    ensures PcOk(s.d, s.pcs[p])
  {
    hide DiskOk, PcOk, OwnersOk, AppendsApart, PendOwned, AbsOk, Clash;
  }

  lemma WriterInWindow(d: Disk, pc: Pc)
    requires DiskOk(d) && PcOk(d, pc) && InWindow(pc)
    ensures HoldsChain(pc) && HoldsFree(pc) && !pc.op.FetchOp?
  {
    hide DiskOk, View, Hash, Owned;
  }

  /** Outside its own window, a process that holds a chain sees it as it is. */
  lemma NotPending(s: Sys, p: nat)
    requires Inv(s) && p < |s.pcs| && HoldsChain(s.pcs[p]) && !InWindow(s.pcs[p])
    ensures !(s.d.pend.Pend? && s.d.pend.h == Chain(s.pcs[p].op, |s.d.im.heads|))
  {
    hide DiskOk, PcOk, OwnersOk, AppendsApart, AbsOk, Hash, LocksOk;
    if s.d.pend.Pend? && s.d.pend.h == Chain(s.pcs[p].op, |s.d.im.heads|) {
      var q: nat :| 0 <= q < |s.pcs| && InWindow(s.pcs[q]) && Chain(s.pcs[q].op, |s.d.im.heads|) == s.d.pend.h;
      WriterInWindow(s.d, s.pcs[q]);
      NoClash(s, p, q);
    }
  }

  /** Outside its own window, a process that holds the free list sees the whole file as it is. */
  lemma NonePending(s: Sys, p: nat)
    requires Inv(s) && p < |s.pcs| && HoldsFree(s.pcs[p]) && !InWindow(s.pcs[p])
    ensures s.d.pend.Settled?
  {
    hide DiskOk, PcOk, OwnersOk, AppendsApart, AbsOk, Hash, LocksOk;
    if s.d.pend.Pend? {
      var q: nat :| 0 <= q < |s.pcs| && InWindow(s.pcs[q]) && Chain(s.pcs[q].op, |s.d.im.heads|) == s.d.pend.h;
      WriterInWindow(s.d, s.pcs[q]);
      NoClash(s, p, q);
    }
  }

  lemma ReplacingHolds(d: Disk, pc: Pc)
    requires DiskOk(d) && Replacing(pc)
    ensures HoldsChain(pc) && pc.op.StoreOp?
  {
  }

  /** No other process is replacing the key of a process that holds its chain. */
  lemma NotExempt(s: Sys, p: nat, q: nat)
    requires Inv(s) && p < |s.pcs| && q < |s.pcs| && p != q
    requires HoldsChain(s.pcs[p]) && Replacing(s.pcs[q])
    ensures s.pcs[q].op.key != s.pcs[p].op.key
  {
    hide DiskOk, PcOk, OwnersOk, AppendsApart, AbsOk, Hash, PendOwned;
    ReplacingHolds(s.d, s.pcs[q]);
    NoClash(s, p, q);
  }

  /** A process that holds its chain, and is not itself replacing, finds the truth about its key. */
  lemma TruthAtKey(s: Sys, p: nat)
    requires Inv(s) && p < |s.pcs| && HoldsChain(s.pcs[p]) && !Replacing(s.pcs[p])
    ensures SameAt(s.abs, Meaning(s.d), s.pcs[p].op.key)
  {
    hide PcOk, OwnersOk, AppendsApart, Hash, PendOwned, LocksOk, DiskOk, Meaning;
    var k := s.pcs[p].op.key;
    if Exempt(s.pcs, k) {
      var q: nat :| 0 <= q < |s.pcs| && Replacing(s.pcs[q]) && s.pcs[q].op.key == k;
      NotExempt(s, p, q);
    }
  }

  // ---------- Putting a step together ----------

  /** One call, seen from the abstract map: begin, take effect, end; or end a store for good. */
  ghost predicate Effect(m: map<string, string>, st: Status, m': map<string, string>, st': Status) {
    || (m' == m && st' == st)
    || (st.Out? && st'.Called? && m' == m)
    || (st.Called? && st'.Done? && st'.op == st.op && (m', st'.ans) == Apply(m, st.op))
    || (st.Done? && st'.Out? && m' == m)
    || (st.Called? && st'.Gone? && st.op.StoreOp? && (m' == m || (st.op.flag != DB_INSERT && m' == m - {st.op.key})))
  }

  ghost predicate Good(s: Sys, p: nat, s': Sys) {
    && p < |s.pcs| == |s'.pcs|
    && Inv(s') && |s'.d.im.heads| == |s.d.im.heads|
    && s'.pcs == s.pcs[p := s'.pcs[p]]
    && (s.pcs[p].Busy? ==> s'.pcs[p] != s.pcs[p])
    && Effect(s.abs, StatusOf(s.pcs[p]), s'.abs, StatusOf(s'.pcs[p]))
  }

  lemma Shield(s: Sys, p: nat, d': Disk, h: nat, own: Orphan, free: bool)
    requires Inv(s) && p < |s.pcs| && DiskOk(d') && Within(s.d, d', h, own, free) && OwnPlace(s.d, h, own)
    requires HoldsChain(s.pcs[p]) && !s.pcs[p].op.FetchOp? && Chain(s.pcs[p].op, |s.d.im.heads|) == h
    requires own.Orphan? ==> own == HeldBy(s.pcs[p]) || !Owned(s.d, own.o)
    requires free ==> HoldsFree(s.pcs[p])
    requires d'.pend != s.d.pend ==> HoldsFree(s.pcs[p])
    requires forall q :: 0 <= q < |s.pcs| && q != p ==> StandsKept(s.d, d', s.pcs[q])
    requires |d'.dat| == |s.d.dat| || HoldsData(s.pcs[p])
    requires End(d'.im) == End(s.d.im) || HoldsTail(s.pcs[p])
    ensures forall q :: 0 <= q < |s.pcs| && q != p ==> PcOk(d', s.pcs[q])
  {
    hide DiskOk, PcOk, AppendsApart, AbsOk, Hash, PendOwned, Within, OwnPlace, View, Stands, Owned, End;
    forall q | 0 <= q < |s.pcs| && q != p
      ensures PcOk(d', s.pcs[q])
    {
      NoClash(s, p, q);
      PcOkAt(s, q);
      if HeldBy(s.pcs[q]).Orphan? {
        OwnerOwns(s.d, s.pcs[q]);
      }
      if InWindow(s.pcs[q]) {
        WriterInWindow(s.d, s.pcs[q]);
      }
      Frame(s.d, d', h, own, free, s.pcs[q]);
    }
  }

  ghost predicate StandsKept(d: Disk, d': Disk, pc: Pc)
    requires DiskOk(d) && DiskOk(d')
  {
    pc.Busy? && pc.op.StoreOp? && Appended(pc).Orphan? ==>
      (Stands(d, Appended(pc).o, pc.op.data) ==> Stands(d', Appended(pc).o, pc.op.data))
  }

  lemma OwnerOwns(d: Disk, pc: Pc)
    requires DiskOk(d) && PcOk(d, pc) && HeldBy(pc).Orphan?
    ensures Owned(d, HeldBy(pc).o)
  {
    hide DiskOk, View, Hash, Owned, Cut, Ready, Value;
  }

  /** The pieces of the invariant after a step of p. */
  lemma Assemble(s: Sys, p: nat, d': Disk, abs': map<string, string>, pc': Pc)
    requires Inv(s) && p < |s.pcs|
    requires DiskOk(d') && |d'.im.heads| == |s.d.im.heads|
    requires forall q :: 0 <= q < |s.pcs| && q != p ==> PcOk(d', s.pcs[q])
    requires PcOk(d', pc')
    requires forall q :: 0 <= q < |s.pcs| && q != p ==> !Clash(|s.d.im.heads|, pc', s.pcs[q])
    requires OwnersOk(d'.ls, s.pcs[p := pc'])
    requires forall q :: 0 <= q < |s.pcs| && q != p ==> NewApart(pc', s.pcs[q])
    requires PendOwned(d', s.pcs[p := pc'])
    requires AbsOk(Sys(d', abs', s.pcs[p := pc']))
    ensures Inv(Sys(d', abs', s.pcs[p := pc']))
  {
    hide Tiled, Sound, PendFits, PcOk, OwnersOk, AbsOk, Hash, PendOwned;
    var pcs' := s.pcs[p := pc'];
    assert LocksOk(|d'.im.heads|, pcs') by {
      hide AppendsApart, NewApart;
      AssembleLocks(|d'.im.heads|, s.pcs, p, pc');
    }
    assert AppendsApart(pcs') by {
      hide LocksOk, Clash;
      AssembleAppends(s.pcs, p, pc');
    }
  }

  lemma AssembleLocks(nhash: nat, pcs: seq<Pc>, p: nat, pc': Pc)
    requires nhash > 0 && p < |pcs| && LocksOk(nhash, pcs)
    requires forall q :: 0 <= q < |pcs| && q != p ==> !Clash(nhash, pc', pcs[q])
    ensures LocksOk(nhash, pcs[p := pc'])
  {
    hide Hash;
    var pcs' := pcs[p := pc'];
    forall a, b | 0 <= a < |pcs'| && 0 <= b < |pcs'| && a != b
      ensures !Clash(nhash, pcs'[a], pcs'[b])
    {
      if b == p {
        ClashSymmetric(nhash, pc', pcs[a]);
      }
    }
  }

  lemma ClashSymmetric(nhash: nat, a: Pc, b: Pc)
    requires nhash > 0
    ensures Clash(nhash, a, b) <==> Clash(nhash, b, a)
  {
    hide Hash;
  }

  lemma AssembleAppends(pcs: seq<Pc>, p: nat, pc': Pc)
    requires p < |pcs| && AppendsApart(pcs)
    requires forall q :: 0 <= q < |pcs| && q != p ==> NewApart(pc', pcs[q])
    ensures AppendsApart(pcs[p := pc'])
  {
    hide Appended;
    var pcs' := pcs[p := pc'];
    forall a, b | 0 <= a < |pcs'| && 0 <= b < |pcs'| && a != b && Appended(pcs'[a]).Orphan? && Appended(pcs'[b]).Orphan?
      ensures NewApart(pcs'[a], pcs'[b])
    {
      if a != p && b != p {
        assert NewApart(pcs[a], pcs[b]);
      } else if a == p {
        assert NewApart(pc', pcs[b]);
      } else {
        assert NewApart(pc', pcs[a]);
      }
    }
  }

  // ---------- Steps that leave the disk alone ----------

  /** A step that keeps what the process owns, and changes neither disk nor map. */
  lemma Quiet(s: Sys, p: nat, pc': Pc)
    requires Inv(s) && p < |s.pcs| && PcOk(s.d, pc')
    requires forall q :: 0 <= q < |s.pcs| && q != p ==> !Clash(|s.d.im.heads|, pc', s.pcs[q])
    requires HeldBy(pc') == HeldBy(s.pcs[p])
    requires Appended(pc').Orphan? ==>
      Appended(pc') == Appended(s.pcs[p]) && pc'.Busy? && s.pcs[p].Busy? && pc'.op == s.pcs[p].op
    requires Replacing(pc') == Replacing(s.pcs[p])
    requires InWindow(s.pcs[p]) ==> InWindow(pc')
    requires Replacing(pc') || InWindow(pc') ==> pc'.Busy? && s.pcs[p].Busy? && pc'.op == s.pcs[p].op
    ensures Inv(Goto(s, p, pc'))
  {
    hide DiskOk, PcOk, Hash, LocksOk, Clash, Appended, HeldBy;
    var pcs' := s.pcs[p := pc'];
    assert forall q :: 0 <= q < |s.pcs| ==> HeldBy(pcs'[q]) == HeldBy(s.pcs[q]);
    OwnersQuiet(s.d.ls, s.pcs, pcs');
    hide OwnersOk;
    if s.d.pend.Pend? {
      var q: nat :| 0 <= q < |s.pcs| && InWindow(s.pcs[q]) && Chain(s.pcs[q].op, |s.d.im.heads|) == s.d.pend.h;
      assert InWindow(pcs'[q]) && Chain(pcs'[q].op, |s.d.im.heads|) == s.d.pend.h;
    }
    forall q | 0 <= q < |s.pcs| && q != p
      ensures NewApart(pc', s.pcs[q])
    {
      if Appended(pc').Orphan? && Appended(s.pcs[q]).Orphan? {
        assert NewApart(s.pcs[p], s.pcs[q]);
      }
    }
    AbsQuiet(s, p, pc');
    Assemble(s, p, s.d, s.abs, pc');
  }

  lemma OwnersQuiet(ls: Lists, pcs: seq<Pc>, pcs': seq<Pc>)
    requires OwnersOk(ls, pcs) && |pcs'| == |pcs|
    requires forall q :: 0 <= q < |pcs| ==> HeldBy(pcs'[q]) == HeldBy(pcs[q])
    ensures OwnersOk(ls, pcs')
  {
    hide HeldBy;
    forall o | o in ls.home && ls.home[o] == Held
      ensures Owner(pcs', o)
    {
      assert Owner(pcs, o);
      var q: nat :| q < |pcs| && HeldBy(pcs[q]) == Orphan(o);
      assert HeldBy(pcs'[q]) == Orphan(o);
    }
  }

  lemma AbsQuiet(s: Sys, p: nat, pc': Pc)
    requires DiskOk(s.d) && AbsOk(s) && p < |s.pcs|
    requires Replacing(pc') == Replacing(s.pcs[p])
    requires Replacing(pc') ==> pc'.Busy? && s.pcs[p].Busy? && pc'.op == s.pcs[p].op
    ensures AbsOk(Goto(s, p, pc'))
  {
    hide DiskOk, Meaning, SameAt;
    var pcs' := s.pcs[p := pc'];
    forall k | !SameAt(s.abs, Meaning(s.d), k)
      ensures Exempt(pcs', k)
    {
      assert Exempt(s.pcs, k);
      var q: nat :| q < |s.pcs| && Replacing(s.pcs[q]) && s.pcs[q].op.key == k;
      assert Replacing(pcs'[q]) && pcs'[q].op.key == k;
    }
  }

  lemma FewerLocks(nhash: nat, pc: Pc, pc': Pc, b: Pc)
    requires nhash > 0 && pc.Busy? && pc'.Busy? && pc'.op == pc.op && !Clash(nhash, pc, b)
    requires HoldsChain(pc') ==> HoldsChain(pc)
    requires HoldsFree(pc') ==> HoldsFree(pc)
    requires HoldsData(pc') ==> HoldsData(pc)
    requires HoldsTail(pc') ==> HoldsTail(pc)
    ensures !Clash(nhash, pc', b)
  {
    hide Hash, HoldsFree, HoldsData, HoldsTail;
  }

  /** A step inside a call that takes no lock and writes nothing. */
  lemma QuietGood(s: Sys, p: nat, pc': Pc)
    requires Inv(s) && p < |s.pcs| && s.pcs[p].Busy? && pc'.Busy? && pc'.op == s.pcs[p].op && PcOk(s.d, pc')
    requires pc' != s.pcs[p]
    requires HoldsChain(pc') ==> HoldsChain(s.pcs[p])
    requires HoldsFree(pc') ==> HoldsFree(s.pcs[p])
    requires HoldsData(pc') ==> HoldsData(s.pcs[p])
    requires HoldsTail(pc') ==> HoldsTail(s.pcs[p])
    requires HeldBy(pc') == HeldBy(s.pcs[p])
    requires Appended(pc').Orphan? ==> Appended(pc') == Appended(s.pcs[p])
    requires Replacing(pc') == Replacing(s.pcs[p])
    requires InWindow(s.pcs[p]) ==> InWindow(pc')
    requires Effect(s.abs, StatusOf(s.pcs[p]), s.abs, StatusOf(pc'))
    ensures Good(s, p, Goto(s, p, pc'))
  {
    hide Inv, PcOk, Clash, HoldsChain, HoldsFree, HoldsData, HoldsTail, HeldBy, Appended, Replacing, InWindow, StatusOf, Effect;
    assert |s.d.im.heads| > 0 by { HeadsPositive(s); }
    forall q | 0 <= q < |s.pcs| && q != p
      ensures !Clash(|s.d.im.heads|, pc', s.pcs[q])
    {
      NoClash(s, p, q);
      FewerLocks(|s.d.im.heads|, s.pcs[p], pc', s.pcs[q]);
    }
    Quiet(s, p, pc');
  }

  lemma HeadsPositive(s: Sys)
    requires Inv(s)
    ensures |s.d.im.heads| > 0
  {
  }

  /** A lock is granted. */
  lemma LockShape(pc: Pc)
    requires Waits(pc)
    ensures var pc' := Locked(pc);
      && HeldBy(pc') == HeldBy(pc) && Appended(pc') == Appended(pc) && Replacing(pc') == Replacing(pc)
      && (InWindow(pc) ==> InWindow(pc')) && StatusOf(pc') == StatusOf(pc) && pc' != pc
      && (Appended(pc').Orphan? || Replacing(pc') || InWindow(pc') ==> pc'.Busy? && pc.Busy? && pc'.op == pc.op)
  {
  }

  lemma LockOk(d: Disk, pc: Pc)
    requires DiskOk(d) && Waits(pc) && PcOk(d, pc)
    ensures PcOk(d, Locked(pc))
  {
    hide DiskOk, Located, Ready, Stands, Cut, Hash, View;
  }

  lemma LockGood(s: Sys, p: nat)
    requires Inv(s) && p < |s.pcs| && Waits(s.pcs[p]) && Granted(|s.d.im.heads|, s.pcs, p)
    ensures Good(s, p, Goto(s, p, Locked(s.pcs[p])))
  {
    hide Inv, Clash, DiskOk, PcOk, Locked, Waits, HeldBy, Appended, Replacing, InWindow, StatusOf, View, Hash;
    PcOkAt(s, p);
    DiskOfInv(s);
    LockShape(s.pcs[p]);
    LockOk(s.d, s.pcs[p]);
    Quiet(s, p, Locked(s.pcs[p]));
  }

  lemma DiskOfInv(s: Sys)
    requires Inv(s)
    ensures DiskOk(s.d) && |s.d.im.heads| > 0 && |s.d.ls.chains| == |s.d.im.heads| == |View(s.d).heads|
    ensures View(s.d).free == s.d.im.free
    ensures ListsOk(View(s.d), s.d.ls) && ExtentsOk(View(s.d), s.d.dat) && Tiled(s.d.im)
  {
    hide PcOk, OwnersOk, AppendsApart, PendOwned, AbsOk, LocksOk;
    ViewFacts(s.d);
  }

  lemma BeginGood(s: Sys, p: nat, pc': Pc)
    requires Inv(s) && p < |s.pcs| && (s.pcs[p].Idle? || s.pcs[p].Scanning?)
    requires pc'.Idle? || pc'.ScanWait? || (s.pcs[p].Idle? && pc'.Busy? && pc'.at.Wait? && Reaches(pc'.op))
    ensures Good(s, p, Goto(s, p, pc'))
  {
    hide Inv, DiskOk, Located, Ready, Stands, Cut, Hash, View;
    DiskOfInv(s);
    Quiet(s, p, pc');
  }

  lemma ReleaseGood(s: Sys, p: nat)
    requires Inv(s) && p < |s.pcs| && s.pcs[p].Busy? && s.pcs[p].at.Release?
    ensures Good(s, p, Goto(s, p, Idle))
  {
    hide Inv, DiskOk, Located, Ready, Stands, Cut, Hash, View;
    DiskOfInv(s);
    Quiet(s, p, Idle);
  }

  // ---------- Walking the chain ----------

  /** What a process that holds a chain reads there is what the lists say. */
  lemma SeenOnChain(s: Sys, p: nat, pos: nat)
    requires Inv(s) && p < |s.pcs| && HoldsChain(s.pcs[p]) && !InWindow(s.pcs[p])
    ensures DiskOk(s.d)
    ensures var h := Chain(s.pcs[p].op, |s.d.im.heads|);
      && h < |s.d.im.heads| == |s.d.ls.chains|
      && s.d.im.heads[h] == At0(s.d.ls.chains[h], 0)
      && (pos < |s.d.ls.chains[h]| ==>
            var o := s.d.ls.chains[h][pos];
            && o != 0 && o in s.d.im.recs && o in View(s.d).recs && s.d.im.recs[o] == View(s.d).recs[o]
            && s.d.im.recs[o].ptr == At0(s.d.ls.chains[h], pos + 1)
            && LiveOn(View(s.d), s.d.ls, o, h))
  {
    hide PcOk, OwnersOk, AppendsApart, PendOwned, AbsOk, LocksOk, View, Tiled, ExtentsOk, TextOk, FreeOk, HomesOk, LocOk;
    NotPending(s, p);
    ViewFacts(s.d);
    var h := Chain(s.pcs[p].op, |s.d.im.heads|);
    hide Hash;
    assert ChainOk(View(s.d), s.d.ls, h);
    ChainStart(View(s.d), s.d.ls, h);
    if pos < |s.d.ls.chains[h]| {
      OnChain(View(s.d), s.d.ls, h, pos);
    }
  }

  lemma HeadGood(s: Sys, p: nat)
    requires Inv(s) && p < |s.pcs| && s.pcs[p].Busy? && s.pcs[p].at.Head?
    ensures Good(s, p, Advance(s, p))
  {
    hide Inv, DiskOk, Located, Ready, Stands, Cut, Hash, View;
    PcOkAt(s, p);
    SeenOnChain(s, p, 0);
    var op := s.pcs[p].op;
    var h := Chain(op, |s.d.im.heads|);
    QuietGood(s, p, Busy(op, Look(s.d.im.heads[h], ChainOff(h), 0)));
  }

  /** Past the end of the chain the key is not in the database. */
  lemma AbsentAtEnd(d: Disk, op: Op, at: At)
    requires DiskOk(d) && at.Look? && AtOk(d, op, at) && at.off == 0
    requires Chain(op, |d.im.heads|) < |d.ls.chains|
    requires at.pos < |d.ls.chains[Chain(op, |d.im.heads|)]| ==> d.ls.chains[Chain(op, |d.im.heads|)][at.pos] != 0
    ensures op.key !in d.ls.loc
  {
    hide Hash, Tiled, ExtentsOk, TextOk, FreeOk, HomesOk, LocOk;
    ViewFacts(d);
    hide View;
    if op.key in d.ls.loc {
      KeyOnChain(View(d), d.ls, op.key);
    }
  }

  lemma LookMissGood(s: Sys, p: nat)
    requires Inv(s) && p < |s.pcs| && s.pcs[p].Busy? && s.pcs[p].at.Look? && s.pcs[p].at.off == 0
    ensures Good(s, p, Advance(s, p))
  {
    hide Inv, DiskOk, Located, Ready, Stands, Cut, Hash, View, Meaning;
    var op, at := s.pcs[p].op, s.pcs[p].at;
    PcOkAt(s, p);
    SeenOnChain(s, p, at.pos);
    AbsentAtEnd(s.d, op, at);
    TruthAtKey(s, p);
    MeaningKeys(s.d);
    assert op.key !in s.abs;
    var next := OnMiss(op);
    if next.Release? {
      assert s.abs - {op.key} == s.abs;
      assert Apply(s.abs, op) == (s.abs, next.ans);
      assert Commit(s, op) == s;
    }
    QuietGood(s, p, Busy(op, next));
  }

  lemma MeaningKeys(d: Disk)
    requires DiskOk(d)
    ensures forall k :: k in Meaning(d) <==> k in d.ls.loc
  {
    hide ExtentsOk, ChainOk, FreeOk, HomesOk, Tiled, View, Value;
  }

  lemma LookOnGood(s: Sys, p: nat)
    requires Inv(s) && p < |s.pcs| && s.pcs[p].Busy? && s.pcs[p].at.Look? && s.pcs[p].at.off != 0
    ensures Good(s, p, Advance(s, p))
  {
    hide Inv, DiskOk, Ready, Stands, Cut, Hash, View, Meaning;
    var op, at := s.pcs[p].op, s.pcs[p].at;
    PcOkAt(s, p);
    SeenOnChain(s, p, at.pos);
    var rec := s.d.im.recs[at.off];
    if rec.key != op.key {
      var h := Chain(op, |s.d.im.heads|);
      QuietGood(s, p, Busy(op, Look(rec.ptr, at.off, at.pos + 1)));
    } else {
      var next := OnHit(op, at.off, at.ptroff, at.pos, rec);
      TruthAtKey(s, p);
      MeaningKeys(s.d);
      assert op.key in s.abs;
      if next.Release? {
        assert Apply(s.abs, op) == (s.abs, next.ans);
        assert Commit(s, op) == s;
      }
      QuietGood(s, p, Busy(op, next));
    }
  }

  lemma FetchingGood(s: Sys, p: nat)
    requires Inv(s) && p < |s.pcs| && s.pcs[p].Busy? && s.pcs[p].at.Fetching?
    ensures Good(s, p, Advance(s, p))
  {
    hide Inv, Ready, Stands, Cut, Hash, View, ExtentsOk, Tiled, ChainOk, FreeOk, HomesOk, TextOk, AbsOk, Value;
    var op, at := s.pcs[p].op, s.pcs[p].at;
    PcOkAt(s, p);
    SeenOnChain(s, p, at.pos);
    TruthAtKey(s, p);
    DiskOfInv(s);
    FetchedData(s.d, op, at.o, at.rec);
    hide DiskOk;
    var ans := Text(s.d.dat[at.rec.datoff..at.rec.datoff + at.rec.datlen - 1]);
    assert Apply(s.abs, op) == (s.abs, ans);
    assert Commit(s, op) == s;
    QuietGood(s, p, Busy(op, Release(ans)));
  }

  lemma FetchedData(d: Disk, op: Op, o: nat, rec: Rec)
    requires DiskOk(d) && o in View(d).recs && View(d).recs[o] == rec && op.key in d.ls.loc && d.ls.loc[op.key] == o
    ensures rec.datlen > 0 && rec.datoff + rec.datlen <= |d.dat|
    ensures op.key in Meaning(d) && Meaning(d)[op.key] == d.dat[rec.datoff..rec.datoff + rec.datlen - 1]
  {
    hide ChainOk, FreeOk, HomesOk, Tiled, View, TextOk;
    ExtentPositive(View(d), d.dat, o);
  }

  // ---------- Steps around the free list and the ends of the files ----------

  lemma DelFreeGood(s: Sys, p: nat)
    requires Inv(s) && p < |s.pcs| && s.pcs[p].Busy? && s.pcs[p].at.DelFree?
    ensures Good(s, p, Advance(s, p))
  {
    hide Inv, DiskOk, Ready, Stands, Cut, Hash, View, Owned;
    var op, at := s.pcs[p].op, s.pcs[p].at;
    PcOkAt(s, p);
    DiskOfInv(s);
    QuietGood(s, p, Busy(op, DelRec(at.o, at.ptroff, at.pos, at.rec, s.d.im.free)));
  }

  lemma DelDoneGood(s: Sys, p: nat)
    requires Inv(s) && p < |s.pcs| && s.pcs[p].Busy? && s.pcs[p].at.DelDone?
    ensures Good(s, p, Advance(s, p))
  {
    hide Inv, DiskOk, Ready, Stands, Cut, Hash, View, Owned;
    var op := s.pcs[p].op;
    PcOkAt(s, p);
    DiskOfInv(s);
    QuietGood(s, p, Busy(op, if op.DeleteOp? then Release(Code(0)) else InsHead(true)));
  }

  lemma InsHeadGood(s: Sys, p: nat)
    requires Inv(s) && p < |s.pcs| && s.pcs[p].Busy? && s.pcs[p].at.InsHead?
    ensures Good(s, p, Advance(s, p))
  {
    hide Inv, DiskOk, Stands, Cut, Hash, View, Owned;
    var op, at := s.pcs[p].op, s.pcs[p].at;
    PcOkAt(s, p);
    DiskOfInv(s);
    HashBound(op, |s.d.im.heads|);
    var h := Chain(op, |s.d.im.heads|);
    QuietGood(s, p, Busy(op, if at.repl then DatWait(s.d.im.heads[h], true) else FreeWait(s.d.im.heads[h])));
  }

  lemma HashBound(op: Op, nhash: nat)
    requires nhash > 0
    ensures Chain(op, nhash) < nhash
  {
  }

  lemma SeenOnFree(s: Sys, p: nat, pos: nat)
    requires Inv(s) && p < |s.pcs| && HoldsFree(s.pcs[p]) && !InWindow(s.pcs[p])
    ensures DiskOk(s.d) && s.d.pend.Settled? && View(s.d) == s.d.im
    ensures s.d.im.free == At0(s.d.ls.freel, 0)
    ensures pos < |s.d.ls.freel| ==>
      var o := s.d.ls.freel[pos];
      o != 0 && o in s.d.im.recs && s.d.im.recs[o].ptr == At0(s.d.ls.freel, pos + 1)
  {
    hide PcOk, OwnersOk, AppendsApart, PendOwned, AbsOk, LocksOk, Tiled, ExtentsOk, TextOk, ChainOk, HomesOk, LocOk;
    NonePending(s, p);
    FreeStart(s.d.im, s.d.ls);
    if pos < |s.d.ls.freel| {
      OnFreeList(s.d.im, s.d.ls, pos);
    }
  }

  lemma FreeHeadStep(s: Sys, p: nat)
    requires p < |s.pcs| && s.pcs[p].Busy? && s.pcs[p].at.FreeHead? && |s.d.im.heads| > 0
    ensures Advance(s, p) == Goto(s, p, Busy(s.pcs[p].op, FreeLook(s.pcs[p].at.ptr, s.d.im.free, 0, 0)))
  {
    hide Hash;
  }

  lemma FreeHeadShape(op: Op, ptr: nat, off: nat)
    requires op.StoreOp?
    ensures var pc, pc' := Busy(op, FreeHead(ptr)), Busy(op, FreeLook(ptr, off, 0, 0));
      && HoldsChain(pc) && HoldsFree(pc) && !HoldsData(pc') && !HoldsTail(pc') && HeldBy(pc') == HeldBy(pc)
      && Appended(pc') == NoOrphan && Replacing(pc') == Replacing(pc) && !InWindow(pc) && StatusOf(pc') == StatusOf(pc)
  {
  }

  lemma FreeHeadOk(d: Disk, op: Op, ptr: nat)
    requires DiskOk(d) && PcOk(d, Busy(op, FreeHead(ptr))) && d.im.free == At0(d.ls.freel, 0)
    ensures op.StoreOp? && PcOk(d, Busy(op, FreeLook(ptr, d.im.free, 0, 0)))
  {
    hide DiskOk, Hash, View;
  }

  lemma FreeHeadGood(s: Sys, p: nat)
    requires Inv(s) && p < |s.pcs| && s.pcs[p].Busy? && s.pcs[p].at.FreeHead?
    ensures Good(s, p, Advance(s, p))
  {
    hide Inv, DiskOk, PcOk, HoldsChain, HoldsFree, HoldsData, HoldsTail, HeldBy, Appended, Replacing, InWindow, StatusOf,
      Advance, View, Hash;
    var op, at := s.pcs[p].op, s.pcs[p].at;
    PcOkAt(s, p);
    DiskOfInv(s);
    HeadsPositive(s);
    FreeHeadLocks(op, at.ptr);
    SeenOnFree(s, p, 0);
    FreeHeadOk(s.d, op, at.ptr);
    FreeHeadShape(op, at.ptr, s.d.im.free);
    FreeHeadStep(s, p);
    QuietGood(s, p, Busy(op, FreeLook(at.ptr, s.d.im.free, 0, 0)));
  }

  lemma FreeHeadLocks(op: Op, ptr: nat)
    ensures HoldsFree(Busy(op, FreeHead(ptr))) && !InWindow(Busy(op, FreeHead(ptr)))
  {
  }

  lemma FreeLookGood(s: Sys, p: nat)
    requires Inv(s) && p < |s.pcs| && s.pcs[p].Busy? && s.pcs[p].at.FreeLook?
    ensures Good(s, p, Advance(s, p))
  {
    hide Inv, DiskOk, Stands, Cut, Hash, View, Owned, AtOk, Ready, Advance;
    var op, at := s.pcs[p].op, s.pcs[p].at;
    PcOkAt(s, p);
    SeenOnFree(s, p, at.pos);
    DiskOfInv(s);
    StoreOnly(s.d, op, at);
    FreeNextOk(s.d, op, at);
    FreeLookStep(s, p);
    FreeNextShape(s.d, op, at);
    hide FreeNext, HoldsChain, HoldsFree, HoldsData, HoldsTail, HeldBy, Appended, Replacing, InWindow, StatusOf, PcOk;
    QuietGood(s, p, Busy(op, FreeNext(s.d, op, at)));
  }

  lemma FreeNextShape(d: Disk, op: Op, at: At)
    requires at.FreeLook? && op.StoreOp? && (at.off != 0 ==> at.off in d.im.recs)
    ensures var pc, pc' := Busy(op, at), Busy(op, FreeNext(d, op, at));
      && pc' != pc && HoldsChain(pc) && HoldsFree(pc)
      && !HoldsData(pc') && !HoldsTail(pc')
      && HeldBy(pc') == HeldBy(pc) && Appended(pc') == NoOrphan
      && Replacing(pc') == Replacing(pc) && !InWindow(pc) && StatusOf(pc') == StatusOf(pc)
  {
  }

  lemma StoreOnly(d: Disk, op: Op, at: At)
    requires DiskOk(d) && at.FreeLook? && AtOk(d, op, at)
    ensures op.StoreOp?
  {
    hide DiskOk, Hash, View;
  }

  lemma FreeLookStep(s: Sys, p: nat)
    requires p < |s.pcs| && s.pcs[p].Busy? && s.pcs[p].at.FreeLook? && s.pcs[p].op.StoreOp? && |s.d.im.heads| > 0
    requires s.pcs[p].at.off != 0 ==> s.pcs[p].at.off in s.d.im.recs
    ensures Advance(s, p) == Goto(s, p, Busy(s.pcs[p].op, FreeNext(s.d, s.pcs[p].op, s.pcs[p].at)))
  {
    hide Hash;
  }

  ghost function FreeNext(d: Disk, op: Op, at: At): (next: At)
    requires at.FreeLook? && op.StoreOp? && (at.off != 0 ==> at.off in d.im.recs)
    ensures next.FreeNone? || next.FreeTake? || next.FreeLook?
  {
    if at.off == 0 then FreeNone(at.ptr)
    else
      var rec := d.im.recs[at.off];
      if |rec.key| == |op.key| && rec.datlen == |op.data| + 1 then FreeTake(at.ptr, at.off, at.save, at.pos, rec)
      else FreeLook(at.ptr, rec.ptr, at.off, at.pos + 1)
  }

  lemma FreeNextOk(d: Disk, op: Op, at: At)
    requires DiskOk(d) && Reaches(op) && op.StoreOp? && at.FreeLook? && AtOk(d, op, at) && View(d) == d.im
    requires at.pos < |d.ls.freel| ==>
      var o := d.ls.freel[at.pos];
      o != 0 && o in d.im.recs && d.im.recs[o].ptr == At0(d.ls.freel, at.pos + 1)
    ensures at.off != 0 ==> at.off in d.im.recs
    ensures PcOk(d, Busy(op, FreeNext(d, op, at)))
  {
    hide DiskOk, Hash, View, Ready;
  }

  function Unlocked(at: At, dat: string, end: nat): (next: At)
    requires at.FreeNone? || at.FreeGot? || at.DatSeek? || at.DatDone? || at.TailSeek? || at.TailDone?
  {
    match at
    case FreeNone(ptr) => DatWait(ptr, false)
    case FreeGot(ptr, o, rec) => ReuseData(ptr, o, rec)
    case DatSeek(ptr, repl) => DatWrite(ptr, repl, |dat|)
    case DatDone(ptr, repl, off) => TailWait(ptr, repl, off)
    case TailSeek(ptr, repl, off) => TailWrite(ptr, repl, off, end)
    case TailDone(repl, o) => Link(repl, o)
  }

  lemma UnlockGood(s: Sys, p: nat)
    requires Inv(s) && p < |s.pcs| && s.pcs[p].Busy?
    requires s.pcs[p].at.FreeNone? || s.pcs[p].at.FreeGot? || s.pcs[p].at.DatSeek? || s.pcs[p].at.DatDone?
      || s.pcs[p].at.TailSeek? || s.pcs[p].at.TailDone?
    ensures Good(s, p, Advance(s, p))
  {
    hide Inv, DiskOk, Ready, Stands, Cut, Hash, View, Owned, Taken, Prepared, End, AtOk;
    var op, at := s.pcs[p].op, s.pcs[p].at;
    PcOkAt(s, p);
    DiskOfInv(s);
    var next := Unlocked(at, s.d.dat, End(s.d.im));
    assert Advance(s, p) == Goto(s, p, Busy(op, next));
    hide Advance;
    UnlockedOk(s.d, op, at);
    QuietGood(s, p, Busy(op, next));
  }

  lemma UnlockedOk(d: Disk, op: Op, at: At)
    requires DiskOk(d)
    requires at.FreeNone? || at.FreeGot? || at.DatSeek? || at.DatDone? || at.TailSeek? || at.TailDone?
    requires AtOk(d, op, at)
    ensures AtOk(d, op, Unlocked(at, d.dat, End(d.im)))
  {
    hide DiskOk, Ready, Stands, Cut, Hash, View, Owned, Taken, Prepared, End;
  }
}
