/**
 How the calls of several processes end (db/db.c:567-631, 676-739): which of them dump, that
 all others answer, what each of them waits for, and when a store appends.
 */
module DbOutcomes {
  import opened DbFormat
  import opened DbImage
  import opened DbLists
  import opened DbSteps
  import opened DbSpec
  import opened DbProcesses
  import opened DbInvariant
  import opened DbMoves
  import opened DbConcurrent
  import opened DbAtomic
  import opened DbTheorems
  import opened DbBytes
  import opened DbProgress
  import opened DbRecords

  // ---------- Who dumps ----------

  /** The process is about to write an entry of a length, or an offset, that is out of range. */
  ghost predicate OutOfRange(pc: Pc) {
    && pc.Busy? && pc.op.StoreOp?
    && ((pc.at.TailWrite? && !(IDXLEN_MIN <= |Entry(pc.op.key, pc.at.off, |pc.op.data| + 1)| <= IDXLEN_MAX))
        || (pc.at.Link? && pc.at.o > PTR_MAX))
  }

  /** A call ends in a dump exactly there. */
  lemma DumpsExactlyWhen(s: Sys, p: nat, s': Sys)
    requires Inv(s) && |s.d.im.heads| > 0 && Step(s, p, s')
    ensures p < |s.pcs| == |s'.pcs| && !s.pcs[p].Dead?
    ensures s'.pcs[p].Dead? <==> OutOfRange(s.pcs[p])
  {
    hide Inv, Good, Granted, Hash, Advance, Effect, OutOfRange, Reaches;
    StepGood(s, p, s');
    GoodInv(s, p, s');
    if s.pcs[p].Busy? {
      var at := s.pcs[p].at;
      if at.TailWrite? {
        StoresAt(s, p);
        TailDumps(s, p);
      } else if at.Link? {
        StoresAt(s, p);
        LinkDumps(s, p);
      } else {
        NobodyElseDumps(s, p);
      }
    } else {
      NotBusy(s, p, s');
    }
  }

  lemma StoresAt(s: Sys, p: nat)
    requires Inv(s) && p < |s.pcs| && s.pcs[p].Busy? && (s.pcs[p].at.TailWrite? || s.pcs[p].at.Link?)
    ensures s.pcs[p].op.StoreOp? && |s.d.im.heads| > 0 && Chain(s.pcs[p].op, |s.d.im.heads|) < |s.d.ls.chains|
  {
    hide Inv, DiskOk, View, Hash, Owned, HasData, Value, ListsOk, ExtentsOk, Tiled, Stands;
    DiskOfInv(s);
    PcOkAt(s, p);
    ChainBelow(s.pcs[p].op, |s.d.im.heads|);
  }

  lemma TailDumps(s: Sys, p: nat)
    requires p < |s.pcs| && s.pcs[p].Busy? && s.pcs[p].at.TailWrite? && s.pcs[p].op.StoreOp? && |s.d.im.heads| > 0
    ensures |Advance(s, p).pcs| == |s.pcs| && (Advance(s, p).pcs[p].Dead? <==> OutOfRange(s.pcs[p]))
  {
    hide Hash, Entry;
  }

  lemma LinkDumps(s: Sys, p: nat)
    requires p < |s.pcs| && s.pcs[p].Busy? && s.pcs[p].at.Link? && s.pcs[p].op.StoreOp? && |s.d.im.heads| > 0
    ensures |Advance(s, p).pcs| == |s.pcs| && (Advance(s, p).pcs[p].Dead? <==> OutOfRange(s.pcs[p]))
  {
    hide Hash, Entry, Linked, Apply;
  }

  /** The call goes on, and not by looking at a free record or past the last. */
  ghost predicate Ordinary(s: Sys, p: nat)
    requires p < |s.pcs| && s.pcs[p].Busy? && |s.d.im.heads| > 0
  {
    var s' := Advance(s, p);
    |s'.pcs| == |s.pcs| && s'.pcs[p].Busy? && !s'.pcs[p].at.FreeLook? && !s'.pcs[p].at.FreeNone?
  }

  lemma MostAreOrdinary(s: Sys, p: nat)
    requires p < |s.pcs| && s.pcs[p].Busy? && |s.d.im.heads| > 0
    requires var at := s.pcs[p].at; !at.FreeHead? && !at.FreeLook? && !at.TailWrite? && !at.Link? && !at.Release?
    ensures Ordinary(s, p)
  {
    hide Ordinary;
    var at := s.pcs[p].at;
    if at.Wait? || at.Head? || at.Look? || at.Fetching? || at.Over? || at.DelWait? {
      OrdinaryInSearch(s, p);
    } else if at.DelData? || at.DelFree? || at.DelRec? || at.DelPush? || at.DelLink? || at.DelDone? {
      OrdinaryInDelete(s, p);
    } else if at.InsHead? || at.FreeWait? || at.FreeTake? || at.FreeNone? || at.FreeGot? || at.ReuseData? || at.ReuseRec? {
      OrdinaryInReuse(s, p);
    } else {
      OrdinaryInAppend(s, p);
    }
  }

  lemma OrdinaryInSearch(s: Sys, p: nat)
    requires p < |s.pcs| && s.pcs[p].Busy? && |s.d.im.heads| > 0
    requires var at := s.pcs[p].at;
      at.Wait? || at.Head? || at.Look? || at.Fetching? || at.Over? || at.DelWait?
    ensures Ordinary(s, p)
  {
    hide Hash, Overwrite, Blanks, Apply, SetPtr, IsSlot, Entry, End, Unlinked, TakenFree, PushedFree, Linked;
  }

  lemma OrdinaryInDelete(s: Sys, p: nat)
    requires p < |s.pcs| && s.pcs[p].Busy? && |s.d.im.heads| > 0
    requires var at := s.pcs[p].at;
      at.DelData? || at.DelFree? || at.DelRec? || at.DelPush? || at.DelLink? || at.DelDone?
    ensures Ordinary(s, p)
  {
    hide Hash, Overwrite, Blanks, Apply, SetPtr, IsSlot, Entry, End, Unlinked, TakenFree, PushedFree, Linked;
  }

  lemma OrdinaryInReuse(s: Sys, p: nat)
    requires p < |s.pcs| && s.pcs[p].Busy? && |s.d.im.heads| > 0
    requires var at := s.pcs[p].at;
      at.InsHead? || at.FreeWait? || at.FreeTake? || at.FreeNone? || at.FreeGot? || at.ReuseData? || at.ReuseRec?
    ensures Ordinary(s, p)
  {
    hide Hash, Overwrite, Blanks, Apply, SetPtr, IsSlot, Entry, End, Unlinked, TakenFree, PushedFree, Linked;
  }

  lemma OrdinaryInAppend(s: Sys, p: nat)
    requires p < |s.pcs| && s.pcs[p].Busy? && |s.d.im.heads| > 0
    requires var at := s.pcs[p].at;
      at.DatWait? || at.DatSeek? || at.DatWrite? || at.DatDone? || at.TailWait? || at.TailSeek? || at.TailDone?
    ensures Ordinary(s, p)
  {
    hide Hash, Overwrite, Blanks, Apply, SetPtr, IsSlot, Entry, End, Unlinked, TakenFree, PushedFree, Linked;
  }

  lemma FreeSteps(s: Sys, p: nat)
    requires p < |s.pcs| && s.pcs[p].Busy? && |s.d.im.heads| > 0 && (s.pcs[p].at.FreeHead? || s.pcs[p].at.FreeLook?)
    ensures |Advance(s, p).pcs| == |s.pcs| && Advance(s, p).pcs[p].Busy?
  {
    hide Hash, Apply;
  }

  lemma EndSteps(s: Sys, p: nat)
    requires p < |s.pcs| && s.pcs[p].Busy? && |s.d.im.heads| > 0 && (s.pcs[p].at.TailWrite? || s.pcs[p].at.Link?)
    ensures |Advance(s, p).pcs| == |s.pcs| && (Advance(s, p).pcs[p].Busy? || Advance(s, p).pcs[p].Dead?)
  {
    hide Hash, Entry, Linked, Apply;
  }

  lemma NobodyElseDumps(s: Sys, p: nat)
    requires p < |s.pcs| && s.pcs[p].Busy? && |s.d.im.heads| > 0 && !s.pcs[p].at.TailWrite? && !s.pcs[p].at.Link?
    ensures |Advance(s, p).pcs| == |s.pcs| && !Advance(s, p).pcs[p].Dead? && !OutOfRange(s.pcs[p])
  {
    var at := s.pcs[p].at;
    if at.Release? {
      hide Hash;
    } else {
      hide Advance, Hash, Entry;
      if at.FreeHead? || at.FreeLook? {
        FreeSteps(s, p);
      } else {
        MostAreOrdinary(s, p);
      }
    }
  }

  lemma NotBusy(s: Sys, p: nat, s': Sys)
    requires |s.d.im.heads| > 0 && Step(s, p, s') && !s.pcs[p].Busy?
    ensures !s.pcs[p].Dead? && |s'.pcs| == |s.pcs| && !s'.pcs[p].Dead? && !OutOfRange(s.pcs[p])
  {
    hide Hash, Granted, Reaches;
  }

  ghost predicate DumpedBefore(r: Run, n: nat, p: nat)
    requires n <= |r.pids| && |r.states| == |r.pids| + 1
  {
    exists i: nat :: i < n && r.pids[i] == p && p < |r.states[i].pcs| && OutOfRange(r.states[i].pcs[p])
  }

  /** In every run a process has ended exactly if it has had an entry or an offset that is out of range. */
  lemma {:induction false} DeadExactlyWhen(r: Run, n: nat, p: nat)
    requires IsRun(r) && n <= |r.pids| && p < |r.states[n].pcs|
    ensures r.states[n].pcs[p].Dead? <==> DumpedBefore(r, n, p)
  {
    hide Init, Inv, Step, OutOfRange;
    if n == 0 {
      StartsIdle(r.states[0], p);
    } else {
      var s, q, s' := r.states[n - 1], r.pids[n - 1], r.states[n];
      RunInv(r, n - 1);
      assert StepsAt(r, n - 1);
      DumpsExactlyWhen(s, q, s');
      OthersStay(s, q, s', p);
      DeadExactlyWhen(r, n - 1, p);
      if DumpedBefore(r, n - 1, p) {
        assert DumpedBefore(r, n, p);
      } else if DumpedBefore(r, n, p) {
        var i: nat :| i < n && r.pids[i] == p && p < |r.states[i].pcs| && OutOfRange(r.states[i].pcs[p]);
        assert i == n - 1;
      }
    }
  }

  lemma StartsIdle(s: Sys, p: nat)
    requires Init(s) && p < |s.pcs|
    ensures s.pcs[p].Idle?
  {
    hide Sound, Contents, Tiled;
  }

  lemma OthersStay(s: Sys, q: nat, s': Sys, p: nat)
    requires Inv(s) && |s.d.im.heads| > 0 && Step(s, q, s') && p < |s'.pcs|
    ensures q < |s.pcs| == |s'.pcs| && (p != q ==> s'.pcs[p] == s.pcs[p])
    ensures !s.pcs[q].Dead?
  {
    hide Inv, Good, Granted, Hash, Advance, Effect, Reaches;
    StepGood(s, q, s');
    GoodInv(s, q, s');
  }

  lemma DigitsGrow(a: nat, b: nat)
    requires a <= b
    ensures |Digits(a)| <= |Digits(b)|
  {
    DigitsLength(b, |Digits(b)|);
    DigitsLength(a, |Digits(b)|);
  }

  /**
   Nothing is out of range as long as the index file ends where a pointer can reach, and an
   entry for what a call stores would fit if its data were put at the end of the data file.
   */
  lemma InRangeWhileSmall(s: Sys, p: nat)
    requires Inv(s) && p < |s.pcs| && End(s.d.im) <= PTR_MAX
    requires s.pcs[p].Busy? && s.pcs[p].op.StoreOp? ==>
      s.pcs[p].op.key != "" && |Entry(s.pcs[p].op.key, |s.d.dat|, |s.pcs[p].op.data| + 1)| <= IDXLEN_MAX
    ensures !OutOfRange(s.pcs[p])
  {
    hide Inv, DiskOk, View, Hash, Value, ListsOk, ExtentsOk, Tiled, Digits, Ready, HasData, End;
    PcOkAt(s, p);
    DiskOfInv(s);
    if s.pcs[p].Busy? && s.pcs[p].at.TailWrite? {
      assert s.pcs[p].at.off <= |s.d.dat|;
      DigitsGrow(s.pcs[p].at.off, |s.d.dat|);
      DigitsLength(s.pcs[p].at.off, 1);
    } else if s.pcs[p].Busy? && s.pcs[p].at.Link? {
      OwnRec(s.d, s.pcs[p].at.o);
      RecordInFile(s.d.im, s.pcs[p].at.o);
    }
  }

  // ---------- Everybody else answers ----------

  /** No step of p writes what is out of range. */
  ghost predicate StaysInRange(r: nat -> Sys, p: nat) {
    forall i: nat :: p < |r(i).pcs| ==> !OutOfRange(r(i).pcs[p])
  }

  /** A step of a call of p, in a run in which it stays in range: the call goes on, or it has answered. */
  lemma OwnTurn(s: Sys, p: nat, s': Sys)
    requires Inv(s) && |s.d.im.heads| > 0 && Step(s, p, s') && s.pcs[p].Busy? && !OutOfRange(s.pcs[p])
    ensures Inv(s') && |s'.pcs| == |s.pcs| && |s'.d.im.heads| > 0 && Nearer(s.d, s.pcs[p], s'.d, s'.pcs[p])
    ensures !s.pcs[p].at.Release? ==> s'.pcs[p].Busy? && s'.pcs[p].op == s.pcs[p].op
    ensures var st, st' := StatusOf(s.pcs[p]), StatusOf(s'.pcs[p]);
      && (st.Called? && st'.Done? ==> (s'.abs, st'.ans) == Apply(s.abs, st.op))
      && (st.Done? && !s.pcs[p].at.Release? ==> st' == st)
      && (st.Called? && !st'.Done? ==> st' == st && s'.abs == s.abs)
  {
    hide Inv, Good, Granted, Hash, Advance, OutOfRange, Reaches, Nearer, ToGo, Apply, StatusOf, Effect;
    StepGood(s, p, s');
    GoodInv(s, p, s');
    CallsComeNearer(s, p, s', p);
    DumpsExactlyWhen(s, p, s');
    if !s.pcs[p].at.Release? {
      NotYetIdle(s, p);
      StillCalled(s.pcs[p], s'.pcs[p], s.abs, s'.abs);
    } else {
      StatusAtEnd(s.pcs[p]);
    }
  }

  lemma StatusAtEnd(pc: Pc)
    requires pc.Busy? && pc.at.Release?
    ensures StatusOf(pc) == Done(pc.op, pc.at.ans)
  {
  }

  lemma StillCalled(pc: Pc, pc': Pc, m: map<string, string>, m': map<string, string>)
    requires pc.Busy? && pc'.Busy? && Effect(m, StatusOf(pc), m', StatusOf(pc'))
    ensures pc'.op == pc.op
    ensures var st, st' := StatusOf(pc), StatusOf(pc');
      && (st.Called? && st'.Done? ==> (m', st'.ans) == Apply(m, st.op))
      && (st.Done? ==> st' == st)
      && (st.Called? && !st'.Done? ==> st' == st && m' == m)
  {
    hide Apply;
  }

  lemma NotYetIdle(s: Sys, p: nat)
    requires p < |s.pcs| && s.pcs[p].Busy? && |s.d.im.heads| > 0 && !s.pcs[p].at.Release?
    ensures |Advance(s, p).pcs| == |s.pcs| && (Advance(s, p).pcs[p].Busy? || Advance(s, p).pcs[p].Dead?)
  {
    hide Advance;
    var at := s.pcs[p].at;
    if at.FreeHead? || at.FreeLook? {
      FreeSteps(s, p);
    } else if at.TailWrite? || at.Link? {
      EndSteps(s, p);
    } else {
      MostAreOrdinary(s, p);
    }
  }

  /** A call that has taken effect comes to return the answer it has. */
  lemma {:induction false} DoneAnswers(r: nat -> Sys, pid: nat -> nat, p: nat, i: nat) returns (j: nat)
    requires IsEndless(r, pid) && Served(pid, p) && StaysInRange(r, p) && |r(i).d.im.heads| > 0
    requires p < |r(i).pcs| && r(i).pcs[p].Busy? && StatusOf(r(i).pcs[p]).Done?
    ensures i <= j && p < |r(j).pcs| && r(j).pcs[p] == Busy(r(i).pcs[p].op, Release(StatusOf(r(i).pcs[p]).ans))
    decreases Rank(r(i).pcs[p].at), ToGo(r(i).d, r(i).pcs[p])
  {
    hide Inv, Step, ToGo, Rank, StatusOf, OutOfRange;
    if r(i).pcs[p].at.Release? {
      StatusAtEnd(r(i).pcs[p]);
      j := i;
    } else {
      assert ServedAfter(pid, p, i);
      var m: nat :| i <= m && pid(m) == p;
      var k := NextTurn(r, pid, p, i, m);
      EndlessInv(r, pid, k);
      assert StepsOn(r, pid, k);
      OwnTurn(r(k), p, r(k + 1));
      ToGoNatural(r(k), p);
      DoneOp(r(i).pcs[p]);
      j := DoneAnswers(r, pid, p, k + 1);
    }
  }

  lemma DoneOp(pc: Pc)
    requires pc.Busy?
    ensures StatusOf(pc).Done? || StatusOf(pc).Called?
    ensures StatusOf(pc).op == pc.op
  {
  }

  /**
   In a run without end, every call of a process that gets its turn again and again, and
   writes nothing that is out of range, takes effect in one step of its own and comes to
   return what the map of that instant answers.
   */
  lemma {:induction false} CallsAnswer(r: nat -> Sys, pid: nat -> nat, p: nat, i: nat) returns (k: nat, j: nat)
    requires IsEndless(r, pid) && Served(pid, p) && StaysInRange(r, p) && |r(i).d.im.heads| > 0
    requires p < |r(i).pcs| && r(i).pcs[p].Busy? && StatusOf(r(i).pcs[p]).Called?
    ensures i <= k < j && pid(k) == p && p < |r(j).pcs|
    ensures var (m, ans) := Apply(r(k).abs, r(i).pcs[p].op);
      r(k + 1).abs == m && r(j).pcs[p] == Busy(r(i).pcs[p].op, Release(ans))
    decreases Rank(r(i).pcs[p].at), ToGo(r(i).d, r(i).pcs[p])
  {
    hide Inv, Step, ToGo, Rank, StatusOf, OutOfRange, Apply;
    assert ServedAfter(pid, p, i);
    var m: nat :| i <= m && pid(m) == p;
    k := NextTurn(r, pid, p, i, m);
    EndlessInv(r, pid, k);
    assert StepsOn(r, pid, k);
    NotReleased(r(k).pcs[p]);
    OwnTurn(r(k), p, r(k + 1));
    ToGoNatural(r(k), p);
    DoneOp(r(k).pcs[p]);
    DoneOp(r(k + 1).pcs[p]);
    if StatusOf(r(k + 1).pcs[p]).Done? {
      j := DoneAnswers(r, pid, p, k + 1);
    } else {
      k, j := CallsAnswer(r, pid, p, k + 1);
    }
  }

  lemma NotReleased(pc: Pc)
    requires pc.Busy? && StatusOf(pc).Called?
    ensures !pc.at.Release?
  {
  }

  // ---------- What a process waits for ----------

  /** Any call with C strings, and any store the source lets through, can be begun by an idle process. */
  lemma CallsBegin(s: Sys, p: nat, op: Op)
    requires |s.d.im.heads| > 0 && p < |s.pcs| && s.pcs[p].Idle?
    requires op.StoreOp? ==>
      && NUL !in op.key && SEP !in op.key && NUL !in op.data
      && (op.flag == DB_INSERT || op.flag == DB_REPLACE || op.flag == DB_STORE) && DATLEN_MIN <= |op.data| + 1 <= DATLEN_MAX
    ensures Step(s, p, Goto(s, p, Busy(op, Wait))) && Step(s, p, Goto(s, p, ScanWait))
  {
    hide Hash;
  }

  /** Another process uses the chain of the call, and one of the two may write. */
  ghost predicate Meets(s: Sys, p: nat, q: nat)
    requires |s.d.im.heads| > 0 && p < |s.pcs| && q < |s.pcs| && s.pcs[p].Busy?
  {
    && q != p && s.pcs[q].Busy? && !s.pcs[q].at.Wait?
    && Chain(s.pcs[q].op, |s.d.im.heads|) == Chain(s.pcs[p].op, |s.d.im.heads|)
    && !(s.pcs[p].op.FetchOp? && s.pcs[q].op.FetchOp?)
  }

  /** A call waits for its chain exactly while somebody it could disturb is at it: fetches share. */
  lemma ChainWaits(s: Sys, p: nat)
    requires Inv(s) && |s.d.im.heads| > 0 && p < |s.pcs| && s.pcs[p].Busy? && s.pcs[p].at.Wait?
    ensures CanStep(s, p) <==> forall q: nat :: q < |s.pcs| ==> !Meets(s, p, q)
  {
    hide Inv, Hash;
    if forall q: nat :: q < |s.pcs| ==> !Meets(s, p, q) {
      forall q: nat | q < |s.pcs| && q != p
        ensures !Clash(|s.d.im.heads|, Locked(s.pcs[p]), s.pcs[q])
      {
        assert !Meets(s, p, q);
      }
    } else {
      var q: nat :| q < |s.pcs| && Meets(s, p, q);
      assert Clash(|s.d.im.heads|, Locked(s.pcs[p]), s.pcs[q]);
    }
  }

  /**
   Inside a call, and at the start of a scan, a process waits exactly while another has the
   one lock it needs: the free list, the data file or the end of the index file.
   */
  lemma InnerWaits(s: Sys, p: nat)
    requires Inv(s) && |s.d.im.heads| > 0 && p < |s.pcs|
    ensures s.pcs[p].Busy? && (s.pcs[p].at.DelWait? || s.pcs[p].at.FreeWait?) ==>
      (CanStep(s, p) <==> forall q :: 0 <= q < |s.pcs| && q != p ==> !HoldsFree(s.pcs[q]) && !s.pcs[q].Scanning?)
    ensures s.pcs[p].ScanWait? ==> (CanStep(s, p) <==> forall q :: 0 <= q < |s.pcs| && q != p ==> !HoldsFree(s.pcs[q]))
    ensures s.pcs[p].Busy? && s.pcs[p].at.DatWait? ==>
      (CanStep(s, p) <==> forall q :: 0 <= q < |s.pcs| && q != p ==> !HoldsData(s.pcs[q]))
    ensures s.pcs[p].Busy? && s.pcs[p].at.TailWait? ==>
      (CanStep(s, p) <==> forall q :: 0 <= q < |s.pcs| && q != p ==> !HoldsTail(s.pcs[q]))
  {
    hide Inv, Granted, HoldsFree, HoldsData, HoldsTail, ChainClash;
    if Waits(s.pcs[p]) && (s.pcs[p].ScanWait? || !s.pcs[p].at.Wait?) {
      hide Waits;
      forall q | 0 <= q < |s.pcs| && q != p
        ensures Clash(|s.d.im.heads|, Locked(s.pcs[p]), s.pcs[q]) <==> Needs(s.pcs[p], s.pcs[q])
      {
        NoClash(s, p, q);
        NeedsOne(|s.d.im.heads|, s.pcs[p], s.pcs[q]);
      }
      GrantedIs(s, p);
    }
  }

  ghost predicate Needs(pc: Pc, other: Pc) {
    if pc.ScanWait? then HoldsFree(other)
    else if pc.Busy? && (pc.at.DelWait? || pc.at.FreeWait?) then HoldsFree(other) || other.Scanning?
    else if pc.Busy? && pc.at.DatWait? then HoldsData(other)
    else pc.Busy? && pc.at.TailWait? && HoldsTail(other)
  }

  lemma NeedsOne(nhash: nat, pc: Pc, other: Pc)
    requires nhash > 0 && (pc.ScanWait? || (pc.Busy? && (pc.at.DelWait? || pc.at.FreeWait? || pc.at.DatWait? || pc.at.TailWait?)))
    requires !Clash(nhash, pc, other)
    ensures Clash(nhash, Locked(pc), other) <==> Needs(pc, other)
  {
    hide Hash;
  }

  lemma GrantedIs(s: Sys, p: nat)
    requires |s.d.im.heads| > 0 && p < |s.pcs| && Active(s.pcs[p])
    requires forall q :: 0 <= q < |s.pcs| && q != p ==>
      (Clash(|s.d.im.heads|, Locked(s.pcs[p]), s.pcs[q]) <==> Needs(s.pcs[p], s.pcs[q]))
    ensures CanStep(s, p) <==> forall q :: 0 <= q < |s.pcs| && q != p ==> !Needs(s.pcs[p], s.pcs[q])
  {
    hide Clash, Needs, Active;
  }

  // ---------- When a store appends ----------

  /** A record a store could use again. */
  predicate OfLengths(r: Rec, op: Op) {
    op.StoreOp? && |r.key| == |op.key| && r.datlen == |op.data| + 1
  }

  /** None of the first n free records can be used for the call. */
  ghost predicate NoneOfFirst(d: Disk, op: Op, n: int) {
    forall j :: 0 <= j < n && j < |d.ls.freel| && d.ls.freel[j] in d.im.recs ==> !OfLengths(d.im.recs[d.ls.freel[j]], op)
  }

  /** A walk along the free list passes no record it could use, and gives up only behind the last. */
  ghost predicate Sought(d: Disk, pc: Pc) {
    && (pc.Busy? && pc.at.FreeLook? ==> NoneOfFirst(d, pc.op, pc.at.pos))
    && (pc.Busy? && pc.at.FreeNone? ==> NoneOfFirst(d, pc.op, |d.ls.freel|))
  }

  lemma OwnSought(s: Sys, p: nat)
    requires Inv(s) && p < |s.pcs| && s.pcs[p].Busy? && |s.d.im.heads| > 0 && Sought(s.d, s.pcs[p])
    ensures |Advance(s, p).pcs| == |s.pcs| && Sought(Advance(s, p).d, Advance(s, p).pcs[p])
  {
    hide Inv, Advance, Sought;
    var at := s.pcs[p].at;
    if at.FreeLook? {
      WalkKnows(s, p);
      FreePlace(s, p);
      LookSought(s, p);
    } else if at.FreeHead? {
      HeadSought(s, p);
    } else {
      ElsewhereSought(s, p);
    }
  }

  lemma FreePlace(s: Sys, p: nat)
    requires Inv(s) && p < |s.pcs| && s.pcs[p].Busy? && s.pcs[p].at.FreeLook?
    ensures var at := s.pcs[p].at;
      if at.off == 0 then at.pos >= |s.d.ls.freel| else at.pos < |s.d.ls.freel| && s.d.ls.freel[at.pos] == at.off
  {
    hide Inv, DiskOk, View, Hash, ExtentsOk, Tiled, ChainOk, HomesOk, LocOk, Threaded, Ready;
    PcOkAt(s, p);
    DiskOfInv(s);
    ViewFacts(s.d);
    var at := s.pcs[p].at;
    if at.pos < |s.d.ls.freel| {
      OnFreeList(View(s.d), s.d.ls, at.pos);
    }
  }

  lemma LookSought(s: Sys, p: nat)
    requires p < |s.pcs| && s.pcs[p].Busy? && s.pcs[p].at.FreeLook? && |s.d.im.heads| > 0 && s.pcs[p].op.StoreOp?
    requires Sought(s.d, s.pcs[p])
    requires var at := s.pcs[p].at;
      if at.off == 0 then at.pos >= |s.d.ls.freel|
      else at.pos < |s.d.ls.freel| && s.d.ls.freel[at.pos] == at.off && at.off in s.d.im.recs
    ensures |Advance(s, p).pcs| == |s.pcs| && Sought(Advance(s, p).d, Advance(s, p).pcs[p])
  {
    hide Hash, Apply;
  }

  lemma HeadSought(s: Sys, p: nat)
    requires p < |s.pcs| && s.pcs[p].Busy? && s.pcs[p].at.FreeHead? && |s.d.im.heads| > 0
    ensures |Advance(s, p).pcs| == |s.pcs| && Sought(Advance(s, p).d, Advance(s, p).pcs[p])
  {
    hide Hash, Apply;
  }

  lemma ElsewhereSought(s: Sys, p: nat)
    requires p < |s.pcs| && s.pcs[p].Busy? && |s.d.im.heads| > 0 && !s.pcs[p].at.FreeLook? && !s.pcs[p].at.FreeHead?
    ensures |Advance(s, p).pcs| == |s.pcs| && Sought(Advance(s, p).d, Advance(s, p).pcs[p])
  {
    hide NoneOfFirst;
    if s.pcs[p].at.TailWrite? || s.pcs[p].at.Link? || s.pcs[p].at.Release? {
      LastSteps(s, p);
    } else {
      hide Advance;
      MostAreOrdinary(s, p);
    }
  }

  lemma LastSteps(s: Sys, p: nat)
    requires p < |s.pcs| && s.pcs[p].Busy? && |s.d.im.heads| > 0
    requires s.pcs[p].at.TailWrite? || s.pcs[p].at.Link? || s.pcs[p].at.Release?
    ensures |Advance(s, p).pcs| == |s.pcs|
    ensures Advance(s, p).pcs[p].Busy? ==> !Advance(s, p).pcs[p].at.FreeLook? && !Advance(s, p).pcs[p].at.FreeNone?
  {
    hide Hash, Entry, Linked, Apply;
  }

  /** Another process at work: it cannot touch the free list, and no record changes its lengths. */
  lemma OthersSought(s: Sys, q: nat, pc: Pc, idx: string)
    requires Inv(s) && q < |s.pcs| && s.pcs[q].Busy? && |s.d.im.heads| > 0 && Holds(s.d.im, idx)
    requires !Clash(|s.d.im.heads|, pc, s.pcs[q]) && Sought(s.d, pc)
    ensures Sought(Advance(s, q).d, pc)
  {
    hide Inv, Advance, Holds, Clash, Hash, NoneOfFirst, KeepsLists, SameShape;
    if HoldsFree(pc) {
      ListsWritten(s, q);
      FreeStays(s.d, Advance(s, q).d, pc, s.pcs[q]);
      CallShape(s, q, idx);
      if pc.at.FreeLook? {
        SameLengths(s, Advance(s, q).d, pc.op, pc.at.pos);
      } else if pc.at.FreeNone? {
        SameLengths(s, Advance(s, q).d, pc.op, |s.d.ls.freel|);
      }
    }
  }

  lemma FreeStays(d: Disk, d': Disk, pc: Pc, other: Pc)
    requires |d.im.heads| > 0 && other.Busy? && !Clash(|d.im.heads|, pc, other) && KeepsLists(d, d', other) && HoldsFree(pc)
    ensures d'.ls.freel == d.ls.freel
  {
    hide Hash;
  }

  lemma SameLengths(s: Sys, d': Disk, op: Op, n: int)
    requires SameShape(s.d.im, d'.im) && d'.ls.freel == s.d.ls.freel && NoneOfFirst(s.d, op, n) && Inv(s)
    ensures NoneOfFirst(d', op, n)
  {
    hide Inv, DiskOk, View, Rec.Size, Hash, ExtentsOk, Tiled, ChainOk, HomesOk, LocOk, Threaded;
    DiskOfInv(s);
    ViewFacts(s.d);
    forall j | 0 <= j < n && j < |d'.ls.freel| && d'.ls.freel[j] in d'.im.recs
      ensures !OfLengths(d'.im.recs[d'.ls.freel[j]], op)
    {
      OnFreeList(View(s.d), s.d.ls, j);
      assert SameRec(s.d.im.recs[s.d.ls.freel[j]], d'.im.recs[s.d.ls.freel[j]]);
    }
  }

  /** So it is in every state of every run. */
  lemma {:induction false} RunSought(r: Run, idx: string, n: nat, p: nat)
    requires IsRun(r) && Holds(r.states[0].d.im, idx) && n <= |r.pids| && p < |r.states[n].pcs|
    ensures Sought(r.states[n].d, r.states[n].pcs[p])
  {
    hide Init, Inv, Step, Holds, Sought, FileAfter;
    if n == 0 {
      StartsIdle(r.states[0], p);
      IdleSought(r.states[0].d, r.states[0].pcs[p]);
    } else {
      var s, q, s' := r.states[n - 1], r.pids[n - 1], r.states[n];
      RunInv(r, n - 1);
      RunBytes(r, idx, n - 1);
      assert StepsAt(r, n - 1);
      OthersStay(s, q, s', p);
      RunSought(r, idx, n - 1, p);
      StepSought(s, q, s', p, FileAfter(r, idx, n - 1));
    }
  }

  lemma IdleSought(d: Disk, pc: Pc)
    requires !pc.Busy? || pc.at.Wait?
    ensures Sought(d, pc)
  {
  }

  lemma StepSought(s: Sys, q: nat, s': Sys, p: nat, idx: string)
    requires Inv(s) && |s.d.im.heads| > 0 && Step(s, q, s') && Holds(s.d.im, idx)
    requires p < |s.pcs| == |s'.pcs| && q < |s.pcs| && (p != q ==> s'.pcs[p] == s.pcs[p]) && Sought(s.d, s.pcs[p])
    ensures Sought(s'.d, s'.pcs[p])
  {
    hide Inv, Holds, Sought, Hash, Granted, Reaches, Advance;
    if s.pcs[q].Busy? {
      if p == q {
        OwnSought(s, p);
      } else {
        NoClash(s, p, q);
        OthersSought(s, q, s.pcs[p], idx);
      }
    } else {
      IdleStep(s, q, s');
      if p == q {
        NewlyBusy(s, p, s');
        IdleSought(s'.d, s'.pcs[p]);
      }
    }
  }

  lemma NewlyBusy(s: Sys, p: nat, s': Sys)
    requires |s.d.im.heads| > 0 && Step(s, p, s') && !s.pcs[p].Busy? && p < |s'.pcs|
    ensures !s'.pcs[p].Busy? || s'.pcs[p].at.Wait?
  {
    hide Hash, Granted, Reaches;
  }

  /** A store of a new key that goes on to append has found every free record of other lengths. */
  lemma AppendsOnlyWhenNoneFits(r: Run, idx: string, n: nat, p: nat, o: nat)
    requires IsRun(r) && Holds(r.states[0].d.im, idx) && n <= |r.pids| && p < |r.states[n].pcs|
    requires r.states[n].pcs[p].Busy? && r.states[n].pcs[p].at.FreeNone? && o in r.states[n].d.ls.freel
    ensures o in r.states[n].d.im.recs && !OfLengths(r.states[n].d.im.recs[o], r.states[n].pcs[p].op)
  {
    hide Init, Inv, Holds, DiskOk, View, Hash, ExtentsOk, Tiled, ChainOk, HomesOk, LocOk, Threaded, StepsAt;
    RunSought(r, idx, n, p);
    RunInv(r, n);
    var s := r.states[n];
    DiskOfInv(s);
    ViewFacts(s.d);
    var j :| 0 <= j < |s.d.ls.freel| && s.d.ls.freel[j] == o;
    OnFreeList(View(s.d), s.d.ls, j);
  }
}
