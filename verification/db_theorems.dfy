/**
 What holds of whole runs of any number of processes at one database.
 */
module DbTheorems {
  import opened DbFormat
  import opened DbImage
  import opened DbLists
  import opened DbSteps
  import opened DbSpec
  import opened DbProcesses
  import opened DbInvariant
  import opened DbMoves
  import opened DbConcurrent
  import opened DbAtomic
  import DbScan

  /** A sound database with every record on a list, and no process in a call. */
  ghost predicate Init(s: Sys) {
    && s.d.pend.Settled? && 0 < |s.d.im.heads|
    && Tiled(s.d.im) && (forall h :: 0 <= h < |s.d.im.heads| ==> s.d.im.heads[h] <= PTR_MAX)
    && Sound(s.d.im, s.d.dat, s.d.ls) && DbScan.Settled(s.d.ls)
    && s.abs == Contents(s.d.im, s.d.dat, s.d.ls)
    && forall p :: 0 <= p < |s.pcs| ==> s.pcs[p].Idle?
  }

  /** Any number of processes may start at a fresh database of any number of chains. */
  lemma FreshIsInit(nhash: nat, n: nat)
    requires nhash > 0
    ensures Init(Sys(Disk(Image(0, seq(nhash, i => 0), map[], []), "", Lists(seq(nhash, i => []), [], map[], map[]), Settled),
                     map[], seq(n, i => Idle)))
  {
    hide Hash;
  }

  /** The states of a run, and the process that takes each step. */
  datatype Run = Run(states: seq<Sys>, pids: seq<nat>)

  ghost predicate IsRun(r: Run) {
    && |r.states| == |r.pids| + 1
    && Init(r.states[0])
    && forall i :: 0 <= i < |r.pids| ==> StepsAt(r, i)
  }

  ghost predicate StepsAt(r: Run, i: nat)
    requires i < |r.pids| && |r.states| == |r.pids| + 1
  {
    |r.states[i].d.im.heads| > 0 && Step(r.states[i], r.pids[i], r.states[i + 1])
  }

  lemma InitInv(s: Sys)
    requires Init(s)
    ensures Inv(s)
  {
    hide Hash, ChainOk, FreeOk, HomesOk, ExtentsOk, TextOk, Tiled;
    assert View(s.d) == s.d.im;
  }

  /** The invariant holds in every state of every run. */
  lemma {:induction false} RunInv(r: Run, i: nat)
    requires IsRun(r) && i < |r.states|
    ensures Inv(r.states[i])
  {
    hide Init, Inv, Step, Good;
    if i == 0 {
      InitInv(r.states[0]);
    } else {
      RunInv(r, i - 1);
      assert StepsAt(r, i - 1);
      StepGood(r.states[i - 1], r.pids[i - 1], r.states[i]);
      GoodInv(r.states[i - 1], r.pids[i - 1], r.states[i]);
    }
  }

  lemma GoodInv(s: Sys, p: nat, s': Sys)
    requires Good(s, p, s')
    ensures Inv(s') && p < |s.pcs| == |s'.pcs|
    ensures forall q :: 0 <= q < |s.pcs| && q != p ==> s'.pcs[q] == s.pcs[q]
    ensures Effect(s.abs, StatusOf(s.pcs[p]), s'.abs, StatusOf(s'.pcs[p]))
  {
    hide Inv;
  }

  // ---------- Atomicity ----------

  /**
   The call that takes effect in step i, if one does. A replace that is given up half-way
   has taken effect as the deletion of its key.
   */
  ghost function TakesEffect(r: Run, i: nat): seq<Op>
    requires i < |r.pids| && |r.states| == |r.pids| + 1
  {
    var p := r.pids[i];
    if p >= |r.states[i].pcs| || p >= |r.states[i + 1].pcs| then []
    else
      var st, st' := StatusOf(r.states[i].pcs[p]), StatusOf(r.states[i + 1].pcs[p]);
      if st.Called? && st'.Done? then [st.op]
      else if st.Called? && st'.Gone? && r.states[i + 1].abs != r.states[i].abs then [DeleteOp(st.op.key)]
      else []
  }

  /** The calls that take effect in the first n steps, in order. */
  ghost function History(r: Run, n: nat): seq<Op>
    requires n <= |r.pids| && |r.states| == |r.pids| + 1
  {
    if n == 0 then [] else History(r, n - 1) + TakesEffect(r, n - 1)
  }

  /** What a step does to the abstract map is what the call does that takes effect in it. */
  lemma StepExplained(r: Run, i: nat)
    requires IsRun(r) && i < |r.pids|
    ensures r.states[i + 1].abs == MapAfter(r.states[i].abs, TakesEffect(r, i)) && |TakesEffect(r, i)| <= 1
  {
    hide Init, Inv, Step, Good, StatusOf, Apply;
    var s, p, s' := r.states[i], r.pids[i], r.states[i + 1];
    RunInv(r, i);
    assert StepsAt(r, i);
    StepGood(s, p, s');
    GoodInv(s, p, s');
    hide Effect;
    var ops := TakesEffect(r, i);
    if ops == [] {
      EffectNone(s.abs, StatusOf(s.pcs[p]), s'.abs, StatusOf(s'.pcs[p]));
    } else {
      EffectOne(s.abs, StatusOf(s.pcs[p]), s'.abs, StatusOf(s'.pcs[p]), ops[0]);
      assert ops[..0] == [];
    }
  }

  lemma MapAfterMore(m: map<string, string>, ops: seq<Op>, more: seq<Op>)
    requires |more| <= 1
    ensures MapAfter(m, ops + more) == MapAfter(MapAfter(m, ops), more)
  {
    hide Apply;
    if more == [] {
      assert ops + more == ops;
    } else {
      assert (ops + more)[..|ops|] == ops && more[..0] == [];
    }
  }

  /** Step by step, the abstract map is what the calls of the history make of the first one. */
  lemma {:induction false} HistoryExplainsMap(r: Run, n: nat)
    requires IsRun(r) && n <= |r.pids|
    ensures r.states[n].abs == MapAfter(r.states[0].abs, History(r, n))
  {
    hide Init, StepsAt, TakesEffect, Apply;
    if n > 0 {
      HistoryExplainsMap(r, n - 1);
      StepExplained(r, n - 1);
      MapAfterMore(r.states[0].abs, History(r, n - 1), TakesEffect(r, n - 1));
    }
  }

  lemma EffectNone(m: map<string, string>, st: Status, m': map<string, string>, st': Status)
    requires Effect(m, st, m', st') && !(st.Called? && st'.Done?) && !(st.Called? && st'.Gone? && m' != m)
    ensures m' == m
  {
  }

  lemma EffectOne(m: map<string, string>, st: Status, m': map<string, string>, st': Status, op: Op)
    requires Effect(m, st, m', st')
    requires (st.Called? && st'.Done? && op == st.op) || (st.Called? && st'.Gone? && m' != m && op == DeleteOp(st.op.key))
    ensures m' == Apply(m, op).0
  {
  }

  /**
   Every call takes effect in a single step of its own, and what it answers is the answer
   of the map at that instant.
   */
  lemma CallsAreAtomic(r: Run, i: nat)
    requires IsRun(r) && i < |r.pids|
    ensures r.pids[i] < |r.states[i].pcs| == |r.states[i + 1].pcs|
    ensures var st, st' := StatusOf(r.states[i].pcs[r.pids[i]]), StatusOf(r.states[i + 1].pcs[r.pids[i]]);
      && (st.Called? && st'.Done? ==>
            st'.op == st.op && (r.states[i + 1].abs, st'.ans) == Apply(MapAfter(r.states[0].abs, History(r, i)), st.op))
      && (st.Done? && st'.Done? ==> st' == st)
      && (st.Called? && st'.Called? ==> st' == st)
      && (st.Done? ==> !st'.Called?)
      && (st.Out? ==> !st'.Done?)
      && (!st.Done? && st'.Out? ==> st.Out?)
  {
    hide Init, Inv, Step, Good, StatusOf, Apply;
    HistoryExplainsMap(r, i);
    RunInv(r, i);
    assert StepsAt(r, i);
    StepGood(r.states[i], r.pids[i], r.states[i + 1]);
    GoodInv(r.states[i], r.pids[i], r.states[i + 1]);
  }

  // ---------- Where the records are ----------

  ghost predicate OnChainOf(s: Sys, o: nat, h: nat) {
    h < |s.d.ls.chains| && o in s.d.ls.chains[h]
  }

  /**
   In every state each record of the index file is on exactly one chain, that of its hash, or
   on the free list, or it belongs to exactly one process.
   */
  lemma RecordsAccounted(s: Sys, o: nat)
    requires Inv(s) && o in s.d.im.recs
    ensures var held := exists p :: 0 <= p < |s.pcs| && HeldBy(s.pcs[p]) == Orphan(o);
      var free := o in s.d.ls.freel;
      var live := exists h: nat :: OnChainOf(s, o, h);
      && (held || free || live)
      && !(held && free) && !(held && live) && !(free && live)
    ensures forall g: nat, h: nat :: OnChainOf(s, o, g) && OnChainOf(s, o, h) ==> g == h
    ensures forall p, q :: 0 <= p < |s.pcs| && 0 <= q < |s.pcs| && HeldBy(s.pcs[p]) == Orphan(o) == HeldBy(s.pcs[q]) ==> p == q
  {
    hide LocksOk, AppendsApart, PendOwned, AbsOk, PcOk, Tiled, ListsOk, ExtentsOk, TextOk, Hash, View, HeldBy;
    ViewFacts(s.d);
    SoundParts(View(s.d), s.d.dat, s.d.ls);
    Partition(View(s.d), s.d.ls, o);
    forall p: nat | p < |s.pcs| && HeldBy(s.pcs[p]) == Orphan(o)
      ensures s.d.ls.home[o] == Held
    {
      PcOkAt(s, p);
      OwnerOwns(s.d, s.pcs[p]);
    }
    if s.d.ls.home[o] == Live {
      assert OnChainOf(s, o, Hash(View(s.d).recs[o].key, |View(s.d).heads|));
    } else if s.d.ls.home[o] == Held {
      assert Owner(s.pcs, o);
    }
  }

  /** The database between calls: what the files hold is a sound database for the abstract map. */
  lemma QuiescentIsSound(s: Sys)
    requires Inv(s)
    requires forall p :: 0 <= p < |s.pcs| ==> !s.pcs[p].Busy? && !(s.pcs[p].Dead? && s.pcs[p].orphan.Orphan?)
    ensures View(s.d) == s.d.im && Sound(s.d.im, s.d.dat, s.d.ls) && DbScan.Settled(s.d.ls)
    ensures Contents(s.d.im, s.d.dat, s.d.ls) == s.abs
  {
    hide LocksOk, AppendsApart, PcOk, Tiled, ListsOk, ExtentsOk, TextOk, Hash;
    assert s.d.pend.Settled?;
    assert forall o :: !Owner(s.pcs, o);
    assert forall k :: !Exempt(s.pcs, k);
    MeaningIs(s.d);
    SameMaps(s.abs, Meaning(s.d));
  }

  lemma SameMaps(m: map<string, string>, c: map<string, string>)
    requires forall k :: SameAt(m, c, k)
    ensures c == m
  {
    assert forall k :: k in c <==> k in m by {
      forall k
        ensures k in c <==> k in m
      {
        assert SameAt(m, c, k);
      }
    }
    forall k | k in c
      ensures c[k] == m[k]
    {
      assert SameAt(m, c, k);
    }
  }

  // ---------- Locks ----------

  /** Locks are taken in one order: a chain first, then one of the others, and no other after that. */
  lemma LockOrder(d: Disk, pc: Pc)
    requires DiskOk(d) && PcOk(d, pc)
    ensures HoldsFree(pc) || HoldsData(pc) || HoldsTail(pc) ==> HoldsChain(pc) && !pc.op.FetchOp?
    ensures Waits(pc) ==> !HoldsFree(pc) && !HoldsData(pc) && !HoldsTail(pc) && !pc.Scanning?
    ensures Waits(pc) && HoldsChain(pc) ==>
      !pc.op.FetchOp? && (HoldsFree(Locked(pc)) || HoldsData(Locked(pc)) || HoldsTail(Locked(pc)))
  {
    hide DiskOk, View, Hash, Owned, Located, Stands;
  }

  ghost predicate Active(pc: Pc) {
    pc.Busy? || pc.ScanWait? || pc.Scanning?
  }

  ghost predicate CanStep(s: Sys, p: nat)
    requires |s.d.im.heads| > 0 && p < |s.pcs|
  {
    Active(s.pcs[p]) && Granted(|s.d.im.heads|, s.pcs, p)
  }

  /** The next step inside a call is defined, and goes on. */
  ghost predicate GoesOn(s: Sys, p: nat)
    requires |s.d.im.heads| > 0 && p < |s.pcs|
  {
    s.pcs[p].Busy? ==> var s' := Advance(s, p); Step(s, p, s') && |s'.pcs| == |s.pcs| && s'.pcs[p] != s.pcs[p]
  }

  lemma NotWaitingCanStep(s: Sys, p: nat)
    requires Inv(s) && p < |s.pcs| && Active(s.pcs[p]) && !Waits(s.pcs[p])
    ensures |s.d.im.heads| > 0 && CanStep(s, p)
  {
    hide Inv, Clash;
    HeadsPositive(s);
    forall q | 0 <= q < |s.pcs| && q != p
      ensures !Clash(|s.d.im.heads|, Locked(s.pcs[p]), s.pcs[q])
    {
      NoClash(s, p, q);
    }
  }

  /** When all processes wait, whoever waits for more than a chain is let through. */
  lemma InnerCanStep(s: Sys, p: nat)
    requires Inv(s) && p < |s.pcs| && Waits(s.pcs[p]) && (HoldsChain(s.pcs[p]) || s.pcs[p].ScanWait?)
    requires forall q :: 0 <= q < |s.pcs| && Active(s.pcs[q]) ==> Waits(s.pcs[q])
    ensures |s.d.im.heads| > 0 && CanStep(s, p)
  {
    hide Inv, Hash, DiskOk, PcOk;
    HeadsPositive(s);
    DiskOfInv(s);
    forall q | 0 <= q < |s.pcs| && q != p
      ensures !Clash(|s.d.im.heads|, Locked(s.pcs[p]), s.pcs[q])
    {
      NoClash(s, p, q);
      PcOkAt(s, q);
      LockOrder(s.d, s.pcs[q]);
    }
  }

  lemma OuterCanStep(s: Sys, p: nat)
    requires Inv(s) && p < |s.pcs| && Waits(s.pcs[p]) && !HoldsChain(s.pcs[p]) && s.pcs[p].Busy?
    requires forall q :: 0 <= q < |s.pcs| ==> !HoldsChain(s.pcs[q])
    ensures |s.d.im.heads| > 0 && CanStep(s, p)
  {
    hide Inv, Hash;
    HeadsPositive(s);
  }

  /** As long as some call is under way, some process can take its next step. */
  lemma NoDeadlock(s: Sys) returns (p: nat)
    requires Inv(s)
    requires exists q :: 0 <= q < |s.pcs| && Active(s.pcs[q])
    ensures |s.d.im.heads| > 0 && p < |s.pcs| && CanStep(s, p) && GoesOn(s, p)
  {
    hide Inv, Hash, Granted, Advance, HoldsChain, Waits;
    HeadsPositive(s);
    if q: nat :| q < |s.pcs| && Active(s.pcs[q]) && !Waits(s.pcs[q]) {
      p := q;
      NotWaitingCanStep(s, p);
    } else if q: nat :| q < |s.pcs| && Waits(s.pcs[q]) && (HoldsChain(s.pcs[q]) || s.pcs[q].ScanWait?) {
      p := q;
      InnerCanStep(s, p);
    } else {
      p :| p < |s.pcs| && Active(s.pcs[p]);
      forall q | 0 <= q < |s.pcs|
        ensures !HoldsChain(s.pcs[q])
      {
        HoldsIsActive(s.pcs[q]);
      }
      assert s.pcs[p].Busy? by { ScanningIsNotWaiting(s.pcs[p]); }
      OuterCanStep(s, p);
    }
    if s.pcs[p].Busy? {
      AdvanceGood(s, p);
    }
  }

  lemma HoldsIsActive(pc: Pc)
    ensures HoldsChain(pc) ==> Active(pc)
  {
  }

  lemma ScanningIsNotWaiting(pc: Pc)
    requires Active(pc) && Waits(pc) && !pc.ScanWait?
    ensures pc.Busy?
  {
  }

  /** The three lock regions of the index file never overlap, whatever the size of the table. */
  lemma LockRegionsApart(nhash: nat, g: nat, h: nat)
    requires g < nhash && h < nhash
    ensures 0 < ChainOff(h) < Base(nhash)
    ensures ChainOff(g) == ChainOff(h) <==> g == h
  {
  }
}
