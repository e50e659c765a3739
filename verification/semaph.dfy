/**
 The reference-counted semaphore of lib/semaph.c: a System V set of three members, of which
 [0] is the semaphore, [1] counts the attached processes down from BIGCOUNT, and [2] is a
 lock. The kernel undoes what a process did to a member when the process exits, at any point.

 A state holds the set that is there under the key, if any, and N processes; every step is
 one system call of one process, or its exit.
 */
module Semaph {
  import opened Basics

  const BIGCOUNT: nat := 10000

  // ---------- The kernel ----------

  datatype SemBuf = SemBuf(num: nat, op: int, undo: bool)

  /** Values of the members, and the adjustments the kernel keeps for one process. */
  datatype Vals = Vals(v: seq<int>, adj: seq<int>)

  predicate Three(s: seq<int>) {
    |s| == 3
  }

  /** One operation of an array: None when it cannot be done now. */
  function One(x: Vals, b: SemBuf): (r: Option<Vals>)
    requires Three(x.v) && Three(x.adj) && b.num < 3
    ensures r.Some? ==> Three(r.value.v) && Three(r.value.adj)
  {
    if b.op == 0 then
      if x.v[b.num] != 0 then None else Some(x)
    else if x.v[b.num] + b.op < 0 then None
    else
      Some(Vals(x.v[b.num := x.v[b.num] + b.op],
                if b.undo then x.adj[b.num := x.adj[b.num] - b.op] else x.adj))
  }

  /** semop: all operations of the array or none; None when the caller has to wait. */
  function SemOp(x: Vals, ops: seq<SemBuf>): (r: Option<Vals>)
    requires Three(x.v) && Three(x.adj)
    requires forall i :: 0 <= i < |ops| ==> ops[i].num < 3
    ensures r.Some? ==> Three(r.value.v) && Three(r.value.adj)
    decreases |ops|
  {
    if ops == [] then Some(x)
    else
      match One(x, ops[0])
      case None => None
      case Some(y) => SemOp(y, ops[1..])
  }

  // The operation arrays of the source.
  const OP_LOCK: seq<SemBuf> := [SemBuf(2, 0, false), SemBuf(2, 1, true)]
  const OP_ENDCREATE: seq<SemBuf> := [SemBuf(1, -1, true), SemBuf(2, -1, true)]
  const OP_OPEN: seq<SemBuf> := [SemBuf(1, -1, true)]
  const OP_CLOSE: seq<SemBuf> := [SemBuf(2, 0, false), SemBuf(2, 1, true), SemBuf(1, 1, true)]
  const OP_UNLOCK: seq<SemBuf> := [SemBuf(2, -1, true)]

  function OpOp(value: int): seq<SemBuf> {
    [SemBuf(0, value, true)]
  }

  // ---------- States ----------

  datatype Pc =
    | Out                           // in none of the calls
    | Gone                          // exited
    | CreateGet(init: int)          // sem_create: semget with IPC_CREAT
    | CreateLock(init: int, id: nat)
    | CreateRead(init: int, id: nat)
    | CreateSet0(init: int, id: nat)
    | CreateSet1(init: int, id: nat)
    | CreateEnd(init: int, id: nat)
    | OpenGet                       // sem_open: semget
    | OpenDec(id: nat)
    | CloseLock(id: nat)            // sem_close
    | CloseRead(id: nat)
    | CloseRm(id: nat)
    | CloseUnlock(id: nat)
    | OpWait(id: nat, amount: int)  // sem_op, sem_wait, sem_signal

  /** One process; attached counts its creates and opens of the present set not yet closed. */
  datatype Proc = Proc(pc: Pc, attached: nat, adj: seq<int>)

  /**
   The set under the key. ready: [1] has been set to BIGCOUNT. late: somebody attached through
   sem_open since a sem_close last found the counter full.
   */
  datatype SemSet = NoSet | Set(id: nat, v: seq<int>, ready: bool, late: bool)

  /** opens says whether processes use sem_open at all. */
  datatype Sys = Sys(set_: SemSet, next: nat, ps: seq<Proc>, opens: bool)

  const Zeros: seq<int> := [0, 0, 0]

  /** The total of a number that each process has. */
  function Total(ps: seq<Proc>, f: Proc -> int): int {
    if ps == [] then 0 else Total(ps[..|ps| - 1], f) + f(ps[|ps| - 1])
  }

  /** IPC_RMID and SETVAL drop the adjustments all processes have for the member concerned. */
  function ClearAll(ps: seq<Proc>): seq<Proc> {
    seq(|ps|, i requires 0 <= i < |ps| => ps[i].(attached := 0, adj := Zeros))
  }

  function ClearAdj(ps: seq<Proc>, num: nat): seq<Proc>
    requires num < 3 && forall i :: 0 <= i < |ps| ==> Three(ps[i].adj)
  {
    seq(|ps|, i requires 0 <= i < |ps| && Three(ps[i].adj) => ps[i].(adj := ps[i].adj[num := 0]))
  }

  predicate Fits(s: Sys) {
    && (s.set_.Set? ==> Three(s.set_.v))
    && forall i :: 0 <= i < |s.ps| ==> Three(s.ps[i].adj)
  }

  predicate Current(s: Sys, id: nat) {
    s.set_.Set? && s.set_.id == id
  }

  function Goto(s: Sys, p: nat, pc: Pc): Sys
    requires p < |s.ps|
  {
    s.(ps := s.ps[p := s.ps[p].(pc := pc)])
  }

  /** A semop by p: None while p has to wait. */
  function Operate(s: Sys, p: nat, ops: seq<SemBuf>, attach: int, pc: Pc): Option<Sys>
    requires p < |s.ps| && Fits(s) && s.set_.Set? && s.ps[p].attached + attach >= 0
    requires forall i :: 0 <= i < |ops| ==> ops[i].num < 3
  {
    match SemOp(Vals(s.set_.v, s.ps[p].adj), ops)
    case None => None
    case Some(x) =>
      Some(s.(set_ := s.set_.(v := x.v), ps := s.ps[p := Proc(pc, s.ps[p].attached + attach, x.adj)]))
  }

  // ---------- Steps ----------

  /** The next system call of p; None while it waits, and when it is in no call. */
  function Advance(s: Sys, p: nat): Option<Sys>
    requires p < |s.ps| && Fits(s)
  {
    match s.ps[p].pc
    case Out => None
    case Gone => None
    case CreateGet(init) =>
      if s.set_.Set? then Some(Goto(s, p, CreateLock(init, s.set_.id)))
      else Some(Goto(s, p, CreateLock(init, s.next)).(set_ := Set(s.next, Zeros, false, false), next := s.next + 1))
    case CreateLock(init, id) =>
      // EINVAL: goto again. A process that slept here while the set was removed gets EIDRM and
      // ends instead: an exit, which Step allows at any point.
      if !Current(s, id) then Some(Goto(s, p, CreateGet(init)))
      else Operate(s, p, OP_LOCK, 0, CreateRead(init, id))
    case CreateRead(init, id) =>
      if !Current(s, id) then Some(Exited(s, p))
      else Some(Goto(s, p, if s.set_.v[1] == 0 then CreateSet0(init, id) else CreateEnd(init, id)))
    case CreateSet0(init, id) =>
      if !Current(s, id) then Some(Exited(s, p))
      else Some(Goto(s.(set_ := s.set_.(v := s.set_.v[0 := init]), ps := ClearAdj(s.ps, 0)), p, CreateSet1(init, id)))
    case CreateSet1(init, id) =>
      if !Current(s, id) then Some(Exited(s, p))
      else Some(Goto(s.(set_ := s.set_.(v := s.set_.v[1 := BIGCOUNT], ready := true), ps := ClearAdj(s.ps, 1)), p,
                     CreateEnd(init, id)))
    case CreateEnd(init, id) =>
      if !Current(s, id) then Some(Exited(s, p)) else Operate(s, p, OP_ENDCREATE, 1, Out)
    case OpenGet =>
      if s.set_.Set? then Some(Goto(s, p, OpenDec(s.set_.id))) else Some(Goto(s, p, Out))
    case OpenDec(id) =>
      if !Current(s, id) then Some(Exited(s, p))
      else Operate(s.(set_ := s.set_.(late := true)), p, OP_OPEN, 1, Out)
    case CloseLock(id) =>
      if !Current(s, id) || s.ps[p].attached == 0 then Some(Exited(s, p))
      else Operate(s, p, OP_CLOSE, -1, CloseRead(id))
    case CloseRead(id) =>
      if !Current(s, id) || s.set_.v[1] > BIGCOUNT then Some(Exited(s, p))
      else if s.set_.v[1] == BIGCOUNT then Some(Goto(s.(set_ := s.set_.(late := false)), p, CloseRm(id)))
      else Some(Goto(s, p, CloseUnlock(id)))
    case CloseRm(id) =>
      if !Current(s, id) then Some(Exited(s, p))
      else Some(Goto(s.(set_ := NoSet, ps := ClearAll(s.ps)), p, Out))
    case CloseUnlock(id) =>
      if !Current(s, id) then Some(Exited(s, p)) else Operate(s, p, OP_UNLOCK, 0, Out)
    case OpWait(id, amount) =>
      if !Current(s, id) then Some(Exited(s, p)) else Operate(s, p, OpOp(amount), 0, Out)
  }

  /** The kernel applies the adjustments of an exiting process; no member falls below 0. */
  function Undone(v: seq<int>, adj: seq<int>): seq<int>
    requires Three(v) && Three(adj)
  {
    seq(3, i requires 0 <= i < 3 => if v[i] + adj[i] < 0 then 0 else v[i] + adj[i])
  }

  /** Process p exits: by itself, by err_sys or err_dump, or killed. */
  function Exited(s: Sys, p: nat): Sys
    requires p < |s.ps| && Fits(s)
  {
    s.(set_ := if s.set_.Set? then s.set_.(v := Undone(s.set_.v, s.ps[p].adj)) else NoSet,
       ps := s.ps[p := Proc(Gone, 0, Zeros)])
  }

  /** One step of p: a call begins, goes on, or the process exits. */
  ghost predicate Step(s: Sys, p: nat, s': Sys) {
    && p < |s.ps| && Fits(s) && !s.ps[p].pc.Gone?
    && (|| s' == Exited(s, p)
        || Advance(s, p) == Some(s')
        || (s.ps[p].pc.Out? && Begins(s, p, s')))
  }

  /** The calls a process may make: sem_close and sem_op only of a semaphore it is attached to. */
  ghost predicate Begins(s: Sys, p: nat, s': Sys)
    requires p < |s.ps|
  {
    || (exists init :: init >= 0 && s' == Goto(s, p, CreateGet(init)))
    || (s.opens && s' == Goto(s, p, OpenGet))
    || (s.set_.Set? && s.ps[p].attached > 0 && s' == Goto(s, p, CloseLock(s.set_.id)))
    || (exists amount :: s.set_.Set? && s.ps[p].attached > 0 && amount != 0 && s' == Goto(s, p, OpWait(s.set_.id, amount)))
  }

  ghost predicate Init(s: Sys) {
    && s.set_.NoSet?
    && forall i :: 0 <= i < |s.ps| ==> s.ps[i] == Proc(Out, 0, Zeros)
  }

  // ---------- What the arrays do ----------

  lemma First(x: Vals, b: SemBuf, rest: seq<SemBuf>)
    requires Three(x.v) && Three(x.adj) && b.num < 3 && forall i :: 0 <= i < |rest| ==> rest[i].num < 3
    ensures SemOp(x, [b] + rest) == match One(x, b) case None => None case Some(y) => SemOp(y, rest)
  {
    hide One;
    assert ([b] + rest)[1..] == rest;
  }

  lemma Last(x: Vals, b: SemBuf)
    requires Three(x.v) && Three(x.adj) && b.num < 3
    ensures SemOp(x, [b]) == One(x, b)
  {
    hide One;
    assert [b] + [] == [b];
    First(x, b, []);
  }

  lemma LockArray(x: Vals)
    requires Three(x.v) && Three(x.adj)
    ensures SemOp(x, OP_LOCK) ==
      if x.v[2] == 0 then Some(Vals(x.v[2 := 1], x.adj[2 := x.adj[2] - 1])) else None
  {
    hide SemOp;
    var b, c := SemBuf(2, 0, false), SemBuf(2, 1, true);
    assert OP_LOCK == [b] + [c];
    First(x, b, [c]);
    if x.v[2] == 0 {
      Last(x, c);
    }
  }

  lemma EndCreateArray(x: Vals)
    requires Three(x.v) && Three(x.adj)
    ensures SemOp(x, OP_ENDCREATE) ==
      if x.v[1] >= 1 && x.v[2] >= 1 then
        Some(Vals(x.v[1 := x.v[1] - 1][2 := x.v[2] - 1], x.adj[1 := x.adj[1] + 1][2 := x.adj[2] + 1]))
      else None
  {
    hide SemOp;
    var b, c := SemBuf(1, -1, true), SemBuf(2, -1, true);
    assert OP_ENDCREATE == [b] + [c];
    First(x, b, [c]);
    if x.v[1] >= 1 {
      Last(One(x, b).value, c);
    }
  }

  lemma OpenArray(x: Vals)
    requires Three(x.v) && Three(x.adj)
    ensures SemOp(x, OP_OPEN) ==
      if x.v[1] >= 1 then Some(Vals(x.v[1 := x.v[1] - 1], x.adj[1 := x.adj[1] + 1])) else None
  {
    hide SemOp;
    Last(x, SemBuf(1, -1, true));
  }

  lemma CloseArray(x: Vals)
    requires Three(x.v) && Three(x.adj) && x.v[1] >= 0
    ensures SemOp(x, OP_CLOSE) ==
      if x.v[2] == 0 then
        Some(Vals(x.v[2 := 1][1 := x.v[1] + 1], x.adj[2 := x.adj[2] - 1][1 := x.adj[1] - 1]))
      else None
  {
    hide SemOp;
    var b, c, d := SemBuf(2, 0, false), SemBuf(2, 1, true), SemBuf(1, 1, true);
    assert OP_CLOSE == [b] + ([c] + [d]);
    First(x, b, [c] + [d]);
    if x.v[2] == 0 {
      First(x, c, [d]);
      Last(One(x, c).value, d);
    }
  }

  lemma UnlockArray(x: Vals)
    requires Three(x.v) && Three(x.adj)
    ensures SemOp(x, OP_UNLOCK) ==
      if x.v[2] >= 1 then Some(Vals(x.v[2 := x.v[2] - 1], x.adj[2 := x.adj[2] + 1])) else None
  {
    hide SemOp;
    Last(x, SemBuf(2, -1, true));
  }

  lemma OpArray(x: Vals, value: int)
    requires Three(x.v) && Three(x.adj) && value != 0
    ensures SemOp(x, OpOp(value)) ==
      if x.v[0] + value >= 0 then Some(Vals(x.v[0 := x.v[0] + value], x.adj[0 := x.adj[0] - value])) else None
  {
    hide SemOp;
    Last(x, SemBuf(0, value, true));
  }

  // ---------- The invariant ----------

  /** The process holds the lock [2] of set id. */
  predicate Holds(pc: Pc, id: nat) {
    match pc
    case CreateRead(_, i) => i == id
    case CreateSet0(_, i) => i == id
    case CreateSet1(_, i) => i == id
    case CreateEnd(_, i) => i == id
    case CloseRead(i) => i == id
    case CloseRm(i) => i == id
    case CloseUnlock(i) => i == id
    case _ => false
  }

  /** No call refers to a set that does not exist yet. */
  predicate IdBelow(pc: Pc, next: nat) {
    match pc
    case CreateLock(_, i) => i < next
    case CreateRead(_, i) => i < next
    case CreateSet0(_, i) => i < next
    case CreateSet1(_, i) => i < next
    case CreateEnd(_, i) => i < next
    case OpenDec(i) => i < next
    case CloseLock(i) => i < next
    case CloseRead(i) => i < next
    case CloseRm(i) => i < next
    case CloseUnlock(i) => i < next
    case OpWait(i, _) => i < next
    case _ => true
  }

  /** A process with the lock refers to the set that is there. */
  predicate HoldsCurrent(s: Sys, pc: Pc) {
    match pc
    case CreateRead(_, i) => Current(s, i)
    case CreateSet0(_, i) => Current(s, i)
    case CreateSet1(_, i) => Current(s, i)
    case CreateEnd(_, i) => Current(s, i)
    case CloseRead(i) => Current(s, i)
    case CloseRm(i) => Current(s, i)
    case CloseUnlock(i) => Current(s, i)
    case _ => true
  }

  /** semctl takes no negative value. */
  predicate InitOk(pc: Pc) {
    match pc
    case CreateGet(init) => init >= 0
    case CreateLock(init, _) => init >= 0
    case CreateRead(init, _) => init >= 0
    case CreateSet0(init, _) => init >= 0
    case CreateSet1(init, _) => init >= 0
    case CreateEnd(init, _) => init >= 0
    case _ => true
  }

  const Attached: Proc -> int := (x: Proc) => x.attached

  function Users(s: Sys): int {
    Total(s.ps, Attached)
  }

  /** What the step a process is about to take relies on. */
  ghost predicate PcOk(s: Sys, x: Proc) {
    && Three(x.adj) && IdBelow(x.pc, s.next) && HoldsCurrent(s, x.pc) && InitOk(x.pc)
    && match x.pc
       case OpenGet => s.opens
       case OpenDec(_) => s.opens
       case CreateSet0(_, _) => s.set_.Set? && !s.set_.ready
       case CreateSet1(init, _) => s.set_.Set? && !s.set_.ready && Three(s.set_.v) && s.set_.v[0] == init
       case CreateEnd(_, _) => s.set_.Set? && s.set_.ready
       case CloseRead(_) => s.set_.Set? && s.set_.ready
       case CloseRm(_) => s.set_.Set? && s.set_.ready && (Users(s) > 0 ==> s.set_.late) && (s.set_.late ==> s.opens)
       case CloseUnlock(_) => s.set_.Set? && s.set_.ready
       case CloseLock(id) => Current(s, id) ==> x.attached > 0
       case OpWait(id, amount) => amount != 0 && (Current(s, id) ==> x.attached > 0)
       case _ => true
  }

  /**
   The adjustments of a process: what it attached and not closed, and the lock if it has it;
   nothing before anybody could attach, and nothing when there is no set.
   */
  ghost predicate AdjOk(s: Sys, x: Proc)
    requires Three(x.adj)
  {
    match s.set_
    case NoSet => x.attached == 0 && x.adj == Zeros
    case Set(id, _, ready, _) =>
      && x.adj[1] == x.attached
      && x.adj[2] == (if Holds(x.pc, id) then -1 else 0)
      && (!ready ==> x.attached == 0 && x.adj[0] == 0)
  }

  ghost predicate SetOk(s: Sys) {
    s.set_.Set? ==>
      && s.set_.id < s.next && Three(s.set_.v)
      && s.set_.v[1] + Users(s) == (if s.set_.ready then BIGCOUNT else 0)
      && s.set_.v[0] >= 0 && s.set_.v[1] >= 0
      && (s.set_.v[2] == 0 || s.set_.v[2] == 1)
      && (forall p :: 0 <= p < |s.ps| && Holds(s.ps[p].pc, s.set_.id) ==> s.set_.v[2] == 1)
      && (s.set_.v[2] == 1 ==> exists p :: 0 <= p < |s.ps| && Holds(s.ps[p].pc, s.set_.id))
      && (forall p, q :: 0 <= p < |s.ps| && 0 <= q < |s.ps| && p != q ==>
            !(Holds(s.ps[p].pc, s.set_.id) && Holds(s.ps[q].pc, s.set_.id)))
  }

  ghost predicate Inv(s: Sys) {
    && (forall p :: 0 <= p < |s.ps| ==> PcOk(s, s.ps[p]) && AdjOk(s, s.ps[p]))
    && SetOk(s)
  }

  // ---------- Sums ----------

  lemma {:induction false} TotalUpdate(ps: seq<Proc>, p: nat, x: Proc, f: Proc -> int)
    requires p < |ps|
    ensures Total(ps[p := x], f) == Total(ps, f) - f(ps[p]) + f(x)
  {
    var n := |ps| - 1;
    if p == n {
      assert ps[p := x][..n] == ps[..n];
    } else {
      assert ps[p := x][..n] == ps[..n][p := x];
      TotalUpdate(ps[..n], p, x, f);
    }
  }

  lemma {:induction false} TotalSame(ps: seq<Proc>, ps': seq<Proc>, f: Proc -> int)
    requires |ps'| == |ps| && forall i :: 0 <= i < |ps| ==> f(ps'[i]) == f(ps[i])
    ensures Total(ps', f) == Total(ps, f)
  {
    if ps != [] {
      TotalSame(ps[..|ps| - 1], ps'[..|ps| - 1], f);
    }
  }

  lemma {:induction false} TotalAtLeast(ps: seq<Proc>, p: nat, f: Proc -> int)
    requires p < |ps| && forall i :: 0 <= i < |ps| ==> f(ps[i]) >= 0
    ensures 0 <= f(ps[p]) <= Total(ps, f)
  {
    if p < |ps| - 1 {
      TotalAtLeast(ps[..|ps| - 1], p, f);
    } else {
      TotalNonNegative(ps[..|ps| - 1], f);
    }
  }

  lemma {:induction false} TotalNonNegative(ps: seq<Proc>, f: Proc -> int)
    requires forall i :: 0 <= i < |ps| ==> f(ps[i]) >= 0
    ensures Total(ps, f) >= 0
  {
    if ps != [] {
      TotalNonNegative(ps[..|ps| - 1], f);
    }
  }

  lemma {:induction false} TotalZero(ps: seq<Proc>, f: Proc -> int)
    requires forall i :: 0 <= i < |ps| ==> f(ps[i]) == 0
    ensures Total(ps, f) == 0
  {
    if ps != [] {
      TotalZero(ps[..|ps| - 1], f);
    }
  }

  // ---------- Every step keeps the invariant ----------

  /** A step that changes the call of p only. */
  lemma GotoInv(s: Sys, p: nat, pc: Pc)
    requires Inv(s) && p < |s.ps|
    requires PcOk(s, s.ps[p].(pc := pc))
    requires s.set_.Set? ==> Holds(pc, s.set_.id) == Holds(s.ps[p].pc, s.set_.id)
    ensures Inv(Goto(s, p, pc))
  {
    hide Total, Users, Holds, AdjOk;
    var s' := Goto(s, p, pc);
    UsersAfter(s, p, s'.ps[p]);
    HoldersKept(s, p, s');
    forall q | 0 <= q < |s.ps|
      ensures PcOk(s', s'.ps[q]) && AdjOk(s', s'.ps[q])
    {
      assert PcOk(s, s.ps[q]) && AdjOk(s, s.ps[q]);
      GotoOther(s, p, pc, q);
    }
  }

  lemma GotoOther(s: Sys, p: nat, pc: Pc, q: nat)
    requires p < |s.ps| && q < |s.ps| && PcOk(s, s.ps[q]) && AdjOk(s, s.ps[q])
    requires PcOk(s, s.ps[p].(pc := pc))
    requires s.set_.Set? ==> Holds(pc, s.set_.id) == Holds(s.ps[p].pc, s.set_.id)
    requires Users(Goto(s, p, pc)) == Users(s)
    ensures PcOk(Goto(s, p, pc), Goto(s, p, pc).ps[q]) && AdjOk(Goto(s, p, pc), Goto(s, p, pc).ps[q])
  {
    hide Total, Users, Holds;
  }

  lemma UsersAfter(s: Sys, p: nat, x: Proc)
    requires p < |s.ps|
    ensures Users(s.(ps := s.ps[p := x])) == Users(s) - s.ps[p].attached + x.attached
  {
    TotalUpdate(s.ps, p, x, Attached);
  }

  /** Who holds the lock, when p goes on holding or not holding it. */
  lemma HoldersKept(s: Sys, p: nat, s': Sys)
    requires SetOk(s) && p < |s.ps| && |s'.ps| == |s.ps|
    requires s.set_.Set? && s'.set_.Set? ==> s'.set_.id == s.set_.id
    requires forall q :: 0 <= q < |s.ps| && q != p ==> s'.ps[q].pc == s.ps[q].pc
    requires s.set_.Set? ==> Holds(s'.ps[p].pc, s.set_.id) == Holds(s.ps[p].pc, s.set_.id)
    ensures s.set_.Set? && s'.set_.Set? ==>
      && ((exists q :: 0 <= q < |s'.ps| && Holds(s'.ps[q].pc, s.set_.id)) <==>
          (exists q :: 0 <= q < |s.ps| && Holds(s.ps[q].pc, s.set_.id)))
      && forall q :: 0 <= q < |s.ps| ==> Holds(s'.ps[q].pc, s.set_.id) == Holds(s.ps[q].pc, s.set_.id)
  {
    hide Holds, Total;
    if s.set_.Set? && s'.set_.Set? {
      var id := s.set_.id;
      forall q | 0 <= q < |s.ps|
        ensures Holds(s'.ps[q].pc, id) == Holds(s.ps[q].pc, id)
      {
        if q != p {
          assert s'.ps[q].pc == s.ps[q].pc;
        }
      }
    }
  }

  lemma UsersFacts(s: Sys)
    requires Inv(s)
    ensures Fits(s) && Users(s) >= 0
    ensures forall p :: 0 <= p < |s.ps| ==> Users(s) >= s.ps[p].attached
    ensures s.set_.NoSet? ==> Users(s) == 0
    ensures s.set_.Set? && s.set_.v[2] == 0 ==> forall p :: 0 <= p < |s.ps| ==> !Holds(s.ps[p].pc, s.set_.id)
  {
    hide Total, Holds;
    forall p: nat | p < |s.ps|
      ensures Users(s) >= s.ps[p].attached && Three(s.ps[p].adj)
    {
      TotalAtLeast(s.ps, p, Attached);
      assert PcOk(s, s.ps[p]) && AdjOk(s, s.ps[p]);
    }
    TotalNonNegative(s.ps, Attached);
    if s.set_.NoSet? {
      forall p: nat | p < |s.ps|
        ensures s.ps[p].attached == 0
      {
        assert AdjOk(s, s.ps[p]);
      }
      TotalZero(s.ps, Attached);
    }
  }

  /** A process that is not in possession of the lock does not mind what others do to the set. */
  lemma Bystander(s: Sys, s': Sys, x: Proc)
    requires s.set_.Set? && s'.set_.Set? && s'.set_.id == s.set_.id && s'.next == s.next && s'.opens == s.opens
    requires PcOk(s, x) && AdjOk(s, x) && !Holds(x.pc, s.set_.id)
    requires s'.set_.ready ==> s.set_.ready || (x.attached == 0 && x.adj[0] == 0)
    requires s.set_.ready ==> s'.set_.ready
    ensures PcOk(s', x) && AdjOk(s', x)
  {
    hide Total;
  }

  /** p changes, and nobody else holds the lock before or after. */
  lemma SoleHolderInv(s: Sys, p: nat, set': SemSet, x: Proc)
    requires Inv(s) && p < |s.ps| && s.set_.Set? && set'.Set? && set'.id == s.set_.id && set'.ready == s.set_.ready
    requires forall q :: 0 <= q < |s.ps| && q != p ==> !Holds(s.ps[q].pc, s.set_.id)
    requires Three(set'.v) && set'.v[0] >= 0 && set'.v[1] >= 0 && set'.v[2] == if Holds(x.pc, set'.id) then 1 else 0
    requires set'.v[1] + x.attached == s.set_.v[1] + s.ps[p].attached
    requires var s' := s.(set_ := set', ps := s.ps[p := x]); PcOk(s', x) && AdjOk(s', x)
    ensures Inv(s.(set_ := set', ps := s.ps[p := x]))
  {
    var s' := s.(set_ := set', ps := s.ps[p := x]);
    UsersAfter(s, p, x);
    hide Total, Users, Holds;
    assert Users(s') == Users(s) - s.ps[p].attached + x.attached by { UsersOfPs(s, s', p, x); }
    forall q | 0 <= q < |s.ps| && q != p
      ensures PcOk(s', s'.ps[q]) && AdjOk(s', s'.ps[q])
    {
      assert PcOk(s, s.ps[q]) && AdjOk(s, s.ps[q]);
      Bystander(s, s', s.ps[q]);
    }
    if set'.v[2] == 1 {
      assert Holds(s'.ps[p].pc, set'.id);
    }
  }

  lemma UsersOfPs(s: Sys, s': Sys, p: nat, x: Proc)
    requires p < |s.ps| && s'.ps == s.ps[p := x]
    ensures Users(s') == Users(s) - s.ps[p].attached + x.attached
  {
    TotalUpdate(s.ps, p, x, Attached);
  }

  lemma NoOtherHolder(s: Sys, p: nat)
    requires Inv(s) && p < |s.ps| && s.set_.Set? && Holds(s.ps[p].pc, s.set_.id)
    ensures forall q :: 0 <= q < |s.ps| && q != p ==> !Holds(s.ps[q].pc, s.set_.id)
    ensures s.set_.v[2] == 1
  {
    hide Total, Holds;
  }

  /** Taking the lock: sem_create and sem_close. */
  lemma LockInv(s: Sys, p: nat, s': Sys)
    requires Inv(s) && Fits(s) && p < |s.ps| && Advance(s, p) == Some(s')
    requires s.ps[p].pc.CreateLock? && Current(s, s.ps[p].pc.id)
    ensures Inv(s')
  {
    hide Total, Users;
    var x := s.ps[p];
    UsersFacts(s);
    assert PcOk(s, x) && AdjOk(s, x);
    LockArray(Vals(s.set_.v, x.adj));
    hide SemOp;
    var x' := Proc(CreateRead(x.pc.init, x.pc.id), x.attached, x.adj[2 := x.adj[2] - 1]);
    SoleHolderInv(s, p, s.set_.(v := s.set_.v[2 := 1]), x');
  }

  lemma CloseInv(s: Sys, p: nat, s': Sys)
    requires Inv(s) && Fits(s) && p < |s.ps| && Advance(s, p) == Some(s')
    requires s.ps[p].pc.CloseLock? && Current(s, s.ps[p].pc.id)
    ensures Inv(s')
  {
    hide Total, Users;
    var x := s.ps[p];
    UsersFacts(s);
    assert PcOk(s, x) && AdjOk(s, x);
    CloseArray(Vals(s.set_.v, x.adj));
    hide SemOp;
    var x' := Proc(CloseRead(x.pc.id), x.attached - 1, x.adj[2 := x.adj[2] - 1][1 := x.adj[1] - 1]);
    SoleHolderInv(s, p, s.set_.(v := s.set_.v[2 := 1][1 := s.set_.v[1] + 1]), x');
  }

  /** Giving the lock back, with or without attaching. */
  lemma EndInv(s: Sys, p: nat, s': Sys)
    requires Inv(s) && Fits(s) && p < |s.ps| && Advance(s, p) == Some(s') && s.ps[p].pc.CreateEnd?
    ensures Inv(s')
  {
    hide Total, Users;
    var x := s.ps[p];
    UsersFacts(s);
    assert PcOk(s, x) && AdjOk(s, x);
    NoOtherHolder(s, p);
    EndCreateArray(Vals(s.set_.v, x.adj));
    hide SemOp;
    var x' := Proc(Out, x.attached + 1, x.adj[1 := x.adj[1] + 1][2 := x.adj[2] + 1]);
    SoleHolderInv(s, p, s.set_.(v := s.set_.v[1 := s.set_.v[1] - 1][2 := s.set_.v[2] - 1]), x');
  }

  lemma UnlockInv(s: Sys, p: nat, s': Sys)
    requires Inv(s) && Fits(s) && p < |s.ps| && Advance(s, p) == Some(s') && s.ps[p].pc.CloseUnlock?
    ensures Inv(s')
  {
    hide Total, Users;
    var x := s.ps[p];
    UsersFacts(s);
    assert PcOk(s, x) && AdjOk(s, x);
    NoOtherHolder(s, p);
    UnlockArray(Vals(s.set_.v, x.adj));
    hide SemOp;
    var x' := Proc(Out, x.attached, x.adj[2 := x.adj[2] + 1]);
    SoleHolderInv(s, p, s.set_.(v := s.set_.v[2 := s.set_.v[2] - 1]), x');
  }

  /** A process without the lock changes the values, the set stays as ready as it was. */
  lemma FreeHandInv(s: Sys, p: nat, set': SemSet, x: Proc)
    requires Inv(s) && p < |s.ps| && s.set_.Set? && set'.Set? && set'.id == s.set_.id && set'.ready == s.set_.ready
    requires !Holds(s.ps[p].pc, s.set_.id) && !Holds(x.pc, s.set_.id)
    requires Three(set'.v) && set'.v[0] >= 0 && set'.v[1] >= 0 && set'.v[2] == s.set_.v[2]
    requires set'.v[0] == s.set_.v[0] || s.set_.ready
    requires set'.v[1] + x.attached == s.set_.v[1] + s.ps[p].attached
    requires (set'.late == s.set_.late && x.attached <= s.ps[p].attached) || (set'.late && s.opens)
    requires var s' := s.(set_ := set', ps := s.ps[p := x]); PcOk(s', x) && AdjOk(s', x)
    ensures Inv(s.(set_ := set', ps := s.ps[p := x]))
  {
    var s' := s.(set_ := set', ps := s.ps[p := x]);
    UsersOfPs(s, s', p, x);
    HoldersKept(s, p, s');
    hide Total, Users;
    forall q | 0 <= q < |s.ps| && q != p
      ensures PcOk(s', s'.ps[q]) && AdjOk(s', s'.ps[q])
    {
      assert PcOk(s, s.ps[q]) && AdjOk(s, s.ps[q]);
    }
    hide Holds;
  }

  lemma OpenInv(s: Sys, p: nat, s': Sys)
    requires Inv(s) && Fits(s) && p < |s.ps| && Advance(s, p) == Some(s')
    requires s.ps[p].pc.OpenDec? && Current(s, s.ps[p].pc.id)
    ensures Inv(s')
  {
    hide Total, Users;
    var x := s.ps[p];
    UsersFacts(s);
    assert PcOk(s, x) && AdjOk(s, x);
    OpenArray(Vals(s.set_.v, x.adj));
    hide SemOp;
    var x' := Proc(Out, x.attached + 1, x.adj[1 := x.adj[1] + 1]);
    FreeHandInv(s, p, s.set_.(v := s.set_.v[1 := s.set_.v[1] - 1], late := true), x');
  }

  lemma OpInv(s: Sys, p: nat, s': Sys)
    requires Inv(s) && Fits(s) && p < |s.ps| && Advance(s, p) == Some(s')
    requires s.ps[p].pc.OpWait? && Current(s, s.ps[p].pc.id)
    ensures Inv(s')
  {
    hide Total, Users;
    var x := s.ps[p];
    UsersFacts(s);
    assert PcOk(s, x) && AdjOk(s, x);
    OpArray(Vals(s.set_.v, x.adj), x.pc.amount);
    hide SemOp;
    var x' := Proc(Out, x.attached, x.adj[0 := x.adj[0] - x.pc.amount]);
    FreeHandInv(s, p, s.set_.(v := s.set_.v[0 := s.set_.v[0] + x.pc.amount]), x');
  }

  /** No process is attached while the set is not ready. */
  lemma NobodyYet(s: Sys)
    requires Inv(s) && s.set_.Set? && !s.set_.ready
    ensures Users(s) == 0 && s.set_.v[1] == 0
    ensures forall q :: 0 <= q < |s.ps| ==> s.ps[q].attached == 0 && Three(s.ps[q].adj) && s.ps[q].adj[0] == 0 && s.ps[q].adj[1] == 0
  {
    forall q | 0 <= q < |s.ps|
      ensures s.ps[q].attached == 0 && Three(s.ps[q].adj) && s.ps[q].adj[0] == 0 && s.ps[q].adj[1] == 0
    {
      assert PcOk(s, s.ps[q]) && AdjOk(s, s.ps[q]);
    }
    TotalZero(s.ps, Attached);
  }

  lemma ClearNothing(s: Sys, num: nat)
    requires num < 2 && Fits(s)
    requires forall q :: 0 <= q < |s.ps| ==> s.ps[q].adj[num] == 0
    ensures ClearAdj(s.ps, num) == s.ps
  {
    var ps := ClearAdj(s.ps, num);
    forall q | 0 <= q < |s.ps|
      ensures ps[q] == s.ps[q]
    {
      assert s.ps[q].adj[num := 0] == s.ps[q].adj;
    }
  }

  lemma Set0Inv(s: Sys, p: nat, s': Sys)
    requires Inv(s) && Fits(s) && p < |s.ps| && Advance(s, p) == Some(s') && s.ps[p].pc.CreateSet0?
    ensures Inv(s')
    ensures |s'.ps| == |s.ps| && forall q :: 0 <= q < |s.ps| ==> s'.ps[q].adj == s.ps[q].adj
  {
    hide Total, Users, ClearAdj;
    var x := s.ps[p];
    UsersFacts(s);
    assert PcOk(s, x) && AdjOk(s, x);
    NobodyYet(s);
    ClearNothing(s, 0);
    NoOtherHolder(s, p);
    var x' := x.(pc := CreateSet1(x.pc.init, x.pc.id));
    SoleHolderInv(s, p, s.set_.(v := s.set_.v[0 := x.pc.init]), x');
  }

  lemma Set1Inv(s: Sys, p: nat, s': Sys)
    requires Inv(s) && Fits(s) && p < |s.ps| && Advance(s, p) == Some(s') && s.ps[p].pc.CreateSet1?
    ensures Inv(s')
    ensures |s'.ps| == |s.ps| && forall q :: 0 <= q < |s.ps| ==> s'.ps[q].adj == s.ps[q].adj
  {
    var x := s.ps[p];
    UsersFacts(s);
    assert PcOk(s, x) && AdjOk(s, x);
    NobodyYet(s);
    ClearNothing(s, 1);
    NoOtherHolder(s, p);
    var x' := x.(pc := CreateEnd(x.pc.init, x.pc.id));
    UsersOfPs(s, s', p, x');
    HoldersKept(s, p, s');
    hide Total, Users;
    assert s'.ps[p] == x';
    forall q | 0 <= q < |s.ps| && q != p
      ensures PcOk(s', s'.ps[q]) && AdjOk(s', s'.ps[q])
    {
      assert PcOk(s, s.ps[q]) && AdjOk(s, s.ps[q]);
      Bystander(s, s', s.ps[q]);
    }
  }

  lemma RmInv(s: Sys, p: nat, s': Sys)
    requires Inv(s) && Fits(s) && p < |s.ps| && Advance(s, p) == Some(s') && s.ps[p].pc.CloseRm?
    ensures Inv(s')
  {
    assert PcOk(s, s.ps[p]);
    NoOtherHolder(s, p);
    hide Total, Users;
    forall q | 0 <= q < |s.ps|
      ensures PcOk(s', s'.ps[q]) && AdjOk(s', s'.ps[q])
    {
      assert PcOk(s, s.ps[q]) && AdjOk(s, s.ps[q]);
    }
  }

  lemma GetInv(s: Sys, p: nat, s': Sys)
    requires Inv(s) && Fits(s) && p < |s.ps| && Advance(s, p) == Some(s') && s.ps[p].pc.CreateGet?
    ensures Inv(s')
  {
    assert PcOk(s, s.ps[p]) && AdjOk(s, s.ps[p]);
    if s.set_.Set? {
      GotoInv(s, p, CreateLock(s.ps[p].pc.init, s.set_.id));
    } else {
      UsersFacts(s);
      UsersOfPs(s, s', p, s'.ps[p]);
      hide Total, Users;
      forall q | 0 <= q < |s.ps|
        ensures PcOk(s', s'.ps[q]) && AdjOk(s', s'.ps[q]) && !Holds(s'.ps[q].pc, s.next)
      {
        assert PcOk(s, s.ps[q]) && AdjOk(s, s.ps[q]);
      }
    }
  }

  /** A process may exit at any point: the kernel puts back what it took. */
  lemma ExitInv(s: Sys, p: nat)
    requires Inv(s) && Fits(s) && p < |s.ps|
    ensures Inv(Exited(s, p))
  {
    hide Total, Users;
    var s', x := Exited(s, p), s.ps[p];
    UsersFacts(s);
    assert PcOk(s, x) && AdjOk(s, x);
    UsersOfPs(s, s', p, s'.ps[p]);
    if s.set_.Set? {
      var v := Undone(s.set_.v, x.adj);
      assert v[1] == s.set_.v[1] + x.attached;
      if Holds(x.pc, s.set_.id) {
        NoOtherHolder(s, p);
        SoleHolderInv(s, p, s.set_.(v := v), Proc(Gone, 0, Zeros));
      } else {
        FreeHandInv(s, p, s.set_.(v := v), Proc(Gone, 0, Zeros));
      }
    } else {
      forall q | 0 <= q < |s.ps|
        ensures PcOk(s', s'.ps[q]) && AdjOk(s', s'.ps[q])
      {
        assert PcOk(s, s.ps[q]) && AdjOk(s, s.ps[q]);
      }
    }
  }

  lemma ReadInv(s: Sys, p: nat, s': Sys)
    requires Inv(s) && Fits(s) && p < |s.ps| && Advance(s, p) == Some(s')
    requires s.ps[p].pc.CreateRead? && Users(s) < BIGCOUNT
    ensures Inv(s')
  {
    hide Total, Users;
    var x := s.ps[p];
    assert PcOk(s, x) && AdjOk(s, x);
    UsersFacts(s);
    GotoInv(s, p, if s.set_.v[1] == 0 then CreateSet0(x.pc.init, x.pc.id) else CreateEnd(x.pc.init, x.pc.id));
  }

  lemma CloseReadInv(s: Sys, p: nat, s': Sys)
    requires Inv(s) && Fits(s) && p < |s.ps| && Advance(s, p) == Some(s') && s.ps[p].pc.CloseRead?
    ensures Inv(s')
  {
    hide Total, Users;
    var x := s.ps[p];
    assert PcOk(s, x) && AdjOk(s, x);
    UsersFacts(s);
    NoOtherHolder(s, p);
    if s.set_.v[1] == BIGCOUNT {
      var x' := x.(pc := CloseRm(x.pc.id));
      var s1 := s.(set_ := s.set_.(late := false), ps := s.ps[p := x']);
      UsersOfPs(s, s1, p, x');
      SoleHolderInv(s, p, s.set_.(late := false), x');
    } else {
      GotoInv(s, p, CloseUnlock(x.pc.id));
    }
  }

  lemma AdvanceInv(s: Sys, p: nat, s': Sys)
    requires Inv(s) && Fits(s) && p < |s.ps| && Advance(s, p) == Some(s')
    requires s.ps[p].pc.CreateRead? ==> Users(s) < BIGCOUNT
    ensures Inv(s')
  {
    hide Total, Users, SemOp, Undone, ClearAll, ClearAdj;
    var x := s.ps[p];
    assert PcOk(s, x) && AdjOk(s, x);
    match x.pc
    case CreateGet(init) => GetInv(s, p, s');
    case CreateLock(init, id) =>
      if Current(s, id) {
        LockInv(s, p, s');
      } else {
        GotoInv(s, p, CreateGet(init));
      }
    case CreateRead(_, _) => ReadInv(s, p, s');
    case CreateSet0(_, _) => Set0Inv(s, p, s');
    case CreateSet1(_, _) => Set1Inv(s, p, s');
    case CreateEnd(_, _) => EndInv(s, p, s');
    case OpenGet => GotoInv(s, p, if s.set_.Set? then OpenDec(s.set_.id) else Out);
    case OpenDec(id) =>
      if Current(s, id) {
        OpenInv(s, p, s');
      } else {
        ExitInv(s, p);
      }
    case CloseLock(id) =>
      if Current(s, id) {
        CloseInv(s, p, s');
      } else {
        ExitInv(s, p);
      }
    case CloseRead(_) => CloseReadInv(s, p, s');
    case CloseRm(_) => RmInv(s, p, s');
    case CloseUnlock(_) => UnlockInv(s, p, s');
    case OpWait(id, _) =>
      if Current(s, id) {
        OpInv(s, p, s');
      } else {
        ExitInv(s, p);
      }
    case _ =>
  }

  /** Every step keeps the invariant, but for a sem_create that reads [1] while BIGCOUNT users have it at 0. */
  lemma StepInv(s: Sys, p: nat, s': Sys)
    requires Inv(s) && Step(s, p, s')
    requires s.ps[p].pc.CreateRead? ==> Users(s) < BIGCOUNT
    ensures Inv(s')
  {
    hide Total, Users, SemOp, Undone, Advance, Exited;
    if s' == Exited(s, p) {
      ExitInv(s, p);
    } else if Advance(s, p) == Some(s') {
      AdvanceInv(s, p, s');
    } else {
      assert PcOk(s, s.ps[p]);
      BeginsGoto(s, p, s');
      GotoInv(s, p, s'.ps[p].pc);
    }
  }

  lemma BeginsGoto(s: Sys, p: nat, s': Sys)
    requires Inv(s) && p < |s.ps| && s.ps[p].pc.Out? && Begins(s, p, s')
    ensures |s'.ps| == |s.ps| && s' == Goto(s, p, s'.ps[p].pc)
    ensures PcOk(s, s.ps[p].(pc := s'.ps[p].pc))
    ensures s.set_.Set? ==> !Holds(s'.ps[p].pc, s.set_.id)
  {
    hide Total, Users;
    assert PcOk(s, s.ps[p]);
  }
}
