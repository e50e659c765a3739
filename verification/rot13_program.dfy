/**
 advio/rot13c2.c, the program: NBUF buffers, each going round from unused to a pending read
 to a pending write, a scan over all of them, and a wait for whatever completes next.
 */
module Rot13Program {
  import opened Basics
  import opened Rot13
  import opened Rot13Async

  // ---------- Counting ----------

  function Busy(s: seq<Buf>): nat {
    if s == [] then 0 else Busy(s[..|s| - 1]) + if s[|s| - 1].op.Unused? then 0 else 1
  }

  function Steps(op: RwOp): nat {
    match op case Unused => 0 case WritePending => 1 case ReadPending => 2
  }

  /** Steps the program still has to take for the buffers. */
  function Work(s: seq<Buf>): nat {
    if s == [] then 0 else Work(s[..|s| - 1]) + Steps(s[|s| - 1].op)
  }

  lemma {:induction false} OneChanged(s: seq<Buf>, i: nat, b: Buf)
    requires i < |s|
    ensures Busy(s[i := b]) == Busy(s) + (if b.op.Unused? then 0 else 1) - (if s[i].op.Unused? then 0 else 1)
    ensures Work(s[i := b]) == Work(s) + Steps(b.op) - Steps(s[i].op)
  {
    var n := |s| - 1;
    if i < n {
      OneChanged(s[..n], i, b);
      assert s[i := b][..n] == s[..n][i := b];
    } else {
      assert s[i := b][..n] == s[..n];
    }
  }

  lemma {:induction false} NoneBusy(s: seq<Buf>)
    ensures Busy(s) == 0 <==> forall i :: 0 <= i < |s| ==> s[i].op.Unused?
    ensures Work(s) == 0 <==> Busy(s) == 0
  {
    if s != [] {
      NoneBusy(s[..|s| - 1]);
      assert s == s[..|s| - 1] + [s[|s| - 1]];
    }
  }

  /** What the kernel may have done meanwhile: requests in progress may have completed. */
  ghost predicate Later(s: seq<Buf>, s': seq<Buf>) {
    && |s'| == |s|
    && forall i :: 0 <= i < |s| ==>
         || s'[i] == s[i]
         || (s[i].aiocb.req.InProgress? && s'[i].aiocb.req.Complete? && s'[i].op == s[i].op && s'[i].last == s[i].last)
  }

  lemma {:induction false} LaterCounts(s: seq<Buf>, s': seq<Buf>)
    requires Later(s, s')
    ensures Busy(s') == Busy(s) && Work(s') == Work(s)
  {
    if s != [] {
      LaterCounts(s[..|s| - 1], s'[..|s| - 1]);
    }
  }

  class Program {
    const input: seq<byte>
    const k: Kernel
    var output: seq<byte>
    const bufs: array<Buf>
    const listed: array<bool>               // aiolist[i] != NULL
    var off: nat
    var numop: int
    ghost var readLog: seq<nat>             // offsets of the reads issued
    ghost var writeLog: seq<nat>            // offsets of the writes issued
    ghost var got: map<nat, nat>            // bytes that the read of a block gave
    ghost var holder: map<nat, nat>         // the buffer that has a block

    ghost function F(): Files
      reads this
    {
      Files(input, k, output, off, got, holder)
    }

    ghost predicate Valid()
      reads this, bufs, listed
    {
      && bufs.Length == NBUF == listed.Length
      && Ok(F(), bufs[..])
      && (forall i :: 0 <= i < NBUF ==> (listed[i] <==> !bufs[i].op.Unused?))
      && numop == Busy(bufs[..])
      && LogsOk(readLog, writeLog, got, off)
    }

    /** Bytes not yet asked for, and steps to take for the buffers. */
    ghost function Measure(): nat
      reads this, bufs
    {
      3 * (if off < |input| then |input| - off else 0) + Work(bufs[..])
    }

    constructor (file: seq<byte>, k: Kernel)
      requires Possible(file, k)
      ensures Valid() && input == file && this.k == k && fresh(bufs) && fresh(listed)
      ensures off == 0 && numop == 0
    {
      input, this.k := file, k;
      output := [];
      bufs := new Buf[NBUF](_ => Buf(Unused, false, Aiocb(0, 0, Unqueued), seq(BSZ, _ => 0)));
      listed := new bool[NBUF](_ => false);
      off, numop := 0, 0;
      readLog, writeLog, got, holder := [], [], map[], map[];
      new;
      NoneBusy(bufs[..]);
    }

    // ---------- The kernel ----------

    /** Some read in progress completes, with what the kernel gives for its block. */
    method FinishRead(i: nat)
      requires Valid() && i < NBUF && bufs[i].op.ReadPending? && bufs[i].aiocb.req.InProgress?
      modifies bufs
      ensures Valid() && Later(old(bufs[..]), bufs[..]) && bufs[i].aiocb.req.Complete?
    {
      hide Ok, LogsOk, BlockOf, Avail, Busy;
      ghost var f, s := F(), bufs[..];
      BufOf(f, s, i);
      var b := bufs[i];
      var o := b.aiocb.offset;
      var ret := k.rd(o);
      ReadBounds(f, s, i);
      if ret >= 0 {
        b := b.(data := input[o..o + ret] + b.data[ret..]);
      }
      b := b.(aiocb := b.aiocb.(req := Complete(ret)));
      FinishReadKeeps(f, s, i, b);
      bufs[i] := b;
      assert bufs[..] == s[i := b];
      LaterCounts(s, bufs[..]);
    }

    /** Some write in progress completes, with what the kernel takes of its block. */
    method FinishWrite(i: nat)
      requires Valid() && i < NBUF && bufs[i].op.WritePending? && bufs[i].aiocb.req.InProgress?
      modifies this`output, bufs
      ensures Valid() && Later(old(bufs[..]), bufs[..]) && bufs[i].aiocb.req.Complete?
    {
      hide Ok, LogsOk, BlockOf, WriteAt, Busy;
      ghost var f, s := F(), bufs[..];
      BufOf(f, s, i);
      var b := bufs[i];
      var ret := k.wr(b.aiocb.offset);
      WriteBounds(f, s, i);
      b := b.(aiocb := b.aiocb.(req := Complete(ret)));
      if ret >= 0 {
        output := WriteAt(output, b.aiocb.offset, b.data[..ret]);
      }
      FinishWriteKeeps(f, s, i, ret, F(), b);
      bufs[i] := b;
      assert bufs[..] == s[i := b];
      LaterCounts(s, bufs[..]);
    }

    method Finish(i: nat)
      requires Valid() && i < NBUF && bufs[i].aiocb.req.InProgress?
      modifies this`output, bufs
      ensures Valid() && Later(old(bufs[..]), bufs[..]) && bufs[i].aiocb.req.Complete?
    {
      hide Ok, LogsOk, Busy;
      BufOf(F(), bufs[..], i);
      if bufs[i].op.ReadPending? {
        FinishRead(i);
      } else {
        FinishWrite(i);
      }
    }

    /** Between any two steps of the program any requests may complete, in any order. */
    method Progress()
      requires Valid()
      modifies this`output, bufs
      ensures Valid() && Later(old(bufs[..]), bufs[..])
    {
      hide Ok, LogsOk, Busy;
      var n: nat := *;
      while n > 0
        invariant Valid() && Later(old(bufs[..]), bufs[..])
      {
        var i: int := *;
        if 0 <= i < NBUF && bufs[i].aiocb.req.InProgress? {
          Finish(i);
        }
        n := n - 1;
      }
    }

    /** aio_suspend: returns when a listed request is complete. */
    method Suspend()
      requires Valid() && numop > 0
      modifies this`output, bufs
      ensures Valid() && Later(old(bufs[..]), bufs[..])
      ensures exists i :: 0 <= i < NBUF && bufs[i].aiocb.req.Complete?
    {
      hide LogsOk, Busy, BlockOk, BufOk, EndOk;
      Progress();
      LaterCounts(old(bufs[..]), bufs[..]);
      NoneBusy(bufs[..]);
      var i := 0;
      var waits := NBUF;
      while i < NBUF && !(listed[i] && bufs[i].aiocb.req.Complete?)
        modifies {}
        invariant 0 <= i <= NBUF && 0 <= waits <= NBUF
        invariant forall k :: 0 <= k < i && listed[k] ==> !bufs[k].aiocb.req.Complete?
        invariant waits == NBUF ==> forall k :: 0 <= k < i ==> !listed[k]
        invariant waits < NBUF ==> listed[waits] && !bufs[waits].aiocb.req.Complete?
      {
        if listed[i] {
          waits := i;
        }
        i := i + 1;
      }
      if i == NBUF {
        BusyOf(F(), bufs[..], waits);
        Finish(waits);
      }
    }

    // ---------- The program ----------

    /** UNUSED: read the next block if more of the input remains. */
    method ReadNext(i: nat)
      requires Valid() && i < NBUF && bufs[i].op.Unused?
      modifies this`off, this`numop, this`holder, this`readLog, bufs, listed
      ensures Valid() && forall k :: 0 <= k < NBUF && k != i ==> bufs[k] == old(bufs[k])
      ensures if old(off) < |input| then Measure() < old(Measure()) else Measure() == old(Measure())
    {
      hide Ok, LogsOk, Busy, Work;
      if off < |input| {
        ghost var f, s, w := F(), bufs[..], writeLog;
        var b := bufs[i].(op := ReadPending);
        b := b.(aiocb := b.aiocb.(offset := off));
        readLog, holder := readLog + [off], holder[off := i];
        off := off + BSZ;
        if off >= |input| {
          b := b.(last := true);
        }
        b := b.(aiocb := b.aiocb.(nbytes := BSZ));
        b := b.(aiocb := b.aiocb.(req := InProgress));
        bufs[i] := b;
        listed[i] := true;
        numop := numop + 1;
        assert bufs[..] == s[i := b];
        StartReadKeeps(f, s, i, F(), b);
        OneChanged(s, i, b);
        ReadLogged(f.off, readLog[..|readLog| - 1], writeLog, got);
      }
    }

    /** READ_PENDING, the read being complete: translate the buffer and write it. */
    method ReadDone(i: nat, n: nat) returns (ok: bool)
      requires Valid() && i < NBUF && bufs[i].op.ReadPending? && bufs[i].aiocb.req == Complete(n)
      modifies this`got, this`writeLog, bufs
      ensures Valid() && forall k :: 0 <= k < NBUF && k != i ==> bufs[k] == old(bufs[k])
      ensures if ok then Measure() < old(Measure()) else !AllPass(input, k)
    {
      hide Ok, LogsOk, Busy, Work;
      ghost var f, s, o := F(), bufs[..], bufs[i].aiocb.offset;
      if n != BSZ && !bufs[i].last {
        ReadStops(f, s, i);
        return false;
      }
      ReadLength(f, s, i);
      var j := 0;
      while j < n
        modifies bufs
        invariant 0 <= j <= n && |bufs[i].data| == |s[i].data| && bufs[..] == s[i := s[i].(data := bufs[i].data)]
        invariant forall k :: 0 <= k < j ==> bufs[i].data[k] == Translate(s[i].data[k])
        invariant forall k :: j <= k < |s[i].data| ==> bufs[i].data[k] == s[i].data[k]
      {
        bufs[i] := bufs[i].(data := bufs[i].data[j := Translate(bufs[i].data[j])]);
        j := j + 1;
      }
      var b := bufs[i].(op := WritePending);
      b := b.(aiocb := b.aiocb.(nbytes := n));
      b := b.(aiocb := b.aiocb.(req := InProgress));
      bufs[i] := b;
      writeLog, got := writeLog + [o], got[o := n];
      assert bufs[..] == s[i := b];
      StartWriteKeeps(f, s, i, n, F(), b);
      OneChanged(s, i, b);
      WriteLogged(off, readLog, writeLog[..|writeLog| - 1], f.got, o, n);
      ok := true;
    }

    /** WRITE_PENDING, the write being complete: the buffer is free again. */
    method WriteDone(i: nat, n: nat) returns (ok: bool)
      requires Valid() && i < NBUF && bufs[i].op.WritePending? && bufs[i].aiocb.req == Complete(n)
      modifies this`numop, this`holder, bufs, listed
      ensures Valid() && forall k :: 0 <= k < NBUF && k != i ==> bufs[k] == old(bufs[k])
      ensures if ok then Measure() < old(Measure()) else !AllPass(input, k)
    {
      hide Ok, LogsOk, Busy, Work;
      ghost var f, s := F(), bufs[..];
      if n != bufs[i].aiocb.nbytes {
        WriteStops(f, s, i);
        return false;
      }
      listed[i] := false;
      holder := holder - {bufs[i].aiocb.offset};
      var b := bufs[i].(op := Unused);
      b := b.(aiocb := b.aiocb.(req := Unqueued));
      bufs[i] := b;
      numop := numop - 1;
      assert bufs[..] == s[i := b];
      RetireKeeps(f, s, i, F(), b);
      OneChanged(s, i, b);
      ok := true;
    }

    /** One turn of the switch. */
    method Serve(i: nat) returns (ok: bool)
      requires Valid() && i < NBUF
      modifies this`output, this`off, this`numop, this`holder, this`readLog, this`got, this`writeLog, bufs, listed
      ensures Valid() && if ok then Measure() <= old(Measure()) else !AllPass(input, k)
      ensures ok && (old(bufs[i].aiocb.req.Complete?) || (old(bufs[i].op.Unused?) && old(off) < |input|)) ==>
        Measure() < old(Measure())
      ensures forall k :: 0 <= k < NBUF && k != i && old(bufs[k].aiocb.req.Complete?) ==> bufs[k] == old(bufs[k])
    {
      hide Ok, LogsOk, Busy, Work;
      BufOf(F(), bufs[..], i);
      Progress();
      LaterCounts(old(bufs[..]), bufs[..]);
      BufOf(F(), bufs[..], i);
      match bufs[i].op {
        case Unused =>
          ReadNext(i);
          ok := true;
        case ReadPending =>
          if bufs[i].aiocb.req.InProgress? {
            return true;
          }
          var n := bufs[i].aiocb.req.ret;
          if n < 0 {
            ReadStops(F(), bufs[..], i);
            return false;
          }
          ok := ReadDone(i, n);
        case WritePending =>
          if bufs[i].aiocb.req.InProgress? {
            return true;
          }
          var n := bufs[i].aiocb.req.ret;
          if n < 0 {
            WriteStops(F(), bufs[..], i);
            return false;
          }
          ok := WriteDone(i, n);
      }
    }

    /** One pass over the buffers. It gets somewhere if a request was complete, or all buffers were free. */
    method Scan() returns (ok: bool)
      requires Valid()
      modifies this`output, this`off, this`numop, this`holder, this`readLog, this`got, this`writeLog, bufs, listed
      ensures Valid() && if ok then Measure() <= old(Measure()) else !AllPass(input, k)
      ensures ok && (exists k :: 0 <= k < NBUF && old(bufs[k].aiocb.req.Complete?)) ==> Measure() < old(Measure())
      ensures ok && old(numop) == 0 && old(off) < |input| ==> Measure() < old(Measure())
    {
      hide Ok, LogsOk, Busy, Work;
      NoneBusy(bufs[..]);
      var i := 0;
      while i < NBUF
        invariant 0 <= i <= NBUF && Valid() && Measure() <= old(Measure())
        invariant Measure() < old(Measure()) || forall k :: i <= k < NBUF && old(bufs[k].aiocb.req.Complete?) ==> bufs[k] == old(bufs[k])
        invariant Measure() < old(Measure()) || forall k :: 0 <= k < i ==> !old(bufs[k].aiocb.req.Complete?)
        invariant i == 0 ==> off == old(off) && forall k :: 0 <= k < NBUF ==> bufs[k] == old(bufs[k])
        invariant i > 0 && old(numop) == 0 && old(off) < |input| ==> Measure() < old(Measure())
      {
        ok := Serve(i);
        if !ok {
          return;
        }
        i := i + 1;
      }
      ok := true;
    }

    /** The main loop. It ends, whatever the order in which requests complete. */
    method Run() returns (ok: bool)
      requires Valid() && numop == 0
      modifies this`output, this`off, this`numop, this`holder, this`readLog, this`got, this`writeLog, bufs, listed
      ensures Valid() && if ok then numop == 0 && off >= |input| else !AllPass(input, k)
    {
      hide Ok, LogsOk, Busy, Work;
      while true
        invariant Valid()
        invariant numop == 0 || exists k :: 0 <= k < NBUF && bufs[k].aiocb.req.Complete?
        decreases Measure()
      {
        ghost var before := Measure();
        NoneBusy(bufs[..]);
        ok := Scan();
        if !ok {
          return;
        }
        NoneBusy(bufs[..]);
        if numop == 0 {
          if off >= |input| {
            return true;
          }
        } else {
          ghost var s := bufs[..];
          Suspend();
          LaterCounts(s, bufs[..]);
        }
      }
    }
  }

  /**
   The asynchronous program as a whole: what it does depends on what the kernel returns for each
   block and not on when. exit(0) means that the kernel passed every block, that every block was read
   once and its write issued once, and that the output is the translated input up to what the
   read of the last block gave.
   */
  method Asynchronous(file: seq<byte>, k: Kernel)
    returns (ok: bool, output: seq<byte>, ghost readLog: seq<nat>, ghost writeLog: seq<nat>)
    requires Possible(file, k)
    ensures ok <==> AllPass(file, k)
    ensures ok ==> 0 <= EndOf(file, k) <= |file| && output == TranslateAll(file[..EndOf(file, k)])
    ensures ok ==> (output == TranslateAll(file) <==> FullEnd(file, k))
    ensures forall i, j :: 0 <= i < j < |readLog| ==> readLog[i] != readLog[j]
    ensures forall i, j :: 0 <= i < j < |writeLog| ==> writeLog[i] != writeLog[j]
    ensures ok ==> forall o: nat :: (o in readLog <==> Aligned(o) && o < |file|) && (o in writeLog <==> o in readLog)
  {
    hide Ok, LogsOk, TranslateAll, BlockOf, Aligned, Possible, AllPass;
    var p := new Program(file, k);
    ok := p.Run();
    output, readLog, writeLog := p.output, p.readLog, p.writeLog;
    OnceEach(readLog, writeLog, p.got, p.off);
    if ok {
      NoneBusy(p.bufs[..]);
      Exits(p.F(), p.bufs[..], readLog, writeLog);
    }
  }

  /** The read of the last block gives all there is of it. */
  ghost predicate FullEnd(file: seq<byte>, k: Kernel) {
    file == [] || k.rd(LastBlock(file)) == Avail(|file|, LastBlock(file))
  }

  lemma OnceEach(readLog: seq<nat>, writeLog: seq<nat>, got: map<nat, nat>, off: nat)
    requires LogsOk(readLog, writeLog, got, off)
    ensures forall j, k :: 0 <= j < k < |readLog| ==> readLog[j] != readLog[k]
    ensures forall j, k :: 0 <= j < k < |writeLog| ==> writeLog[j] != writeLog[k]
  {
  }

  lemma Exits(f: Files, s: seq<Buf>, readLog: seq<nat>, writeLog: seq<nat>)
    requires Ok(f, s) && LogsOk(readLog, writeLog, f.got, f.off) && f.off >= |f.input|
    requires forall i :: 0 <= i < NBUF ==> s[i].op.Unused?
    ensures AllPass(f.input, f.k)
    ensures 0 <= EndOf(f.input, f.k) <= |f.input| && f.output == TranslateAll(f.input[..EndOf(f.input, f.k)])
    ensures f.output == TranslateAll(f.input) <==> FullEnd(f.input, f.k)
    ensures forall o: nat :: (o in readLog <==> Aligned(o) && o < |f.input|) && (o in writeLog <==> o in readLog)
  {
    hide Ok, LogsOk, BlockOf, Aligned, Avail, Translate;
    AllDone(f, s);
    LogsFull(f, s, readLog, writeLog);
    EndOfFull(f, s);
    if EndOf(f.input, f.k) == |f.input| {
      assert f.input[..|f.input|] == f.input;
    } else {
      assert |f.output| != |TranslateAll(f.input)|;
    }
  }

  lemma EndOfFull(f: Files, s: seq<Buf>)
    requires Ok(f, s)
    ensures EndOf(f.input, f.k) == |f.input| <==> FullEnd(f.input, f.k)
  {
    if f.input != [] {
      OneBlock(LastBlock(f.input), |f.input| - 1);
    }
  }

  /** The two programs write the same file exactly when the one reads to the end and the other gets all of the last block. */
  method Agree(file: seq<byte>, rd: nat -> int, wr: nat -> int, k: Kernel) returns (bothDone: bool, a: seq<byte>, b: seq<byte>)
    requires Possible(file, k)
    ensures bothDone ==> (a == b == TranslateAll(file) <==> FullEnd(file, k) && StopsAt(file, rd, 0) == |file|)
  {
    var ok, done;
    ghost var pos, readLog, writeLog;
    ok, a, pos := Synchronous(file, rd, wr);
    done, b, readLog, writeLog := Asynchronous(file, k);
    bothDone := ok && done;
  }

  /** With full transfers a second run over the output of the first gives the input back. */
  method Twice(file: seq<byte>, k: Kernel, k': Kernel) returns (ok: bool, output: seq<byte>)
    requires Possible(file, k) && FullEnd(file, k)
    requires Possible(TranslateAll(file), k') && FullEnd(TranslateAll(file), k')
    ensures ok <==> AllPass(file, k) && AllPass(TranslateAll(file), k')
    ensures ok ==> output == file
  {
    ghost var readLog, writeLog;
    ok, output, readLog, writeLog := Asynchronous(file, k);
    if ok {
      ok, output, readLog, writeLog := Asynchronous(output, k');
      TwiceIsIdentity(file);
    }
  }

  /** A file of the one letter a, of which the last read gives nothing: exit(0) and an empty output. */
  method ShortReadPasses() returns (ok: bool, output: seq<byte>)
    ensures ok && output == [] != TranslateAll([0x61])
  {
    var k := Kernel(_ => 0, _ => 0);
    ghost var readLog, writeLog;
    ok, output, readLog, writeLog := Asynchronous([0x61], k);
  }

  lemma LogsFull(f: Files, s: seq<Buf>, readLog: seq<nat>, writeLog: seq<nat>)
    requires Ok(f, s) && LogsOk(readLog, writeLog, f.got, f.off) && f.off >= |f.input|
    requires forall i :: 0 <= i < NBUF ==> s[i].op.Unused?
    ensures forall o: nat :: (o in readLog <==> Aligned(o) && o < |f.input|) && (o in writeLog <==> o in readLog)
  {
    hide Translate, BlockOf;
    forall o: nat
      ensures (o in readLog <==> Aligned(o) && o < |f.input|) && (o in writeLog <==> o in readLog)
    {
      assert BlockOk(f, s, o);
      WrittenIsGot(f);
      if Aligned(o) && o < |f.input| {
        assert readLog[o / BSZ] == o;
      }
      if o in readLog {
        var k :| 0 <= k < |readLog| && readLog[k] == o;
        BlocksApart(o, f.off);
      }
    }
  }

  lemma ReadLogged(off: nat, readLog: seq<nat>, writeLog: seq<nat>, got: map<nat, nat>)
    requires LogsOk(readLog, writeLog, got, off)
    ensures LogsOk(readLog + [off], writeLog, got, off + BSZ)
  {
  }

  lemma WriteLogged(off: nat, readLog: seq<nat>, writeLog: seq<nat>, got: map<nat, nat>, o: nat, n: nat)
    requires LogsOk(readLog, writeLog, got, off) && o !in got
    ensures LogsOk(readLog, writeLog + [o], got[o := n], off)
  {
  }

  lemma ReadLength(f: Files, s: seq<Buf>, i: nat)
    requires Ok(f, s) && i < NBUF && |s| == NBUF && s[i].op.ReadPending? && s[i].aiocb.req.Complete?
    ensures s[i].aiocb.req.ret <= BSZ == |s[i].data|
  {
    assert BufOk(f, s[i], i);
  }

  lemma ReadBounds(f: Files, s: seq<Buf>, i: nat)
    requires Ok(f, s) && i < NBUF && |s| == NBUF && s[i].op.ReadPending?
    ensures var o := s[i].aiocb.offset; -1 <= f.k.rd(o) <= BSZ && o + f.k.rd(o) <= |f.input|
  {
    assert BufOk(f, s[i], i);
    AvailWithin(|f.input|, s[i].aiocb.offset);
  }

  lemma WriteBounds(f: Files, s: seq<Buf>, i: nat)
    requires Ok(f, s) && i < NBUF && |s| == NBUF && s[i].op.WritePending?
    ensures -1 <= f.k.wr(s[i].aiocb.offset) <= s[i].aiocb.nbytes <= BSZ == |s[i].data|
  {
    assert BufOk(f, s[i], i);
    AvailWithin(|f.input|, s[i].aiocb.offset);
  }

  /** A failed or short read stops the program: the kernel did not pass the block. */
  lemma ReadStops(f: Files, s: seq<Buf>, i: nat)
    requires Ok(f, s) && i < NBUF && |s| == NBUF && s[i].op.ReadPending? && s[i].aiocb.req.Complete?
    requires s[i].aiocb.req.ret < 0 || (s[i].aiocb.req.ret != BSZ && !s[i].last)
    ensures !AllPass(f.input, f.k)
  {
    assert BufOk(f, s[i], i);
    assert !Passes(f.input, f.k, s[i].aiocb.offset);
  }

  lemma WriteStops(f: Files, s: seq<Buf>, i: nat)
    requires Ok(f, s) && i < NBUF && |s| == NBUF && s[i].op.WritePending? && s[i].aiocb.req.Complete?
    requires s[i].aiocb.req.ret != s[i].aiocb.nbytes
    ensures !AllPass(f.input, f.k)
  {
    assert BufOk(f, s[i], i);
    assert !Passes(f.input, f.k, s[i].aiocb.offset);
  }

  lemma BufOf(f: Files, s: seq<Buf>, i: nat)
    requires Ok(f, s) && i < NBUF
    ensures |s| == NBUF && |s[i].data| == BSZ
    ensures !s[i].op.Unused? ==> s[i].aiocb.offset < |f.input|
    ensures s[i].aiocb.req.Unqueued? <==> s[i].op.Unused?
    ensures s[i].op.WritePending? ==> s[i].aiocb.nbytes <= BSZ
  {
    assert BufOk(f, s[i], i);
  }

  lemma BusyOf(f: Files, s: seq<Buf>, i: nat)
    requires Ok(f, s) && i < NBUF && |s| == NBUF && !s[i].op.Unused? && !s[i].aiocb.req.Complete?
    ensures s[i].aiocb.req.InProgress?
  {
    assert BufOk(f, s[i], i);
  }
}
