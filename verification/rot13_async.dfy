/**
 advio/rot13c2.c: the same translation with NBUF buffers in flight. Reads and writes complete
 in any order, at any time, with any result the interface allows.
 */
module Rot13Async {
  import opened Basics
  import opened Rot13

  const NBUF: nat := 8

  datatype RwOp = Unused | ReadPending | WritePending

  /** The kernel's view of a request: aio_error and aio_return. ret < 0 is a failure. */
  datatype Request = Unqueued | InProgress | Complete(ret: int)

  datatype Aiocb = Aiocb(offset: nat, nbytes: nat, req: Request)

  datatype Buf = Buf(op: RwOp, last: bool, aiocb: Aiocb, data: seq<byte>)

  // ---------- Blocks and offsets ----------

  predicate Aligned(o: int) {
    o % BSZ == 0
  }

  function BlockOf(x: nat): (o: nat)
    ensures Aligned(o) && o <= x < o + BSZ
  {
    x - x % BSZ
  }

  lemma OneBlock(o: nat, x: nat)
    requires Aligned(o) && o <= x < o + BSZ
    ensures BlockOf(x) == o
  {
  }

  lemma BlocksApart(a: nat, b: nat)
    requires Aligned(a) && Aligned(b) && a < b
    ensures a + BSZ <= b
  {
  }

  /** How much of a file of that size a read of a block can give. */
  function Avail(size: nat, o: nat): nat {
    if o >= size then 0 else if size - o < BSZ then size - o else BSZ
  }

  /** pwrite: behind the end of the file the gap is filled with zeros. */
  function WriteAt(f: seq<byte>, o: nat, d: seq<byte>): (r: seq<byte>)
    ensures |f| <= |r| == if d == [] || o + |d| <= |f| then |f| else o + |d|
    ensures d != [] ==> r[o..o + |d|] == d
    ensures forall x :: 0 <= x < |f| && !(o <= x < o + |d|) ==> r[x] == f[x]
  {
    if d == [] then f
    else if |f| <= o then f + seq(o - |f|, _ => 0) + d
    else f[..o] + d + (if o + |d| <= |f| then f[o + |d|..] else [])
  }

  // ---------- What the files and the logs hold ----------

  /** The block at o is in the output as far as it was read. */
  ghost predicate Written(input: seq<byte>, output: seq<byte>, got: map<nat, nat>, o: nat) {
    && o in got && (got[o] > 0 ==> o + got[o] <= |output| && o + got[o] <= |input|)
    && forall x :: o <= x < o + got[o] ==> output[x] == Translate(input[x])
  }

  /** The output ends inside a block that was read. */
  ghost predicate EndOk(output: seq<byte>, got: map<nat, nat>) {
    output != [] ==> var o := BlockOf(|output| - 1); o in got && |output| <= o + got[o]
  }

  /** Reads are issued block by block, writes once for every block that was read. */
  ghost predicate LogsOk(readLog: seq<nat>, writeLog: seq<nat>, got: map<nat, nat>, off: nat) {
    && |readLog| * BSZ == off && (forall k :: 0 <= k < |readLog| ==> readLog[k] == k * BSZ)
    && (forall o :: o in writeLog <==> o in got)
    && (forall j, k :: 0 <= j < k < |writeLog| ==> writeLog[j] != writeLog[k])
  }

  /** A write of a block, or of its beginning, leaves the others as they are. */
  lemma WriteApart(input: seq<byte>, output: seq<byte>, got: map<nat, nat>, o: nat, d: seq<byte>, b: nat)
    requires Aligned(o) && Aligned(b) && b != o && |d| <= BSZ && b in got && got[b] <= BSZ
    requires Written(input, output, got, b)
    ensures Written(input, WriteAt(output, o, d), got, b)
  {
    if b < o {
      BlocksApart(b, o);
    } else {
      BlocksApart(o, b);
    }
    var r := WriteAt(output, o, d);
    forall x | b <= x < b + got[b]
      ensures r[x] == Translate(input[x])
    {
      assert !(o <= x < o + |d|);
    }
  }

  lemma WriteHere(input: seq<byte>, output: seq<byte>, got: map<nat, nat>, o: nat, d: seq<byte>)
    requires o in got && got[o] == |d| && o + |d| <= |input|
    requires forall j :: 0 <= j < |d| ==> d[j] == Translate(input[o + j])
    ensures Written(input, WriteAt(output, o, d), got, o)
  {
    var r := WriteAt(output, o, d);
    forall x | o <= x < o + got[o]
      ensures r[x] == Translate(input[x])
    {
      assert r[o..o + |d|][x - o] == d[x - o];
    }
  }

  lemma WriteEnds(output: seq<byte>, got: map<nat, nat>, o: nat, d: seq<byte>)
    requires Aligned(o) && o in got && |d| <= got[o] <= BSZ && EndOk(output, got)
    ensures EndOk(WriteAt(output, o, d), got)
  {
    if d != [] && |output| < o + |d| {
      OneBlock(o, o + |d| - 1);
    }
  }

  // ---------- The state of the buffers ----------

  /**
   What the kernel returns for the read and for the write of each block: a count of bytes, or
   less than 0 for a failure. A block is read and written once at most, so this is all the kernel
   decides but for the time and the order of completions.
   */
  datatype Kernel = Kernel(rd: nat -> int, wr: nat -> int)

  ghost predicate Possible(input: seq<byte>, k: Kernel) {
    forall o: nat :: Aligned(o) && o < |input| ==> -1 <= k.rd(o) <= Avail(|input|, o) && -1 <= k.wr(o) <= k.rd(o)
  }

  /** The program goes on after both requests for the block. */
  ghost predicate Passes(input: seq<byte>, k: Kernel, o: nat) {
    k.rd(o) >= 0 && (k.rd(o) == BSZ || o + BSZ >= |input|) && k.wr(o) == k.rd(o)
  }

  /**
   off: where the next read starts; got: bytes that the read of a block gave, once its write is
   issued; holder: the buffer that has a block.
   */
  datatype Files =
    Files(input: seq<byte>, k: Kernel, output: seq<byte>, off: nat, got: map<nat, nat>, holder: map<nat, nat>)

  ghost predicate BufOk(f: Files, b: Buf, i: nat) {
    var o := b.aiocb.offset;
    && |b.data| == BSZ
    && (b.aiocb.req.Unqueued? <==> b.op.Unused?)
    && (b.last ==> f.off >= |f.input|)
    && (!b.op.Unused? ==>
          && Aligned(o) && o < |f.input| && o < f.off && o in f.holder && f.holder[o] == i
          && (b.op.ReadPending? <==> o !in f.got))
    && (b.op.ReadPending? ==> ReadOk(f, b))
    && (b.op.WritePending? ==> WriteOk(f, b))
  }

  ghost predicate ReadOk(f: Files, b: Buf) {
    var o := b.aiocb.offset;
    && b.aiocb.nbytes == BSZ == |b.data| && (b.last <==> o + BSZ >= |f.input|)
    && (b.aiocb.req.Complete? ==>
          && b.aiocb.req.ret == f.k.rd(o) <= Avail(|f.input|, o)
          && forall j :: 0 <= j < b.aiocb.req.ret ==> b.data[j] == f.input[o + j])
  }

  ghost predicate WriteOk(f: Files, b: Buf) {
    var o := b.aiocb.offset;
    && o in f.got && b.aiocb.nbytes == f.got[o] == f.k.rd(o) <= Avail(|f.input|, o) && |b.data| == BSZ
    && (forall j :: 0 <= j < b.aiocb.nbytes ==> b.data[j] == Translate(f.input[o + j]))
    && (b.aiocb.req.Complete? ==>
          && b.aiocb.req.ret == f.k.wr(o) <= b.aiocb.nbytes
          && (b.aiocb.req.ret == b.aiocb.nbytes ==> Written(f.input, f.output, f.got, o)))
  }

  /** Every block below off is in one buffer, or written. */
  ghost predicate BlockOk(f: Files, bufs: seq<Buf>, o: nat) {
    && (o in f.holder ==> f.holder[o] < |bufs| && !bufs[f.holder[o]].op.Unused? && bufs[f.holder[o]].aiocb.offset == o)
    && (o in f.got ==>
          && Aligned(o) && o < f.off && o < |f.input| && f.got[o] == f.k.rd(o) <= Avail(|f.input|, o)
          && (f.got[o] == BSZ || o + BSZ >= |f.input|))
    && (Aligned(o) && o < f.off && o < |f.input| && o !in f.holder ==>
          Written(f.input, f.output, f.got, o) && f.k.wr(o) == f.k.rd(o))
  }

  ghost predicate Ok(f: Files, bufs: seq<Buf>) {
    && |bufs| == NBUF && Aligned(f.off) && f.off < |f.input| + BSZ && Possible(f.input, f.k)
    && (forall i :: 0 <= i < NBUF ==> BufOk(f, bufs[i], i))
    && (forall o: nat :: BlockOk(f, bufs, o))
    && EndOk(f.output, f.got)
  }

  /** The read of buffer i completes: the bytes the kernel gives are in the buffer, or it failed. */
  lemma FinishReadKeeps(f: Files, bufs: seq<Buf>, i: nat, b': Buf)
    requires Ok(f, bufs) && i < NBUF
    requires bufs[i].op.ReadPending? && bufs[i].aiocb.req.InProgress?
    requires b' == bufs[i].(data := b'.data, aiocb := bufs[i].aiocb.(req := Complete(f.k.rd(b'.aiocb.offset))))
    requires |b'.data| == BSZ
    requires forall j :: 0 <= j < f.k.rd(b'.aiocb.offset) && j < BSZ ==>
      b'.aiocb.offset + j < |f.input| && b'.data[j] == f.input[b'.aiocb.offset + j]
    ensures Ok(f, bufs[i := b'])
  {
    hide Written, Translate, EndOk;
    assert BufOk(f, bufs[i], i);
    var bufs' := bufs[i := b'];
    forall k | 0 <= k < NBUF
      ensures BufOk(f, bufs'[k], k)
    {
      assert BufOk(f, bufs[k], k);
    }
    forall b: nat
      ensures BlockOk(f, bufs', b)
    {
      assert BlockOk(f, bufs, b);
    }
  }

  lemma StartReadKeeps(f: Files, bufs: seq<Buf>, i: nat, f': Files, b': Buf)
    requires Ok(f, bufs) && i < NBUF && bufs[i].op.Unused? && f.off < |f.input|
    requires f' == f.(off := f.off + BSZ, holder := f.holder[f.off := i])
    requires b' == Buf(ReadPending, bufs[i].last || f'.off >= |f.input|, Aiocb(f.off, BSZ, InProgress), bufs[i].data)
    ensures Ok(f', bufs[i := b'])
  {
    hide Written, Translate, EndOk;
    assert BufOk(f, bufs[i], i) && BlockOk(f, bufs, f.off);
    var bufs' := bufs[i := b'];
    forall k | 0 <= k < NBUF
      ensures BufOk(f', bufs'[k], k)
    {
      assert BufOk(f, bufs[k], k);
    }
    forall b: nat
      ensures BlockOk(f', bufs', b)
    {
      assert BlockOk(f, bufs, b);
      if Aligned(b) && b > f.off {
        BlocksApart(f.off, b);
      }
    }
  }

  /** The buffer of a completed read is translated and its write issued. */
  lemma StartWriteKeeps(f: Files, bufs: seq<Buf>, i: nat, n: nat, f': Files, b': Buf)
    requires Ok(f, bufs) && i < NBUF && bufs[i].op.ReadPending? && bufs[i].aiocb.req == Complete(n)
    requires n == BSZ || bufs[i].last
    requires f' == f.(got := f.got[bufs[i].aiocb.offset := n])
    requires b' == Buf(WritePending, bufs[i].last, Aiocb(bufs[i].aiocb.offset, n, InProgress), b'.data)
    requires |b'.data| == |bufs[i].data| && forall j :: 0 <= j < n && j < |b'.data| ==> b'.data[j] == Translate(bufs[i].data[j])
    ensures Ok(f', bufs[i := b'])
    ensures bufs[i].aiocb.offset !in f.got
  {
    hide Translate, BlockOf;
    assert BufOk(f, bufs[i], i) && BlockOk(f, bufs, bufs[i].aiocb.offset);
    var o, bufs' := b'.aiocb.offset, bufs[i := b'];
    assert forall k :: k != o && Written(f.input, f.output, f.got, k) ==> Written(f'.input, f'.output, f'.got, k);
    hide Written, EndOk, Aligned;
    forall k | 0 <= k < NBUF
      ensures BufOk(f', bufs'[k], k)
    {
      assert BufOk(f, bufs[k], k);
    }
    forall b: nat
      ensures BlockOk(f', bufs', b)
    {
      assert BlockOk(f, bufs, b);
    }
    assert EndOk(f'.output, f'.got) by { GotGrows(f.output, f.got, o, n); }
  }

  lemma GotGrows(output: seq<byte>, got: map<nat, nat>, o: nat, n: nat)
    requires EndOk(output, got) && o !in got
    ensures EndOk(output, got[o := n])
  {
  }

  /** The write of buffer i completes: ret bytes of it are in the output file, or it failed. */
  lemma FinishWriteKeeps(f: Files, bufs: seq<Buf>, i: nat, ret: int, f': Files, b': Buf)
    requires Ok(f, bufs) && i < NBUF && bufs[i].op.WritePending? && bufs[i].aiocb.req.InProgress?
    requires ret == f.k.wr(bufs[i].aiocb.offset) && -1 <= ret <= bufs[i].aiocb.nbytes <= |bufs[i].data|
    requires b' == bufs[i].(aiocb := bufs[i].aiocb.(req := Complete(ret)))
    requires f' == f.(output := if ret < 0 then f.output else WriteAt(f.output, b'.aiocb.offset, b'.data[..ret]))
    ensures Ok(f', bufs[i := b'])
  {
    hide Aligned, Translate, WriteAt, EndOk;
    assert BufOk(f, bufs[i], i) && BlockOk(f, bufs, bufs[i].aiocb.offset);
    var o, bufs' := b'.aiocb.offset, bufs[i := b'];
    if ret >= 0 {
      WriteEnds(f.output, f.got, o, b'.data[..ret]);
    }
    if ret == b'.aiocb.nbytes {
      WriteHere(f.input, f.output, f.got, o, b'.data[..ret]);
    }
    hide Written;
    forall k: nat | k != o && k in f.got && Written(f.input, f.output, f.got, k)
      ensures Written(f'.input, f'.output, f'.got, k)
    {
      assert BlockOk(f, bufs, k);
      if ret >= 0 {
        WriteApart(f.input, f.output, f.got, o, b'.data[..ret], k);
      }
    }
    WrittenIsGot(f);
    forall k | 0 <= k < NBUF
      ensures BufOk(f', bufs'[k], k)
    {
      assert BufOk(f, bufs[k], k);
    }
    forall b: nat
      ensures BlockOk(f', bufs', b)
    {
      assert BlockOk(f, bufs, b);
    }
  }

  lemma WrittenIsGot(f: Files)
    ensures forall k :: Written(f.input, f.output, f.got, k) ==> k in f.got
  {
  }

  /** A completed write leaves the buffer free. */
  lemma RetireKeeps(f: Files, bufs: seq<Buf>, i: nat, f': Files, b': Buf)
    requires Ok(f, bufs) && i < NBUF && bufs[i].op.WritePending?
    requires bufs[i].aiocb.req == Complete(bufs[i].aiocb.nbytes)
    requires f' == f.(holder := f.holder - {bufs[i].aiocb.offset})
    requires b' == bufs[i].(op := Unused, aiocb := bufs[i].aiocb.(req := Unqueued))
    ensures Ok(f', bufs[i := b'])
  {
    hide Written, Aligned, Translate, EndOk;
    assert BufOk(f, bufs[i], i);
    var bufs' := bufs[i := b'];
    forall k | 0 <= k < NBUF
      ensures BufOk(f', bufs'[k], k)
    {
      assert BufOk(f, bufs[k], k);
    }
    forall b: nat
      ensures BlockOk(f', bufs', b)
    {
      assert BlockOk(f, bufs, b);
    }
  }

  // ---------- The end ----------

  function LastBlock(input: seq<byte>): nat
    requires input != []
  {
    BlockOf(|input| - 1)
  }

  /** Where the output ends: after what the read of the last block gave. */
  ghost function EndOf(input: seq<byte>, k: Kernel): int {
    if input == [] then 0 else LastBlock(input) + k.rd(LastBlock(input))
  }

  ghost predicate AllPass(input: seq<byte>, k: Kernel) {
    forall o: nat :: Aligned(o) && o < |input| ==> Passes(input, k, o)
  }

  ghost predicate AllWritten(f: Files) {
    forall o: nat :: Aligned(o) && o < |f.input| ==> Written(f.input, f.output, f.got, o) && f.got[o] == f.k.rd(o)
  }

  lemma EndBound(f: Files)
    requires AllWritten(f) && f.input != [] && Possible(f.input, f.k)
    ensures var o := LastBlock(f.input); o in f.got && o <= EndOf(f.input, f.k) == o + f.got[o] <= |f.input|
    ensures EndOf(f.input, f.k) == |f.input| <==> f.k.rd(LastBlock(f.input)) == Avail(|f.input|, LastBlock(f.input))
  {
    assert Written(f.input, f.output, f.got, LastBlock(f.input));
  }

  lemma BlockCovers(f: Files, x: nat)
    requires AllWritten(f) && AllPass(f.input, f.k) && Possible(f.input, f.k) && x < EndOf(f.input, f.k)
    ensures x < |f.output| && x < |f.input| && f.output[x] == Translate(f.input[x])
  {
    hide Translate;
    EndBound(f);
    var o := BlockOf(x);
    assert Passes(f.input, f.k, o) && Written(f.input, f.output, f.got, o);
    if o + BSZ >= |f.input| {
      OneBlock(o, |f.input| - 1);
    }
  }

  lemma OutputEnds(f: Files)
    requires AllWritten(f) && Possible(f.input, f.k) && f.input != [] && EndOk(f.output, f.got)
    requires forall o :: o in f.got ==> Aligned(o) && o < |f.input| && f.got[o] <= BSZ
    ensures |f.output| <= EndOf(f.input, f.k)
  {
    EndBound(f);
    if f.output != [] {
      var o, e := BlockOf(|f.output| - 1), LastBlock(f.input);
      if o + BSZ < |f.input| {
        BlocksApart(o, e);
      } else {
        OneBlock(o, |f.input| - 1);
      }
    }
  }

  /**
   With all blocks read and no buffer busy, every request was passed and the output is the
   translated input up to what the read of the last block gave.
   */
  lemma AllDone(f: Files, bufs: seq<Buf>)
    requires Ok(f, bufs) && f.off >= |f.input| && forall i :: 0 <= i < NBUF ==> bufs[i].op.Unused?
    ensures AllPass(f.input, f.k)
    ensures 0 <= EndOf(f.input, f.k) <= |f.input| && f.output == TranslateAll(f.input[..EndOf(f.input, f.k)])
    ensures forall o: nat :: Aligned(o) && o < |f.input| ==> o in f.got
  {
    hide Translate, Written, BlockOf, Aligned, Avail;
    forall o: nat | Aligned(o) && o < |f.input|
      ensures Written(f.input, f.output, f.got, o) && o in f.got && f.got[o] == f.k.rd(o) && Passes(f.input, f.k, o)
    {
      assert BlockOk(f, bufs, o);
      WrittenIsGot(f);
    }
    forall o | o in f.got
      ensures Aligned(o) && o < |f.input| && f.got[o] <= BSZ
    {
      assert BlockOk(f, bufs, o);
      AvailWithin(|f.input|, o);
    }
    if f.input != [] {
      EndBound(f);
      OutputEnds(f);
      forall x: nat | x < EndOf(f.input, f.k)
        ensures x < |f.output| && f.output[x] == Translate(f.input[x])
      {
        BlockCovers(f, x);
      }
    }
  }

  lemma AvailWithin(size: nat, o: nat)
    ensures Avail(size, o) <= BSZ
    ensures o < size ==> o + Avail(size, o) <= size
  {
  }
}
