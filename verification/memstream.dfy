/**
 exercises/fmemopen.c: a stream over a caller's buffer, against a plain sequence of bytes with
 a position and a bound.
 */
module MemStream {
  import opened Basics

  const INT_MAX: int := 0x7FFF_FFFF

  datatype Result<T> = Ok(value: T) | Fails

  // ---------- Modes ----------

  /** MS_READ, MS_WRITE, MS_APPEND, MS_TRUNCATE. */
  datatype Flags = Flags(read: bool, write: bool, append: bool, truncate: bool)

  const NONE := Flags(false, false, false, false)

  predicate Plus(f: Flags) {
    f.read && f.write
  }

  /** A mode is one of r, w, a, followed by any number of + and b. */
  predicate IsMode(mode: string) {
    mode != [] && mode[0] in {'r', 'w', 'a'} && forall i :: 1 <= i < |mode| ==> mode[i] in {'+', 'b'}
  }

  function ModeFlags(mode: string): (f: Flags)
    requires IsMode(mode)
    ensures f != NONE
  {
    var plus := '+' in mode;
    Flags(mode[0] == 'r' || plus, mode[0] == 'w' || plus, mode[0] == 'a', mode[0] == 'w')
  }

  /** type_to_flags: reads a mode exactly when it is one; NONE is its 0. */
  method TypeToFlags(mode: string) returns (flags: Flags)
    requires forall i :: 0 <= i < |mode| ==> mode[i] != '\0'
    ensures flags != NONE <==> IsMode(mode)
    ensures IsMode(mode) ==> flags == ModeFlags(mode)
  {
    flags := NONE;
    var cp := 0;
    while cp < |mode|
      invariant 0 <= cp <= |mode|
      invariant cp == 0 <==> flags == NONE
      invariant cp > 0 ==> IsMode(mode[..cp]) && flags == ModeFlags(mode[..cp])
    {
      assert mode[..cp + 1] == mode[..cp] + [mode[cp]];
      match mode[cp] {
        case 'r' =>
          if flags != NONE {
            return NONE;
          }
          flags := flags.(read := true);
        case 'w' =>
          if flags != NONE {
            return NONE;
          }
          flags := flags.(write := true, truncate := true);
        case 'a' =>
          if flags != NONE {
            return NONE;
          }
          flags := flags.(append := true);
        case '+' =>
          if flags == NONE {
            return NONE;
          }
          flags := flags.(read := true, write := true);
        case 'b' =>
          if flags == NONE {
            return NONE;
          }
        case _ =>
          return NONE;
      }
      cp := cp + 1;
    }
    assert mode[..cp] == mode;
  }

  // ---------- The ideal stream ----------

  /** The bytes of the stream, the position, the size of the buffer. */
  datatype Stream = Stream(data: seq<byte>, pos: nat, cap: nat, flags: Flags)

  predicate StreamOk(s: Stream) {
    s.pos <= |s.data| <= s.cap
  }

  function Min(a: int, b: int): int {
    if a < b then a else b
  }

  function Reading(s: Stream, len: nat): (Stream, Result<seq<byte>>)
    requires StreamOk(s)
  {
    if !s.flags.read then (s, Fails)
    else
      var n := Min(len, |s.data| - s.pos);
      (s.(pos := s.pos + n), Ok(s.data[s.pos..s.pos + n]))
  }

  /** Where a write goes: to the end in append mode. */
  function Target(s: Stream): nat {
    if s.flags.append then |s.data| else s.pos
  }

  function Taken(s: Stream, d: seq<byte>): (n: nat)
    requires StreamOk(s)
  {
    Min(|d|, s.cap - Target(s))
  }

  /** The bytes that are taken replace those at a place of the stream, or extend it, up to its bound. */
  function WritingAt(s: Stream, off: nat, d: seq<byte>): (r: (Stream, Result<int>))
    requires StreamOk(s) && off <= |s.data|
    ensures StreamOk(r.0)
  {
    var n := Min(|d|, s.cap - off);
    var after := if off + n < |s.data| then s.data[off + n..] else [];
    (s.(data := s.data[..off] + d[..n] + after, pos := off + n), Ok(n))
  }

  function Writing(s: Stream, d: seq<byte>): (r: (Stream, Result<int>))
    requires StreamOk(s)
    ensures StreamOk(r.0)
  {
    if !s.flags.write && !s.flags.append then (s, Fails) else WritingAt(s, Target(s), d)
  }

  datatype Whence = SeekSet | SeekEnd | SeekCur

  function SeekTarget(s: Stream, pos: int, whence: Whence): int {
    match whence
    case SeekSet => pos
    case SeekEnd => |s.data| + pos
    case SeekCur => s.pos + pos
  }

  function Seeking(s: Stream, pos: int, whence: Whence): (Stream, Result<int>) {
    var off := SeekTarget(s, pos, whence);
    if 0 <= off <= |s.data| then (s.(pos := off), Ok(off)) else (s, Fails)
  }

  // ---------- What the code makes of it ----------

  /** Conversion to a 32-bit int. */
  function Wrap32(x: int): (r: int)
    ensures -INT_MAX - 1 <= r <= INT_MAX
    ensures -INT_MAX - 1 <= x <= INT_MAX <==> r == x
    ensures -INT_MAX - 1 <= x ==> r <= x
  {
    (x + INT_MAX + 1) % (2 * INT_MAX + 2) - INT_MAX - 1
  }

  /** Where a stream that cannot be read gets its null byte after a write. */
  function NullAt(s: Stream): int {
    if s.pos < s.cap then s.pos else s.cap - 1
  }

  function Terminated(s: Stream): Stream {
    if !s.flags.read && 0 <= NullAt(s) < |s.data| then s.(data := s.data[NullAt(s) := 0]) else s
  }

  /** The place of a write, kept in an int. */
  function Place(s: Stream): int {
    Wrap32(Target(s))
  }

  /** The place is not negative, and the position behind the written bytes is an int. */
  predicate WriteDefined(s: Stream, d: seq<byte>)
    requires StreamOk(s)
  {
    (s.flags.write || s.flags.append) ==> 0 <= Place(s) && Place(s) + Min(|d|, s.cap - Place(s)) <= INT_MAX
  }

  function Written(s: Stream, d: seq<byte>): (r: (Stream, Result<int>))
    requires StreamOk(s) && WriteDefined(s, d)
    ensures StreamOk(r.0)
  {
    if !s.flags.write && !s.flags.append then (s, Fails)
    else
      var (s', r) := WritingAt(s, Place(s), d);
      (Terminated(s'), r)
  }

  function Sought(s: Stream, pos: int, whence: Whence): (Stream, Result<int>) {
    var off := Wrap32(SeekTarget(s, pos, whence));
    if 0 <= off <= |s.data| then (s.(pos := off), Ok(off)) else (s, Fails)
  }

  /** Bytes d in place of those at position at. */
  function Spliced(b: seq<byte>, at: nat, d: seq<byte>): (r: seq<byte>)
    requires at + |d| <= |b|
    ensures |r| == |b| && r[at..at + |d|] == d
    ensures forall i :: 0 <= i < |b| && !(at <= i < at + |d|) ==> r[i] == b[i]
  {
    b[..at] + d + b[at + |d|..]
  }

  /** memcpy into a buffer. */
  method Memcpy(dest: array<byte>, at: nat, d: seq<byte>)
    requires at + |d| <= dest.Length
    modifies dest
    ensures dest[..] == Spliced(old(dest[..]), at, d)
  {
    forall i | 0 <= i < |d| {
      dest[at + i] := d[i];
    }
  }

  class MemoryStream {
    const buf: array<byte>
    const rsize: nat
    var vsize: nat
    var curpos: nat
    const flags: Flags

    ghost predicate Valid()
      reads this, buf
    {
      && curpos <= vsize <= rsize == buf.Length && 0 < rsize
      && (flags.read || flags.write || flags.append)
    }

    ghost function Contents(): (s: Stream)
      reads this, buf
      requires Valid()
      ensures StreamOk(s) && s.flags == flags
    {
      Stream(buf[..vsize], curpos, rsize, flags)
    }

    /** The state set up by fmemopen over a buffer of the caller. */
    constructor (b: array<byte>, f: Flags)
      requires 0 < b.Length && (f.read || f.write || f.append)
      ensures Valid() && buf == b && flags == f
      ensures Contents().pos == |Contents().data| || !f.append
      ensures f.append ==> Contents().data == UpToNull(b[..])
      ensures !f.append && f.truncate ==> Contents().data == []
      ensures !f.append && !f.truncate ==> Contents().data == b[..]
      ensures !f.append ==> Contents().pos == 0
    {
      buf, rsize, flags := b, b.Length, f;
      var end := FindEnd(b);
      if f.append {
        curpos, vsize := end, end;
      } else if f.truncate {
        curpos, vsize := 0, 0;
      } else {
        curpos, vsize := 0, b.Length;
      }
    }

    /** The state set up over a buffer that fmemopen allocates. */
    constructor Allocated(size: nat, f: Flags)
      requires 0 < size && Plus(f)
      ensures Valid() && fresh(buf) && flags == f && Contents().pos == 0 && rsize == size
      ensures |Contents().data| == if f.append || f.truncate then 0 else size
    {
      buf := new byte[size];
      rsize, flags, curpos := size, f, 0;
      vsize := if f.append then 0 else if f.truncate then 0 else size;
    }

    method Read(dest: array<byte>, len: nat) returns (nr: int)
      requires Valid() && len <= dest.Length && dest != buf
      modifies this`curpos, dest
      ensures Valid()
      ensures var (s, r) := Reading(old(Contents()), len);
        Contents() == s && (if r.Fails? then nr == -1 else nr == |r.value| <= len && dest[..nr] == r.value)
      ensures forall i :: 0 <= i < dest.Length && i >= nr ==> dest[i] == old(dest[i])
    {
      if !flags.read {
        return -1;
      }
      if curpos >= vsize {
        return 0;
      }
      nr := Min(len, vsize - curpos);
      ghost var data := buf[..vsize];
      forall i | 0 <= i < nr {
        dest[i] := buf[curpos + i];
      }
      assert dest[..nr] == data[curpos..curpos + nr];
      curpos := curpos + nr;
    }

    /**
     Bytes behind the end of the stream stay, except for one null. The length is an int; not
     defined says that C leaves open what happens.
     */
    method Write(d: seq<byte>) returns (nw: int, defined: bool)
      requires Valid() && |d| <= INT_MAX
      modifies this`curpos, this`vsize, buf
      ensures Valid()
      ensures defined <==> WriteDefined(old(Contents()), d)
      ensures !defined ==> Contents() == old(Contents())
      ensures defined ==>
        var (s, r) := Written(old(Contents()), d);
        Contents() == s && nw == if r.Fails? then -1 else r.value
      ensures defined ==> forall i :: vsize < i < rsize ==> buf[i] == old(buf[i])
      ensures defined && Plus(flags) && vsize > old(vsize) && vsize < rsize ==> buf[vsize] == 0
    {
      hide Wrap32, WritingAt, Terminated, Spliced, WriteDefined, Written;
      ghost var s, b := Contents(), buf[..];
      WrittenIs(s, d);
      if !flags.append && !flags.write {
        return -1, true;
      }
      var off := Wrap32(if flags.append then vsize else curpos);
      if off < 0 {
        return 0, false;
      }
      nw := Min(|d|, rsize - off);
      if off + nw > INT_MAX {
        return 0, false;
      }
      CopyWrites(s, b, d, off, nw);
      Memcpy(buf, off, d[..nw]);
      curpos := off + nw;
      var grown := curpos > vsize;
      if grown {
        vsize := curpos;
      }
      assert Contents() == WritingAt(s, off, d).0;
      PutNull(grown);
      defined := true;
    }

    /** The end of mstream_write: a null behind a stream that has grown, or where a write-only one has its position. */
    method PutNull(grown: bool)
      requires Valid()
      modifies buf
      ensures Valid() && Contents() == Terminated(old(Contents()))
      ensures forall i :: vsize < i < rsize ==> buf[i] == old(buf[i])
      ensures Plus(flags) && grown && vsize < rsize ==> buf[vsize] == 0
    {
      if grown && Plus(flags) && vsize < rsize {
        buf[vsize] := 0;
      }
      if !flags.read {
        if curpos < rsize {
          buf[curpos] := 0;
        } else {
          buf[rsize - 1] := 0;
        }
      }
    }

    method Seek(pos: int, whence: Whence) returns (r: int)
      requires Valid()
      modifies this`curpos
      ensures Valid()
      ensures var (s, a) := Sought(old(Contents()), pos, whence);
        Contents() == s && r == if a.Fails? then -1 else a.value
    {
      var off: int;
      match whence {
        case SeekSet => off := Wrap32(pos);
        case SeekEnd => off := Wrap32(vsize + pos);
        case SeekCur => off := Wrap32(curpos + pos);
      }
      if off < 0 || off > vsize {
        return -1;
      }
      curpos := off;
      return off;
    }
  }

  lemma WrittenIs(s: Stream, d: seq<byte>)
    requires StreamOk(s)
    ensures !s.flags.write && !s.flags.append ==> WriteDefined(s, d) && Written(s, d) == (s, Fails)
    ensures Place(s) <= |s.data|
    ensures s.flags.write || s.flags.append ==>
      (WriteDefined(s, d) <==> 0 <= Place(s) && Place(s) + Min(|d|, s.cap - Place(s)) <= INT_MAX)
    ensures (s.flags.write || s.flags.append) && WriteDefined(s, d) ==>
      Written(s, d) == (Terminated(WritingAt(s, Place(s), d).0), WritingAt(s, Place(s), d).1)
  {
    hide WritingAt, Terminated, Wrap32;
  }

  lemma CopyWrites(s: Stream, b: seq<byte>, d: seq<byte>, off: nat, n: nat)
    requires StreamOk(s) && |b| == s.cap && s.data == b[..|s.data|] && off <= |s.data| && n == Min(|d|, s.cap - off)
    ensures off + n <= s.cap && StreamOk(WritingAt(s, off, d).0)
    ensures var b', v := Spliced(b, off, d[..n]), if off + n > |s.data| then off + n else |s.data|;
      WritingAt(s, off, d).0 == s.(data := b'[..v], pos := off + n) && WritingAt(s, off, d).1 == Ok(n)
  {
  }

  /** The bytes in front of the first null, or all of them. */
  function UpToNull(s: seq<byte>): (r: seq<byte>)
    ensures r <= s && 0 !in r && (|r| < |s| ==> s[|r|] == 0)
  {
    if s == [] || s[0] == 0 then [] else [s[0]] + UpToNull(s[1..])
  }

  lemma {:induction false} UpToNullIs(s: seq<byte>, n: nat)
    requires n <= |s| && 0 !in s[..n] && (n < |s| ==> s[n] == 0)
    ensures UpToNull(s) == s[..n]
  {
    if n > 0 {
      assert s[0] in s[..n] && s[1..][..n - 1] == s[..n][1..];
      UpToNullIs(s[1..], n - 1);
    }
  }

  method FindEnd(buf: array<byte>) returns (off: nat)
    ensures off <= buf.Length && buf[..off] == UpToNull(buf[..])
  {
    off := 0;
    while off < buf.Length
      invariant off <= buf.Length && forall i :: 0 <= i < off ==> buf[i] != 0
    {
      if buf[off] == 0 {
        break;
      }
      off := off + 1;
    }
    UpToNullIs(buf[..], off);
    assert buf[..][..off] == buf[..off];
  }

  /** fmemopen without a failing allocation: null is the caller's NULL buffer. */
  method Open(buf: array?<byte>, size: nat, mode: string) returns (ms: MemoryStream?)
    requires forall i :: 0 <= i < |mode| ==> mode[i] != '\0'
    requires buf != null ==> buf.Length == size
    ensures ms != null <==> size > 0 && IsMode(mode) && (buf == null ==> Plus(ModeFlags(mode)))
    ensures ms != null ==> fresh(ms) && ms.Valid() && ms.flags == ModeFlags(mode) && ms.rsize == size
    ensures ms != null && buf != null ==> ms.buf == buf
    ensures ms != null && buf == null ==> fresh(ms.buf)
    ensures ms != null ==> ms.Contents().pos == if mode[0] == 'a' then |ms.Contents().data| else 0
    ensures ms != null && mode[0] == 'w' ==> ms.Contents().data == []
    ensures ms != null && mode[0] == 'a' ==> ms.Contents().data == if buf == null then [] else UpToNull(buf[..])
    ensures ms != null && mode[0] == 'r' ==> |ms.Contents().data| == size && (buf != null ==> ms.Contents().data == buf[..])
  {
    if size == 0 {
      return null;
    }
    var flags := TypeToFlags(mode);
    if flags == NONE {
      return null;
    }
    if buf == null {
      if !Plus(flags) {
        return null;
      }
      ms := new MemoryStream.Allocated(size, flags);
    } else {
      ms := new MemoryStream(buf, flags);
    }
  }
}
