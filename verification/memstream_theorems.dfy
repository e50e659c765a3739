/**
 When the stream of exercises/fmemopen.c is the plain sequence of bytes it stands for.
 */
module MemStreamTheorems {
  import opened Basics
  import opened MemStream

  /** The modes of C: what they read, where they write, and what becomes of the old contents. */
  lemma ModesOfC()
    ensures ModeFlags("r") == Flags(true, false, false, false) && ModeFlags("r+") == Flags(true, true, false, false)
    ensures ModeFlags("w") == Flags(false, true, false, true) && ModeFlags("w+") == Flags(true, true, false, true)
    ensures ModeFlags("a") == Flags(false, false, true, false) && ModeFlags("a+") == Flags(true, true, true, false)
  {
  }

  /** A b anywhere behind the first letter changes nothing, nor does the order of + and b. */
  lemma BinaryIsNothing(mode: string, rest: string)
    requires IsMode(mode + rest) && mode != ""
    ensures IsMode(mode + "b" + rest) && ModeFlags(mode + "b" + rest) == ModeFlags(mode + rest)
  {
    var m, n := mode + rest, mode + "b" + rest;
    forall i | 1 <= i < |n|
      ensures n[i] in {'+', 'b'}
    {
      if i < |mode| {
        assert m[i] == n[i];
      } else if i > |mode| {
        assert m[i - 1] == n[i];
      }
    }
    if '+' in m {
      var i :| 0 <= i < |m| && m[i] == '+';
      assert n[if i < |mode| then i else i + 1] == '+';
    }
    if '+' in n {
      var i :| 0 <= i < |n| && n[i] == '+';
      assert m[if i < |mode| then i else i - 1] == '+';
    }
  }

  // ---------- One operation ----------

  /** Bounds hold after every operation, in every mode. */
  lemma StaysInBounds(s: Stream, d: seq<byte>, len: nat, pos: int, whence: Whence)
    requires StreamOk(s)
    ensures StreamOk(Reading(s, len).0) && StreamOk(Sought(s, pos, whence).0)
    ensures WriteDefined(s, d) ==> StreamOk(Written(s, d).0)
  {
    if WriteDefined(s, d) {
      assert StreamOk(Written(s, d).0);
    }
  }

  /** The position behind a write can be held in an int. */
  predicate WriteFits(s: Stream, d: seq<byte>)
    requires StreamOk(s)
  {
    Target(s) + Taken(s, d) <= INT_MAX
  }

  lemma FittingPlace(s: Stream, d: seq<byte>)
    requires StreamOk(s) && WriteFits(s, d)
    ensures WriteDefined(s, d) && Place(s) == Target(s)
  {
  }

  lemma Wrapped(x: nat)
    requires x > INT_MAX
    ensures Wrap32(x) < 0 || x - Wrap32(x) > INT_MAX
  {
  }

  /** In the modes that read and write, a write is the ideal one exactly when its end fits an int. */
  lemma WriteIsIdeal(s: Stream, d: seq<byte>)
    requires StreamOk(s) && Plus(s.flags) && |d| <= INT_MAX
    ensures WriteDefined(s, d) && Written(s, d) == Writing(s, d) <==> WriteFits(s, d)
  {
    if WriteFits(s, d) {
      FittingPlace(s, d);
    } else if WriteDefined(s, d) && Target(s) > INT_MAX {
      Wrapped(Target(s));
      assert Writing(s, d).0.pos == Target(s) + Taken(s, d);
      assert Written(s, d).0.pos <= Place(s) + |d|;
    }
  }

  /** Beyond an int the place of a write wraps around: at 4 GiB it is the start of the buffer. */
  lemma WriteWraps(s: Stream, d: seq<byte>)
    requires StreamOk(s) && Plus(s.flags) && Target(s) == 0x1_0000_0000 && |d| <= INT_MAX
    ensures WriteDefined(s, d) && Written(s, d).0.pos == |d| && Written(s, d).0.data[..|d|] == d
  {
    assert Place(s) == 0;
    assert Written(s, d).0.data == d + s.data[|d|..];
  }

  /**
   A stream that cannot be read keeps what is written to it exactly when the null byte falls
   behind its end, or on a null: it is put at the new position, or over the last byte of the
   buffer when that is full.
   */
  lemma WriteOnlyKeeps(s: Stream, d: seq<byte>)
    requires StreamOk(s) && 0 < s.cap && !s.flags.read && (s.flags.write || s.flags.append) && WriteFits(s, d)
    ensures WriteDefined(s, d)
    ensures var k := Target(s) + Taken(s, d);
      Written(s, d).0 == Writing(s, d).0 <==>
        if k < s.cap then (k < |s.data| ==> s.data[k] == 0)
        else if Taken(s, d) > 0 then d[Taken(s, d) - 1] == 0 else s.data[s.cap - 1] == 0
    ensures var w, k := Writing(s, d), Target(s) + Taken(s, d);
      var j := if k < s.cap then k else s.cap - 1;
      Written(s, d) == (if j < |w.0.data| then w.0.(data := w.0.data[j := 0]) else w.0, w.1)
  {
    FittingPlace(s, d);
    var s' := Writing(s, d).0;
    var k := Target(s) + Taken(s, d);
    if NullAt(s') < |s'.data| {
      assert s'.data[NullAt(s') := 0][NullAt(s')] == 0;
      if k < s.cap {
        assert s'.data[k] == s.data[k];
      }
    }
  }

  /** The full buffer of a "w" stream loses its last byte. */
  lemma LastByteIsLost()
    ensures var s := Stream([], 0, 2, Flags(false, true, false, true));
      Writing(s, [7, 7]).0.data == [7, 7] && Written(s, [7, 7]).0.data == [7, 0] && Written(s, [7, 7]).1 == Ok(2)
  {
    var s := Stream([], 0, 2, Flags(false, true, false, true));
    assert Writing(s, [7, 7]).0.data == [7, 7];
    assert [7, 7][1 := 0] == [7, 0 as byte];
  }

  /** A seek is the ideal one exactly when the offset, cut down to an int, does not fall into the stream by accident. */
  lemma SeekIsIdeal(s: Stream, pos: int, whence: Whence)
    requires StreamOk(s)
    ensures Sought(s, pos, whence) == Seeking(s, pos, whence) <==> SeekFits(s, pos, whence)
  {
  }

  /** The target is an int, or no place in the stream before and after it is made one. */
  predicate SeekFits(s: Stream, pos: int, whence: Whence) {
    var target := SeekTarget(s, pos, whence);
    -INT_MAX - 1 <= target <= INT_MAX || !(0 <= target <= |s.data| || 0 <= Wrap32(target) <= |s.data|)
  }

  /** An offset of 4 GiB from the start is taken for the start. */
  lemma SeekWraps(s: Stream)
    requires StreamOk(s) && |s.data| < 0x1_0000_0000
    ensures Sought(s, 0x1_0000_0000, SeekSet).1 == Ok(0) && Seeking(s, 0x1_0000_0000, SeekSet).1.Fails?
  {
  }

  /** Offsets count from the start, from the end and from the position; a seek goes there if that is in the stream. */
  lemma SeekOrigins(s: Stream, k: int)
    requires StreamOk(s)
    ensures 0 <= k <= |s.data| ==> Seeking(s, k, SeekSet) == (s.(pos := k), Ok(k))
    ensures !(0 <= k <= |s.data|) ==> Seeking(s, k, SeekSet) == (s, Fails)
    ensures Seeking(s, k, SeekEnd) == Seeking(s, |s.data| + k, SeekSet)
    ensures Seeking(s, k, SeekCur) == Seeking(s, s.pos + k, SeekSet)
    ensures -INT_MAX - 1 <= k <= INT_MAX ==> Sought(s, k, SeekSet) == Seeking(s, k, SeekSet)
    ensures -INT_MAX - 1 <= |s.data| + k <= INT_MAX ==> Sought(s, k, SeekEnd) == Sought(s, |s.data| + k, SeekSet)
    ensures -INT_MAX - 1 <= s.pos + k <= INT_MAX ==> Sought(s, k, SeekCur) == Sought(s, s.pos + k, SeekSet)
  {
  }

  /** A seek by 0 tells the position, or the length, in every mode. */
  lemma SeekTells(s: Stream)
    requires StreamOk(s)
    ensures s.pos <= INT_MAX ==> Sought(s, 0, SeekCur) == (s, Ok(s.pos as int))
    ensures |s.data| <= INT_MAX ==> Sought(s, 0, SeekEnd) == (s.(pos := |s.data|), Ok(|s.data| as int))
  {
  }

  // ---------- Reads and writes one after the other ----------

  /** A read long enough gives all that is left; a stream that cannot be read gives nothing. */
  lemma ReadsRest(s: Stream, len: nat)
    requires StreamOk(s)
    ensures s.flags.read && len >= |s.data| - s.pos ==> Reading(s, len) == (s.(pos := |s.data|), Ok(s.data[s.pos..]))
    ensures !s.flags.read ==> Reading(s, len) == (s, Fails)
  {
    assert s.data[s.pos..|s.data|] == s.data[s.pos..];
  }

  /** Two reads give what one of their length together gives, and the second begins where the first ended. */
  lemma ReadsJoin(s: Stream, m: nat, n: nat)
    requires StreamOk(s) && s.flags.read
    ensures var (s1, a) := Reading(s, m);
      && StreamOk(s1) && a.Ok? && |a.value| <= m && s1 == s.(pos := s.pos + |a.value|)
      && var (s2, b) := Reading(s1, n);
         b.Ok? && Reading(s, m + n) == (s2, Ok(a.value + b.value))
  {
    var (s1, a) := Reading(s, m);
    var (s2, b) := Reading(s1, n);
    assert s.data[s.pos..s2.pos] == s.data[s.pos..s1.pos] + s.data[s1.pos..s2.pos];
  }

  /** As many of these bytes as the buffer has room for are put at this place of the stream, and no others change. */
  ghost predicate Puts(s: Stream, at: nat, d: seq<byte>, s': Stream, n: int) {
    && 0 <= n <= |d| && at + n <= s.cap && (n == |d| || at + n == s.cap)
    && |s'.data| == (if at + n > |s.data| then at + n else |s.data|)
    && s'.data[at..at + n] == d[..n]
    && (forall i :: 0 <= i < |s.data| && !(at <= i < at + n) ==> s'.data[i] == s.data[i])
    && s' == s.(data := s'.data, pos := at + n)
  }

  /** A write goes to the position, or behind the end in append mode. */
  lemma WritesAt(s: Stream, d: seq<byte>)
    requires StreamOk(s)
    ensures !s.flags.write && !s.flags.append ==> Writing(s, d) == (s, Fails)
    ensures s.flags.write || s.flags.append ==>
      var (s', r) := Writing(s, d);
      r.Ok? && Puts(s, if s.flags.append then |s.data| else s.pos, d, s', r.value)
  {
  }

  /** Two writes leave what one write of both leaves, and take as much. */
  lemma WritesJoin(s: Stream, d: seq<byte>, e: seq<byte>)
    requires StreamOk(s) && (s.flags.write || s.flags.append)
    ensures var (s1, m) := Writing(s, d);
      var (s2, n) := Writing(s1, e);
      m.Ok? && n.Ok? && Writing(s, d + e) == (s2, Ok(m.value + n.value))
  {
    hide Writing, Puts;
    WritesAt(s, d);
    var (s1, m) := Writing(s, d);
    WritesAt(s1, e);
    WritesAt(s, d + e);
    var (s2, n) := Writing(s1, e);
    var (s3, all) := Writing(s, d + e);
    var at := if s.flags.append then |s.data| else s.pos;
    PutsBehind(s, at, d, s1, m.value);
    JoinedBytes(s, at, d, e, s1, m.value, s2, n.value, s3, all.value);
  }

  lemma PutsBehind(s: Stream, at: nat, d: seq<byte>, s': Stream, n: int)
    requires Puts(s, at, d, s', n) && at <= |s.data|
    ensures s'.pos == at + n && s'.flags == s.flags && (at == |s.data| ==> |s'.data| == at + n)
  {
  }

  lemma JoinedBytes(s: Stream, at: nat, d: seq<byte>, e: seq<byte>, s1: Stream, m: int, s2: Stream, n: int, s3: Stream, k: int)
    requires at <= |s.data| <= s.cap && at + m >= 0
    requires Puts(s, at, d, s1, m) && Puts(s1, at + m, e, s2, n) && Puts(s, at, d + e, s3, k)
    ensures s2 == s3 && k == m + n
  {
    forall i | 0 <= i < |s2.data|
      ensures s2.data[i] == s3.data[i]
    {
      if at <= i < at + m {
        assert s1.data[at..at + m][i - at] == d[..m][i - at];
        assert s3.data[at..at + k][i - at] == (d + e)[..k][i - at];
      } else if at + m <= i < at + k {
        assert s2.data[at + m..at + k][i - at - m] == e[..n][i - at - m];
        assert s3.data[at..at + k][i - at] == (d + e)[..k][i - at];
      }
    }
    assert s2.data == s3.data;
  }

  /** What is written is what is read back from there. */
  lemma WriteThenRead(s: Stream, d: seq<byte>)
    requires StreamOk(s) && Plus(s.flags) && WriteFits(s, d)
    ensures WriteDefined(s, d) && Written(s, d).1 == Ok(Taken(s, d))
    ensures var back := Sought(Written(s, d).0, Target(s), SeekSet);
      back.1 == Ok(Target(s)) && StreamOk(back.0) && Reading(back.0, Taken(s, d)).1 == Ok(d[..Taken(s, d)])
  {
    FittingPlace(s, d);
    var off, n := Target(s), Taken(s, d);
    var s' := Written(s, d).0;
    assert StreamOk(s') && |s'.data| >= off + n;
    assert s'.data[off..off + n] == d[..n];
  }

  /** Writes touch no other byte, and never make the stream shorter. */
  lemma WriteIsLocal(s: Stream, d: seq<byte>, i: nat)
    requires StreamOk(s) && Plus(s.flags) && WriteDefined(s, d)
    requires i < |s.data| && !(Place(s) <= i < Written(s, d).0.pos)
    ensures i < |Written(s, d).0.data| && Written(s, d).0.data[i] == s.data[i]
  {
  }

  // ---------- Runs ----------

  datatype Op = ReadOp(len: nat) | WriteOp(d: seq<byte>) | SeekOp(pos: int, whence: Whence)

  datatype Answer = Failed | Bytes(bytes: seq<byte>) | Number(n: int) | Undefined

  function Answered(r: Result<int>): Answer {
    match r
    case Fails => Failed
    case Ok(n) => Number(n)
  }

  /** What the code does; where C leaves it open, nothing. */
  function Performed(s: Stream, op: Op): (r: (Stream, Answer))
    requires StreamOk(s)
    ensures StreamOk(r.0)
  {
    match op
    case ReadOp(len) =>
      var (s', r) := Reading(s, len);
      (s', if r.Fails? then Failed else Bytes(r.value))
    case WriteOp(d) =>
      if !WriteDefined(s, d) then (s, Undefined)
      else
        var (s', r) := Written(s, d);
        (s', Answered(r))
    case SeekOp(pos, whence) =>
      var (s', r) := Sought(s, pos, whence);
      (s', Answered(r))
  }

  function Ideally(s: Stream, op: Op): (r: (Stream, Answer))
    requires StreamOk(s)
    ensures StreamOk(r.0)
  {
    match op
    case ReadOp(len) =>
      var (s', r) := Reading(s, len);
      (s', if r.Fails? then Failed else Bytes(r.value))
    case WriteOp(d) =>
      var (s', r) := Writing(s, d);
      (s', Answered(r))
    case SeekOp(pos, whence) =>
      var (s', r) := Seeking(s, pos, whence);
      (s', Answered(r))
  }

  function PerformedAll(s: Stream, ops: seq<Op>): (r: (Stream, seq<Answer>))
    requires StreamOk(s)
    ensures StreamOk(r.0) && |r.1| == |ops|
  {
    if ops == [] then (s, [])
    else
      var (s', before) := PerformedAll(s, ops[..|ops| - 1]);
      var (s'', a) := Performed(s', ops[|ops| - 1]);
      (s'', before + [a])
  }

  function IdeallyAll(s: Stream, ops: seq<Op>): (r: (Stream, seq<Answer>))
    requires StreamOk(s)
    ensures StreamOk(r.0) && |r.1| == |ops|
  {
    if ops == [] then (s, [])
    else
      var (s', before) := IdeallyAll(s, ops[..|ops| - 1]);
      var (s'', a) := Ideally(s', ops[|ops| - 1]);
      (s'', before + [a])
  }

  /** The offsets the operation computes fit the int they are kept in, or fail all the same. */
  predicate OpFits(s: Stream, op: Op)
    requires StreamOk(s)
  {
    match op
    case ReadOp(_) => true
    case WriteOp(d) => WriteFits(s, d)
    case SeekOp(pos, whence) => SeekFits(s, pos, whence)
  }

  /** So they do in every operation of a run, in the state in which it is done. */
  ghost predicate AllFit(s: Stream, ops: seq<Op>)
    requires StreamOk(s)
  {
    ops == [] || (AllFit(s, ops[..|ops| - 1]) && OpFits(PerformedAll(s, ops[..|ops| - 1]).0, ops[|ops| - 1]))
  }

  /** The length of a write is an int. */
  predicate Lengths(ops: seq<Op>) {
    forall i :: 0 <= i < |ops| && ops[i].WriteOp? ==> |ops[i].d| <= INT_MAX
  }

  lemma {:induction false} ModeStays(s: Stream, ops: seq<Op>)
    requires StreamOk(s)
    ensures var s' := PerformedAll(s, ops).0; s'.cap == s.cap && s'.flags == s.flags
  {
    if ops != [] {
      ModeStays(s, ops[..|ops| - 1]);
    }
  }

  lemma OneIsIdeal(s: Stream, op: Op)
    requires StreamOk(s) && Plus(s.flags) && (op.WriteOp? ==> |op.d| <= INT_MAX)
    ensures Performed(s, op) == Ideally(s, op) <==> OpFits(s, op)
  {
    hide Written, Writing, Sought, Seeking, WriteFits, SeekFits, WriteDefined;
    match op
    case ReadOp(_) =>
    case WriteOp(d) =>
      WriteIsIdeal(s, d);
      AnsweredOnce(s, d);
    case SeekOp(pos, whence) =>
      SeekIsIdeal(s, pos, whence);
  }

  lemma AnsweredOnce(s: Stream, d: seq<byte>)
    requires StreamOk(s) && Plus(s.flags)
    ensures !Answered(Writing(s, d).1).Undefined?
  {
  }

  /** Step for step the code does what the sequence of bytes does. */
  ghost predicate AlwaysIdeal(s: Stream, ops: seq<Op>)
    requires StreamOk(s)
  {
    forall k :: 0 <= k <= |ops| ==> PerformedAll(s, ops[..k]) == IdeallyAll(s, ops[..k])
  }

  lemma {:induction false} AlwaysIdealMore(s: Stream, ops: seq<Op>)
    requires StreamOk(s) && ops != []
    ensures AlwaysIdeal(s, ops) <==> AlwaysIdeal(s, ops[..|ops| - 1]) && PerformedAll(s, ops) == IdeallyAll(s, ops)
  {
    hide PerformedAll, IdeallyAll;
    var n := |ops| - 1;
    assert ops[..n + 1] == ops;
    assert forall k :: 0 <= k <= n ==> ops[..n][..k] == ops[..k];
    if AlwaysIdeal(s, ops) {
      forall k | 0 <= k <= n
        ensures PerformedAll(s, ops[..n][..k]) == IdeallyAll(s, ops[..n][..k])
      {
        assert PerformedAll(s, ops[..k]) == IdeallyAll(s, ops[..k]);
      }
    }
    if AlwaysIdeal(s, ops[..n]) && PerformedAll(s, ops) == IdeallyAll(s, ops) {
      forall k | 0 <= k <= |ops|
        ensures PerformedAll(s, ops[..k]) == IdeallyAll(s, ops[..k])
      {
        if k <= n {
          assert PerformedAll(s, ops[..n][..k]) == IdeallyAll(s, ops[..n][..k]);
        }
      }
    }
  }

  /**
   In the modes r+, w+ and a+ the stream is a sequence of bytes capped at the size of the
   buffer, and every answer is that of the sequence, step for step exactly as long as the
   offsets fit an int.
   */
  lemma {:induction false} PlusModesAreIdeal(s: Stream, ops: seq<Op>)
    requires StreamOk(s) && Plus(s.flags) && Lengths(ops)
    ensures AllFit(s, ops) ==> PerformedAll(s, ops) == IdeallyAll(s, ops)
    ensures AllFit(s, ops) <==> AlwaysIdeal(s, ops)
  {
    hide Performed, Ideally, OpFits, AlwaysIdeal;
    if ops == [] {
      NothingDone(s);
    } else {
      var n := |ops| - 1;
      PlusModesAreIdeal(s, ops[..n]);
      AlwaysIdealMore(s, ops);
      ModeStays(s, ops[..n]);
      OneIsIdeal(PerformedAll(s, ops[..n]).0, ops[n]);
      if AllFit(s, ops[..n]) {
        var (m, before) := PerformedAll(s, ops[..n]);
        LastStep(s, ops, m, before);
      }
    }
  }

  lemma NothingDone(s: Stream)
    requires StreamOk(s)
    ensures AlwaysIdeal(s, [])
  {
    var none: seq<Op> := [];
    assert none[..0] == none;
  }

  lemma {:induction false} LastStep(s: Stream, ops: seq<Op>, m: Stream, before: seq<Answer>)
    requires StreamOk(s) && ops != [] && StreamOk(m)
    requires PerformedAll(s, ops[..|ops| - 1]) == (m, before) && IdeallyAll(s, ops[..|ops| - 1]) == (m, before)
    ensures PerformedAll(s, ops) == IdeallyAll(s, ops) ==> Performed(m, ops[|ops| - 1]) == Ideally(m, ops[|ops| - 1])
    ensures Performed(m, ops[|ops| - 1]) == Ideally(m, ops[|ops| - 1]) ==> PerformedAll(s, ops) == IdeallyAll(s, ops)
  {
    hide Performed, Ideally;
    var a, b := Performed(m, ops[|ops| - 1]), Ideally(m, ops[|ops| - 1]);
    PerformedLast(s, ops, m, before);
    IdeallyLast(s, ops, m, before);
    SameLast(PerformedAll(s, ops), IdeallyAll(s, ops), before, a, b);
  }

  lemma {:induction false} PerformedLast(s: Stream, ops: seq<Op>, m: Stream, before: seq<Answer>)
    requires StreamOk(s) && ops != [] && StreamOk(m) && PerformedAll(s, ops[..|ops| - 1]) == (m, before)
    ensures var a := Performed(m, ops[|ops| - 1]); PerformedAll(s, ops) == (a.0, before + [a.1])
  {
    hide Performed;
  }

  lemma {:induction false} IdeallyLast(s: Stream, ops: seq<Op>, m: Stream, before: seq<Answer>)
    requires StreamOk(s) && ops != [] && StreamOk(m) && IdeallyAll(s, ops[..|ops| - 1]) == (m, before)
    ensures var a := Ideally(m, ops[|ops| - 1]); IdeallyAll(s, ops) == (a.0, before + [a.1])
  {
    hide Ideally;
  }

  lemma SameLast(x: (Stream, seq<Answer>), y: (Stream, seq<Answer>), l: seq<Answer>, a: (Stream, Answer), b: (Stream, Answer))
    requires x == (a.0, l + [a.1]) && y == (b.0, l + [b.1])
    ensures x == y <==> a == b
  {
    assert (l + [a.1])[|l|] == a.1 && (l + [b.1])[|l|] == b.1;
  }

  /** With a buffer whose size is an int, only seeks can fail to fit. */
  lemma {:induction false} SmallBuffersFit(s: Stream, ops: seq<Op>)
    requires StreamOk(s) && s.cap <= INT_MAX
    requires forall i :: 0 <= i < |ops| && ops[i].SeekOp? ==> -INT_MAX <= ops[i].pos <= INT_MAX - s.cap
    ensures AllFit(s, ops)
  {
    if ops != [] {
      var n := |ops| - 1;
      SmallBuffersFit(s, ops[..n]);
      ModeStays(s, ops[..n]);
    }
  }

  /** Every write of a run is done where an int can hold its end. */
  ghost predicate WritesFit(s: Stream, ops: seq<Op>)
    requires StreamOk(s)
  {
    ops == [] ||
    (WritesFit(s, ops[..|ops| - 1])
     && (ops[|ops| - 1].WriteOp? ==> WriteFits(PerformedAll(s, ops[..|ops| - 1]).0, ops[|ops| - 1].d)))
  }

  /** In append mode no byte that is there ever changes, wherever the position is moved. */
  lemma {:induction false} AppendOnlyGrows(s: Stream, ops: seq<Op>)
    requires StreamOk(s) && Plus(s.flags) && s.flags.append && WritesFit(s, ops)
    ensures var s' := PerformedAll(s, ops).0; s.data <= s'.data && s'.flags == s.flags
  {
    if ops != [] {
      AppendOnlyGrows(s, ops[..|ops| - 1]);
    }
  }

  lemma CountsAreNatural(s: Stream, d: seq<byte>, pos: int, whence: Whence)
    requires StreamOk(s)
    ensures WriteDefined(s, d) && Written(s, d).1.Ok? ==> Written(s, d).1.value >= 0
    ensures Sought(s, pos, whence).1.Ok? ==> Sought(s, pos, whence).1.value >= 0
  {
  }

  /** Any sequence of operations on a memory stream gives the answers of the specification. */
  method Run(ms: MemoryStream, ops: seq<Op>) returns (answers: seq<Answer>)
    requires ms.Valid() && Lengths(ops)
    modifies ms, ms.buf
    ensures ms.Valid()
    ensures (ms.Contents(), answers) == PerformedAll(old(ms.Contents()), ops)
    ensures Plus(ms.flags) && AllFit(old(ms.Contents()), ops) ==>
      (ms.Contents(), answers) == IdeallyAll(old(ms.Contents()), ops)
  {
    hide Reading, Written, Sought, WriteDefined, AllFit;
    answers := [];
    ghost var s := ms.Contents();
    var i := 0;
    while i < |ops|
      invariant 0 <= i <= |ops| && ms.Valid()
      invariant (ms.Contents(), answers) == PerformedAll(s, ops[..i])
    {
      assert ops[..i + 1][..i] == ops[..i];
      match ops[i] {
        case ReadOp(len) =>
          var dest := new byte[len];
          var nr := ms.Read(dest, len);
          answers := answers + [if nr < 0 then Failed else Bytes(dest[..nr])];
        case WriteOp(d) =>
          CountsAreNatural(ms.Contents(), d, 0, SeekSet);
          var nw, defined := ms.Write(d);
          answers := answers + [if !defined then Undefined else if nw < 0 then Failed else Number(nw)];
        case SeekOp(pos, whence) =>
          CountsAreNatural(ms.Contents(), [], pos, whence);
          var r := ms.Seek(pos, whence);
          answers := answers + [if r < 0 then Failed else Number(r)];
      }
      i := i + 1;
    }
    assert ops[..i] == ops;
    if Plus(ms.flags) {
      PlusModesAreIdeal(s, ops);
    }
  }
}
