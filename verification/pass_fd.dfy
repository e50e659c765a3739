/**
 lib/senderr.c, lib/sendfd.c and lib/recvfd.c: messages, then a null and a status byte, in one
 stream; the receiver takes the stream in pieces of any size.
 */
module PassFd {
  import opened Basics

  const MAXLINE: nat := 4096

  /** What one recvmsg gives: bytes, and perhaps a descriptor. */
  datatype Chunk = Chunk(bytes: seq<byte>, fd: Option<nat>)

  // ---------- The sender ----------

  /** The status byte: the low byte of the negated error, never 0. */
  function Status(err: int): (b: byte)
    requires err < 0
    ensures b != 0
  {
    var low := (-err) % 256;
    if low == 0 then 1 else low as byte
  }

  /** send_fd: the two bytes, and the descriptor that goes with them. */
  method SendFd(fdToSend: int) returns (buf: array<byte>, control: Option<nat>)
    ensures fresh(buf) && buf.Length == 2 && buf[0] == 0
    ensures fdToSend < 0 ==> buf[1] == Status(fdToSend) && control == None
    ensures fdToSend >= 0 ==> buf[1] == 0 && control == Some(fdToSend)
  {
    buf := new byte[2];
    if fdToSend < 0 {
      control := None;
      buf[1] := ((-fdToSend) % 256) as byte;
      if buf[1] == 0 {
        buf[1] := 1;
      }
    } else {
      control := Some(fdToSend);
      buf[1] := 0;
    }
    buf[0] := 0;
  }

  /** The error that send_err passes on: it must be negative. */
  function Negative(errcode: int): (e: int)
    ensures e < 0
  {
    if errcode >= 0 then -1 else errcode
  }

  /** send_err: the bytes it puts into the stream. */
  method SendErr(errcode: int, msg: seq<byte>) returns (stream: seq<byte>)
    requires 0 !in msg
    ensures stream == msg + [0, Status(Negative(errcode))]
  {
    stream := [];
    if |msg| > 0 {
      stream := stream + msg;
    }
    var err := errcode;
    if err >= 0 {
      err := -1;
    }
    var buf, control := SendFd(err);
    stream := stream + buf[..];
    assert buf[..] == [0, Status(err)];
  }

  // ---------- The receiver ----------

  /** err_dump, or the value returned. */
  datatype Outcome = Dump | Returned(r: int)

  /** What a chunk is: message bytes, the end of the stream, or neither. */
  datatype Piece = Data | Final(status: byte) | Bad

  predicate Plain(s: seq<byte>) {
    forall i :: 0 <= i < |s| ==> s[i] != 0
  }

  predicate IsFinal(s: seq<byte>) {
    |s| >= 2 && s[|s| - 2] == 0 && Plain(s[..|s| - 2])
  }

  function PieceOf(s: seq<byte>): Piece {
    if Plain(s) then Data else if IsFinal(s) then Final(s[|s| - 1]) else Bad
  }

  /** A run of recv_fd over chunks: the bytes handed to userfunc, and the outcome. accepts: its calls that succeed. */
  function Received(chunks: seq<Chunk>, accepts: int): (seq<byte>, Outcome) {
    if chunks == [] then ([], Returned(-1))
    else
      var c := chunks[0];
      match PieceOf(c.bytes)
      case Bad => ([], Dump)
      case Data =>
        if c.bytes == [] || accepts <= 0 then (c.bytes, Returned(-1))
        else
          var (rest, out) := Received(chunks[1..], accepts - 1);
          (c.bytes + rest, out)
      case Final(status) =>
        var text := c.bytes[..|c.bytes| - 2];
        if status == 0 && c.fd.None? then ([], Dump)
        else if text != [] && accepts <= 0 then (text, Returned(-1))
        else (text, Returned(if status == 0 then c.fd.value else -(status as int)))
  }

  lemma FirstNull(s: seq<byte>, z: nat)
    requires z < |s| && s[z] == 0 && Plain(s[..z])
    ensures PieceOf(s) == if z == |s| - 2 then Final(s[|s| - 1]) else Bad
  {
    assert !Plain(s);
    if z == |s| - 2 {
      assert s[..z] == s[..|s| - 2];
    }
  }

  /** The inner loop of recv_fd: looks for the null and the status byte in what a recvmsg gave. */
  method Scan(buf: seq<byte>, fd: Option<nat>) returns (ok: bool, nr: nat, status: int, newfd: int)
    requires buf != []
    ensures ok <==> !PieceOf(buf).Bad? && (PieceOf(buf) == Final(0) ==> fd.Some?)
    ensures ok && PieceOf(buf).Data? ==> nr == |buf| && status == -1
    ensures ok && PieceOf(buf).Final? ==>
      nr == |buf| - 2 && status == PieceOf(buf).status as int && newfd == if status == 0 then fd.value else -status
  {
    nr, status, newfd := |buf|, -1, -1;
    var ptr := 0;
    while ptr < nr
      invariant 0 <= ptr <= |buf| && status >= -1
      invariant status == -1 ==> nr == |buf| && Plain(buf[..ptr])
      invariant status >= 0 ==> nr == |buf| - 2 && ptr == |buf| - 1 && status == buf[ptr] as int && PieceOf(buf) == Final(buf[ptr])
      invariant status == 0 ==> fd.Some? && newfd == fd.value
      invariant status > 0 ==> newfd == -status
      decreases nr - ptr
    {
      ptr := ptr + 1;
      if buf[ptr - 1] == 0 {
        FirstNull(buf, ptr - 1);
        if ptr != nr - 1 {
          return false, 0, -1, -1;
        }
        status := buf[ptr] as int;
        if status == 0 {
          if fd.None? {
            return false, 0, -1, -1;
          }
          newfd := fd.value;
        } else {
          newfd := -status;
        }
        nr := nr - 2;
      } else {
        assert buf[..ptr] == buf[..ptr - 1] + [buf[ptr - 1]];
      }
    }
    assert status == -1 ==> buf[..ptr] == buf;
    ok := true;
  }

  // ---------- What becomes of the chunks ----------

  function Flat(chunks: seq<Chunk>): seq<byte> {
    if chunks == [] then [] else chunks[0].bytes + Flat(chunks[1..])
  }

  predicate Pieces(chunks: seq<Chunk>) {
    forall i :: 0 <= i < |chunks| ==> 0 < |chunks[i].bytes| <= MAXLINE
  }

  function Answer(b: byte, fd: Option<nat>): Outcome {
    if b != 0 then Returned(-(b as int)) else if fd.Some? then Returned(fd.value) else Dump
  }

  /** No null so far. */
  predicate Plains(chunks: seq<Chunk>) {
    forall i :: 0 <= i < |chunks| ==> Plain(chunks[i].bytes)
  }

  /** The receiver gets as far as chunk k: all in front of it is text, and userfunc took it. */
  predicate Reaches(chunks: seq<Chunk>, accepts: int, k: int) {
    0 <= k < |chunks| && Plains(chunks[..k]) && (k == 0 || k <= accepts)
  }

  /** The chunk ends in a null and a status and has no other null; a zero status comes with a descriptor. */
  predicate Complete(c: Chunk) {
    IsFinal(c.bytes) && (Last(c) == 0 ==> c.fd.Some?)
  }

  function Last(c: Chunk): byte {
    if c.bytes == [] then 0 else c.bytes[|c.bytes| - 1]
  }

  /** What is handed over of a chunk: all but the null and the status. */
  function Text(c: Chunk): seq<byte> {
    if Plain(c.bytes) || |c.bytes| < 2 then c.bytes else c.bytes[..|c.bytes| - 2]
  }

  /** userfunc does not take what chunk k has for it. */
  predicate Refuses(chunks: seq<Chunk>, accepts: int, k: int) {
    && Reaches(chunks, accepts, k) && accepts <= k
    && (Plain(chunks[k].bytes) || Complete(chunks[k])) && Text(chunks[k]) != []
  }

  /** Chunk k has a null at the wrong place, or no descriptor where there should be one. */
  predicate Malformed(chunks: seq<Chunk>, accepts: int, k: int) {
    Reaches(chunks, accepts, k) && !Plain(chunks[k].bytes) && !Complete(chunks[k])
  }

  /** Chunk k ends the stream as it should, and userfunc takes its text. */
  predicate Ends(chunks: seq<Chunk>, accepts: int, k: int) {
    Reaches(chunks, accepts, k) && Complete(chunks[k]) && (Text(chunks[k]) == [] || k < accepts)
  }

  /** A receiver that gets as far as chunk k goes on from there. */
  lemma {:induction false} GoesOn(chunks: seq<Chunk>, accepts: int, k: nat)
    requires Pieces(chunks) && k <= |chunks| && Plains(chunks[..k]) && (k == 0 || k <= accepts)
    ensures var rest := Received(chunks[k..], accepts - k);
      Received(chunks, accepts) == (Flat(chunks[..k]) + rest.0, rest.1)
    decreases k
  {
    hide PieceOf;
    if k == 0 {
      var all := Received(chunks, accepts);
      assert chunks[0..] == chunks && chunks[..0] == [] && [] + all.0 == all.0;
    } else {
      assert Plain(chunks[..k][0].bytes) && PieceOf(chunks[0].bytes) == Data by { IsData(chunks[0].bytes); }
      assert chunks[1..][..k - 1] == chunks[..k][1..] && chunks[1..][k - 1..] == chunks[k..];
      PlainsTail(chunks[..k]);
      GoesOn(chunks[1..], accepts - 1, k - 1);
      var rest := Received(chunks[k..], accepts - k);
      assert chunks[..k][0] == chunks[0];
      assert chunks[0].bytes + (Flat(chunks[..k][1..]) + rest.0) == (chunks[0].bytes + Flat(chunks[..k][1..])) + rest.0;
    }
  }

  lemma PlainsTail(chunks: seq<Chunk>)
    requires Plains(chunks) && chunks != []
    ensures Plains(chunks[1..])
  {
    hide Plain;
  }

  lemma IsData(s: seq<byte>)
    ensures Plain(s) <==> PieceOf(s) == Data
    ensures !Plain(s) && IsFinal(s) ==> PieceOf(s) == Final(s[|s| - 1])
    ensures !Plain(s) && !IsFinal(s) ==> PieceOf(s) == Bad
    ensures IsFinal(s) ==> !Plain(s)
  {
  }

  /** At the chunk where it stops. */
  lemma StopsAt(chunks: seq<Chunk>, accepts: int, k: nat)
    requires Pieces(chunks) && Reaches(chunks, accepts, k)
    ensures Refuses(chunks, accepts, k) ==> Received(chunks, accepts) == (Flat(chunks[..k]) + Text(chunks[k]), Returned(-1))
    ensures Malformed(chunks, accepts, k) ==> Received(chunks, accepts) == (Flat(chunks[..k]), Dump)
    ensures Ends(chunks, accepts, k) ==>
      Received(chunks, accepts) == (Flat(chunks[..k]) + Text(chunks[k]), Answer(Last(chunks[k]), chunks[k].fd))
  {
    hide PieceOf, Plain;
    GoesOn(chunks, accepts, k);
    IsData(chunks[k].bytes);
    assert chunks[k..][0] == chunks[k];
    assert Flat(chunks[..k]) + [] == Flat(chunks[..k]);
  }

  /** Some chunk is the last that is looked at, or the chunks are used up. */
  lemma {:induction false} Stops(chunks: seq<Chunk>, accepts: int, from: nat) returns (k: nat)
    requires Pieces(chunks) && from <= |chunks| && Plains(chunks[..from]) && (from == 0 || from <= accepts)
    ensures k <= |chunks| && (k == |chunks| ==> Plains(chunks) && (chunks == [] || |chunks| <= accepts))
    ensures k < |chunks| ==> Refuses(chunks, accepts, k) || Malformed(chunks, accepts, k) || Ends(chunks, accepts, k)
    decreases |chunks| - from
  {
    k := from;
    if from == |chunks| {
      assert chunks[..from] == chunks;
    } else if Plain(chunks[from].bytes) && from < accepts {
      assert chunks[..from + 1] == chunks[..from] + [chunks[from]];
      k := Stops(chunks, accepts, from + 1);
    } else {
      hide Plain;
    }
  }

  /**
   What the caller of recv_fd can rely on: -1 for a connection closed before the end of the
   stream or a call of userfunc that fails, an end of the program exactly for a malformed
   chunk, the answer of the server at the end of the stream, and a descriptor only as that.
   */
  ghost predicate RightlyEnds(chunks: seq<Chunk>, accepts: int, handed: seq<byte>, out: Outcome) {
    && (Plains(chunks) && |chunks| <= accepts ==> handed == Flat(chunks) && out == Returned(-1))
    && (forall k :: Refuses(chunks, accepts, k) ==> handed == Flat(chunks[..k]) + Text(chunks[k]) && out == Returned(-1))
    && (forall k :: Malformed(chunks, accepts, k) ==> handed == Flat(chunks[..k]))
    && (out == Dump <==> exists k :: Malformed(chunks, accepts, k))
    && (forall k :: Ends(chunks, accepts, k) ==>
          handed == Flat(chunks[..k]) + Text(chunks[k]) && out == Answer(Last(chunks[k]), chunks[k].fd))
    && (out.Returned? && out.r >= 0 ==>
          exists k :: Ends(chunks, accepts, k) && Last(chunks[k]) == 0 && chunks[k].fd == Some(out.r))
  }

  lemma Outcomes(chunks: seq<Chunk>, accepts: int)
    requires Pieces(chunks)
    ensures RightlyEnds(chunks, accepts, Received(chunks, accepts).0, Received(chunks, accepts).1)
  {
    hide PieceOf, Plain, Flat, Received;
    forall k | Reaches(chunks, accepts, k)
      ensures Refuses(chunks, accepts, k) ==> Received(chunks, accepts) == (Flat(chunks[..k]) + Text(chunks[k]), Returned(-1))
      ensures Malformed(chunks, accepts, k) ==> Received(chunks, accepts) == (Flat(chunks[..k]), Dump)
      ensures Ends(chunks, accepts, k) ==>
        Received(chunks, accepts) == (Flat(chunks[..k]) + Text(chunks[k]), Answer(Last(chunks[k]), chunks[k].fd))
    {
      StopsAt(chunks, accepts, k);
    }
    var last := Stops(chunks, accepts, 0);
    if Plains(chunks) && (chunks == [] || |chunks| <= accepts) {
      UsedUp(chunks, accepts);
    }
    if last < |chunks| {
      assert Reaches(chunks, accepts, last);
    }
  }

  /** The connection is closed before the stream has ended. */
  lemma UsedUp(chunks: seq<Chunk>, accepts: int)
    requires Pieces(chunks) && Plains(chunks) && (chunks == [] || |chunks| <= accepts)
    ensures Received(chunks, accepts) == (Flat(chunks), Returned(-1))
  {
    hide PieceOf, Plain;
    assert chunks[..|chunks|] == chunks && chunks[|chunks|..] == [];
    GoesOn(chunks, accepts, |chunks|);
    assert Flat(chunks) + [] == Flat(chunks);
  }

  /** recv_fd. userfunc takes all it is given on its first accepts calls. */
  method RecvFd(chunks: seq<Chunk>, accepts: int) returns (handed: seq<byte>, out: Outcome)
    requires Pieces(chunks)
    ensures (handed, out) == Received(chunks, accepts)
    ensures RightlyEnds(chunks, accepts, handed, out)
  {
    hide PieceOf, RightlyEnds, Received, Flat;
    Outcomes(chunks, accepts);
    handed := [];
    var left, n := accepts, 0;
    ghost var rest := Received(chunks, accepts);
    assert chunks[0..] == chunks && [] + rest.0 == rest.0;
    while true
      invariant 0 <= n <= |chunks| && rest == Received(chunks[n..], left)
      invariant Received(chunks, accepts) == (handed + rest.0, rest.1)
      decreases |chunks| - n
    {
      assert handed + [] == handed;
      if n == |chunks| {
        NoMoreChunks(left);
        return handed, Returned(-1);
      }
      var buf := chunks[n].bytes;
      assert chunks[n..][0] == chunks[n] && chunks[n..][1..] == chunks[n + 1..];
      NextChunk(chunks[n..], left);
      var ok, nr, status, newfd := Scan(buf, chunks[n].fd);
      if !ok {
        return handed, Dump;
      }
      assert PieceOf(buf).Data? ==> buf[..nr] == buf;
      ghost var before := handed;
      if nr > 0 {
        handed := handed + buf[..nr];
        left := left - 1;
        if left < 0 {
          return handed, Returned(-1);
        }
      }
      if status >= 0 {
        return handed, Returned(newfd);
      }
      n := n + 1;
      rest := Received(chunks[n..], left);
      assert (before + buf) + rest.0 == before + (buf + rest.0);
    }
  }

  lemma NoMoreChunks(left: int)
    ensures Received([], left) == ([], Returned(-1))
  {
  }

  /** What the next chunk makes of the rest. */
  lemma NextChunk(chunks: seq<Chunk>, left: int)
    requires chunks != [] && chunks[0].bytes != []
    ensures var c, piece, r := chunks[0], PieceOf(chunks[0].bytes), Received(chunks, left);
      var n := |c.bytes| - 2;
      && (piece.Bad? || (piece == Final(0) && c.fd.None?) ==> r == ([], Dump))
      && (piece.Data? && left <= 0 ==> r == (c.bytes, Returned(-1)))
      && (piece.Data? && left > 0 ==> r == (c.bytes + Received(chunks[1..], left - 1).0, Received(chunks[1..], left - 1).1))
      && (piece.Final? ==> n >= 0)
      && (piece.Final? && (piece.status == 0 ==> c.fd.Some?) && n > 0 && left <= 0 ==> r == (c.bytes[..n], Returned(-1)))
      && (piece.Final? && (piece.status == 0 ==> c.fd.Some?) && (n == 0 || left > 0) ==>
            r == (c.bytes[..n], Returned(if piece.status == 0 then c.fd.value else -(piece.status as int))))
  {
    hide Plain;
  }

  // ---------- Both together ----------

  /** The last piece holds both the null and the status. */
  predicate Unsplit(chunks: seq<Chunk>) {
    chunks != [] && |chunks[|chunks| - 1].bytes| >= 2
  }

  lemma {:induction false} FlatLength(chunks: seq<Chunk>)
    requires Pieces(chunks)
    ensures |Flat(chunks)| >= |chunks|
    ensures chunks != [] ==> |Flat(chunks)| >= |chunks[|chunks| - 1].bytes| + |chunks| - 1
  {
    if chunks != [] {
      FlatLength(chunks[1..]);
    }
  }

  /**
   Whatever the message, the status and the pieces: if the last two bytes come together, the
   receiver hands over the message and returns the negated status, or the descriptor that came
   with a zero status; if not, it gives up.
   */
  lemma {:induction false} Frame(msg: seq<byte>, b: byte, chunks: seq<Chunk>, accepts: int)
    requires Plain(msg) && Pieces(chunks) && Flat(chunks) == msg + [0, b] && accepts >= |msg|
    ensures chunks != []
    ensures Unsplit(chunks) ==> Received(chunks, accepts).1 == Answer(b, chunks[|chunks| - 1].fd)
    ensures Unsplit(chunks) && Received(chunks, accepts).1.Returned? ==> Received(chunks, accepts).0 == msg
    ensures !Unsplit(chunks) ==> Received(chunks, accepts).1 == Dump
    decreases |chunks|
  {
    var s, c, rest := msg + [0, b], chunks[0].bytes, chunks[1..];
    assert s == c + Flat(rest);
    assert s[..|c|] == c && s[|c|..] == Flat(rest);
    FlatLength(rest);
    if |c| <= |msg| {
      assert c == msg[..|c|];
      assert Flat(rest) == msg[|c|..] + [0, b];
      Frame(msg[|c|..], b, rest, accepts - 1);
      assert c + msg[|c|..] == msg;
      assert PieceOf(c) == Data;
    } else {
      FrameLast(msg, b, chunks, accepts);
    }
  }

  /** The piece with the null is the last of the frame, or gives it away. */
  lemma {:induction false} FrameLast(msg: seq<byte>, b: byte, chunks: seq<Chunk>, accepts: int)
    requires Plain(msg) && Pieces(chunks) && Flat(chunks) == msg + [0, b] && accepts >= |msg|
    requires chunks != [] && |chunks[0].bytes| > |msg|
    ensures Unsplit(chunks) ==> Received(chunks, accepts).1 == Answer(b, chunks[|chunks| - 1].fd)
    ensures Unsplit(chunks) && Received(chunks, accepts).1.Returned? ==> Received(chunks, accepts).0 == msg
    ensures !Unsplit(chunks) ==> Received(chunks, accepts).1 == Dump
  {
    hide PieceOf, Plain;
    var s, c, rest := msg + [0, b], chunks[0].bytes, chunks[1..];
    assert s == c + Flat(rest);
    assert s[..|c|] == c && s[|c|..] == Flat(rest);
    FlatLength(rest);
    assert c[|msg|] == 0 && c[..|msg|] == msg;
    FirstNull(c, |msg|);
    if |c| == |s| {
      assert rest == [] && c == s && c[..|c| - 2] == msg;
    } else {
      assert |rest| == 1 && |chunks[|chunks| - 1].bytes| == 1;
    }
  }

  /** send_err and recv_fd: every message and every error, in any pieces. */
  lemma ErrorRoundTrip(errcode: int, msg: seq<byte>, chunks: seq<Chunk>, accepts: int)
    requires Plain(msg) && Pieces(chunks) && accepts >= |msg|
    requires Flat(chunks) == msg + [0, Status(Negative(errcode))]
    ensures Received(chunks, accepts) == (msg, Returned(-(Status(Negative(errcode)) as int))) <==> Unsplit(chunks)
    ensures !Unsplit(chunks) ==> Received(chunks, accepts).1 == Dump
  {
    Frame(msg, Status(Negative(errcode)), chunks, accepts);
  }

  lemma {:induction false} FlatSmall(c: Chunk, d: Chunk)
    ensures Flat([c]) == c.bytes && Flat([c, d]) == c.bytes + d.bytes
  {
    assert [c][1..] == [] && [c, d][1..] == [d] && [d][1..] == [];
    assert Flat([]) == [] && c.bytes + [] == c.bytes && d.bytes + [] == d.bytes;
    assert Flat([c, d]) == c.bytes + Flat([d]);
  }

  /** The error -1 without a message, its two bytes apart: the receiver gives up. Together they arrive. */
  lemma SplitGivesUp()
    ensures Received([Chunk([0], None), Chunk([1], None)], 0).1 == Dump
    ensures Received([Chunk([0, 1], None)], 0) == ([], Returned(-1))
  {
    hide Received, Flat, PieceOf;
    var apart, together := [Chunk([0], None), Chunk([1], None)], [Chunk([0, 1], None)];
    FlatSmall(apart[0], apart[1]);
    FlatSmall(together[0], together[0]);
    assert [0] + [1 as byte] == [0, 1] == [] + [0, 1];
    assert Status(Negative(-1)) == 1;
    ErrorRoundTrip(-1, [], apart, 0);
    ErrorRoundTrip(-1, [], together, 0);
  }

  /** The error -256 arrives as -1. */
  lemma StatusIsCut()
    ensures Status(Negative(-256)) == 1 == Status(Negative(-1))
  {
    ErrorFits(-256);
    ErrorFits(-1);
  }

  /** The receiver gets the error itself exactly when it fits into the status byte. */
  lemma ErrorFits(errcode: int)
    ensures -(Status(Negative(errcode)) as int) == errcode <==> -255 <= errcode <= -1
    ensures errcode >= 0 || errcode % 256 == 0 ==> Status(Negative(errcode)) == 1
    ensures errcode < 0 && errcode % 256 != 0 ==> (Status(errcode) as int + errcode) % 256 == 0
  {
  }
}
