/**
 advio/rot13a.c: the substitution, and the loop that applies it block by block.
 */
module Rot13 {
  import opened Basics

  const BSZ: nat := 4096

  /** isalpha in the C locale. */
  predicate IsAlpha(c: byte) {
    0x41 <= c <= 0x5A || 0x61 <= c <= 0x7A
  }

  function Translate(c: byte): byte {
    if IsAlpha(c) then
      if c >= 0x6E then c - 13
      else if c >= 0x61 then c + 13
      else if c >= 0x4E then c - 13
      else c + 13
    else c
  }

  /** Letters are turned by half of their alphabet, everything else stays. */
  lemma TranslateTurns(c: byte)
    ensures 0x41 <= c <= 0x5A ==> Translate(c) as int == 0x41 + (c as int - 0x41 + 13) % 26
    ensures 0x61 <= c <= 0x7A ==> Translate(c) as int == 0x61 + (c as int - 0x61 + 13) % 26
    ensures !IsAlpha(c) ==> Translate(c) == c
    ensures Translate(Translate(c)) == c
  {
  }

  function TranslateAll(s: seq<byte>): (r: seq<byte>)
    ensures |r| == |s| && forall i :: 0 <= i < |s| ==> r[i] == Translate(s[i])
  {
    if s == [] then [] else TranslateAll(s[..|s| - 1]) + [Translate(s[|s| - 1])]
  }

  /** Applied twice, the program gives back its input. */
  lemma TwiceIsIdentity(s: seq<byte>)
    ensures TranslateAll(TranslateAll(s)) == s
  {
    forall i | 0 <= i < |s|
      ensures TranslateAll(TranslateAll(s))[i] == s[i]
    {
      TranslateTurns(s[i]);
    }
  }

  /** Distinct texts stay distinct. */
  lemma TranslateInjective(s: seq<byte>, t: seq<byte>)
    requires TranslateAll(s) == TranslateAll(t)
    ensures s == t
  {
    TwiceIsIdentity(s);
    TwiceIsIdentity(t);
  }

  /**
   read(2) on the input file: the kernel may give less than was asked for, 0 only at the end, or
   fail. rd says which, for every position: a number of bytes that is not possible stands for all there are.
   */
  function Given(file: seq<byte>, rd: nat -> int, pos: nat): (n: int)
    requires pos <= |file|
    ensures -1 <= n <= BSZ && pos + n <= |file| && (n == 0 ==> pos == |file|)
  {
    var want := if |file| - pos < BSZ then |file| - pos else BSZ;
    if rd(pos) < 0 then -1 else if 0 < rd(pos) <= want then rd(pos) else want
  }

  /** Where the loop stops: the first position at which a read gives nothing or fails. */
  function StopsAt(file: seq<byte>, rd: nat -> int, pos: nat): (end: nat)
    requires pos <= |file|
    ensures pos <= end <= |file| && Given(file, rd, end) <= 0
    decreases |file| - pos
  {
    if Given(file, rd, pos) <= 0 then pos else StopsAt(file, rd, pos + Given(file, rd, pos))
  }

  method Read(file: seq<byte>, rd: nat -> int, pos: nat, buf: array<byte>) returns (n: int)
    requires pos <= |file| && buf.Length == BSZ
    modifies buf
    ensures n == Given(file, rd, pos)
    ensures forall i :: 0 <= i < n ==> buf[i] == file[pos + i]
  {
    n := Given(file, rd, pos);
    forall i | 0 <= i < n {
      buf[i] := file[pos + i];
    }
  }

  /** The for loop over what was read. */
  method TranslateBuffer(buf: array<byte>, n: nat)
    requires n <= buf.Length
    modifies buf
    ensures buf[..n] == TranslateAll(old(buf[..n]))
  {
    hide Translate;
    var i := 0;
    while i < n
      invariant 0 <= i <= n
      invariant forall j :: 0 <= j < i ==> buf[j] == Translate(old(buf[j]))
      invariant forall j :: i <= j < n ==> buf[j] == old(buf[j])
    {
      buf[i] := Translate(buf[i]);
      i := i + 1;
    }
  }

  lemma TranslateJoins(s: seq<byte>, t: seq<byte>)
    ensures TranslateAll(s) + TranslateAll(t) == TranslateAll(s + t)
  {
    hide Translate;
  }

  /**
   The synchronous program. The output is the translation of what was read; exit(0) means that
   this is all of the input exactly when no read failed, whatever the sizes of the reads.
   wr says what each write takes.
   */
  method Synchronous(file: seq<byte>, rd: nat -> int, wr: nat -> int)
    returns (ok: bool, output: seq<byte>, ghost pos: nat)
    ensures pos <= |file| && output == TranslateAll(file[..pos])
    ensures ok ==> pos == StopsAt(file, rd, 0)
    ensures ok && Given(file, rd, pos) == 0 ==> output == TranslateAll(file)
    ensures output == TranslateAll(file) <==> pos == |file|
    ensures !ok ==> Given(file, rd, pos) > 0 && wr(pos) != Given(file, rd, pos)
    ensures (forall p :: 0 <= p < |file| && Given(file, rd, p) > 0 ==> wr(p) == Given(file, rd, p)) ==> ok
  {
    hide Translate, TranslateAll, Given;
    var buf := new byte[BSZ](_ => 0);
    var at := 0;
    output := [];
    assert file[..0] == [] && TranslateAll([]) == [];
    while true
      invariant 0 <= at <= |file| && output == TranslateAll(file[..at])
      invariant StopsAt(file, rd, 0) == StopsAt(file, rd, at)
      decreases |file| - at
    {
      var n := Read(file, rd, at, buf);
      assert n > 0 ==> buf[..n] == file[at..at + n];
      if n <= 0 {
        ok, pos := true, at;
        break;
      }
      TranslateBuffer(buf, n);
      if wr(at) != n {
        ok, pos := false, at;
        break;
      }
      TranslateJoins(file[..at], file[at..at + n]);
      assert file[..at] + file[at..at + n] == file[..at + n];
      output := output + buf[..n];
      at := at + n;
    }
    assert file[..|file|] == file;
    assert pos < |file| ==> |output| != |TranslateAll(file)|;
  }

  /** A file of the one letter a and a read that fails: exit(0) and an empty output. */
  method FailedReadPasses() returns (ok: bool, output: seq<byte>)
    ensures ok && output == [] != TranslateAll([0x61])
  {
    ghost var pos;
    ok, output, pos := Synchronous([0x61], _ => -1, _ => 1);
  }
}
