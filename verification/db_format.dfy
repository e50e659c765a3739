/**
 The text formats of the database files (db/db.c): decimal numbers as printed by
 sprintf and read back by atol, chain pointers in a field of fixed width, and
 variable-length index records.

 Bytes are characters here, because everything the index file holds is text.
 */
module DbFormat {

  const PTR_SZ: nat := 7        // size of a pointer field
  const PTR_MAX: nat := 9999999 // largest offset such a field can hold
  const IDXLEN_SZ: nat := 4     // size of the length field of a record
  const HDR_SZ: nat := 11       // pointer field plus length field
  const IDXLEN_MIN: nat := 6
  const IDXLEN_MAX: nat := 1024
  const DATLEN_MIN: nat := 2
  const DATLEN_MAX: nat := 1024
  const SEP: char := ':'
  const SPACE: char := ' '
  const NEWLINE: char := '\n'
  const NUL: char := '\0'

  // ---------- Decimal numbers ----------

  function DigitChar(d: nat): (c: char)
    requires d < 10
    ensures IsDigit(c) && DigitVal(c) == d
  {
    '0' + d as char
  }

  predicate IsDigit(c: char) {
    '0' <= c <= '9'
  }

  function DigitVal(c: char): nat
    requires IsDigit(c)
  {
    (c - '0') as nat
  }

  /** The characters isspace accepts in the C locale. */
  predicate IsSpace(c: char) {
    c == ' ' || '\t' <= c <= '\r'
  }

  /** A number as the conversion %lld prints it. */
  function Digits(n: nat): (s: string)
    ensures |s| > 0
    ensures forall i :: 0 <= i < |s| ==> IsDigit(s[i])
  {
    if n < 10 then [DigitChar(n)] else Digits(n / 10) + [DigitChar(n % 10)]
  }

  function ParseDigits(s: string, acc: nat): nat {
    if s == [] || !IsDigit(s[0]) then acc
    else ParseDigits(s[1..], 10 * acc + DigitVal(s[0]))
  }

  /** atol: skip white space, take an optional sign, then digits up to anything else. */
  function Atol(s: string): int
    decreases |s|
  {
    if s == [] then 0
    else if IsSpace(s[0]) then Atol(s[1..])
    else if s[0] == '-' then -(ParseDigits(s[1..], 0) as int)
    else if s[0] == '+' then ParseDigits(s[1..], 0)
    else ParseDigits(s, 0)
  }

  function Blanks(n: nat): (s: string)
    ensures |s| == n && forall i :: 0 <= i < n ==> s[i] == SPACE
  {
    seq(n, i => SPACE)
  }

  /** The conversion %*lld: right-justified in a field of at least the given width. */
  function Field(width: nat, n: nat): (s: string)
    ensures |s| >= width
  {
    var d := Digits(n);
    if |d| >= width then d else Blanks(width - |d|) + d
  }

  lemma {:induction false} ParseDigitsOfDigits(n: nat, rest: string)
    ensures ParseDigits(Digits(n) + rest, 0) == ParseDigits(rest, n)
    decreases n
  {
    if n < 10 {
      assert (Digits(n) + rest)[1..] == rest;
    } else {
      var last := [DigitChar(n % 10)];
      assert Digits(n) + rest == Digits(n / 10) + (last + rest);
      ParseDigitsOfDigits(n / 10, last + rest);
      assert (last + rest)[1..] == rest;
    }
  }

  lemma {:induction false} AtolSkipsBlanks(k: nat, s: string)
    ensures Atol(Blanks(k) + s) == Atol(s)
  {
    if k == 0 {
      assert Blanks(k) + s == s;
    } else {
      assert (Blanks(k) + s)[1..] == Blanks(k - 1) + s;
      AtolSkipsBlanks(k - 1, s);
    }
  }

  lemma AtolOfDigits(n: nat)
    ensures Atol(Digits(n)) == n
  {
    ParseDigitsOfDigits(n, []);
    assert Digits(n) + [] == Digits(n);
  }

  /** atol undoes sprintf, whatever the padding. */
  lemma AtolOfField(width: nat, n: nat)
    ensures Atol(Field(width, n)) == n
  {
    AtolOfDigits(n);
    var d := Digits(n);
    if |d| < width {
      AtolSkipsBlanks(width - |d|, d);
    }
  }

  function Pow10(k: nat): (p: nat)
    ensures p > 0
  {
    if k == 0 then 1 else 10 * Pow10(k - 1)
  }

  lemma {:induction false} DigitsLength(n: nat, k: nat)
    requires k > 0
    ensures |Digits(n)| <= k <==> n < Pow10(k)
    decreases n
  {
    if n >= 10 && k > 1 {
      DigitsLength(n / 10, k - 1);
    }
    if n < 10 {
      assert Pow10(k) == 10 * Pow10(k - 1);
    } else if k == 1 {
      assert Pow10(1) == 10 * Pow10(0) == 10;
    }
  }

  // ---------- Chain pointers ----------

  /** What _db_writeptr writes. */
  function PtrText(p: nat): string {
    Field(PTR_SZ, p)
  }

  /** A pointer fills its field exactly when it passes the range check of _db_writeptr. */
  lemma PtrTextFits(p: nat)
    ensures |PtrText(p)| == PTR_SZ <==> p <= PTR_MAX
  {
    DigitsLength(p, PTR_SZ);
    assert Pow10(7) == 10000000 by {
      assert Pow10(1) == 10 && Pow10(2) == 100 && Pow10(3) == 1000 && Pow10(4) == 10000;
      assert Pow10(5) == 100000 && Pow10(6) == 1000000;
    }
  }

  /** _db_readptr recovers what _db_writeptr wrote in the fixed field. */
  lemma PtrRoundTrip(p: nat)
    requires p <= PTR_MAX
    ensures |PtrText(p)| == PTR_SZ && Atol(PtrText(p)) == p
  {
    PtrTextFits(p);
    AtolOfField(PTR_SZ, p);
  }

  lemma LenTextFits(n: nat)
    requires n <= IDXLEN_MAX
    ensures |Field(IDXLEN_SZ, n)| == IDXLEN_SZ && Atol(Field(IDXLEN_SZ, n)) == n
  {
    DigitsLength(n, IDXLEN_SZ);
    assert Pow10(4) == 10000 by {
      assert Pow10(1) == 10 && Pow10(2) == 100 && Pow10(3) == 1000;
    }
    AtolOfField(IDXLEN_SZ, n);
  }

  // ---------- Index records ----------

  /** A C string without separators: what the source demands of a key. */
  predicate KeyText(key: string) {
    NUL !in key && SEP !in key
  }

  /** The part of an index record after the length field. */
  function Entry(key: string, datoff: nat, datlen: nat): string {
    key + [SEP] + Digits(datoff) + [SEP] + Digits(datlen) + [NEWLINE]
  }

  /** An index record as its fields, the chain pointer first. */
  datatype Rec = Rec(ptr: nat, key: string, datoff: nat, datlen: nat) {
    function EntryLen(): nat {
      |Entry(key, datoff, datlen)|
    }

    function Size(): nat {
      HDR_SZ + EntryLen()
    }

    /** The values _db_writeidx accepts, for data that db_store accepts. */
    predicate Writable() {
      && ptr <= PTR_MAX
      && 0 < datlen <= DATLEN_MAX
      && IDXLEN_MIN <= EntryLen() <= IDXLEN_MAX
    }

    /** The values both _db_writeidx and _db_readidx accept. */
    predicate Ok() {
      Writable() && KeyText(key)
    }

    /** The bytes _db_writeidx writes. */
    function Text(): string {
      PtrText(ptr) + Field(IDXLEN_SZ, EntryLen()) + Entry(key, datoff, datlen)
    }
  }

  /** The first position of c in s, or |s|. */
  function StrChr(s: string, c: char): (i: nat)
    ensures i <= |s|
    ensures i < |s| ==> s[i] == c
    ensures c !in s[..i]
  {
    if s == [] || s[0] == c then 0
    else
      var i := 1 + StrChr(s[1..], c);
      assert s[..i] == [s[0]] + s[1..][..i - 1];
      i
  }

  /** The C string that starts a buffer: everything before the first null. */
  function CStr(s: string): string {
    s[..StrChr(s, NUL)]
  }

  datatype Parsed =
    | Eof                       // nothing left to read
    | Malformed                 // the source calls err_dump
    | Record(ptr: int, idxlen: nat, key: string, datoff: nat, datlen: nat)

  /** The entry of a record, split at its two separators. */
  function ParseEntry(ptr: int, body: string): (r: Parsed)
    requires |body| > 0
    ensures !r.Eof?
    ensures r.Record? ==> r.ptr == ptr && r.idxlen == |body| && KeyText(r.key) && 0 < r.datlen <= DATLEN_MAX
  {
    if body[|body| - 1] != NEWLINE then Malformed else
    var s := CStr(body[..|body| - 1]);
    var i := StrChr(s, SEP);
    if i == |s| then Malformed else
    var rest := s[i + 1..];
    var j := StrChr(rest, SEP);
    if j == |rest| then Malformed else
    if SEP in rest[j + 1..] then Malformed else
    var datoff := Atol(rest[..j]);
    if datoff < 0 then Malformed else
    var datlen := Atol(rest[j + 1..]);
    if datlen <= 0 || datlen > DATLEN_MAX then Malformed else
    Record(ptr, |body|, s[..i], datoff, datlen)
  }

  /** What _db_readidx makes of the bytes at an offset; any bytes at all. */
  function ParseRecord(idx: string, off: nat, sequential: bool): Parsed {
    if off + HDR_SZ > |idx| then
      if off >= |idx| && sequential then Eof else Malformed
    else
      var ptr := Atol(idx[off..off + PTR_SZ]);
      var len := Atol(idx[off + PTR_SZ..off + HDR_SZ]);
      if len < IDXLEN_MIN || len > IDXLEN_MAX then Malformed else
      if off + HDR_SZ + len > |idx| then Malformed else
      ParseEntry(ptr, idx[off + HDR_SZ..off + HDR_SZ + len])
  }

  lemma {:induction false} StrChrAt(a: string, c: char, b: string)
    requires c !in a
    ensures StrChr(a + [c] + b, c) == |a|
  {
    if a == [] {
    } else {
      assert (a + [c] + b)[1..] == a[1..] + [c] + b;
      StrChrAt(a[1..], c, b);
    }
  }

  lemma StrChrAbsent(s: string, c: char)
    requires c !in s
    ensures StrChr(s, c) == |s|
  {
  }

  lemma ParseEntryOfEntry(ptr: int, key: string, datoff: nat, datlen: nat)
    requires KeyText(key) && 0 < datlen <= DATLEN_MAX
    ensures ParseEntry(ptr, Entry(key, datoff, datlen))
         == Record(ptr, |Entry(key, datoff, datlen)|, key, datoff, datlen)
  {
    hide Digits, Atol;
    var body := Entry(key, datoff, datlen);
    var rest := Digits(datoff) + [SEP] + Digits(datlen);
    var s := body[..|body| - 1];
    assert s == key + [SEP] + rest;
    assert NUL !in s;
    StrChrAbsent(s, NUL);
    assert CStr(s) == s;
    StrChrAt(key, SEP, rest);
    assert s[|key| + 1..] == rest;
    StrChrAt(Digits(datoff), SEP, Digits(datlen));
    assert rest[..|Digits(datoff)|] == Digits(datoff);
    assert rest[|Digits(datoff)| + 1..] == Digits(datlen);
    AtolOfDigits(datoff);
    AtolOfDigits(datlen);
  }

  lemma SliceOfSlice<T>(s: seq<T>, lo: nat, hi: nat, from: nat, to: nat)
    requires lo <= hi <= |s| && from <= to <= hi - lo
    ensures s[lo..hi][from..to] == s[lo + from..lo + to]
  {
    var a, b := s[lo..hi][from..to], s[lo + from..lo + to];
    assert |a| == |b|;
    forall i | 0 <= i < |a|
      ensures a[i] == b[i]
    {
      assert a[i] == s[lo..hi][from + i] == s[lo + (from + i)];
    }
  }

  lemma RecTextParts(r: Rec)
    requires r.Writable()
    ensures |r.Text()| == r.Size()
    ensures r.Text()[..PTR_SZ] == PtrText(r.ptr)
    ensures r.Text()[PTR_SZ..HDR_SZ] == Field(IDXLEN_SZ, r.EntryLen())
    ensures r.Text()[HDR_SZ..] == Entry(r.key, r.datoff, r.datlen)
  {
    PtrRoundTrip(r.ptr);
    LenTextFits(r.EntryLen());
  }

  lemma RecTextShape(r: Rec)
    requires r.Ok()
    ensures |r.Text()| == r.Size()
    ensures r.Text()[..PTR_SZ] == PtrText(r.ptr)
    ensures r.Text()[PTR_SZ..HDR_SZ] == Field(IDXLEN_SZ, r.EntryLen())
    ensures r.Text()[HDR_SZ..] == Entry(r.key, r.datoff, r.datlen)
  {
    RecTextParts(r);
  }

  /** The fixed fields of a written record lead to its entry. */
  lemma ParseOfText(idx: string, off: nat, r: Rec, sequential: bool)
    requires r.Writable()
    requires off + r.Size() <= |idx| && idx[off..off + r.Size()] == r.Text()
    ensures r.EntryLen() > 0 && ParseRecord(idx, off, sequential) == ParseEntry(r.ptr, Entry(r.key, r.datoff, r.datlen))
  {
    hide ParseRecord, ParseEntry, Atol, Rec.Text, PtrText, Field, Entry;
    RecTextParts(r);
    PtrRoundTrip(r.ptr);
    LenTextFits(r.EntryLen());
    ParseOfParts(idx, off, r.ptr, r.EntryLen(), r.Text(), sequential);
    assert r.Text()[HDR_SZ..r.Size()] == r.Text()[HDR_SZ..];
  }

  lemma ParseOfParts(idx: string, off: nat, ptr: nat, len: nat, text: string, sequential: bool)
    requires |text| == HDR_SZ + len && off + |text| <= |idx| && idx[off..off + |text|] == text
    requires Atol(text[..PTR_SZ]) == ptr && Atol(text[PTR_SZ..HDR_SZ]) == len && IDXLEN_MIN <= len <= IDXLEN_MAX
    ensures ParseRecord(idx, off, sequential) == ParseEntry(ptr, text[HDR_SZ..HDR_SZ + len])
  {
    hide ParseEntry, Atol;
    SliceOfSlice(idx, off, off + |text|, 0, PTR_SZ);
    SliceOfSlice(idx, off, off + |text|, PTR_SZ, HDR_SZ);
    SliceOfSlice(idx, off, off + |text|, HDR_SZ, |text|);
  }

  /** _db_readidx recovers exactly what _db_writeidx wrote, wherever it stands. */
  lemma RecordRoundTrip(idx: string, off: nat, r: Rec, sequential: bool)
    requires r.Ok()
    requires off + r.Size() <= |idx| && idx[off..off + r.Size()] == r.Text()
    ensures ParseRecord(idx, off, sequential)
         == Record(r.ptr, r.EntryLen(), r.key, r.datoff, r.datlen)
  {
    hide Rec.Text, Entry, ParseRecord, ParseEntry;
    ParseOfText(idx, off, r, sequential);
    ParseEntryOfEntry(r.ptr, r.key, r.datoff, r.datlen);
  }

  lemma {:induction false} StrChrBefore(s: string, c: char, k: nat)
    requires k < |s| && s[k] == c
    ensures StrChr(s, c) <= k
  {
    if k > 0 && s[0] != c {
      StrChrBefore(s[1..], c, k - 1);
    }
  }

  lemma ParseEntryOfSeparator(ptr: int, key: string, datoff: nat, datlen: nat)
    requires NUL !in key && SEP in key
    ensures ParseEntry(ptr, Entry(key, datoff, datlen)) == Malformed
  {
    hide Digits, Atol;
    var body := Entry(key, datoff, datlen);
    var s := body[..|body| - 1];
    assert s == key + [SEP] + Digits(datoff) + [SEP] + Digits(datlen);
    StrChrAbsent(s, NUL);
    assert CStr(s) == s;
    var k: nat :| k < |key| && key[k] == SEP;
    StrChrBefore(s, SEP, k);
    var i := StrChr(s, SEP);
    var rest, at := s[i + 1..], |key| - i - 1;
    assert rest[at] == SEP && rest[at + 1 + |Digits(datoff)|] == SEP;
    StrChrBefore(rest, SEP, at);
    var j := StrChr(rest, SEP);
    assert rest[j + 1..][at + 1 + |Digits(datoff)| - (j + 1)] == SEP;
  }

  /**
   The source never checks a key for separators: what it writes is read back exactly when the
   key has none, and stops every reader otherwise.
   */
  lemma RoundTripExactlyWhen(idx: string, off: nat, r: Rec, sequential: bool)
    requires r.Writable() && NUL !in r.key
    requires off + r.Size() <= |idx| && idx[off..off + r.Size()] == r.Text()
    ensures ParseRecord(idx, off, sequential) == Record(r.ptr, r.EntryLen(), r.key, r.datoff, r.datlen) <==> SEP !in r.key
    ensures SEP in r.key ==> ParseRecord(idx, off, sequential) == Malformed
  {
    hide Rec.Text, Entry, ParseRecord, ParseEntry;
    if SEP !in r.key {
      RecordRoundTrip(idx, off, r, sequential);
    } else {
      ParseOfText(idx, off, r, sequential);
      ParseEntryOfSeparator(r.ptr, r.key, r.datoff, r.datlen);
    }
  }

  /** Two accepted records have the same bytes only when they are the same record. */
  lemma RecTextInjective(r: Rec, t: Rec)
    requires r.Ok() && t.Ok() && r.Text() == t.Text()
    ensures r == t
  {
    RecTextShape(r);
    RecTextShape(t);
    RecordRoundTrip(r.Text(), 0, r, false);
    RecordRoundTrip(t.Text(), 0, t, false);
  }

  /** Rewriting the pointer field of a record changes nothing else of it. */
  lemma RecTextPtr(r: Rec, p: nat)
    requires r.Ok() && p <= PTR_MAX
    ensures r.(ptr := p).Ok() && r.(ptr := p).Size() == r.Size()
    ensures r.(ptr := p).Text() == PtrText(p) + r.Text()[PTR_SZ..]
  {
    hide PtrText, Field, Entry, KeyText;
    PtrRoundTrip(r.ptr);
    PtrRoundTrip(p);
    var a, b := Field(IDXLEN_SZ, r.EntryLen()), Entry(r.key, r.datoff, r.datlen);
    assert r.(ptr := p).Text() == PtrText(p) + a + b;
    assert r.Text() == PtrText(r.ptr) + a + b;
    assert PtrText(r.ptr) + a + b == PtrText(r.ptr) + (a + b);
  }

  /** The length of an entry depends on the key's length only, once the data extent is fixed. */
  lemma EntryLenOf(key: string, key': string, datoff: nat, datlen: nat)
    requires |key| == |key'|
    ensures |Entry(key, datoff, datlen)| == |Entry(key', datoff, datlen)|
  {
  }
}
