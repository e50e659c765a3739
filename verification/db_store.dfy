/**
 The hash database (db/db.c) as a class: one handle, the bytes of its two files, and the
 fields of its DB structure, updated step by step as the C functions do.

 Two ghost fields give the files their meaning: im, the records the index file holds, and
 ls, the lists threaded through them. Valid() ties them to the bytes. Contents() is the map
 from keys to data that the database stands for.

 err_dump and err_quit end the process; a method reports that as Dump.
 */
module DbStore {
  import opened Basics
  import opened DbFormat
  import opened DbImage
  import opened DbLists
  import opened DbSteps
  import opened DbScan
  import opened DbSpec

  datatype Rc = Rc(value: int) | Dump
  datatype Fetched = Missing | Data(text: string) | FetchDump
  datatype Scanned = Found(key: string, text: string) | ScanEnd | ScanDump
  datatype NextIdx = Next(ptr: int) | NextEof | NextDump

  /** The text _db_readdat makes of the extent of a key, if it is one. */
  ghost function TextAt(im: Image, dat: string, ls: Lists, key: string): Option<string> {
    if key in ls.loc && ls.loc[key] in im.recs then
      var r := im.recs[ls.loc[key]];
      if 0 < r.datlen && r.datoff + r.datlen <= |dat| && dat[r.datoff + r.datlen - 1] == NEWLINE
      then Some(CStr(dat[r.datoff..r.datoff + r.datlen - 1])) else None
    else None
  }

  /** What _db_readdat finds for a key of the database. */
  lemma FetchedText(im: Image, dat: string, ls: Lists, key: string)
    requires Sound(im, dat, ls) && key in ls.loc
    ensures ls.loc[key] in im.recs
    ensures var r := im.recs[ls.loc[key]];
      && 0 < r.datlen && r.datoff + r.datlen <= |dat| && dat[r.datoff + r.datlen - 1] == NEWLINE
      && CStr(dat[r.datoff..r.datoff + r.datlen - 1]) == Contents(im, dat, ls)[key]
  {
    hide ChainOk, FreeOk, HomesOk;
    StrChrAbsent(Contents(im, dat, ls)[key], NUL);
  }

  /** The head of a chain as the search reads it. */
  lemma WalkStart(im: Image, idx: string, ls: Lists, h: nat, key: string)
    requires 0 < |im.heads| && ChainReads(im, idx, ls, h)
    ensures h < |ls.chains| && !Jammed(idx, h) && ChainOff(h) + PTR_SZ <= |idx|
    ensures Atol(idx[ChainOff(h)..ChainOff(h) + PTR_SZ]) == FirstOf(ls.chains[h])
    ensures Passed(im, ls.chains[h], 0, key) && SlotOf(ChainOff(h), ls.chains[h], 0) == ChainOff(h)
    ensures forall j :: 0 <= j < |ls.chains[h]| ==> ls.chains[h][j] != 0
  {
    hide Hash, Atol, Jammed, ParseRecord;
    ReadsOrJams(im, idx, ls, h);
    forall j | 0 <= j < |ls.chains[h]|
      ensures ls.chains[h][j] != 0
    {
      assert RecordReads(im, idx, ls, h, j);
    }
  }

  lemma JamStart(idx: string, h: nat)
    requires Jammed(idx, h)
    ensures ChainOff(h) + PTR_SZ <= |idx|
    ensures var o := Atol(idx[ChainOff(h)..ChainOff(h) + PTR_SZ]); o > 0 && ParseRecord(idx, o, false) == Malformed
  {
  }

  /** A record of a chain as the search reads it. */
  lemma WalkRead(im: Image, idx: string, ls: Lists, h: nat, pos: nat, key: string)
    requires 0 < |im.heads| && ChainReads(im, idx, ls, h) && pos < |ls.chains[h]|
    requires Passed(im, ls.chains[h], pos, key)
    ensures var o := ls.chains[h][pos];
      && 0 < o && o in im.recs
      && ParseRecord(idx, o, false)
         == Record(im.recs[o].ptr, im.recs[o].EntryLen(), im.recs[o].key, im.recs[o].datoff, im.recs[o].datlen)
      && im.recs[o].key in ls.loc && ls.loc[im.recs[o].key] == o
      && im.recs[o].ptr == (if pos + 1 < |ls.chains[h]| then ls.chains[h][pos + 1] else 0)
      && (im.recs[o].key != key ==> Passed(im, ls.chains[h], pos + 1, key))
      && SlotOf(ChainOff(h), ls.chains[h], pos + 1) == o
  {
    hide Hash, Atol, ParseRecord;
    assert RecordReads(im, idx, ls, h, pos);
  }

  /** A key that no record of its chain has is not there. */
  lemma WalkEnd(im: Image, idx: string, ls: Lists, key: string)
    requires 0 < |im.heads| && ChainReads(im, idx, ls, Hash(key, |im.heads|))
    ensures var l := ls.chains[Hash(key, |im.heads|)]; Passed(im, l, |l|, key) ==> key !in ls.loc
  {
    hide Hash, Atol, RecordReads;
    if key in ls.loc {
      assert OnIts(im, ls, Hash(key, |im.heads|), key);
    }
  }

  lemma SoundLists(im: Image, dat: string, ls: Lists)
    requires Sound(im, dat, ls)
    ensures ListsOk(im, ls)
  {
  }

  lemma BlanksGrow(n: nat)
    ensures Blanks(n) + [SPACE] == Blanks(n + 1)
  {
  }

  lemma BlanksOnly(s: string)
    requires forall k :: 0 <= k < |s| ==> s[k] == SPACE
    ensures s == Blanks(|s|)
  {
  }

  lemma HashInRange(key: string, nhash: nat, ls: Lists)
    requires nhash > 0 && |ls.chains| == nhash
    ensures Hash(key, nhash) < |ls.chains|
  {
  }

  lemma ShapeRefl(im: Image)
    ensures SameShape(im, im)
  {
  }

  /** The head of a chain is a pointer field of the file. */
  lemma HeadInFile(im: Image, idx: string, h: nat)
    requires Holds(im, idx) && h < |im.heads|
    ensures ChainOff(h) + PTR_SZ <= |idx| && Atol(idx[ChainOff(h)..ChainOff(h) + PTR_SZ]) == im.heads[h] <= PTR_MAX
  {
    hide HeaderBytes, Tiled, Atol;
    HeadSlots(im, h);
    PtrInFile(im, idx, ChainOff(h));
  }

  lemma SoundExtents(im: Image, dat: string, ls: Lists)
    requires Sound(im, dat, ls)
    ensures ExtentsOk(im, dat) && LocOk(im, ls) && 0 < |im.heads| == |ls.chains|
  {
  }

  lemma SoundWalks(im: Image, idx: string, dat: string, ls: Lists, key: string)
    requires Holds(im, idx) && Sound(im, dat, ls) && |im.heads| > 0
    ensures !Jammed(idx, Hash(key, |im.heads|))
  {
    hide Hash, Jammed, ChainOk, FreeOk, HomesOk, LocOk, Holds;
    HashBelow(key, |im.heads|);
    NotJammed(im, idx, ls, Hash(key, |im.heads|));
  }

  lemma HoldsTiled(im: Image, idx: string)
    requires Holds(im, idx)
    ensures Tiled(im)
  {
  }

  lemma AppendedPrefix(s: string, t: string)
    ensures s <= Overwrite(s, |s|, t) && |Overwrite(s, |s|, t)| == |s| + |t|
  {
  }

  /** The record _db_writeidx accepts for a held offset, at its old size and inside the file. */
  lemma ReusedRecord(im: Image, idx: string, dat: string, o: nat, r: Rec)
    requires Holds(im, idx) && ExtentsOk(im, dat) && o in im.recs && r.ptr <= PTR_MAX && |r.key| == |im.recs[o].key|
    requires r.datoff == im.recs[o].datoff && r.datlen == im.recs[o].datlen
    ensures r.Writable() && Base(|im.heads|) <= o && o + r.Size() <= |idx| && r.datoff <= |dat| && r.Size() == im.recs[o].Size()
  {
    hide Entry, HeaderBytes, Rec.Text;
    EntryLenOf(im.recs[o].key, r.key, r.datoff, r.datlen);
    RecordInFile(im, o);
  }

  lemma TwoInPlace(idx: string, o: nat, r: Rec, h: nat)
    requires r.Writable() && o <= PTR_MAX && o + r.Size() <= |idx| && ChainOff(h) + PTR_SZ <= |idx|
    ensures |Overwrite(Overwrite(idx, o, r.Text()), ChainOff(h), PtrText(o))| == |idx|
  {
    hide Rec.Size, Rec.Text, PtrText, Overwrite;
    RecTextParts(r);
    PtrRoundTrip(o);
    OverwriteSelf(idx, o, r.Text());
    OverwriteSelf(Overwrite(idx, o, r.Text()), ChainOff(h), PtrText(o));
  }

  /** A key of the map is on a chain, under a record of its own, and has no separator. */
  lemma InMap(im: Image, idx: string, dat: string, ls: Lists, key: string)
    requires Holds(im, idx) && Sound(im, dat, ls)
    ensures key in Contents(im, dat, ls) <==> key in ls.loc
    ensures key in ls.loc ==> KeyText(key) && ls.loc[key] in im.recs && im.recs[ls.loc[key]].key == key
  {
    hide ChainOk, FreeOk, HomesOk, Tiled, HeaderBytes, ExtentsOk, Value, Rec.Text, Rec.Size;
  }

  lemma FreeOffset(im: Image, dat: string, ls: Lists, pos: nat)
    requires Sound(im, dat, ls) && pos < |ls.freel|
    ensures ls.freel[pos] in im.recs && ls.freel[pos] <= PTR_MAX
    ensures ls.freel[pos] in TakenFree(ls, pos).home && TakenFree(ls, pos).home[ls.freel[pos]] == Held
  {
    hide ChainOk, HomesOk, LocOk, ExtentsOk;
    OnFreeList(im, ls, pos);
  }

  /** Data of the same length written over the record of a key. */
  lemma LiveWrite(im: Image, dat: string, ls: Lists, key: string, data: string)
    requires Sound(im, dat, ls) && key in ls.loc && NUL !in data
    requires ls.loc[key] in im.recs && |data| + 1 == im.recs[ls.loc[key]].datlen
    ensures im.recs[ls.loc[key]].datoff <= |dat|
    ensures var dat' := Overwrite(dat, im.recs[ls.loc[key]].datoff, data + [NEWLINE]);
      && |dat'| == |dat| && Sound(im, dat', ls) && ExtentsOk(im, dat')
      && Contents(im, dat', ls) == Contents(im, dat, ls)[key := data]
  {
    hide ChainOk, FreeOk, HomesOk, Contents, Value, Overwrite;
    WriteLiveData(im, dat, ls, key, data);
  }

  /** The header of a fresh index file, one pointer field at a time. */
  ghost predicate ZeroFields(hash: string, n: nat) {
    && |hash| == n * PTR_SZ
    && forall i :: 0 <= i < n ==> hash[i * PTR_SZ..i * PTR_SZ + PTR_SZ] == PtrText(0)
  }

  lemma ZeroFieldsGrow(hash: string, n: nat)
    requires ZeroFields(hash, n)
    ensures ZeroFields(hash + PtrText(0), n + 1)
  {
    PtrRoundTrip(0);
    hide PtrText;
    var hash' := hash + PtrText(0);
    forall i | 0 <= i < n + 1
      ensures hash'[i * PTR_SZ..i * PTR_SZ + PTR_SZ] == PtrText(0)
    {
      if i < n {
        assert hash'[i * PTR_SZ..i * PTR_SZ + PTR_SZ] == hash[i * PTR_SZ..i * PTR_SZ + PTR_SZ];
      } else {
        assert hash'[|hash|..|hash| + PTR_SZ] == PtrText(0);
      }
    }
  }

  /** A fresh header holds no records, and its lists are all empty. */
  lemma FreshHolds(hash: string, nhash: nat)
    requires nhash > 0 && ZeroFields(hash, nhash + 1)
    ensures var im := Image(0, seq(nhash, i => 0), map[], []);
      var ls := Lists(seq(nhash, i => []), [], map[], map[]);
      && Holds(im, hash + [NEWLINE])
      && Sound(im, "", ls) && Settled(ls)
      && Contents(im, "", ls) == map[]
  {
    hide PtrText, Hash;
    var im := Image(0, seq(nhash, i => 0), map[], []);
    var idx := hash + [NEWLINE];
    forall h | 0 <= h < |im.heads|
      ensures idx[ChainOff(h)..ChainOff(h) + PTR_SZ] == PtrText(im.heads[h])
    {
      assert idx[ChainOff(h)..ChainOff(h) + PTR_SZ] == hash[(h + 1) * PTR_SZ..(h + 1) * PTR_SZ + PTR_SZ];
    }
    assert idx[0..PTR_SZ] == hash[0 * PTR_SZ..0 * PTR_SZ + PTR_SZ];
    assert HeaderBytes(im, idx);
  }

  /** The calls that end in err_dump or err_quit: data of a forbidden length, or no room for new data. */
  ghost predicate Dumps(im: Image, ls: Lists, idx: string, dat: string, op: Op) {
    && op.StoreOp?
    && (op.flag == DB_INSERT || op.flag == DB_REPLACE || op.flag == DB_STORE)
    && (DATLEN_MIN <= |op.data| + 1 <= DATLEN_MAX ==>
          && !(op.key in ls.loc && op.flag == DB_INSERT)
          && !(op.key !in ls.loc && op.flag == DB_REPLACE)
          && NeedsAppend(im, ls, op.key, op.data)
          && !Fits(idx, dat, op.key, op.data))
  }

  /** A store that needs new space for an entry longer than the buffer of _db_writeidx can hold. */
  ghost predicate Overruns(im: Image, ls: Lists, dat: string, op: Op) {
    && op.StoreOp? && (op.flag == DB_INSERT || op.flag == DB_REPLACE || op.flag == DB_STORE)
    && DATLEN_MIN <= |op.data| + 1 <= DATLEN_MAX
    && !(op.key in ls.loc && op.flag == DB_INSERT) && !(op.key !in ls.loc && op.flag == DB_REPLACE)
    && NeedsAppend(im, ls, op.key, op.data) && |Entry(op.key, |dat|, |op.data| + 1)| > IDXLEN_MAX + 1
  }

  /** A search for the key gets through and finds what the map says. */
  ghost predicate KeySpared(im: Image, idx: string, dat: string, ls: Lists, m: map<string, string>, k: string)
    requires |im.heads| > 0
  {
    && ChainReads(im, idx, ls, Hash(k, |im.heads|))
    && (k in ls.loc <==> k in m)
    && (k in m ==> TextAt(im, dat, ls, k) == Some(m[k]))
  }

  /** So it is for every key that is not on chain h. */
  ghost predicate SparedBut(im: Image, idx: string, dat: string, ls: Lists, m: map<string, string>, h: nat)
    requires |im.heads| > 0
  {
    forall k :: Hash(k, |im.heads|) != h ==> KeySpared(im, idx, dat, ls, m, k)
  }

  /** A record written off the chains, and the head of chain h, spare the keys of all other chains. */
  lemma JamSpares(im: Image, idx: string, dat: string, ls: Lists, o: nat, t: string, h: nat)
    requires Holds(im, idx) && Sound(im, dat, ls) && h < |im.heads| && o <= PTR_MAX && o <= |idx|
    requires o == |idx| || (o in im.recs && |t| == im.recs[o].Size() && o in ls.home && ls.home[o] == Held)
    ensures ChainOff(h) <= |Overwrite(idx, o, t)|
    ensures SparedBut(im, Overwrite(Overwrite(idx, o, t), ChainOff(h), PtrText(o)), dat, ls, Contents(im, dat, ls), h)
  {
    hide Holds, ListsOk, ExtentsOk, Hash, ChainReads, SameBut, Overwrite, PtrText, Rec.Size, TextOk, CStr, LocOk;
    SoundLists(im, dat, ls);
    SoundExtents(im, dat, ls);
    HoldsBase(im, idx, o);
    PtrRoundTrip(o);
    TwoWrites(idx, o, t, ChainOff(h), PtrText(o));
    var idx', m := Overwrite(Overwrite(idx, o, t), ChainOff(h), PtrText(o)), Contents(im, dat, ls);
    forall k | Hash(k, |im.heads|) != h
      ensures KeySpared(im, idx', dat, ls, m, k)
    {
      HashBelow(k, |im.heads|);
      OtherChainReads(im, idx, ls, idx', o, o + |t|, h, Hash(k, |im.heads|));
      if k in ls.loc {
        FetchedText(im, dat, ls, k);
      }
    }
  }

  /** A state of the two files, with what they hold. */
  datatype Files = Files(im: Image, ls: Lists, idx: string, dat: string)

  class Db {
    const nhash: nat
    // The two files; idxpos is the file offset of the index descriptor.
    var idx: string
    var dat: string
    var idxpos: nat
    // struct DB; the two buffers are the C strings they hold.
    var idxbuf: string
    var datbuf: string
    var idxoff: nat
    var idxlen: int
    var datoff: nat
    var datlen: nat
    var ptrval: int
    var ptroff: nat
    var chainoff: nat
    // An entry and its null have been written past the IDXLEN_MAX + 2 bytes of idxbuf.
    var overrun: bool

    ghost var im: Image
    ghost var ls: Lists

    ghost predicate Rep()
      reads this
    {
      && |im.heads| == nhash
      && Holds(im, idx)
      && ExtentsOk(im, dat)
    }

    ghost predicate Valid()
      reads this
    {
      Rep() && Sound(im, dat, ls)
    }

    ghost function Map(): map<string, string>
      requires Valid()
      reads this
    {
      Contents(im, dat, ls)
    }

    // ---------- Reading and writing the files ----------

    method HashKey(key: string) returns (h: nat)
      requires nhash > 0
      ensures h == Hash(key, nhash)
    {
      var hval: nat := 0;
      var i := 0;
      while i < |key|
        invariant 0 <= i <= |key|
        invariant HashFrom(key[i..], i + 1, hval) == HashFrom(key, 1, 0)
      {
        hval := (hval + SignedChar(key[i]) * (i + 1)) % WORD;
        assert key[i..][1..] == key[i + 1..];
        i := i + 1;
      }
      h := hval % nhash;
    }

    method ReadPtr(offset: nat) returns (r: NextIdx)
      modifies this`idxpos
      ensures r == if offset + PTR_SZ <= |idx| then Next(Atol(idx[offset..offset + PTR_SZ])) else NextDump
    {
      idxpos := offset;
      if idxpos + PTR_SZ > |idx| {
        return NextDump;
      }
      var asciiptr := idx[idxpos..idxpos + PTR_SZ];
      idxpos := idxpos + PTR_SZ;
      return Next(Atol(asciiptr));
    }

    method ReadIdx(offset: nat) returns (r: NextIdx)
      modifies this`idxpos, this`idxoff, this`ptrval, this`idxlen, this`idxbuf, this`datoff, this`datlen
      ensures var start := if offset == 0 then old(idxpos) else offset;
        match ParseRecord(idx, start, offset == 0)
        case Eof => r == NextEof && idxpos == start
        case Malformed => r == NextDump
        case Record(p, len, key, do, dl) =>
          && r == Next(p)
          && idxoff == start && ptrval == p && idxlen == len && idxbuf == key && datoff == do && datlen == dl
          && len >= 0 && idxpos == start + HDR_SZ + len
    {
      hide Atol, ParseEntry;
      if offset != 0 {
        idxpos := offset;
      }
      idxoff := idxpos;
      if idxpos + HDR_SZ > |idx| {
        return if idxpos >= |idx| && offset == 0 then NextEof else NextDump;
      }
      var asciiptr, asciilen := idx[idxpos..idxpos + PTR_SZ], idx[idxpos + PTR_SZ..idxpos + HDR_SZ];
      idxpos := idxpos + HDR_SZ;
      ptrval := Atol(asciiptr);
      idxlen := Atol(asciilen);
      if idxlen < IDXLEN_MIN || idxlen > IDXLEN_MAX {
        return NextDump;
      }
      if idxpos + idxlen > |idx| {
        return NextDump;
      }
      var body := idx[idxpos..idxpos + idxlen];
      idxpos := idxpos + idxlen;
      r := SplitIdx(body);
    }

    /** The end of _db_readidx: the entry is taken apart at its separators. */
    method SplitIdx(body: string) returns (r: NextIdx)
      requires |body| > 0
      modifies this`idxbuf, this`datoff, this`datlen
      ensures match ParseEntry(ptrval, body)
        case Record(_, _, key, do, dl) => r == Next(ptrval) && idxbuf == key && datoff == do && datlen == dl
        case _ => r == NextDump
    {
      hide Atol, StrChr, CStr;
      if body[|body| - 1] != NEWLINE {
        return NextDump;
      }
      idxbuf := CStr(body[..|body| - 1]);
      var ptr1 := StrChr(idxbuf, SEP);
      if ptr1 == |idxbuf| {
        return NextDump;
      }
      var rest := idxbuf[ptr1 + 1..];
      idxbuf := idxbuf[..ptr1];
      var ptr2 := StrChr(rest, SEP);
      if ptr2 == |rest| {
        return NextDump;
      }
      if SEP in rest[ptr2 + 1..] {
        return NextDump;
      }
      var start, length := Atol(rest[..ptr2]), Atol(rest[ptr2 + 1..]);
      if start < 0 {
        return NextDump;
      }
      datoff := start;
      if length <= 0 || length > DATLEN_MAX {
        return NextDump;
      }
      datlen := length;
      return Next(ptrval);
    }

    method ReadDat() returns (r: Fetched)
      modifies this`datbuf
      ensures r ==
        if 0 < datlen && datoff + datlen <= |dat| && dat[datoff + datlen - 1] == NEWLINE
        then Data(CStr(dat[datoff..datoff + datlen - 1])) else FetchDump
    {
      if datlen == 0 || datoff + datlen > |dat| {
        return FetchDump;
      }
      datbuf := dat[datoff..datoff + datlen];
      if datbuf[datlen - 1] != NEWLINE {
        return FetchDump;
      }
      datbuf := CStr(datbuf[..datlen - 1]);
      assert dat[datoff..datoff + datlen][..datlen - 1] == dat[datoff..datoff + datlen - 1];
      return Data(datbuf);
    }

    method WriteDat(data: string, offset: nat, atEnd: bool)
      requires offset <= |dat|
      modifies this`dat, this`datoff, this`datlen
      ensures datoff == (if atEnd then |old(dat)| else offset) && datlen == |data| + 1
      ensures dat == Overwrite(old(dat), datoff, data + [NEWLINE])
    {
      datoff := if atEnd then |dat| else offset;
      datlen := |data| + 1;
      dat := Overwrite(dat, datoff, data + [NEWLINE]);
    }

    /** Writes a record for the current data extent, at an offset or at the end. */
    method WriteIdx(key: string, offset: nat, atEnd: bool, ptr: int) returns (rc: Rc)
      requires offset <= |idx|
      modifies this`idx, this`idxpos, this`idxbuf, this`idxoff, this`ptrval, this`overrun
      ensures overrun <==> old(overrun) || (0 <= ptr <= PTR_MAX && |Entry(key, datoff, datlen)| > IDXLEN_MAX + 1)
      ensures var fits := 0 <= ptr <= PTR_MAX && IDXLEN_MIN <= |Entry(key, datoff, datlen)| <= IDXLEN_MAX;
        if !fits then rc == Dump && idx == old(idx)
        else
          && rc == Rc(0)
          && idxoff == (if atEnd then |old(idx)| else offset)
          && idx == Overwrite(old(idx), idxoff, Rec(ptr, key, datoff, datlen).Text())
    {
      ptrval := ptr;
      if ptr < 0 || ptr > PTR_MAX {
        return Dump;
      }
      idxbuf := Entry(key, datoff, datlen);
      overrun := overrun || |idxbuf| + 1 > IDXLEN_MAX + 2;
      var len := |idxbuf|;
      if len < IDXLEN_MIN || len > IDXLEN_MAX {
        return Dump;
      }
      var asciiptrlen := Field(PTR_SZ, ptr) + Field(IDXLEN_SZ, len);
      idxoff := if atEnd then |idx| else offset;
      idx := Overwrite(idx, idxoff, asciiptrlen + idxbuf);
      idxpos := idxoff + |asciiptrlen + idxbuf|;
      return Rc(0);
    }

    method WritePtr(offset: nat, ptr: int) returns (rc: Rc)
      requires offset <= |idx|
      modifies this`idx, this`idxpos
      ensures if 0 <= ptr <= PTR_MAX
        then rc == Rc(0) && idx == Overwrite(old(idx), offset, PtrText(ptr))
        else rc == Dump && idx == old(idx)
    {
      if ptr < 0 || ptr > PTR_MAX {
        return Dump;
      }
      var asciiptr := Field(PTR_SZ, ptr);
      idx := Overwrite(idx, offset, asciiptr);
      idxpos := offset + |asciiptr|;
      return Rc(0);
    }

    // ---------- Finding a key ----------

    /** The fields of the handle are those of the record at o. */
    ghost predicate Current(o: nat)
      reads this
    {
      && o in im.recs && idxoff == o
      && idxbuf == im.recs[o].key && ptrval == im.recs[o].ptr
      && datoff == im.recs[o].datoff && datlen == im.recs[o].datlen
    }

    /** Position pos of chain h holds the current record, and ptroff is the field leading to it. */
    ghost predicate CurrentOn(h: nat, pos: nat)
      reads this
    {
      && h < |ls.chains| && pos < |ls.chains[h]| && Current(ls.chains[h][pos])
      && chainoff == ChainOff(h) && ptroff == SlotOf(chainoff, ls.chains[h], pos)
    }

    /** The chain of the key can be walked. */
    ghost predicate Reads(key: string)
      reads this
    {
      nhash > 0 && |im.heads| == nhash && ChainReads(im, idx, ls, Hash(key, nhash))
    }

    /** The database is sound, or no search along the chain of the key gets through. */
    ghost predicate SoundOrJammed(key: string)
      reads this
    {
      nhash > 0 && (Valid() || Jammed(idx, Hash(key, nhash)))
    }

    /** A search either gets along the chain of the key, or is stopped at its first record. */
    ghost predicate Searchable(key: string)
      reads this
    {
      nhash > 0 && (Valid() || Reads(key) || Jammed(idx, Hash(key, nhash)))
    }

    ghost method ValidReads(key: string)
      requires Valid() && nhash > 0
      ensures Reads(key) && !Jammed(idx, Hash(key, nhash))
    {
      hide Holds, Sound, ListsOk, ExtentsOk, ChainReads, Jammed, Hash;
      SoundLists(im, dat, ls);
      HashBelow(key, nhash);
      SoundReads(im, idx, ls, Hash(key, nhash));
      NotJammed(im, idx, ls, Hash(key, nhash));
    }

    method FindAndLock(key: string) returns (rc: Rc, ghost pos: nat)
      requires Searchable(key)
      modifies this`idxpos, this`chainoff, this`ptroff
      modifies this`idxoff, this`ptrval, this`idxlen, this`idxbuf, this`datoff, this`datlen
      ensures chainoff == ChainOff(Hash(key, nhash))
      ensures Jammed(idx, Hash(key, nhash)) ==> rc == Dump
      ensures Reads(key) || Valid() ==>
        && rc == Rc(if key in ls.loc then 0 else -1)
        && (key in ls.loc ==> CurrentOn(Hash(key, nhash), pos) && idxoff == ls.loc[key] && idxbuf == key)
    {
      hide Atol, ParseRecord, ChainReads, Hash, Jammed, Passed, SlotOf, Sound, Holds, ExtentsOk;
      pos := 0;
      if Valid() {
        ValidReads(key);
      }
      var h := HashKey(key);
      chainoff := h * PTR_SZ + PTR_SZ;
      ptroff := chainoff;
      ghost var sound := Reads(key);
      ghost var l: seq<nat> := [];
      if sound {
        WalkStart(im, idx, ls, h, key);
        l := ls.chains[h];
      } else {
        JamStart(idx, h);
      }
      var r := ReadPtr(ptroff);
      var offset := r.ptr;
      while offset != 0
        invariant sound == Reads(key) && offset >= 0 && chainoff == ChainOff(h) && |l| >= pos
        invariant sound ==> offset == if pos < |l| then l[pos] else 0
        invariant sound ==> ptroff == SlotOf(chainoff, l, pos)
        invariant sound ==> Passed(im, l, pos, key)
        invariant !sound ==> offset > 0 && ParseRecord(idx, offset, false) == Malformed
        decreases |l| - pos
      {
        if sound {
          WalkRead(im, idx, ls, h, pos, key);
        }
        var next := ReadIdx(offset);
        if !next.Next? {
          return Dump, pos;
        }
        if idxbuf == key {
          break;
        }
        ptroff := offset;
        offset := next.ptr;
        pos := pos + 1;
      }
      if offset == 0 {
        if sound {
          WalkEnd(im, idx, ls, key);
        }
        return Rc(-1), pos;
      }
      return Rc(0), pos;
    }

    /** The extent of the key, if it is there, holds text and a newline. */
    ghost predicate HasText(key: string)
      reads this
    {
      key in ls.loc ==> TextAt(im, dat, ls, key).Some?
    }

    method Fetch(key: string) returns (r: Fetched)
      requires Searchable(key)
      modifies this`idxpos, this`chainoff, this`ptroff, this`datbuf
      modifies this`idxoff, this`ptrval, this`idxlen, this`idxbuf, this`datoff, this`datlen
      ensures Reads(key) && HasText(key) ==> r == if key in ls.loc then Data(TextAt(im, dat, ls, key).value) else Missing
      ensures old(Valid()) ==> Valid() && Map() == old(Map()) && r == if key in Map() then Data(Map()[key]) else Missing
      ensures Jammed(idx, Hash(key, nhash)) ==> r == FetchDump
    {
      hide Holds, ExtentsOk, ListsOk, CStr, Jammed, Hash, ChainReads;
      var rc, pos := FindAndLock(key);
      if rc == Rc(-1) {
        return Missing;
      } else if rc == Dump {
        return FetchDump;
      }
      if Valid() {
        FetchedText(im, dat, ls, key);
      }
      r := ReadDat();
    }

    // ---------- Deleting ----------

    /** Fills the two buffers with blanks, at the lengths they have to keep. */
    method BlankBuffers()
      requires datlen > 0
      modifies this`datbuf, this`idxbuf
      ensures datbuf == Blanks(datlen - 1) && idxbuf == Blanks(|old(idxbuf)|)
    {
      datbuf := "";
      var i := 0;
      while i < datlen - 1
        modifies this`datbuf
        invariant 0 <= i <= datlen - 1 && datbuf == Blanks(i)
      {
        BlanksGrow(i);
        datbuf := datbuf + [SPACE];
        i := i + 1;
      }
      i := 0;
      while i < |idxbuf|
        modifies this`idxbuf
        invariant 0 <= i <= |idxbuf| == |old(idxbuf)|
        invariant forall k :: 0 <= k < i ==> idxbuf[k] == SPACE
      {
        idxbuf := idxbuf[i := SPACE];
        i := i + 1;
      }
      BlanksOnly(idxbuf);
    }

    /** Takes the current record off its chain: _db_dodelete. */
    method DoDelete(ghost h: nat, ghost pos: nat) returns (rc: Rc)
      requires Valid() && h < nhash && CurrentOn(h, pos)
      modifies this`idx, this`dat, this`idxpos, this`idxbuf, this`datbuf, this`idxoff, this`ptrval
      modifies this`datoff, this`datlen, this`im, this`ls, this`overrun
      ensures overrun == old(overrun)
      ensures rc == Rc(0) && Valid() && |idx| == |old(idx)| && |dat| == |old(dat)|
      ensures old(ls.chains[h][pos]) in old(im).recs
      ensures var o := old(ls.chains[h][pos]);
        var key := old(im).recs[o].key;
        && Map() == old(Map()) - {key}
        && ls == DeletedLists(old(ls), h, pos, key)
      ensures SameShape(old(im), im)
    {
      hide Holds, Sound, ExtentsOk, LocOk, Contents, Overwrite, Blanks, Atol, IsSlot, Deleted, DeletedLists, Rec.Size, PtrText,
        Entry, Rec.Text;
      ghost var o, slot := ls.chains[h][pos], ptroff;
      DeleteWrites(im, idx, dat, ls, h, pos);
      BlankBuffers();
      WriteDat(datbuf, datoff, false);
      var freeptr := ReadPtr(0);
      if !freeptr.Next? {
        return Dump;
      }
      var saveptr := ptrval;
      rc := WriteIdx(idxbuf, idxoff, false, freeptr.ptr);
      if rc == Dump {
        return;
      }
      rc := WritePtr(0, idxoff);
      if rc == Dump {
        return;
      }
      rc := WritePtr(ptroff, saveptr);
      if rc == Dump {
        return;
      }
      im, ls := Deleted(im, o, slot), DeletedLists(ls, h, pos, im.recs[o].key);
      SoundExtents(im, dat, ls);
    }

    method Delete(key: string) returns (rc: Rc)
      requires SoundOrJammed(key)
      modifies this
      ensures overrun == old(overrun)
      ensures old(Valid()) ==>
        && Valid() && Map() == old(Map()) - {key} && SameShape(old(im), im)
        && rc == Rc(if key in old(Map()) then 0 else -1)
        && (Settled(old(ls)) ==> Settled(ls))
        && (key in old(ls).loc ==> |idx| == |old(idx)| && |dat| == |old(dat)| && ls.freel == [old(ls).loc[key]] + old(ls).freel)
      ensures old(Jammed(idx, Hash(key, nhash))) ==> rc == Dump && idx == old(idx) && dat == old(dat)
    {
      hide Holds, ExtentsOk, ChainOk, FreeOk, HomesOk, LocOk, TextOk, Hash, Rec.Size, Jammed;
      ShapeRefl(im);
      var find, pos := FindAndLock(key);
      if find == Dump {
        return Dump;
      } else if find != Rc(0) {
        return Rc(-1);
      }
      HashInRange(key, nhash, ls);
      rc := DoDelete(Hash(key, nhash), pos);
    }

    // ---------- Storing ----------

    /** The loop of _db_findfree: the first free record of the lengths, and the pointer that leads to it. */
    method FirstFit(keylen: nat, dlen: nat) returns (saveoffset: nat, offset: nat, ghost pos: nat)
      requires Valid()
      modifies this`idxpos, this`idxoff, this`ptrval, this`idxlen, this`idxbuf, this`datoff, this`datlen
      ensures offset == 0 ==> forall j :: 0 <= j < |ls.freel| ==> !Matches(im, ls.freel[j], keylen, dlen)
      ensures offset != 0 ==>
        && pos < |ls.freel| && offset == ls.freel[pos] == idxoff && saveoffset == SlotOf(0, ls.freel, pos)
        && Matches(im, offset, keylen, dlen) && ptrval == im.recs[offset].ptr && datoff == im.recs[offset].datoff
    {
      hide Holds, ExtentsOk, HomesOk, LocOk, TextOk, Hash, Rec.Size, Atol, ParseRecord, Threaded, SetPtr, IsSlot, Overwrite,
        PtrText, SameShape, Blanks, ChainOk, Tiled;
      pos := 0;
      FieldsInFile(im, idx);
      PtrInFile(im, idx, 0);
      FreeStart(im, ls);
      saveoffset := 0;
      var r := ReadPtr(saveoffset);
      assert r.Next?;
      offset := r.ptr;
      while offset != 0
        invariant 0 <= pos <= |ls.freel|
        invariant offset == if pos < |ls.freel| then ls.freel[pos] else 0
        invariant saveoffset == SlotOf(0, ls.freel, pos)
        invariant forall i :: 0 <= i < pos ==> !Matches(im, ls.freel[i], keylen, dlen)
        decreases |ls.freel| - pos
      {
        OnFreeList(im, ls, pos);
        RecordInBytes(im, idx, offset, false);
        var next := ReadIdx(offset);
        assert next.Next?;
        if |idxbuf| == keylen && datlen == dlen {
          break;
        }
        saveoffset := offset;
        offset := next.ptr;
        pos := pos + 1;
      }
    }

    method FindFree(keylen: nat, dlen: nat) returns (rc: Rc, ghost pos: nat)
      requires Valid()
      modifies this`idx, this`idxpos, this`idxoff, this`ptrval, this`idxlen, this`idxbuf, this`datoff, this`datlen
      modifies this`im, this`ls
      ensures Valid() && Map() == old(Map()) && SameShape(old(im), im) && im.heads == old(im).heads
      ensures rc == Rc(0) || rc == Rc(-1)
      ensures rc == Rc(-1) ==>
        && im == old(im) && ls == old(ls) && idx == old(idx)
        && forall j :: 0 <= j < |ls.freel| ==> !Matches(im, ls.freel[j], keylen, dlen)
      ensures rc == Rc(0) ==>
        && pos < |old(ls).freel| && ls == TakenFree(old(ls), pos) && idxoff == old(ls).freel[pos]
        && Matches(im, idxoff, keylen, dlen) && Matches(old(im), idxoff, keylen, dlen)
        && datoff == im.recs[idxoff].datoff && |idx| == |old(idx)|
    {
      hide Sound, Holds, ExtentsOk, SameShape, Contents;
      var saveoffset, offset;
      saveoffset, offset, pos := FirstFit(keylen, dlen);
      if offset == 0 {
        ShapeRefl(im);
        return Rc(-1), pos;
      }
      rc := Unchain(saveoffset, offset, pos);
      ShapeMatches(old(im), im, offset, keylen, dlen);
    }

    /** The pointer write with which _db_findfree takes the record just read off the free list. */
    method Unchain(saveoffset: nat, offset: nat, ghost pos: nat) returns (rc: Rc)
      requires Valid() && pos < |ls.freel| && offset == ls.freel[pos] && saveoffset == SlotOf(0, ls.freel, pos)
      requires offset in im.recs && ptrval == im.recs[offset].ptr
      modifies this`idx, this`idxpos, this`im, this`ls
      ensures Valid() && Map() == old(Map()) && SameShape(old(im), im) && im.heads == old(im).heads
      ensures rc == Rc(0) && ls == TakenFree(old(ls), pos) && offset in im.recs && |idx| == |old(idx)|
    {
      hide Holds, ExtentsOk, ChainOk, FreeOk, HomesOk, LocOk, TextOk, Hash, Rec.Size, SetPtr, IsSlot, Overwrite, PtrText, SameShape;
      TakeFreeWrites(im, idx, dat, ls, pos);
      rc := WritePtr(saveoffset, ptrval);
      im, ls := SetPtr(im, saveoffset, ptrval), TakenFree(ls, pos);
    }

    /** The chain of the key has just been searched: the state in which a record is put on it. */
    ghost predicate ReadyFor(key: string, data: string)
      reads this
    {
      && nhash > 0 && NUL !in key && NUL !in data && DATLEN_MIN <= |data| + 1 <= DATLEN_MAX
      && chainoff == ChainOff(Hash(key, nhash)) && key !in ls.loc
    }

    /** The chain of the key is jammed; the keys of all other chains are found as in the map. */
    ghost predicate JamsOnly(key: string, m: map<string, string>)
      reads this
    {
      && 0 < nhash == |im.heads| && Jammed(idx, Hash(key, nhash))
      && SparedBut(im, idx, dat, ls, m, Hash(key, nhash))
    }

    /**
     Appends a record to the ends of both files and puts it in front of its chain. A key with a
     separator is not refused, but its record stops every later walk along the chain.
     */
    method AppendRecord(key: string, data: string, ptr: nat) returns (rc: Rc)
      requires Valid() && ReadyFor(key, data) && ptr == im.heads[Hash(key, nhash)]
      modifies this`idx, this`dat, this`idxpos, this`idxbuf, this`idxoff, this`ptrval, this`datoff, this`datlen
      modifies this`im, this`ls, this`overrun
      ensures rc == if old(Fits(idx, dat, key, data)) then Rc(0) else Dump
      ensures SEP !in key ==> Valid() && SameShape(old(im), im)
      ensures SEP !in key ==> Map() == if rc == Dump then old(Map()) else old(Map())[key := data]
      ensures SEP !in key && rc == Rc(0) && Settled(old(ls)) ==> Settled(ls)
      ensures SEP in key ==> if rc == Dump then old(idx) <= idx && old(dat) <= dat else JamsOnly(key, old(Map()))
      ensures |dat| == |old(dat)| + |data| + 1
      ensures overrun <==> old(overrun) || old(|Entry(key, |dat|, |data| + 1)|) > IDXLEN_MAX + 1
    {
      hide Holds, Sound, ExtentsOk, Hash, Rec.Size, Rec.Text, Entry, Overwrite, PtrText, Jammed, Contents, SameShape, LocOk, SparedBut;
      ghost var h, r := Hash(key, nhash), Rec(ptr, key, |dat|, |data| + 1);
      ghost var idx0, dat0, im0, ls0 := idx, dat, im, ls;
      HeadInFile(im, idx, h);
      AppendedPrefix(dat, data + [NEWLINE]);
      AppendDataOnly(im, dat, ls, data);
      AppendedPrefix(idx, r.Text());
      WriteDat(data, 0, true);
      rc := WriteIdx(key, 0, true, ptr);
      if rc == Dump {
        SoundExtents(im, dat, ls);
        ShapeRefl(im);
        return;
      }
      rc := WritePtr(chainoff, idxoff);
      if rc == Dump {
        if SEP !in key {
          AppendWrites(im, idx0, dat0, ls, r, data);
          im, ls := AddRec(im, idxoff, r), AddedHeld(ls, idxoff);
          SoundExtents(im, dat, ls);
        }
        return;
      }
      if SEP in key {
        SeparatorJams(idx0, idxoff, r, h);
        JamSpares(im, idx0, dat, ls, idxoff, r.Text(), h);
      } else {
        SoundExtents(im, dat0, ls);
        AppendAll(im, idx0, dat0, ls, h, r, data);
        im, ls := AddRec(im, idxoff, r), AddedHeld(ls, idxoff);
        im, ls := im.(heads := im.heads[h := idxoff]), Linked(ls, h, idxoff, key);
        SoundExtents(im, dat, ls);
      }
    }

    /** Puts a record taken off the free list to new use in front of a chain. */
    method ReuseRecord(key: string, data: string, ptr: nat) returns (rc: Rc)
      requires Valid() && ReadyFor(key, data) && ptr == im.heads[Hash(key, nhash)]
      requires Matches(im, idxoff, |key|, |data| + 1) && datoff == im.recs[idxoff].datoff
      requires idxoff in ls.home && ls.home[idxoff] == Held && idxoff <= PTR_MAX
      modifies this`idx, this`dat, this`idxpos, this`idxbuf, this`idxoff, this`ptrval, this`datoff, this`datlen
      modifies this`im, this`ls, this`overrun
      ensures rc == Rc(0)
      ensures SEP !in key ==> Valid() && SameShape(old(im), im) && Map() == old(Map())[key := data]
      ensures SEP !in key ==> forall o :: o in ls.home && ls.home[o] == Held ==>
        o in old(ls).home && old(ls).home[o] == Held && o != old(idxoff)
      ensures SEP in key ==> JamsOnly(key, old(Map()))
      ensures |dat| == |old(dat)| && |idx| == |old(idx)| && overrun == old(overrun)
    {
      hide Holds, Sound, ExtentsOk, Hash, Rec.Size, Rec.Text, Entry, Overwrite, PtrText, Jammed, Contents, SameShape, LocOk, SparedBut;
      ghost var h, o := Hash(key, nhash), idxoff;
      ghost var r := Rec(ptr, key, datoff, |data| + 1);
      ghost var idx0, dat0 := idx, dat;
      HeadInFile(im, idx, h);
      ReusedRecord(im, idx, dat, o, r);
      WriteHeldData(im, dat, ls, o, data);
      TwoInPlace(idx, o, r, h);
      WriteDat(data, datoff, false);
      rc := WriteIdx(key, idxoff, false, ptr);
      if SEP in key {
        SeparatorJams(idx0, o, r, h);
        RecTextParts(r);
        JamSpares(im, idx0, dat, ls, o, r.Text(), h);
      } else {
        ReuseAll(im, idx0, dat0, ls, h, o, key, data);
      }
      rc := WritePtr(chainoff, idxoff);
      if SEP !in key {
        im := SetRec(im, o, r);
        im, ls := im.(heads := im.heads[h := o]), Linked(ls, h, o, key);
        SoundExtents(im, dat, ls);
      }
    }

    /** Insert, replace or either; Dump only when new space is needed and not to be had. */
    method Store(key: string, data: string, flag: int) returns (rc: Rc)
      requires SoundOrJammed(key) && NUL !in key && NUL !in data
      modifies this
      ensures flag != DB_INSERT && flag != DB_REPLACE && flag != DB_STORE ==>
        rc == Rc(-1) && im == old(im) && ls == old(ls) && idx == old(idx) && dat == old(dat)
      ensures old(Valid()) && !Jams(StoreOp(key, data, flag)) ==> Valid() && SameShape(old(im), im)
      ensures old(Valid()) && !Jams(StoreOp(key, data, flag)) && (flag == DB_INSERT || flag == DB_REPLACE || flag == DB_STORE) ==>
        if !(DATLEN_MIN <= |data| + 1 <= DATLEN_MAX) then
          rc == Dump && Map() == old(Map()) && idx == old(idx) && dat == old(dat)
        else if key in old(Map()) && flag == DB_INSERT then
          rc == Rc(1) && Map() == old(Map()) && idx == old(idx) && dat == old(dat)
        else if key !in old(Map()) && flag == DB_REPLACE then
          rc == Rc(-1) && Map() == old(Map()) && idx == old(idx) && dat == old(dat)
        else if old(NeedsAppend(im, ls, key, data) && !Fits(idx, dat, key, data)) then
          rc == Dump && Map() == old(Map()) - {key}
        else
          rc == Rc(0) && Map() == old(Map())[key := data]
      ensures old(Valid()) && !Jams(StoreOp(key, data, flag)) && rc != Dump && Settled(old(ls)) ==> Settled(ls)
      ensures old(Valid()) && Jams(StoreOp(key, data, flag)) ==>
        if old(NeedsAppend(im, ls, key, data) && !Fits(idx, dat, key, data)) then
          rc == Dump && old(idx) <= idx && old(dat) <= dat
        else
          rc == Rc(0) && JamsOnly(key, old(Map()))
      ensures old(Valid()) ==> |dat| <= |old(dat)| + |data| + 1
      ensures old(Valid() && !NeedsAppend(im, ls, key, data)) ==> |idx| == |old(idx)| && |dat| == |old(dat)|
      ensures old(Valid()) ==> (overrun <==> old(overrun) || old(Overruns(im, ls, dat, StoreOp(key, data, flag))))
      ensures old(Jammed(idx, Hash(key, nhash))) && (flag == DB_INSERT || flag == DB_REPLACE || flag == DB_STORE) ==>
        rc == Dump && idx == old(idx) && dat == old(dat)
    {
      hide Holds, Sound, ExtentsOk, Hash, Contents, Jammed, SameShape, NeedsAppend, Fits, LocOk;
      ShapeRefl(im);
      if flag != DB_INSERT && flag != DB_REPLACE && flag != DB_STORE {
        return Rc(-1);
      }
      var keylen, dlen := |key|, |data| + 1;
      if dlen < DATLEN_MIN || dlen > DATLEN_MAX {
        return Dump;
      }
      ghost var sound := Valid();
      if sound {
        InMap(im, idx, dat, ls, key);
      }
      var find, pos := FindAndLock(key);
      if find == Dump {
        return Dump;
      }
      if find != Rc(0) {
        if flag == DB_REPLACE {
          return Rc(-1);
        }
        rc := StoreNew(key, data);
      } else {
        if flag == DB_INSERT {
          return Rc(1);
        }
        rc := StoreOver(key, data, pos);
      }
    }

    /** The key is not there: reuse a free record of the same sizes, or append. */
    method StoreNew(key: string, data: string) returns (rc: Rc)
      requires Valid() && ReadyFor(key, data)
      modifies this
      ensures rc == if old(NeedsAppend(im, ls, key, data) && !Fits(idx, dat, key, data)) then Dump else Rc(0)
      ensures SEP !in key ==> Valid() && SameShape(old(im), im)
      ensures SEP !in key ==> Map() == if rc == Dump then old(Map()) else old(Map())[key := data]
      ensures SEP !in key && rc != Dump && Settled(old(ls)) ==> Settled(ls)
      ensures SEP in key ==> if rc == Dump then old(idx) <= idx && old(dat) <= dat else JamsOnly(key, old(Map()))
      ensures |dat| <= |old(dat)| + |data| + 1
      ensures !old(NeedsAppend(im, ls, key, data)) ==> |idx| == |old(idx)| && |dat| == |old(dat)|
      ensures overrun <==> old(overrun) || old(NeedsAppend(im, ls, key, data) && |Entry(key, |dat|, |data| + 1)| > IDXLEN_MAX + 1)
    {
      hide Holds, Sound, ExtentsOk, Hash, Contents, SameShape, Fits, Jammed, LocOk;
      ghost var h, im0, ls0 := Hash(key, nhash), im, ls;
      HeadInFile(im, idx, h);
      var ptrval' := ReadPtr(chainoff);
      if !ptrval'.Next? {
        return Dump;
      }
      var found, pos := FindFree(|key|, |data| + 1);
      if found == Dump {
        return Dump;
      }
      if found != Rc(0) {
        rc := AppendRecord(key, data, ptrval'.ptr);
      } else {
        FreeOffset(im0, dat, ls0, pos);
        ghost var im1 := im;
        rc := ReuseRecord(key, data, ptrval'.ptr);
        if SEP !in key {
          ShapeTrans(im0, im1, im);
        }
      }
    }

    /** The key is there, under the current record: overwrite data of its length, or delete and append. */
    method StoreOver(key: string, data: string, ghost pos: nat) returns (rc: Rc)
      requires Valid() && nhash > 0 && NUL !in data && DATLEN_MIN <= |data| + 1 <= DATLEN_MAX
      requires key in ls.loc && CurrentOn(Hash(key, nhash), pos) && idxoff == ls.loc[key] && idxbuf == key
      modifies this
      ensures Valid() && SameShape(old(im), im)
      ensures rc == if old(NeedsAppend(im, ls, key, data) && !Fits(idx, dat, key, data)) then Dump else Rc(0)
      ensures Map() == if rc == Dump then old(Map()) - {key} else old(Map())[key := data]
      ensures rc != Dump && Settled(old(ls)) ==> Settled(ls)
      ensures |dat| <= |old(dat)| + |data| + 1
      ensures !old(NeedsAppend(im, ls, key, data)) ==> |idx| == |old(idx)| && |dat| == |old(dat)|
      ensures overrun <==> old(overrun) || old(NeedsAppend(im, ls, key, data) && |Entry(key, |dat|, |data| + 1)| > IDXLEN_MAX + 1)
    {
      hide Holds, ExtentsOk, Sound, Hash, Contents, SameShape, Overwrite, Entry, LocOk;
      ghost var h, im0 := Hash(key, nhash), im;
      InMap(im, idx, dat, ls, key);
      if |data| + 1 != datlen {
        rc := DoDelete(h, pos);
        if rc == Dump {
          return;
        }
        ghost var im1 := im;
        HeadInFile(im, idx, h);
        var ptrval' := ReadPtr(chainoff);
        if !ptrval'.Next? {
          return Dump;
        }
        rc := AppendRecord(key, data, ptrval'.ptr);
        ShapeTrans(im0, im1, im);
      } else {
        LiveWrite(im, dat, ls, key, data);
        ShapeRefl(im);
        WriteDat(data, datoff, false);
        rc := Rc(0);
      }
    }

    // ---------- Scanning ----------

    /** The descriptor stands before record n of the file. */
    ghost predicate ScanAt(n: nat)
      reads this
    {
      n <= |im.order| && idxpos == PosAt(im, n)
    }

    method Rewind()
      requires Valid()
      modifies this`idxpos, this`idxoff
      ensures ScanAt(0)
    {
      var offset := (nhash + 1) * PTR_SZ;
      idxpos := offset + 1;
      idxoff := idxpos;
    }

    /** Returns the next record whose key is not all blanks. */
    method NextRec(ghost n: nat) returns (r: Scanned, ghost m: nat)
      requires Valid() && ScanAt(n)
      modifies this`idxpos, this`idxoff, this`ptrval, this`idxlen, this`idxbuf, this`datoff, this`datlen, this`datbuf
      ensures ScanAt(m) && n <= m
      ensures var scan := ScanFrom(im, dat, n);
        if scan == [] then r == ScanEnd && m == |im.order|
        else r == Found(scan[0].0, scan[0].1) && ScanFrom(im, dat, m) == scan[1..] && m > n
    {
      hide Holds, Sound, ExtentsOk, ParseRecord, CStr, Value, ScanFrom, Entry, PosAt;
      HoldsTiled(im, idx);
      m := n;
      while true
        modifies this`idxpos, this`idxoff, this`ptrval, this`idxlen, this`idxbuf, this`datoff, this`datlen
        invariant ScanAt(m) && n <= m
        invariant ScanFrom(im, dat, m) == ScanFrom(im, dat, n)
        decreases |im.order| - m
      {
        ScanBytes(im, idx, m);
        ScanNext(im, dat, m);
        var next := ReadIdx(0);
        if next == NextEof {
          return ScanEnd, m;
        } else if next == NextDump {
          return ScanDump, m;
        }
        m := m + 1;
        var j := 0;
        while j < |idxbuf| && idxbuf[j] == SPACE
          invariant 0 <= j <= |idxbuf|
          invariant forall i :: 0 <= i < j ==> idxbuf[i] == SPACE
        {
          j := j + 1;
        }
        if j < |idxbuf| {
          break;
        }
      }
      ScanData(im, dat, m - 1);
      var data := ReadDat();
      if !data.Data? {
        return ScanDump, m;
      }
      return Found(idxbuf, data.text), m;
    }

    /** db_rewind and then db_nextrec until it returns NULL. */
    method Scan() returns (out: seq<(string, string)>, dumped: bool)
      requires Valid()
      modifies this`idxpos, this`idxoff, this`ptrval, this`idxlen, this`idxbuf, this`datoff, this`datlen, this`datbuf
      ensures !dumped && out == ScanFrom(im, dat, 0)
    {
      hide Tiled, HeaderBytes, FieldsOk, ExtentsOk, ListsOk, TextOk, ScanFrom, Rec.Size, Rec.Text;
      Rewind();
      ghost var n := 0;
      out := [];
      while true
        invariant ScanAt(n)
        invariant out + ScanFrom(im, dat, n) == ScanFrom(im, dat, 0)
        decreases |im.order| - n
      {
        ghost var scan := ScanFrom(im, dat, n);
        var r, m := NextRec(n);
        if r == ScanEnd {
          return out, false;
        } else if r == ScanDump {
          return out, true;
        }
        assert out + scan == out + [(r.key, r.text)] + scan[1..];
        out := out + [(r.key, r.text)];
        n := m;
      }
    }

    // ---------- Opening and running ----------

    /** db_open with O_CREAT | O_TRUNC on an empty index file. */
    constructor Create(nhash: nat)
      requires nhash > 0
      ensures this.nhash == nhash && |idx| == Base(nhash) && dat == "" && ls.freel == [] && !overrun
      ensures Valid() && Settled(ls) && Map() == map[]
      ensures ScanAt(0)
    {
      var hash := "";
      var i := 0;
      assert ZeroFields(hash, 0);
      while i < nhash + 1
        invariant 0 <= i <= nhash + 1 && ZeroFields(hash, i)
      {
        ZeroFieldsGrow(hash, i);
        hash := hash + Field(PTR_SZ, 0);
        i := i + 1;
      }
      FreshHolds(hash, nhash);
      this.nhash, overrun := nhash, false;
      idx, dat := hash + [NEWLINE], "";
      idxbuf, datbuf := "", "";
      idxlen, datoff, datlen, ptrval, ptroff, chainoff := 0, 0, 0, 0, 0, 0;
      idxpos := (nhash + 1) * PTR_SZ + 1;
      idxoff := (nhash + 1) * PTR_SZ + 1;
      im := Image(0, seq(nhash, i => 0), map[], []);
      ls := Lists(seq(nhash, i => []), [], map[], map[]);
    }

    method Call(op: Op) returns (a: Answer, dumped: bool)
      requires (SoundOrJammed(op.key) || (op.FetchOp? && Searchable(op.key))) && WellFormed(op)
      modifies this
      ensures old(Valid()) ==> (dumped <==> old(Dumps(im, ls, idx, dat, op)))
      ensures old(Valid()) && !Jams(op) ==> Valid() && SameShape(old(im), im)
      ensures old(Valid()) && !Jams(op) && !dumped ==> (Map(), a) == Apply(old(Map()), op)
      ensures old(Valid()) && !Jams(op) && !dumped && Settled(old(ls)) ==> Settled(ls)
      ensures old(Valid()) && Jams(op) && !dumped ==> a == Apply(old(Map()), op).1 && JamsOnly(op.key, old(Map()))
      ensures old(Valid()) ==> (overrun <==> old(overrun) || old(Overruns(im, ls, dat, op)))
      ensures old(Jammed(idx, Hash(op.key, nhash))) && !(op.StoreOp? && !(DB_INSERT <= op.flag <= DB_STORE)) ==>
        dumped && idx == old(idx) && dat == old(dat)
    {
      hide Holds, Sound, ExtentsOk, LocOk, Contents, Hash, Jammed, Fits, NeedsAppend, SameShape;
      a, dumped := NoText, false;
      ghost var sound := Valid();
      if sound {
        InMap(im, idx, dat, ls, op.key);
        SoundWalks(im, idx, dat, ls, op.key);
        ShapeRefl(im);
      }
      match op {
        case FetchOp(key) =>
          var f := Fetch(key);
          match f {
            case Data(text) => a := Text(text);
            case Missing =>
            case FetchDump => dumped := true;
          }
        case DeleteOp(key) =>
          var rc := Delete(key);
          match rc {
            case Rc(value) => a := Code(value);
            case Dump => dumped := true;
          }
        case StoreOp(key, data, flag) =>
          var rc := Store(key, data, flag);
          match rc {
            case Rc(value) => a := Code(value);
            case Dump => dumped := true;
          }
      }
    }

    /**
     Any sequence of calls answers like a map does, up to a call that dumps, or a store of a key
     with a separator; at is the state in which the last call was made.
     */
    method Run(ops: seq<Op>) returns (answers: seq<Answer>, dumped: bool, jammed: bool, ghost at: Files)
      requires Valid() && Settled(ls)
      requires forall i :: 0 <= i < |ops| ==> WellFormed(ops[i])
      modifies this
      ensures |answers| <= |ops| && answers == Answers(old(Map()), ops[..|answers|])
      ensures !dumped && !jammed ==>
        && |answers| == |ops| && Valid() && SameShape(old(im), im) && Settled(ls)
        && Map() == MapAfter(old(Map()), ops)
        && forall i :: 0 <= i < |ops| ==> !Jams(ops[i])
      ensures dumped || jammed ==> Holds(at.im, at.idx) && Sound(at.im, at.dat, at.ls) && SameShape(old(im), at.im)
      ensures dumped ==>
        && |answers| < |ops| && Dumps(at.im, at.ls, at.idx, at.dat, ops[|answers|])
        && Contents(at.im, at.dat, at.ls) == MapAfter(old(Map()), ops[..|answers|])
      ensures jammed ==>
        && 0 < |answers| && Jams(ops[|answers| - 1])
        && JamsOnly(ops[|answers| - 1].key, MapAfter(old(Map()), ops[..|answers| - 1]))
        && Contents(at.im, at.dat, at.ls) == MapAfter(old(Map()), ops[..|answers| - 1])
        && !Dumps(at.im, at.ls, at.idx, at.dat, ops[|answers| - 1])
    {
      hide Holds, Sound, ExtentsOk, LocOk, Contents, Hash, Jammed, SameShape, Dumps, WellFormed, Jams, Apply;
      answers := [];
      var i := 0;
      ShapeRefl(im);
      at := Files(im, ls, idx, dat);
      while i < |ops|
        invariant 0 <= i == |answers| <= |ops|
        invariant Valid() && SameShape(old(im), im) && Settled(ls)
        invariant answers == Answers(old(Map()), ops[..i]) && Map() == MapAfter(old(Map()), ops[..i])
        invariant forall j :: 0 <= j < i ==> !Jams(ops[j])
      {
        at := Files(im, ls, idx, dat);
        SoundExtents(im, dat, ls);
        var a, stop := Call(ops[i]);
        if stop {
          return answers, true, false, at;
        }
        assert ops[..i + 1][..i] == ops[..i];
        answers := answers + [a];
        i := i + 1;
        if Jams(ops[i - 1]) {
          return answers, false, true, at;
        }
        ShapeTrans(old(im), at.im, im);
      }
      assert ops[..i] == ops;
      return answers, false, false, at;
    }
  }
}
