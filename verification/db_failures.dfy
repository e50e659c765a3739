/**
 Inputs at which the database does not do what it is for (db/db.c:567-612, 637-746, 835-875):
 a replacement that loses its key, an entry its buffer cannot hold, a key that is stored but
 stops every later reader of its chain, and a key no scan shows.
 */
module DbFailures {
  import opened DbFormat
  import opened DbImage
  import opened DbLists
  import opened DbSteps
  import opened DbScan
  import opened DbSpec
  import opened DbStore

  /** With a key of 1018 characters, one character of data fits in an entry and 500 do not. */
  lemma EntryLimits(key: string, datoff: nat)
    requires |key| == 1018
    ensures |Entry(key, 0, 2)| == 1023 && |Entry(key, datoff, 501)| > IDXLEN_MAX
    ensures datoff < 10 ==> |Entry(key, datoff, 501)| == IDXLEN_MAX + 1
    ensures |Entry(key, 0, 1000)| == IDXLEN_MAX + 2
  {
    DigitsLength(501, 2);
    DigitsLength(501, 3);
    DigitsLength(1000, 3);
    DigitsLength(1000, 4);
    assert Pow10(2) == 100 && Pow10(3) == 1000 && Pow10(4) == 10000 by { assert Pow10(1) == 10; }
  }

  /** The length of the data under a key is that of its extent. */
  lemma DataLength(im: Image, dat: string, ls: Lists, key: string)
    requires Sound(im, dat, ls) && key in Contents(im, dat, ls)
    ensures key in ls.loc && ls.loc[key] in im.recs && im.recs[ls.loc[key]].datlen == |Contents(im, dat, ls)[key]| + 1
  {
    hide ChainOk, FreeOk, HomesOk;
  }

  /** A replacement whose entry is too long by one ends the process when the old record is already gone. */
  method ReplaceLosesKey() returns (first: Rc, second: Rc, db: Db)
    ensures fresh(db) && db.Valid() && !db.overrun
    ensures first == Rc(0) && second == Dump && db.Map() == map[]
  {
    hide Holds, Sound, ExtentsOk, Contents, Hash, Jammed, SameShape, Entry, Digits, LocOk;
    var key: string := seq(1018, i => 'k');
    var data: string := seq(500, i => 'd');
    db := new Db.Create(1);
    EntryLimits(key, 0);
    assert Fits(db.idx, db.dat, key, "a");
    assert db.SoundOrJammed(key);
    first := db.Store(key, "a", DB_INSERT);
    DataLength(db.im, db.dat, db.ls, key);
    EntryLimits(key, |db.dat|);
    second := db.Store(key, data, DB_REPLACE);
  }

  /** An entry of two bytes more than the limit does not fit the buffer it is checked in. */
  method EntryOverrunsBuffer() returns (rc: Rc, db: Db)
    ensures fresh(db) && rc == Dump && db.overrun
  {
    hide Holds, Sound, ExtentsOk, Contents, Hash, Jammed, SameShape, Entry, Digits, LocOk;
    var key: string := seq(1018, i => 'k');
    var data: string := seq(999, i => 'd');
    db := new Db.Create(1);
    EntryLimits(key, 0);
    SoundExtents(db.im, db.dat, db.ls);
    InMap(db.im, db.idx, db.dat, db.ls, key);
    rc := db.Store(key, data, DB_INSERT);
  }

  /**
   db_store takes a key with a separator, and from then on every call for a key of the same
   chain ends the process, whatever the database held; keys of other chains are still found.
   */
  method SeparatorStopsChain(db: Db, key: string, data: string, other: string) returns (stored: Rc, found: Fetched)
    requires db.Valid() && WellFormed(StoreOp(key, data, DB_STORE)) && Jams(StoreOp(key, data, DB_STORE))
    requires !Dumps(db.im, db.ls, db.idx, db.dat, StoreOp(key, data, DB_STORE)) && db.nhash > 0
    modifies db
    ensures stored == Rc(0)
    ensures found ==
      if Hash(other, db.nhash) == Hash(key, db.nhash) then FetchDump
      else if other in old(db.Map()) then Data(old(db.Map())[other]) else Missing
  {
    hide Holds, Sound, ExtentsOk, Contents, LocOk, Hash, Jammed, Fits, NeedsAppend, SameShape, ChainReads, TextAt;
    SoundExtents(db.im, db.dat, db.ls);
    ghost var m := db.Map();
    stored := db.Store(key, data, DB_STORE);
    assert Hash(other, db.nhash) != Hash(key, db.nhash) ==> KeySpared(db.im, db.idx, db.dat, db.ls, m, other);
    found := db.Fetch(other);
  }

  /** Nor can a key of that chain be deleted or stored any more. */
  method SeparatorStopsWrites(db: Db, key: string, data: string, other: string) returns (deleted: Rc, stored: Rc)
    requires db.Valid() && WellFormed(StoreOp(key, data, DB_STORE)) && Jams(StoreOp(key, data, DB_STORE))
    requires !Dumps(db.im, db.ls, db.idx, db.dat, StoreOp(key, data, DB_STORE))
    requires db.nhash > 0 && Hash(other, db.nhash) == Hash(key, db.nhash) && NUL !in other
    modifies db
    ensures deleted == Dump && stored == Dump
  {
    hide Holds, Sound, ExtentsOk, Contents, LocOk, Hash, Jammed, Fits, NeedsAppend, SameShape, SparedBut;
    SoundExtents(db.im, db.dat, db.ls);
    var rc := db.Store(key, data, DB_STORE);
    deleted := db.Delete(other);
    stored := db.Store(other, data, DB_STORE);
  }

  lemma OneCharacterFits(key: string)
    requires |key| == 1
    ensures |Entry(key, 0, 2)| == 6
  {
  }

  /** The key ":" stored in a new database of one chain: no key can be looked up any more. */
  method SeparatorStopsAll(other: string) returns (stored: Rc, found: Fetched)
    ensures stored == Rc(0) && found == FetchDump
  {
    hide Holds, Sound, ExtentsOk, Contents, LocOk, Hash, Jammed, SameShape, NeedsAppend, Entry, Digits;
    var db := new Db.Create(1);
    HashBelow(":", 1);
    HashBelow(other, 1);
    OneCharacterFits(":");
    stored, found := SeparatorStopsChain(db, ":", "x", other);
  }

  method BlankStored() returns (stored: Rc, db: Db)
    ensures fresh(db) && db.Valid() && Settled(db.ls) && stored == Rc(0) && db.Map() == map[" " := "x"] && db.nhash == 1
  {
    hide Holds, Sound, ExtentsOk, Contents, LocOk, Hash, Jammed, SameShape, Entry, Digits;
    db := new Db.Create(1);
    OneCharacterFits(" ");
    assert Fits(db.idx, db.dat, " ", "x");
    stored := db.Store(" ", "x", DB_INSERT);
  }

  /** The key " " is stored and can be fetched, and a scan of the database shows nothing. */
  method BlankKeyIsHidden() returns (stored: Rc, found: Fetched, shown: seq<(string, string)>)
    ensures stored == Rc(0) && found == Data("x") && shown == []
  {
    hide Holds, Sound, ExtentsOk, Contents, LocOk, Hash, Jammed, SameShape, ScanFrom, ChainReads, TextAt, Tiled;
    var db;
    stored, db := BlankStored();
    found := db.Fetch(" ");
    HoldsTiled(db.im, db.idx);
    SoundExtents(db.im, db.dat, db.ls);
    var dumped;
    shown, dumped := db.Scan();
    if ScanFrom(db.im, db.dat, 0) != [] {
      FirstShown(db.im, db.dat, db.ls);
    }
  }

  lemma FirstShown(im: Image, dat: string, ls: Lists)
    requires Tiled(im) && Sound(im, dat, ls) && Settled(ls) && ScanFrom(im, dat, 0) != []
    ensures var first := ScanFrom(im, dat, 0)[0].0; first in Contents(im, dat, ls) && !BlankKey(first)
  {
    hide ScanFrom, Contents, ListsOk, ExtentsOk, Tiled;
    ScanComplete(im, dat, ls);
  }
}
