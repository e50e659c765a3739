/**
 What becomes of space in the two files (db/db.c:752-805, 700-739): a record given up is used
 again for a record of its lengths, and data of the same length stay where they are.
 */
module DbSpace {
  import opened DbFormat
  import opened DbImage
  import opened DbLists
  import opened DbSteps
  import opened DbSpec
  import opened DbStore
  import opened DbFailures

  /** A key deleted and another of its length stored with data of the same length: neither file grows. */
  method SpaceIsUsedAgain(db: Db, key: string, other: string, data: string) returns (deleted: Rc, stored: Rc)
    requires db.Valid() && db.nhash > 0 && key in db.Map() && (other == key || other !in db.Map())
    requires |other| == |key| && |data| == |db.Map()[key]|
    requires SEP !in other && NUL !in other && NUL !in data && DATLEN_MIN <= |data| + 1 <= DATLEN_MAX
    modifies db
    ensures deleted == Rc(0) && stored == Rc(0)
    ensures db.Valid() && db.Map() == (old(db.Map()) - {key})[other := data]
    ensures |db.idx| == |old(db.idx)| && |db.dat| == |old(db.dat)|
  {
    hide Holds, Sound, ExtentsOk, Contents, LocOk, Hash, Jammed, Fits, SameShape, Entry;
    DataLength(db.im, db.dat, db.ls, key);
    InMap(db.im, db.idx, db.dat, db.ls, key);
    ghost var o, im := db.ls.loc[key], db.im;
    deleted := db.Delete(key);
    SameLengths(im, db.im, o);
    InMap(db.im, db.idx, db.dat, db.ls, other);
    assert db.ls.freel[0] == o && Matches(db.im, db.ls.freel[0], |other|, |data| + 1);
    stored := db.Store(other, data, DB_INSERT);
  }

  lemma SameLengths(im: Image, im': Image, o: nat)
    requires SameShape(im, im') && o in im.recs
    ensures o in im'.recs && |im'.recs[o].key| == |im.recs[o].key| && im'.recs[o].datlen == im.recs[o].datlen
  {
    hide Rec.Size;
  }

  /** A key replaced with data of the same length: it is stored, even where there is no room for a record. */
  method ReplacesInPlace(db: Db, key: string, data: string) returns (stored: Rc)
    requires db.Valid() && db.nhash > 0 && key in db.Map() && |data| == |db.Map()[key]|
    requires NUL !in data && DATLEN_MIN <= |data| + 1 <= DATLEN_MAX
    modifies db
    ensures stored == Rc(0) && db.Valid() && db.Map() == old(db.Map())[key := data]
    ensures |db.idx| == |old(db.idx)| && |db.dat| == |old(db.dat)|
  {
    hide Holds, Sound, ExtentsOk, Contents, LocOk, Hash, Jammed, Fits, SameShape, Entry;
    DataLength(db.im, db.dat, db.ls, key);
    InMap(db.im, db.idx, db.dat, db.ls, key);
    stored := db.Store(key, data, DB_REPLACE);
  }
}
