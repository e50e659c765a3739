/**
 The sequential scan of the index file (db/db.c:812-875) as a list: the records whose key
 is not all blanks, in file order. ScanComplete says what that list is to the map.
 */
module DbScan {
  import opened DbFormat
  import opened DbImage
  import opened DbLists
  import opened DbSteps

  predicate BlankKey(key: string) {
    forall i :: 0 <= i < |key| ==> key[i] == SPACE
  }

  /** The offset a scan is at when it has passed n records. */
  ghost function PosAt(im: Image, n: nat): nat {
    if n < |im.order| then im.order[n] else End(im)
  }

  ghost function ScanFrom(im: Image, dat: string, n: nat): seq<(string, string)>
    requires Tiled(im) && ExtentsOk(im, dat)
    decreases |im.order| - n
  {
    if n >= |im.order| then []
    else
      var o := im.order[n];
      var rest := ScanFrom(im, dat, n + 1);
      if BlankKey(im.recs[o].key) then rest
      else [(im.recs[o].key, CStr(Value(im, dat, o)))] + rest
  }

  /** A scan that passes record n shows it, unless its key is all blanks. */
  lemma ScanNext(im: Image, dat: string, n: nat)
    requires Tiled(im) && ExtentsOk(im, dat)
    ensures n >= |im.order| ==> ScanFrom(im, dat, n) == []
    ensures n < |im.order| && BlankKey(im.recs[im.order[n]].key) ==> ScanFrom(im, dat, n) == ScanFrom(im, dat, n + 1)
    ensures n < |im.order| && !BlankKey(im.recs[im.order[n]].key) ==>
      var scan := ScanFrom(im, dat, n);
      && |scan| > 0 && scan[1..] == ScanFrom(im, dat, n + 1)
      && scan[0] == (im.recs[im.order[n]].key, CStr(Value(im, dat, im.order[n])))
  {
    hide BlankKey, CStr, Value, ExtentsOk, Rec.Size;
  }

  lemma ScanStep(im: Image, n: nat)
    requires Tiled(im) && n < |im.order|
    ensures im.order[n] in im.recs
    ensures PosAt(im, n + 1) == im.order[n] + im.recs[im.order[n]].Size()
  {
    hide Rec.Size;
    if n + 1 < |im.order| {
      assert Adjacent(im, n + 1);
    }
  }

  lemma {:induction false} OrderIncreasing(im: Image, i: nat, j: nat)
    requires Tiled(im) && i < j < |im.order|
    ensures im.order[i] < im.order[j]
    decreases j
  {
    hide Rec.Size, End;
    if i + 1 < j {
      OrderIncreasing(im, i, j - 1);
    }
    assert Adjacent(im, j);
    SizePositive(im.recs[im.order[j - 1]]);
  }

  ghost predicate Settled(ls: Lists) {
    forall o :: o in ls.home ==> ls.home[o] != Held
  }

  /** With nothing held, a record that shows in a scan is the one its key leads to. */
  lemma ShownIsLive(im: Image, dat: string, ls: Lists, o: nat)
    requires Sound(im, dat, ls) && Settled(ls) && o in im.recs && !BlankKey(im.recs[o].key)
    ensures var key := im.recs[o].key;
      && key in ls.loc && ls.loc[key] == o
      && CStr(Value(im, dat, o)) == Contents(im, dat, ls)[key]
  {
    hide Hash, ExtentsOk, Value, Threaded, CStr;
    var key := im.recs[o].key;
    if ls.home[o] == Free {
      FreeIsBlank(im, ls, o);
    } else {
      var h := Hash(key, |im.heads|);
      assert o in ls.chains[h] && ChainOk(im, ls, h);
      var j :| 0 <= j < |ls.chains[h]| && ls.chains[h][j] == o;
      assert LiveOn(im, ls, ls.chains[h][j], h);
      NoNul(Value(im, dat, o));
    }
  }

  lemma FreeIsBlank(im: Image, ls: Lists, o: nat)
    requires ListsOk(im, ls) && o in im.recs && ls.home[o] == Free
    ensures BlankKey(im.recs[o].key)
  {
    hide Hash, Threaded, ChainOk, LocOk;
    assert o in ls.freel;
    var j :| 0 <= j < |ls.freel| && ls.freel[j] == o;
    assert FreeRec(im, ls, ls.freel[j]);
  }

  lemma NoNul(s: string)
    ensures NUL !in s ==> CStr(s) == s
  {
    if NUL !in s {
      StrChrAbsent(s, NUL);
    }
  }

  lemma {:induction false} ScanSource(im: Image, dat: string, n: nat, i: nat) returns (m: nat)
    requires Tiled(im) && ExtentsOk(im, dat) && i < |ScanFrom(im, dat, n)|
    ensures n <= m < |im.order| && !BlankKey(im.recs[im.order[m]].key)
    ensures ScanFrom(im, dat, n)[i] == (im.recs[im.order[m]].key, CStr(Value(im, dat, im.order[m])))
    decreases |im.order| - n
  {
    hide CStr, Value, ExtentsOk, Rec.Size;
    if BlankKey(im.recs[im.order[n]].key) {
      m := ScanSource(im, dat, n + 1, i);
    } else if i == 0 {
      m := n;
    } else {
      m := ScanSource(im, dat, n + 1, i - 1);
    }
  }

  lemma {:induction false} ScanShows(im: Image, dat: string, n: nat, m: nat) returns (i: nat)
    requires Tiled(im) && ExtentsOk(im, dat) && n <= m < |im.order| && !BlankKey(im.recs[im.order[m]].key)
    ensures i < |ScanFrom(im, dat, n)|
    ensures ScanFrom(im, dat, n)[i] == (im.recs[im.order[m]].key, CStr(Value(im, dat, im.order[m])))
    decreases |im.order| - n
  {
    hide CStr, Value, ExtentsOk, Rec.Size;
    if n == m {
      i := 0;
    } else {
      i := ScanShows(im, dat, n + 1, m);
      if !BlankKey(im.recs[im.order[n]].key) {
        i := i + 1;
      }
    }
  }

  lemma {:induction false} ScanDistinct(im: Image, dat: string, ls: Lists, n: nat, i: nat, j: nat)
    requires Tiled(im) && Sound(im, dat, ls) && Settled(ls)
    requires i < j < |ScanFrom(im, dat, n)|
    ensures ScanFrom(im, dat, n)[i].0 != ScanFrom(im, dat, n)[j].0
    decreases |im.order| - n
  {
    hide CStr, Value, ExtentsOk, Rec.Size, ListsOk, Settled;
    if BlankKey(im.recs[im.order[n]].key) {
      ScanDistinct(im, dat, ls, n + 1, i, j);
    } else if i > 0 {
      ScanDistinct(im, dat, ls, n + 1, i - 1, j - 1);
    } else {
      var m := ScanSource(im, dat, n + 1, j - 1);
      ShownIsLive(im, dat, ls, im.order[n]);
      ShownIsLive(im, dat, ls, im.order[m]);
      OrderIncreasing(im, n, m);
    }
  }

  /**
   A scan shows every key of the map that is not all blanks exactly once, with its data,
   and nothing else.
   */
  lemma ScanComplete(im: Image, dat: string, ls: Lists)
    requires Tiled(im) && Sound(im, dat, ls) && Settled(ls)
    ensures var scan, m := ScanFrom(im, dat, 0), Contents(im, dat, ls);
      && (forall i :: 0 <= i < |scan| ==> scan[i].0 in m && !BlankKey(scan[i].0) && scan[i].1 == m[scan[i].0])
      && (forall k :: k in m && !BlankKey(k) ==> exists i :: 0 <= i < |scan| && scan[i].0 == k)
      && (forall i, j :: 0 <= i < j < |scan| ==> scan[i].0 != scan[j].0)
  {
    hide CStr, Value, Rec.Size, ChainOk, FreeOk, HomesOk, ExtentsOk, TextOk, ScanFrom;
    var scan, m := ScanFrom(im, dat, 0), Contents(im, dat, ls);
    forall i | 0 <= i < |scan|
      ensures scan[i].0 in m && !BlankKey(scan[i].0) && scan[i].1 == m[scan[i].0]
    {
      var at := ScanSource(im, dat, 0, i);
      ShownIsLive(im, dat, ls, im.order[at]);
    }
    forall k | k in m && !BlankKey(k)
      ensures exists i :: 0 <= i < |scan| && scan[i].0 == k
    {
      KeyOnChain(im, ls, k);
      var at :| 0 <= at < |im.order| && im.order[at] == ls.loc[k];
      var i := ScanShows(im, dat, 0, at);
      assert scan[i].0 == k;
    }
    forall i, j | 0 <= i < j < |scan|
      ensures scan[i].0 != scan[j].0
    {
      ScanDistinct(im, dat, ls, 0, i, j);
    }
  }

  /** What _db_readidx reads when a scan stands before record n. */
  lemma ScanBytes(im: Image, idx: string, n: nat)
    requires Holds(im, idx) && n <= |im.order|
    ensures n == |im.order| ==> ParseRecord(idx, PosAt(im, n), true) == Eof
    ensures n < |im.order| ==> im.order[n] in im.recs
    ensures n < |im.order| ==> var r := im.recs[im.order[n]];
      && ParseRecord(idx, PosAt(im, n), true) == Record(r.ptr, r.EntryLen(), r.key, r.datoff, r.datlen)
      && PosAt(im, n + 1) == PosAt(im, n) + HDR_SZ + r.EntryLen()
  {
    hide HeaderBytes, FieldsOk, Rec.Text, PtrText, Entry;
    if n < |im.order| {
      ScanStep(im, n);
      RecordInBytes(im, idx, im.order[n], true);
    }
  }

  /** What _db_readdat reads for record n. */
  lemma ScanData(im: Image, dat: string, n: nat)
    requires Tiled(im) && ExtentsOk(im, dat) && n < |im.order|
    ensures im.order[n] in im.recs
    ensures var r := im.recs[im.order[n]];
      && 0 < r.datlen && r.datoff + r.datlen <= |dat| && dat[r.datoff + r.datlen - 1] == NEWLINE
      && Value(im, dat, im.order[n]) == dat[r.datoff..r.datoff + r.datlen - 1]
  {
    hide Rec.Size;
  }
}
