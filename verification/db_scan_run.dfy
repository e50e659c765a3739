/**
 A whole scan beside other processes (db/db.c:812-875): db_rewind and one db_nextrec after the
 other, each under its own read lock, with any number of steps of other processes in between.
 */
module DbScanRun {
  import opened DbFormat
  import opened DbImage
  import opened DbLists
  import opened DbSteps
  import opened DbProcesses
  import opened DbInvariant
  import opened DbMoves
  import opened DbConcurrent
  import opened DbTheorems
  import opened DbBytes
  import opened DbScanning
  import opened DbRecords
  import DbScan

  /** The reads of a scan: in which state and where each index record was read, and in which its data. */
  datatype Log = Log(times: seq<nat>, offs: seq<nat>, datTimes: seq<nat>) {
    /** The number of records read. */
    function Count(): nat { |datTimes| }

    ghost predicate Within(r: Run) {
      && |times| == |offs| == |datTimes| + 1 && |r.states| == |r.pids| + 1
      && (forall j :: 0 <= j < |times| ==> times[j] < |r.states|)
      && (forall j :: 0 <= j < |datTimes| ==> datTimes[j] < |r.states|)
    }

    /** The states of the scan, from its first read to its last. */
    ghost function First(): nat
      requires times != []
    {
      times[0]
    }

    ghost function Last(): nat
      requires times != []
    {
      times[|times| - 1]
    }
  }

  /** What _db_readidx makes of the bytes at the offset of read j. */
  ghost function Found(r: Run, idx: string, l: Log, j: nat): Parsed
    requires l.Within(r) && j <= l.Count()
  {
    ParseRecord(FileAfter(r, idx, l.times[j]), l.offs[j], true)
  }

  /** The process holds the read lock of the free list. */
  ghost predicate Reads(r: Run, p: nat, t: nat) {
    t < |r.states| && p < |r.states[t].pcs| && r.states[t].pcs[p].Scanning?
  }

  /** Read j finds a record, its data are read after it, and the next read is where it ends. */
  ghost predicate ReadsRecord(r: Run, idx: string, p: nat, l: Log, j: nat)
    requires l.Within(r) && j < l.Count()
  {
    && Reads(r, p, l.times[j]) && Reads(r, p, l.datTimes[j])
    && l.times[j] <= l.datTimes[j] <= l.times[j + 1]
    && Found(r, idx, l, j).Record? && l.offs[j + 1] == l.offs[j] + HDR_SZ + Found(r, idx, l, j).idxlen
  }

  /** A scan from the first record to the end of the file, every read under the lock. */
  ghost predicate Scans(r: Run, idx: string, p: nat, l: Log) {
    && l.Within(r)
    && l.offs[0] == Base(|r.states[l.times[0]].d.im.heads|)
    && (forall j :: 0 <= j < l.Count() ==> ReadsRecord(r, idx, p, l, j))
    && Reads(r, p, l.Last()) && Found(r, idx, l, l.Count()) == Eof
  }

  ghost predicate HasKey(r: Run, idx: string, l: Log, j: nat, key: string)
    requires l.Within(r) && j < l.Count()
  {
    Found(r, idx, l, j).Record? && Found(r, idx, l, j).key == key
  }

  /** Read j gives the caller the key, and the data that the map has for it when the data are read. */
  ghost predicate Gives(r: Run, idx: string, l: Log, j: nat, key: string)
    requires l.Within(r) && j < l.Count()
  {
    var found, s := Found(r, idx, l, j), r.states[l.datTimes[j]];
    && HasKey(r, idx, l, j, key)
    && 0 < found.datlen && found.datoff + found.datlen <= |s.d.dat|
    && key in s.abs && s.abs[key] == s.d.dat[found.datoff..found.datoff + found.datlen - 1]
  }

  /** A process that ended has left a record with the key behind. */
  ghost predicate LeftBehind(s: Sys, key: string) {
    exists q: nat, o: nat :: LeftByDead(s, q, o) && Shows(s, key, o)
  }

  // ---------- Which record a read finds ----------

  lemma {:induction false} TimesGrow(r: Run, idx: string, p: nat, l: Log, i: nat, j: nat)
    requires Scans(r, idx, p, l) && i <= j <= l.Count()
    ensures l.times[i] <= l.times[j]
    decreases j
  {
    hide Found;
    if i < j {
      TimesGrow(r, idx, p, l, i, j - 1);
      assert ReadsRecord(r, idx, p, l, j - 1);
    }
  }

  ghost predicate StandsAt(r: Run, l: Log, j: nat)
    requires l.Within(r) && j <= l.Count()
  {
    var im := r.states[l.times[j]].d.im;
    j <= |im.order| && l.offs[j] == DbScan.PosAt(im, j)
  }

  /** Read j stands before record j of the file, whatever other processes have written since the first. */
  lemma {:induction false} Positions(r: Run, idx: string, p: nat, l: Log, j: nat)
    requires IsRun(r) && Holds(r.states[0].d.im, idx) && Scans(r, idx, p, l) && j <= l.Count()
    ensures StandsAt(r, l, j)
  {
    hide Init, Holds, Step, SameShape, FileAfter, ParseRecord, Scans, Reads;
    ScanBounds(r, idx, p, l);
    if j == 0 {
      RunTiled(r, idx, l.times[0]);
      FirstPos(r.states[l.times[0]].d.im);
    } else {
      Positions(r, idx, p, l, j - 1);
      NextPosition(r, idx, p, l, j - 1);
    }
  }

  lemma ScanBounds(r: Run, idx: string, p: nat, l: Log)
    requires Scans(r, idx, p, l)
    ensures l.Within(r) && l.offs[0] == Base(|r.states[l.times[0]].d.im.heads|)
    ensures forall j :: 0 <= j < l.Count() ==> ReadsRecord(r, idx, p, l, j)
    ensures Found(r, idx, l, l.Count()) == Eof
  {
    hide Found, ReadsRecord;
  }

  lemma FirstPos(im: Image)
    requires Tiled(im)
    ensures DbScan.PosAt(im, 0) == Base(|im.heads|)
  {
    hide Rec.Size;
  }

  lemma RunTiled(r: Run, idx: string, t: nat)
    requires IsRun(r) && Holds(r.states[0].d.im, idx) && t < |r.states|
    ensures Holds(r.states[t].d.im, FileAfter(r, idx, t)) && Tiled(r.states[t].d.im)
  {
    hide Init, Inv, DiskOk, View, ListsOk, ExtentsOk, Holds, FileAfter, StepsAt;
    RunInv(r, t);
    RunBytes(r, idx, t);
    DiskOfInv(r.states[t]);
  }

  lemma NextPosition(r: Run, idx: string, p: nat, l: Log, j: nat)
    requires IsRun(r) && Holds(r.states[0].d.im, idx) && l.Within(r) && j < l.Count()
    requires ReadsRecord(r, idx, p, l, j) && StandsAt(r, l, j)
    ensures StandsAt(r, l, j + 1)
  {
    hide Init, Holds, SameShape, FileAfter, ParseRecord, StepsAt, Tiled;
    var t, t' := l.times[j], l.times[j + 1];
    var im, im' := r.states[t].d.im, r.states[t'].d.im;
    RunTiled(r, idx, t);
    RunTiled(r, idx, t');
    DbScan.ScanBytes(im, FileAfter(r, idx, t), j);
    RunShape(r, idx, t, t');
    PosStays(im, im', j + 1);
  }

  /** Read j finds record j of the file: the record at that place of the order the file ends with. */
  lemma FindsRecord(r: Run, idx: string, p: nat, l: Log, j: nat) returns (o: nat)
    requires IsRun(r) && Holds(r.states[0].d.im, idx) && Scans(r, idx, p, l) && j < l.Count()
    ensures l.Within(r) && j < |r.states[l.Last()].d.im.order| && o == r.states[l.Last()].d.im.order[j]
    ensures var im := r.states[l.times[j]].d.im;
      o in im.recs && Found(r, idx, l, j) ==
        Record(im.recs[o].ptr, im.recs[o].EntryLen(), im.recs[o].key, im.recs[o].datoff, im.recs[o].datlen)
  {
    hide Init, Holds, SameShape, FileAfter, ParseRecord, StepsAt, Tiled, Scans, Rec.EntryLen;
    ScanBounds(r, idx, p, l);
    Positions(r, idx, p, l, j);
    var t := l.times[j];
    var im := r.states[t].d.im;
    RunTiled(r, idx, t);
    DbScan.ScanBytes(im, FileAfter(r, idx, t), j);
    assert ReadsRecord(r, idx, p, l, j);
    o := im.order[j];
    TimesGrow(r, idx, p, l, j, l.Count());
    RunShape(r, idx, t, l.Last());
    OrderStays(im, r.states[l.Last()].d.im, j);
  }

  lemma OrderStays(im: Image, im': Image, j: nat)
    requires SameShape(im, im') && j < |im.order|
    ensures j < |im'.order| && im'.order[j] == im.order[j]
  {
    hide Rec.Size;
  }

  /** The scan ends behind the last record: it has read every one. */
  lemma ReadsAll(r: Run, idx: string, p: nat, l: Log)
    requires IsRun(r) && Holds(r.states[0].d.im, idx) && Scans(r, idx, p, l)
    ensures l.Within(r) && l.Count() == |r.states[l.Last()].d.im.order|
  {
    hide Init, Holds, SameShape, FileAfter, ParseRecord, StepsAt, Tiled, Scans, Rec.EntryLen;
    ScanBounds(r, idx, p, l);
    Positions(r, idx, p, l, l.Count());
    RunTiled(r, idx, l.Last());
    DbScan.ScanBytes(r.states[l.Last()].d.im, FileAfter(r, idx, l.Last()), l.Count());
  }

  /** The one read that finds a record which was there when the scan began. */
  lemma ReadOf(r: Run, idx: string, p: nat, l: Log, o: nat) returns (j: nat)
    requires IsRun(r) && Holds(r.states[0].d.im, idx) && Scans(r, idx, p, l)
    requires l.Within(r) && o in r.states[l.First()].d.im.recs
    ensures j < l.Count() && j < |r.states[l.Last()].d.im.order| && r.states[l.Last()].d.im.order[j] == o
  {
    hide Init, Holds, FileAfter, ParseRecord, StepsAt, Scans, Rec.Size, Found;
    var first := r.states[l.First()].d.im;
    ReadsAll(r, idx, p, l);
    RunTiled(r, idx, l.First());
    j :| 0 <= j < |first.order| && first.order[j] == o;
    TimesGrow(r, idx, p, l, 0, l.Count());
    RunShape(r, idx, l.First(), l.Last());
    OrderStays(first, r.states[l.Last()].d.im, j);
  }

  lemma SamePlace(r: Run, idx: string, l: Log, i: nat, j: nat)
    requires IsRun(r) && Holds(r.states[0].d.im, idx) && l.Within(r)
    requires i < |r.states[l.Last()].d.im.order| && j < |r.states[l.Last()].d.im.order|
    requires r.states[l.Last()].d.im.order[i] == r.states[l.Last()].d.im.order[j]
    ensures i == j
  {
    hide Init, Holds, Tiled;
    RunTiled(r, idx, l.Last());
    if i < j {
      DbScan.OrderIncreasing(r.states[l.Last()].d.im, i, j);
    } else if j < i {
      DbScan.OrderIncreasing(r.states[l.Last()].d.im, j, i);
    }
  }

  // ---------- A key that stays ----------

  /** The record of a key that stays is read with its key, and its data are those of the map. */
  lemma KeyIsGiven(r: Run, idx: string, p: nat, l: Log, key: string) returns (j: nat)
    requires IsRun(r) && Holds(r.states[0].d.im, idx) && Scans(r, idx, p, l)
    requires l.Within(r) && Present(r, l.First(), l.Last(), key)
    ensures key in r.states[l.First()].d.ls.loc && j < l.Count() && Gives(r, idx, l, j, key)
    ensures j < |r.states[l.Last()].d.im.order|
    ensures r.states[l.Last()].d.im.order[j] == r.states[l.First()].d.ls.loc[key]
  {
    hide Init, Inv, Holds, Present, PresentAt, Scans, Found, StepsAt, SameShape, Gives;
    ScanBounds(r, idx, p, l);
    TimesGrow(r, idx, p, l, 0, l.Count());
    StaysThere(r, idx, p, l, key, l.First());
    j := ReadOf(r, idx, p, l, r.states[l.First()].d.ls.loc[key]);
    var o := FindsRecord(r, idx, p, l, j);
    assert ReadsRecord(r, idx, p, l, j);
    TimesGrow(r, idx, p, l, 0, j);
    TimesGrow(r, idx, p, l, j + 1, l.Count());
    StaysThere(r, idx, p, l, key, l.times[j]);
    GivenThen(r, idx, p, l, key, j, o);
  }

  lemma StaysThere(r: Run, idx: string, p: nat, l: Log, key: string, t: nat)
    requires IsRun(r) && l.Within(r) && l.First() <= t <= l.Last() && Present(r, l.First(), l.Last(), key)
    ensures key in r.states[l.First()].d.ls.loc && key in r.states[t].d.ls.loc
    ensures r.states[t].d.ls.loc[key] == r.states[l.First()].d.ls.loc[key]
    ensures Shows(r.states[t], key, r.states[t].d.ls.loc[key])
  {
    hide Init, Inv, StepsAt, PresentAt;
    RunInv(r, t);
    assert PresentAt(r.states[t], key);
    PresentIsThere(r.states[t], key);
    SameRecord(r, l.First(), t, key);
  }

  lemma GivenThen(r: Run, idx: string, p: nat, l: Log, key: string, j: nat, o: nat)
    requires IsRun(r) && Holds(r.states[0].d.im, idx) && l.Within(r) && j < l.Count()
    requires l.First() <= l.times[j] <= l.datTimes[j] <= l.Last() && Reads(r, p, l.datTimes[j])
    requires Present(r, l.First(), l.Last(), key)
    requires key in r.states[l.First()].d.ls.loc && r.states[l.First()].d.ls.loc[key] == o
    requires Shows(r.states[l.times[j]], key, o)
    requires var rec := r.states[l.times[j]].d.im.recs[o];
      Found(r, idx, l, j) == Record(rec.ptr, rec.EntryLen(), rec.key, rec.datoff, rec.datlen)
    ensures Gives(r, idx, l, j, key)
  {
    hide Init, Inv, Holds, Found, StepsAt, DiskOk, View, ListsOk, Tiled, Present, Exempt, Rec.EntryLen, Rec.Size;
    var s, s' := r.states[l.times[j]], r.states[l.datTimes[j]];
    RunShape(r, idx, l.times[j], l.datTimes[j]);
    StaysThere(r, idx, p, l, key, l.datTimes[j]);
    PresentThen(r, l, key, l.datTimes[j]);
    RunInv(r, l.datTimes[j]);
    NothingHalfDeleted(s', p);
    DiskOfInv(s');
    ScanMisses(s', p, key);
  }

  lemma PresentThen(r: Run, l: Log, key: string, t: nat)
    requires l.Within(r) && l.First() <= t <= l.Last() && Present(r, l.First(), l.Last(), key)
    ensures PresentAt(r.states[t], key)
  {
    hide PresentAt;
  }

  /** Where the key was found it had been when the scan began: in its own record, or in one left behind. */
  lemma FoundBefore(r: Run, idx: string, p: nat, l: Log, key: string, j: nat) returns (o: nat)
    requires IsRun(r) && Holds(r.states[0].d.im, idx) && Scans(r, idx, p, l)
    requires l.Within(r) && Present(r, l.First(), l.Last(), key) && !DbScan.BlankKey(key)
    requires j < l.Count() && HasKey(r, idx, l, j, key)
    ensures j < |r.states[l.Last()].d.im.order| && o == r.states[l.Last()].d.im.order[j]
    ensures key in r.states[l.First()].d.ls.loc
    ensures r.states[l.First()].d.ls.loc[key] == o || LeftBehind(r.states[l.First()], key)
  {
    hide Init, Inv, Holds, Scans, Found, StepsAt, Tiled, DbScan.BlankKey, Rec.EntryLen;
    o := FindsRecord(r, idx, p, l, j);
    TimesGrow(r, idx, p, l, 0, j);
    TimesGrow(r, idx, p, l, j, l.Count());
    KeyIsOld(r, l.First(), l.times[j], key, o);
    StaysThere(r, idx, p, l, key, l.First());
    FirstReads(r, idx, p, l);
    RunInv(r, l.First());
    SeenFirst(r.states[l.First()], p, key, o);
  }

  lemma FirstReads(r: Run, idx: string, p: nat, l: Log)
    requires Scans(r, idx, p, l)
    ensures Reads(r, p, l.First())
  {
    hide Found;
    if l.Count() > 0 {
      assert ReadsRecord(r, idx, p, l, 0);
    }
  }

  lemma SeenFirst(s: Sys, p: nat, key: string, o: nat)
    requires Inv(s) && p < |s.pcs| && s.pcs[p].Scanning? && key in s.d.ls.loc && !DbScan.BlankKey(key)
    requires Shows(s, key, o)
    ensures s.d.ls.loc[key] == o || LeftBehind(s, key)
  {
    hide Inv, DiskOk, View, Value, Hash, DbScan.BlankKey, LeftByDead;
    ScanSees(s, p, o);
    if q: nat :| LeftByDead(s, q, o) {
      assert LeftBehind(s, key);
    }
  }

  /** A record left behind is not the one the key leads to. */
  lemma LeftIsOther(s: Sys, q: nat, key: string, o: nat)
    requires Inv(s) && LeftByDead(s, q, o) && key in s.d.ls.loc
    ensures s.d.ls.loc[key] != o && o in s.d.im.recs
  {
    hide Inv, DiskOk, View, ChainOk, FreeOk, HomesOk, ExtentsOk, Tiled, Hash;
    PcOkAt(s, q);
    DiskOfInv(s);
    OwnRec(s.d, o);
  }

  lemma SecondRead(r: Run, idx: string, p: nat, l: Log, key: string, q: nat, o: nat) returns (j: nat)
    requires IsRun(r) && Holds(r.states[0].d.im, idx) && Scans(r, idx, p, l)
    requires l.Within(r) && LeftByDead(r.states[l.First()], q, o) && Shows(r.states[l.First()], key, o)
    ensures j < l.Count() && HasKey(r, idx, l, j, key)
    ensures j < |r.states[l.Last()].d.im.order| && r.states[l.Last()].d.im.order[j] == o
  {
    hide Init, Holds, Scans, Found, StepsAt, Tiled, LeftByDead, Rec.EntryLen;
    j := ReadOf(r, idx, p, l, o);
    var o' := FindsRecord(r, idx, p, l, j);
    TimesGrow(r, idx, p, l, 0, j);
    LeftRemains(r, l.First(), l.times[j], q, key, o);
  }

  /**
   A scan beside other processes gives every key that is in the map and not being replaced
   from its first read to its last, with the data the map has for it at the time; and it
   shows such a key only once, unless a process that had ended before left a record with it.
   */
  lemma ShownOnce(r: Run, idx: string, p: nat, l: Log, key: string)
    requires IsRun(r) && Holds(r.states[0].d.im, idx) && Scans(r, idx, p, l)
    requires l.Within(r) && Present(r, l.First(), l.Last(), key) && !DbScan.BlankKey(key)
    ensures exists j :: 0 <= j < l.Count() && Gives(r, idx, l, j, key)
    ensures !LeftBehind(r.states[l.First()], key) <==>
      forall i, j :: 0 <= i < l.Count() && 0 <= j < l.Count() && HasKey(r, idx, l, i, key) && HasKey(r, idx, l, j, key) ==> i == j
  {
    hide Init, Inv, Holds, Scans, Found, StepsAt, Present, Gives, HasKey, LeftBehind, LeftByDead, Shows, DbScan.BlankKey;
    var j0 := KeyIsGiven(r, idx, p, l, key);
    if LeftBehind(r.states[l.First()], key) {
      var j1 := TwiceShown(r, idx, p, l, key, j0);
    } else {
      forall i, j | 0 <= i < l.Count() && 0 <= j < l.Count() && HasKey(r, idx, l, i, key) && HasKey(r, idx, l, j, key)
        ensures i == j
      {
        var oi := FoundBefore(r, idx, p, l, key, i);
        var oj := FoundBefore(r, idx, p, l, key, j);
        SamePlace(r, idx, l, i, j);
      }
    }
  }

  lemma TwiceShown(r: Run, idx: string, p: nat, l: Log, key: string, j0: nat) returns (j1: nat)
    requires IsRun(r) && Holds(r.states[0].d.im, idx) && Scans(r, idx, p, l)
    requires l.Within(r) && LeftBehind(r.states[l.First()], key) && key in r.states[l.First()].d.ls.loc
    requires j0 < l.Count() && Gives(r, idx, l, j0, key)
    requires j0 < |r.states[l.Last()].d.im.order|
    requires r.states[l.Last()].d.im.order[j0] == r.states[l.First()].d.ls.loc[key]
    ensures j1 < l.Count() && j1 != j0 && HasKey(r, idx, l, j0, key) && HasKey(r, idx, l, j1, key)
  {
    hide Init, Inv, Holds, Scans, Found, StepsAt, HasKey, LeftByDead, Shows;
    var q: nat, o: nat :| LeftByDead(r.states[l.First()], q, o) && Shows(r.states[l.First()], key, o);
    RunInv(r, l.First());
    LeftIsOther(r.states[l.First()], q, key, o);
    j1 := SecondRead(r, idx, p, l, key, q, o);
  }
}
