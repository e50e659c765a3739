/**
 A run of two processes at a new database of one chain in which a scan misses a key of the
 map (db/db.c:711-734, 842-846): the first stores "k" and replaces it with data of another
 length; between the deletion of the old record and the append of the new one the second
 gets the read lock of db_nextrec, and there is no record of "k" in the file. A whole scan at
 that time does not give it.
 */
module DbMissedKey {
  import opened DbFormat
  import opened DbImage
  import opened DbLists
  import opened DbSteps
  import opened DbSpec
  import opened DbProcesses
  import opened DbInvariant
  import opened DbConcurrent
  import opened DbTheorems
  import opened DbBytes
  import opened DbScanning
  import opened DbScanRun
  import opened DbStore
  import DbScan

  ghost function Final(r: Run): Sys
    requires |r.states| > 0
  {
    r.states[|r.states| - 1]
  }

  ghost predicate Moves(s: Sys, p: nat, s': Sys) {
    |s.d.im.heads| > 0 && Step(s, p, s')
  }

  /** A run goes on by one step. */
  lemma Extend(r: Run, p: nat, s': Sys) returns (r': Run)
    requires IsRun(r) && Moves(Final(r), p, s')
    ensures IsRun(r') && Final(r') == s' && r'.states[0] == r.states[0]
  {
    hide Step, Init;
    r' := Run(r.states + [s'], r.pids + [p]);
    forall i | 0 <= i < |r'.pids|
      ensures StepsAt(r', i)
    {
      if i < |r.pids| {
        assert StepsAt(r, i);
      }
    }
  }

  // ---------- The states ----------

  const FIRST := StoreOp("k", "a", DB_INSERT)
  const SECOND := StoreOp("k", "bc", DB_REPLACE)
  const OLD := Rec(0, "k", 0, 2)
  const GONE := Rec(0, " ", 0, 2)

  /** The first process is at a place of a call, the second does nothing. */
  function At1(d: Disk, abs: map<string, string>, pc: Pc): Sys {
    Sys(d, abs, [pc, Idle])
  }

  const ABS: map<string, string> := map["k" := "a"]

  /** The first process is in its first, or its second call. */
  function First(d: Disk, at: At): Sys {
    At1(d, map[], Busy(FIRST, at))
  }

  function Second(d: Disk, at: At): Sys {
    At1(d, ABS, Busy(SECOND, at))
  }

  // The disk: new, with the data of "k", with its record, with the record on its chain.
  const Empty: Disk := Disk(Image(0, [0], map[], []), "", Lists([[]], [], map[], map[]), Settled)
  const Written: Disk := Disk(Image(0, [0], map[], []), "a\n", Lists([[]], [], map[], map[]), Settled)
  const Added: Disk := Disk(Image(0, [0], map[15 := OLD], [15]), "a\n",
    Lists([[]], [], map[], map[15 := Held]), Settled)
  const Stored: Disk := Disk(Image(0, [15], map[15 := OLD], [15]), "a\n",
    Lists([[15]], [], map["k" := 15], map[15 := Live]), Settled)
  // And then: with its data blanked, its record blanked, the record free, the chain empty.
  const Blanked: Disk := Disk(Image(0, [15], map[15 := OLD], [15]), " \n",
    Lists([[]], [], map[], map[15 := Held]), Pend(0, 0, 0))
  const Cleared: Disk := Disk(Image(0, [15], map[15 := GONE], [15]), " \n",
    Lists([[]], [], map[], map[15 := Held]), Pend(0, 0, 0))
  const Freed: Disk := Disk(Image(15, [15], map[15 := GONE], [15]), " \n",
    Lists([[]], [15], map[], map[15 := Free]), Pend(0, 0, 0))
  const Deleted: Disk := Disk(Image(15, [0], map[15 := GONE], [15]), " \n",
    Lists([[]], [15], map[], map[15 := Free]), Settled)

  /** Inside a call the first process takes its next step; the second is in nobody's way. */
  lemma Goes(d: Disk, abs: map<string, string>, op: Op, at: At, s': Sys)
    requires |d.im.heads| == 1
    requires Advance(At1(d, abs, Busy(op, at)), 0) == s'
    ensures Moves(At1(d, abs, Busy(op, at)), 0, s')
  {
    hide Advance, Hash;
  }

  lemma OneChain(op: Op)
    ensures Chain(op, 1) == 0
  {
  }

  lemma OldSize()
    ensures OLD.EntryLen() == 6 && OLD.Size() == 17
  {
  }

  lemma Begins(d: Disk, abs: map<string, string>, op: Op)
    requires |d.im.heads| == 1 && Reaches(op)
    ensures Moves(At1(d, abs, Idle), 0, At1(d, abs, Busy(op, Wait)))
  {
    hide Hash, Reaches;
    assert At1(d, abs, Busy(op, Wait)) == Goto(At1(d, abs, Idle), 0, Busy(op, Wait));
  }

  /** The first store finds neither the key nor a free record. */
  lemma FirstLooks()
    ensures Moves(First(Empty, Wait), 0, First(Empty, Head))
    ensures Moves(First(Empty, Head), 0, First(Empty, Look(0, 7, 0)))
    ensures Moves(First(Empty, Look(0, 7, 0)), 0, First(Empty, InsHead(false)))
    ensures Moves(First(Empty, InsHead(false)), 0, First(Empty, FreeWait(0)))
    ensures Moves(First(Empty, FreeWait(0)), 0, First(Empty, FreeHead(0)))
  {
    hide Hash, Moves;
    OneChain(FIRST);
    OneChain(SECOND);
    Goes(Empty, map[], FIRST, Wait, First(Empty, Head));
    Goes(Empty, map[], FIRST, Head, First(Empty, Look(0, 7, 0)));
    Goes(Empty, map[], FIRST, Look(0, 7, 0), First(Empty, InsHead(false)));
    Goes(Empty, map[], FIRST, InsHead(false), First(Empty, FreeWait(0)));
    Goes(Empty, map[], FIRST, FreeWait(0), First(Empty, FreeHead(0)));
  }

  /** It goes on to the end of the data file. */
  lemma FirstSeeks()
    ensures Moves(First(Empty, FreeHead(0)), 0, First(Empty, FreeLook(0, 0, 0, 0)))
    ensures Moves(First(Empty, FreeLook(0, 0, 0, 0)), 0, First(Empty, FreeNone(0)))
    ensures Moves(First(Empty, FreeNone(0)), 0, First(Empty, DatWait(0, false)))
    ensures Moves(First(Empty, DatWait(0, false)), 0, First(Empty, DatSeek(0, false)))
    ensures Moves(First(Empty, DatSeek(0, false)), 0, First(Empty, DatWrite(0, false, 0)))
    ensures Moves(First(Empty, DatWrite(0, false, 0)), 0, First(Written, DatDone(0, false, 0)))
  {
    hide Hash, Moves;
    OneChain(FIRST);
    OneChain(SECOND);
    assert Overwrite("", 0, "a" + [NEWLINE]) == "a\n";
    Goes(Empty, map[], FIRST, FreeHead(0), First(Empty, FreeLook(0, 0, 0, 0)));
    Goes(Empty, map[], FIRST, FreeLook(0, 0, 0, 0), First(Empty, FreeNone(0)));
    Goes(Empty, map[], FIRST, FreeNone(0), First(Empty, DatWait(0, false)));
    Goes(Empty, map[], FIRST, DatWait(0, false), First(Empty, DatSeek(0, false)));
    Goes(Empty, map[], FIRST, DatSeek(0, false), First(Empty, DatWrite(0, false, 0)));
    Goes(Empty, map[], FIRST, DatWrite(0, false, 0), First(Written, DatDone(0, false, 0)));
  }

  /** It appends its record to the index file. */
  lemma FirstAppends()
    ensures Moves(First(Written, DatDone(0, false, 0)), 0, First(Written, TailWait(0, false, 0)))
    ensures Moves(First(Written, TailWait(0, false, 0)), 0, First(Written, TailSeek(0, false, 0)))
    ensures Moves(First(Written, TailSeek(0, false, 0)), 0, First(Written, TailWrite(0, false, 0, 15)))
    ensures Moves(First(Written, TailWrite(0, false, 0, 15)), 0, First(Added, TailDone(false, 15)))
  {
    hide Hash, Moves;
    OneChain(FIRST);
    OneChain(SECOND);
    OldSize();
    Goes(Written, map[], FIRST, DatDone(0, false, 0), First(Written, TailWait(0, false, 0)));
    Goes(Written, map[], FIRST, TailWait(0, false, 0), First(Written, TailSeek(0, false, 0)));
    Goes(Written, map[], FIRST, TailSeek(0, false, 0), First(Written, TailWrite(0, false, 0, 15)));
    Goes(Written, map[], FIRST, TailWrite(0, false, 0, 15), First(Added, TailDone(false, 15)));
  }

  lemma LinkedLists()
    ensures Linked(Added.ls, 0, 15, "k") == Stored.ls
  {
    var l := Linked(Added.ls, 0, 15, "k");
    assert l.chains[0] == [15] && |l.chains| == 1;
    assert l.chains == Stored.ls.chains && l.loc == Stored.ls.loc && l.home == Stored.ls.home;
  }

  lemma FirstUnlocks()
    ensures Moves(First(Added, TailDone(false, 15)), 0, First(Added, Link(false, 15)))
  {
    hide Hash, Moves;
    Goes(Added, map[], FIRST, TailDone(false, 15), First(Added, Link(false, 15)));
  }

  /** It puts the record on the chain. */
  lemma FirstLinks()
    ensures Moves(First(Added, Link(false, 15)), 0, At1(Stored, ABS, Busy(FIRST, Release(Code(0)))))
  {
    hide Hash, Moves, Linked;
    OneChain(FIRST);
    assert Apply(map[], FIRST).0 == ABS;
    LinkedLists();
    Goes(Added, map[], FIRST, Link(false, 15), At1(Stored, ABS, Busy(FIRST, Release(Code(0)))));
  }

  /** The second store finds the key with data of another length. */
  lemma SecondLooks()
    ensures Moves(Second(Stored, Wait), 0, Second(Stored, Head))
    ensures Moves(Second(Stored, Head), 0, Second(Stored, Look(15, 7, 0)))
    ensures Moves(Second(Stored, Look(15, 7, 0)), 0, Second(Stored, DelWait(15, 7, 0, OLD)))
    ensures Moves(Second(Stored, DelWait(15, 7, 0, OLD)), 0, Second(Stored, DelData(15, 7, 0, OLD)))
  {
    hide Hash, Moves;
    OneChain(FIRST);
    OneChain(SECOND);
    Goes(Stored, ABS, SECOND, Wait, Second(Stored, Head));
    Goes(Stored, ABS, SECOND, Head, Second(Stored, Look(15, 7, 0)));
    Goes(Stored, ABS, SECOND, Look(15, 7, 0), Second(Stored, DelWait(15, 7, 0, OLD)));
    Goes(Stored, ABS, SECOND, DelWait(15, 7, 0, OLD), Second(Stored, DelData(15, 7, 0, OLD)));
  }

  lemma UnlinkedLists()
    ensures Unlinked(Stored.ls, 0, 0, "k") == Blanked.ls
  {
    var l := Unlinked(Stored.ls, 0, 0, "k");
    assert l.chains[0] == [] && |l.chains| == 1;
    assert l.chains == Blanked.ls.chains && l.loc == Blanked.ls.loc && l.home == Blanked.ls.home;
  }

  /** It blanks the data: the key is gone from the meaning of the file. */
  lemma SecondBlanks()
    ensures Moves(Second(Stored, DelData(15, 7, 0, OLD)), 0, Second(Blanked, DelFree(15, 7, 0, OLD)))
  {
    hide Hash, Moves, Unlinked;
    OneChain(SECOND);
    assert Blanks(1) == " ";
    assert Overwrite("a\n", 0, Blanks(1) + [NEWLINE]) == " \n";
    UnlinkedLists();
    Goes(Stored, ABS, SECOND, DelData(15, 7, 0, OLD), Second(Blanked, DelFree(15, 7, 0, OLD)));
  }

  /** It blanks the record. */
  lemma SecondClears()
    ensures Moves(Second(Blanked, DelFree(15, 7, 0, OLD)), 0, Second(Blanked, DelRec(15, 7, 0, OLD, 0)))
    ensures Moves(Second(Blanked, DelRec(15, 7, 0, OLD, 0)), 0, Second(Cleared, DelPush(15, 7, 0, OLD)))
  {
    hide Hash, Moves;
    OneChain(SECOND);
    assert Blanks(1) == " ";
    Goes(Blanked, ABS, SECOND, DelFree(15, 7, 0, OLD), Second(Blanked, DelRec(15, 7, 0, OLD, 0)));
    Goes(Blanked, ABS, SECOND, DelRec(15, 7, 0, OLD, 0), Second(Cleared, DelPush(15, 7, 0, OLD)));
  }

  /** It frees the record, and is about to append the new one. */
  lemma SecondFrees()
    ensures Moves(Second(Cleared, DelPush(15, 7, 0, OLD)), 0, Second(Freed, DelLink(7, 0, OLD)))
    ensures Moves(Second(Freed, DelLink(7, 0, OLD)), 0, Second(Deleted, DelDone))
    ensures Moves(Second(Deleted, DelDone), 0, Second(Deleted, InsHead(true)))
  {
    hide Hash, Moves;
    OneChain(FIRST);
    OneChain(SECOND);
    Goes(Cleared, ABS, SECOND, DelPush(15, 7, 0, OLD), Second(Freed, DelLink(7, 0, OLD)));
    Goes(Freed, ABS, SECOND, DelLink(7, 0, OLD), Second(Deleted, DelDone));
    Goes(Deleted, ABS, SECOND, DelDone, Second(Deleted, InsHead(true)));
  }

  lemma Ends()
    ensures Moves(At1(Stored, ABS, Busy(FIRST, Release(Code(0)))), 0, At1(Stored, ABS, Idle))
  {
    hide Hash, Moves;
    Goes(Stored, ABS, FIRST, Release(Code(0)), At1(Stored, ABS, Idle));
  }

  /** The first store, from the new database to its end. */
  lemma StoreRun() returns (r: Run)
    ensures IsRun(r) && r.states[0] == At1(Empty, map[], Idle)
    ensures Final(r) == At1(Stored, ABS, Idle)
  {
    hide IsRun, Moves, Final, At1;
    r := Start();
    Begins(Empty, map[], FIRST);
    FirstLooks();
    FirstSeeks();
    FirstAppends();
    FirstUnlocks();
    FirstLinks();
    Ends();
    r := Extend(r, 0, First(Empty, Wait));
    r := Extend(r, 0, First(Empty, Head));
    r := Extend(r, 0, First(Empty, Look(0, 7, 0)));
    r := Extend(r, 0, First(Empty, InsHead(false)));
    r := Extend(r, 0, First(Empty, FreeWait(0)));
    r := Extend(r, 0, First(Empty, FreeHead(0)));
    r := Extend(r, 0, First(Empty, FreeLook(0, 0, 0, 0)));
    r := Extend(r, 0, First(Empty, FreeNone(0)));
    r := Extend(r, 0, First(Empty, DatWait(0, false)));
    r := Extend(r, 0, First(Empty, DatSeek(0, false)));
    r := Extend(r, 0, First(Empty, DatWrite(0, false, 0)));
    r := Extend(r, 0, First(Written, DatDone(0, false, 0)));
    r := Extend(r, 0, First(Written, TailWait(0, false, 0)));
    r := Extend(r, 0, First(Written, TailSeek(0, false, 0)));
    r := Extend(r, 0, First(Written, TailWrite(0, false, 0, 15)));
    r := Extend(r, 0, First(Added, TailDone(false, 15)));
    r := Extend(r, 0, First(Added, Link(false, 15)));
    r := Extend(r, 0, At1(Stored, ABS, Busy(FIRST, Release(Code(0)))));
    r := Extend(r, 0, At1(Stored, ABS, Idle));
  }

  lemma Start() returns (r: Run)
    ensures IsRun(r) && r.states[0] == At1(Empty, map[], Idle)
    ensures Final(r) == At1(Empty, map[], Idle)
  {
    FreshIsInit(1, 2);
    assert seq(1, i => 0) == [0] && seq(1, i => []) == Empty.ls.chains && seq(2, i => Idle) == [Idle, Idle];
    r := Run([At1(Empty, map[], Idle)], []);
  }

  /** The replacement, up to where the old record is gone and the new one is not yet there. */
  lemma ReplaceRun() returns (r: Run)
    ensures IsRun(r) && r.states[0] == At1(Empty, map[], Idle)
    ensures Final(r) == Second(Deleted, InsHead(true))
  {
    hide IsRun, Moves, Final, At1;
    r := StoreRun();
    Begins(Stored, ABS, SECOND);
    SecondLooks();
    SecondBlanks();
    SecondClears();
    SecondFrees();
    r := Extend(r, 0, Second(Stored, Wait));
    r := Extend(r, 0, Second(Stored, Head));
    r := Extend(r, 0, Second(Stored, Look(15, 7, 0)));
    r := Extend(r, 0, Second(Stored, DelWait(15, 7, 0, OLD)));
    r := Extend(r, 0, Second(Stored, DelData(15, 7, 0, OLD)));
    r := Extend(r, 0, Second(Blanked, DelFree(15, 7, 0, OLD)));
    r := Extend(r, 0, Second(Blanked, DelRec(15, 7, 0, OLD, 0)));
    r := Extend(r, 0, Second(Cleared, DelPush(15, 7, 0, OLD)));
    r := Extend(r, 0, Second(Freed, DelLink(7, 0, OLD)));
    r := Extend(r, 0, Second(Deleted, DelDone));
    r := Extend(r, 0, Second(Deleted, InsHead(true)));
  }

  /** The second process asks for the lock of a scan, and gets it. */
  lemma ScanStarts()
    ensures Moves(Second(Deleted, InsHead(true)), 1, Sys(Deleted, ABS, [Busy(SECOND, InsHead(true)), ScanWait]))
    ensures Moves(Sys(Deleted, ABS, [Busy(SECOND, InsHead(true)), ScanWait]), 1,
                 Sys(Deleted, ABS, [Busy(SECOND, InsHead(true)), Scanning]))
  {
    hide Hash;
  }

  /** The scan reads the file while "k" is in the map and no record of the file has it. */
  lemma ScanMissesKey() returns (r: Run)
    ensures IsRun(r) && r.states[0] == At1(Empty, map[], Idle)
    ensures Final(r) == Sys(Deleted, ABS, [Busy(SECOND, InsHead(true)), Scanning])
    ensures Inv(Final(r)) && "k" in Final(r).abs && Exempt(Final(r).pcs, "k")
    ensures forall o: nat :: !DbScanning.Shows(Final(r), "k", o)
  {
    hide IsRun, Moves, Inv;
    r := ReplaceRun();
    ScanStarts();
    r := Extend(r, 1, Sys(Deleted, ABS, [Busy(SECOND, InsHead(true)), ScanWait]));
    r := Extend(r, 1, Sys(Deleted, ABS, [Busy(SECOND, InsHead(true)), Scanning]));
    RunLength(r);
    RunInv(r, |r.states| - 1);
    assert Replacing(Final(r).pcs[0]) && Final(r).pcs[0].op.key == "k";
  }

  lemma RunLength(r: Run)
    requires IsRun(r)
    ensures |r.states| == |r.pids| + 1
  {
  }

  // ---------- The bytes ----------

  lemma EmptyHeader()
    ensures Holds(Empty.im, PtrText(0) + PtrText(0) + [NEWLINE])
  {
    hide PtrText, Sound;
    var hash := PtrText(0) + PtrText(0);
    assert ZeroFields("", 0);
    ZeroFieldsGrow("", 0);
    assert "" + PtrText(0) == PtrText(0);
    ZeroFieldsGrow(PtrText(0), 1);
    FreshHolds(hash, 1);
    assert seq(1, i => 0) == [0];
  }

  lemma GoneSize()
    ensures GONE.EntryLen() == 6 && GONE.Size() == 17
  {
  }

  /** What the scan reads in the file: the blank record, and then the end. */
  lemma ReadsBlank(idx: string)
    requires Holds(Deleted.im, idx)
    ensures ParseRecord(idx, 15, true) == Record(0, 6, " ", 0, 2)
    ensures ParseRecord(idx, 15 + HDR_SZ + 6, true) == Eof
  {
    hide Holds, ParseRecord;
    GoneSize();
    DbScan.ScanBytes(Deleted.im, idx, 0);
    DbScan.ScanBytes(Deleted.im, idx, 1);
  }

  /** A whole scan at that time gives one blank record, and not "k". */
  lemma WholeScanMissesKey() returns (r: Run, idx: string, l: Log)
    ensures IsRun(r) && Holds(r.states[0].d.im, idx) && Scans(r, idx, 1, l)
    ensures forall j :: 0 <= j < |l.times| ==> "k" in r.states[l.times[j]].abs
    ensures forall j :: 0 <= j < l.Count() ==> !HasKey(r, idx, l, j, "k")
  {
    hide IsRun, Moves, Inv, Holds, ParseRecord, PtrText, FileAfter;
    r := ScanMissesKey();
    RunLength(r);
    EmptyHeader();
    idx := PtrText(0) + PtrText(0) + [NEWLINE];
    var n := |r.states| - 1;
    l := Log([n, n], [15, 15 + HDR_SZ + 6], [n]);
    RunBytes(r, idx, n);
    ReadsBlank(FileAfter(r, idx, n));
    assert ReadsRecord(r, idx, 1, l, 0);
  }
}
