/**
 What a sequential scan can see while other processes work (db/db.c:812-875): db_nextrec
 reads the index file under a read lock of the free list, so that it never meets a record
 in the middle of a deletion.
 */
module DbScanning {
  import opened DbFormat
  import opened DbImage
  import opened DbLists
  import opened DbSteps
  import opened DbSpec
  import opened DbProcesses
  import opened DbInvariant
  import opened DbMoves
  import opened DbConcurrent
  import opened DbAtomic
  import DbScan

  /** The record at o is live under its key, with the data of the map. */
  ghost predicate LiveInMap(s: Sys, o: nat)
    requires DiskOk(s.d) && o in View(s.d).recs
  {
    var key := View(s.d).recs[o].key;
    && key in s.d.ls.loc && s.d.ls.loc[key] == o
    && key in s.abs && s.abs[key] == Value(View(s.d), s.d.dat, o)
  }

  /** A process has written the record at o in full and is about to put it on its chain. */
  ghost predicate AboutToLink(s: Sys, q: nat, o: nat)
    requires DiskOk(s.d) && o in View(s.d).recs
  {
    && q < |s.pcs| && s.pcs[q].Busy? && (s.pcs[q].at.TailDone? || s.pcs[q].at.Link?) && s.pcs[q].at.o == o
    && s.pcs[q].op.StoreOp? && s.pcs[q].op.key == View(s.d).recs[o].key && s.pcs[q].op.key !in s.d.ls.loc
    && Value(View(s.d), s.d.dat, o) == s.pcs[q].op.data
  }

  ghost predicate LeftByDead(s: Sys, q: nat, o: nat) {
    q < |s.pcs| && s.pcs[q] == Dead(Orphan(o))
  }

  lemma PendingWriter(s: Sys) returns (q: nat)
    requires Inv(s) && s.d.pend.Pend?
    ensures q < |s.pcs| && HoldsFree(s.pcs[q])
  {
    hide DiskOk, PcOk, OwnersOk, AppendsApart, AbsOk, Hash, LocksOk;
    q :| q < |s.pcs| && InWindow(s.pcs[q]) && Chain(s.pcs[q].op, |s.d.im.heads|) == s.d.pend.h;
    WriterInWindow(s.d, s.pcs[q]);
  }

  lemma NobodyHoldsFree(s: Sys, p: nat, q: nat)
    requires Inv(s) && p < |s.pcs| && s.pcs[p].Scanning? && q < |s.pcs|
    ensures !HoldsFree(s.pcs[q])
  {
    hide Inv;
    if q != p {
      NoClash(s, p, q);
    }
  }

  /** While a scan reads, no pointer is left to be written: the file is as its lists are. */
  lemma NothingHalfDeleted(s: Sys, p: nat)
    requires Inv(s) && p < |s.pcs| && s.pcs[p].Scanning?
    ensures s.d.pend.Settled? && View(s.d) == s.d.im
    ensures forall q :: 0 <= q < |s.pcs| ==> !HoldsFree(s.pcs[q])
  {
    hide Inv, HoldsFree;
    if s.d.pend.Pend? {
      var q := PendingWriter(s);
      NobodyHoldsFree(s, p, q);
    }
    forall q: nat | q < |s.pcs|
      ensures !HoldsFree(s.pcs[q])
    {
      NobodyHoldsFree(s, p, q);
    }
  }

  /**
   A record a scan shows is live with the data of the map, or complete and about to go live,
   or was left behind by a process that ended.
   */
  lemma ScanSees(s: Sys, p: nat, o: nat)
    requires Inv(s) && p < |s.pcs| && s.pcs[p].Scanning?
    requires o in s.d.im.recs && !DbScan.BlankKey(s.d.im.recs[o].key)
    ensures DiskOk(s.d) && View(s.d) == s.d.im
    ensures LiveInMap(s, o) || (exists q: nat :: AboutToLink(s, q, o)) || (exists q: nat :: LeftByDead(s, q, o))
  {
    hide Inv, DiskOk, View, Value, Hash, ListsOk, ExtentsOk, AboutToLink, LeftByDead, LiveInMap;
    NothingHalfDeleted(s, p);
    DiskOfInv(s);
    HomeOf(s, o);
    if s.d.ls.home[o] == Live {
      LiveSeen(s, o);
    } else if s.d.ls.home[o] == Free {
      FreeSeen(s, o);
    } else {
      var q: nat :| q < |s.pcs| && HeldBy(s.pcs[q]) == Orphan(o);
      HeldSeen(s, q, o);
    }
  }

  lemma HomeOf(s: Sys, o: nat)
    requires Inv(s) && o in s.d.im.recs
    ensures o in s.d.ls.home
    ensures s.d.ls.home[o] == Held ==> exists q: nat :: q < |s.pcs| && HeldBy(s.pcs[q]) == Orphan(o)
  {
    hide PcOk, AppendsApart, PendOwned, AbsOk, LocksOk, HeldBy, ChainOk, FreeOk, LocOk, ExtentsOk, TextOk, Tiled, View, Hash;
    ViewFacts(s.d);
    if s.d.ls.home[o] == Held {
      assert Owner(s.pcs, o);
    }
  }

  lemma FreeSeen(s: Sys, o: nat)
    requires Inv(s) && o in View(s.d).recs && o in s.d.ls.home && s.d.ls.home[o] == Free
    ensures DbScan.BlankKey(View(s.d).recs[o].key)
  {
    hide Inv, DiskOk, View, ListsOk;
    DiskOfInv(s);
    DbScan.FreeIsBlank(View(s.d), s.d.ls, o);
  }

  lemma LiveSeen(s: Sys, o: nat)
    requires Inv(s) && o in View(s.d).recs && o in s.d.ls.home && s.d.ls.home[o] == Live
    ensures LiveInMap(s, o)
  {
    hide PcOk, AppendsApart, PendOwned, LocksOk, OwnersOk, ChainOk, FreeOk, ExtentsOk, TextOk, Tiled, View, Value, Hash;
    var key := View(s.d).recs[o].key;
    var h := Hash(key, |View(s.d).heads|);
    assert o in s.d.ls.chains[h] && ChainOk(View(s.d), s.d.ls, h);
    LiveByKey(View(s.d), s.d.ls, h, o);
    assert SameAt(s.abs, Meaning(s.d), key) || Exempt(s.pcs, key);
  }

  lemma LiveByKey(v: Image, ls: Lists, h: nat, o: nat)
    requires h < |v.heads| == |ls.chains| && ChainOk(v, ls, h) && o in ls.chains[h] && o in v.recs
    ensures v.recs[o].key in ls.loc && ls.loc[v.recs[o].key] == o
  {
    hide Hash, Threaded;
    var j :| 0 <= j < |ls.chains[h]| && ls.chains[h][j] == o;
    assert LiveOn(v, ls, ls.chains[h][j], h);
  }

  lemma HeldSeen(s: Sys, q: nat, o: nat)
    requires Inv(s) && q < |s.pcs| && HeldBy(s.pcs[q]) == Orphan(o) && !HoldsFree(s.pcs[q])
    requires o in View(s.d).recs && !DbScan.BlankKey(View(s.d).recs[o].key)
    ensures DiskOk(s.d) && (AboutToLink(s, q, o) || LeftByDead(s, q, o))
  {
    hide Inv, DiskOk, View, Value, Hash, Ready, Reaches;
    PcOkAt(s, q);
    DiskOfInv(s);
  }

  /**
   Of the keys of the map, a scan can find a live record exactly for those that are not being
   replaced at the time, and finds their data there.
   */
  lemma ScanMisses(s: Sys, p: nat, key: string)
    requires Inv(s) && p < |s.pcs| && s.pcs[p].Scanning? && key in s.abs
    ensures Exempt(s.pcs, key) <==> key !in s.d.ls.loc
    ensures !Exempt(s.pcs, key) ==>
      && key in s.d.ls.loc && s.d.ls.loc[key] in s.d.im.recs && s.d.im.recs[s.d.ls.loc[key]].key == key
      && DiskOk(s.d) && View(s.d) == s.d.im && s.abs[key] == Value(View(s.d), s.d.dat, s.d.ls.loc[key])
  {
    hide PcOk, AppendsApart, PendOwned, LocksOk, OwnersOk, ChainOk, FreeOk, HomesOk, ExtentsOk, TextOk, Tiled, View, Value, Hash;
    NothingHalfDeleted(s, p);
    assert SameAt(s.abs, Meaning(s.d), key) || Exempt(s.pcs, key);
  }

  ghost predicate Shows(s: Sys, key: string, o: nat) {
    o in s.d.im.recs && s.d.im.recs[o].key == key
  }

  /**
   A scan misses a key of the map exactly while it is being replaced and its new record is not
   yet written in full, unless a process that ended has left one with the key behind.
   */
  lemma MissesExactlyWhen(s: Sys, p: nat, key: string)
    requires Inv(s) && p < |s.pcs| && s.pcs[p].Scanning? && key in s.abs && !DbScan.BlankKey(key)
    ensures DiskOk(s.d) && View(s.d) == s.d.im
    ensures (forall o: nat :: !Shows(s, key, o)) <==>
      && Exempt(s.pcs, key)
      && forall o: nat, q: nat :: Shows(s, key, o) ==> !AboutToLink(s, q, o) && !LeftByDead(s, q, o)
  {
    hide Inv, DiskOk, View, Value, Hash, AboutToLink, LeftByDead, Exempt;
    NothingHalfDeleted(s, p);
    DiskOfInv(s);
    ScanMisses(s, p, key);
    if !Exempt(s.pcs, key) {
      assert Shows(s, key, s.d.ls.loc[key]);
    }
    forall o: nat | Shows(s, key, o) && Exempt(s.pcs, key)
      ensures exists q: nat :: AboutToLink(s, q, o) || LeftByDead(s, q, o)
    {
      ScanSees(s, p, o);
      if q: nat :| AboutToLink(s, q, o) {
      } else if q: nat :| LeftByDead(s, q, o) {
      }
    }
  }
}
