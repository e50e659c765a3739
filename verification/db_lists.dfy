/**
 The linked lists of the index file (db/db.c:258-301, 463-525, 752-805): one chain per
 hash value and the free list, all threaded through the records' pointer fields.

 Lists names the offsets on each list in order, and says for every record whether it is
 live on a chain, free, or held: taken off the free list, taken off its chain, or just
 appended, and not yet on a list again. The transitions below are the single pointer
 writes of the source; each of them keeps ListsOk.
 */
module DbLists {
  import opened DbFormat
  import opened DbImage

  const WORD: nat := 0x1_0000_0000_0000_0000

  /** A char as the arithmetic of _db_hash sees it, with the sign of an 8-bit char. */
  function SignedChar(c: char): int {
    var b := c as int % 256;
    if b < 128 then b else b - 256
  }

  /** The rest of the loop of _db_hash, in unsigned long arithmetic. */
  function HashFrom(key: string, i: nat, hval: nat): nat
    decreases |key|
  {
    if key == [] then hval
    else HashFrom(key[1..], i + 1, (hval + SignedChar(key[0]) * i) % WORD)
  }

  function Hash(key: string, nhash: nat): (h: nat)
    requires nhash > 0
    ensures h < nhash
  {
    HashFrom(key, 1, 0) % nhash
  }

  datatype Home = Live | Free | Held

  datatype Lists = Lists(chains: seq<seq<nat>>, freel: seq<nat>, loc: map<string, nat>, home: map<nat, Home>)

  function FirstOf(l: seq<nat>): nat {
    if l == [] then 0 else l[0]
  }

  function NextIn(l: seq<nat>, j: nat): nat {
    if j + 1 < |l| then l[j + 1] else 0
  }

  function Without(l: seq<nat>, j: nat): seq<nat>
    requires j < |l|
  {
    l[..j] + l[j + 1..]
  }

  /** Starting from p, the pointers run through the records of l, in order, and end in 0. */
  ghost predicate Threaded(recs: map<nat, Rec>, p: nat, l: seq<nat>) {
    && p == FirstOf(l)
    && (forall j :: 0 <= j < |l| ==> 0 < l[j] <= PTR_MAX && l[j] in recs && recs[l[j]].ptr == NextIn(l, j))
    && Different(l)
  }

  /** No record is on the list twice. */
  ghost predicate Different(l: seq<nat>) {
    forall i, j :: 0 <= i < j < |l| ==> l[i] != l[j]
  }

  /** A record of a chain is live, belongs there by its hash, and is where its key says. */
  ghost predicate LiveOn(im: Image, ls: Lists, o: nat, h: nat)
    requires o in im.recs && |im.heads| > 0
  {
    var key := im.recs[o].key;
    && o in ls.home && ls.home[o] == Live
    && Hash(key, |im.heads|) == h
    && key in ls.loc && ls.loc[key] == o
  }

  ghost predicate ChainOk(im: Image, ls: Lists, h: nat)
    requires h < |im.heads| == |ls.chains|
  {
    && Threaded(im.recs, im.heads[h], ls.chains[h])
    && forall j :: 0 <= j < |ls.chains[h]| ==> LiveOn(im, ls, ls.chains[h][j], h)
  }

  ghost predicate FreeRec(im: Image, ls: Lists, o: nat)
    requires o in im.recs
  {
    && o in ls.home && ls.home[o] == Free
    && im.recs[o].key == Blanks(|im.recs[o].key|)
  }

  ghost predicate FreeOk(im: Image, ls: Lists) {
    && Threaded(im.recs, im.free, ls.freel)
    && forall j :: 0 <= j < |ls.freel| ==> FreeRec(im, ls, ls.freel[j])
  }

  ghost predicate HomesOk(im: Image, ls: Lists)
    requires 0 < |im.heads| == |ls.chains|
  {
    && (forall o :: o in im.recs <==> o in ls.home)
    && (forall o :: o in im.recs ==> o >= Base(|im.heads|))
    && (forall o :: o in im.recs && ls.home[o] == Live ==> o in ls.chains[Hash(im.recs[o].key, |im.heads|)])
    && (forall o :: o in im.recs && ls.home[o] == Free ==> o in ls.freel)
  }

  ghost predicate LocOk(im: Image, ls: Lists) {
    forall k :: k in ls.loc ==>
      var o := ls.loc[k];
      o in im.recs && o in ls.home && ls.home[o] == Live && im.recs[o].key == k
  }

  /** The partition of the index records into chains, free list and held records. */
  ghost predicate ListsOk(im: Image, ls: Lists) {
    && 0 < |im.heads| == |ls.chains|
    && (forall h :: 0 <= h < |im.heads| ==> ChainOk(im, ls, h))
    && FreeOk(im, ls)
    && HomesOk(im, ls)
    && LocOk(im, ls)
  }

  /** The pointer field that leads to position j of a list whose own pointer is at head. */
  function SlotOf(head: nat, l: seq<nat>, j: nat): nat
    requires j <= |l|
  {
    if j == 0 then head else l[j - 1]
  }

  // ---------- Transitions ----------

  function Unlinked(ls: Lists, h: nat, j: nat, key: string): Lists
    requires h < |ls.chains| && j < |ls.chains[h]|
  {
    ls.(chains := ls.chains[h := Without(ls.chains[h], j)],
        loc := ls.loc - {key},
        home := ls.home[ls.chains[h][j] := Held])
  }

  function PushedFree(ls: Lists, o: nat): Lists {
    ls.(freel := [o] + ls.freel, home := ls.home[o := Free])
  }

  function TakenFree(ls: Lists, j: nat): Lists
    requires j < |ls.freel|
  {
    ls.(freel := Without(ls.freel, j), home := ls.home[ls.freel[j] := Held])
  }

  function AddedHeld(ls: Lists, o: nat): Lists {
    ls.(home := ls.home[o := Held])
  }

  function Linked(ls: Lists, h: nat, o: nat, key: string): Lists
    requires h < |ls.chains|
  {
    ls.(chains := ls.chains[h := [o] + ls.chains[h]],
        loc := ls.loc[key := o],
        home := ls.home[o := Live])
  }

  // ---------- Threads of pointers ----------

  /** A list is untouched when its records and its first pointer are. */
  lemma ThreadedFrame(recs: map<nat, Rec>, recs': map<nat, Rec>, p: nat, l: seq<nat>)
    requires Threaded(recs, p, l)
    requires forall j :: 0 <= j < |l| ==> l[j] in recs' && recs'[l[j]].ptr == recs[l[j]].ptr
    ensures Threaded(recs', p, l)
  {
  }

  /** Writing the successor of a record into the field that leads to it takes it off the list. */
  lemma ThreadedWithout(recs: map<nat, Rec>, recs': map<nat, Rec>, p: nat, p': nat, l: seq<nat>, j: nat)
    requires Threaded(recs, p, l) && j < |l|
    requires p' == if j == 0 then NextIn(l, 0) else p
    requires forall i :: 0 <= i < |l| ==> l[i] in recs'
    requires forall i :: 0 <= i < |l| ==>
      recs'[l[i]].ptr == if i + 1 == j then NextIn(l, j) else recs[l[i]].ptr
    ensures Threaded(recs', p', Without(l, j))
    ensures l[j] !in Without(l, j)
  {
    hide Different, Without, NextIn;
    WithoutDifferent(l, j);
    WithoutFirst(l, j);
    var l': seq<nat> := Without(l, j);
    forall i | 0 <= i < |l'|
      ensures 0 < l'[i] <= PTR_MAX && l'[i] in recs' && recs'[l'[i]].ptr == NextIn(l', i)
    {
      WithoutAt(l, j, i);
    }
  }

  lemma WithoutFirst(l: seq<nat>, j: nat)
    requires j < |l|
    ensures FirstOf(Without(l, j)) == if j == 0 then NextIn(l, 0) else FirstOf(l)
  {
  }

  lemma WithoutAt(l: seq<nat>, j: nat, i: nat)
    requires j < |l| && i < |Without(l, j)|
    ensures var i0 := if i < j then i else i + 1;
      && i0 < |l| && Without(l, j)[i] == l[i0]
      && NextIn(Without(l, j), i) == if i0 + 1 == j then NextIn(l, j) else NextIn(l, i0)
  {
  }

  lemma WithoutDifferent(l: seq<nat>, j: nat)
    requires Different(l) && j < |l|
    ensures Different(Without(l, j)) && l[j] !in Without(l, j)
  {
    var l': seq<nat> := Without(l, j);
    forall i | 0 <= i < |l'|
      ensures l'[i] == l[if i < j then i else i + 1] && l'[i] != l[j]
    {
    }
  }

  lemma ThreadedPush(recs: map<nat, Rec>, p: nat, l: seq<nat>, o: nat)
    requires Threaded(recs, p, l) && o !in l
    requires 0 < o <= PTR_MAX && o in recs && recs[o].ptr == p
    ensures Threaded(recs, o, [o] + l)
  {
    var l': seq<nat> := [o] + l;
    forall i | 0 <= i < |l'|
      ensures 0 < l'[i] <= PTR_MAX && l'[i] in recs && recs[l'[i]].ptr == NextIn(l', i)
    {
      if i > 0 {
        assert l'[i] == l[i - 1];
        assert recs[l[i - 1]].ptr == NextIn(l, i - 1);
      }
    }
  }

  lemma MembersWithout(l: seq<nat>, j: nat, o: nat)
    requires j < |l| && o in l && o != l[j]
    ensures o in Without(l, j)
  {
    var i :| 0 <= i < |l| && l[i] == o;
    var i' := if i < j then i else i - 1;
    assert Without(l, j)[i'] == o;
  }

  /** A chain none of whose records is touched stays as it is. */
  lemma ChainFrame(im: Image, im': Image, ls: Lists, ls': Lists, g: nat)
    requires g < |im.heads| == |ls.chains| && ChainOk(im, ls, g)
    requires |im'.heads| == |im.heads| && |ls'.chains| == |ls.chains|
    requires im'.heads[g] == im.heads[g] && ls'.chains[g] == ls.chains[g]
    requires forall o :: o in ls.chains[g] && o in im.recs && LiveOn(im, ls, o, g) ==>
      && o in im'.recs && im'.recs[o].ptr == im.recs[o].ptr
      && LiveOn(im', ls', o, g)
    ensures ChainOk(im', ls', g)
  {
    forall j | 0 <= j < |ls.chains[g]|
      ensures ls.chains[g][j] in im'.recs && LiveOn(im', ls', ls.chains[g][j], g)
      ensures im'.recs[ls.chains[g][j]].ptr == im.recs[ls.chains[g][j]].ptr
    {
      assert LiveOn(im, ls, ls.chains[g][j], g);
    }
    ThreadedFrame(im.recs, im'.recs, im.heads[g], ls.chains[g]);
  }

  /** All chains stay as they are when no live record is touched. */
  lemma ChainsFrame(im: Image, im': Image, ls: Lists, ls': Lists)
    requires 0 < |im.heads| == |ls.chains| && (forall g :: 0 <= g < |im.heads| ==> ChainOk(im, ls, g))
    requires im'.heads == im.heads && ls'.chains == ls.chains && ls'.loc == ls.loc
    requires forall o :: o in im.recs && o in ls.home && ls.home[o] == Live ==>
      && o in im'.recs && im'.recs[o].ptr == im.recs[o].ptr && im'.recs[o].key == im.recs[o].key
      && o in ls'.home && ls'.home[o] == Live
    ensures forall g :: 0 <= g < |im'.heads| ==> ChainOk(im', ls', g)
  {
    hide ChainOk, Hash;
    forall g | 0 <= g < |im.heads|
      ensures ChainOk(im', ls', g)
    {
      assert ChainOk(im, ls, g);
      ChainFrame(im, im', ls, ls', g);
    }
  }

  lemma FreeFrame(im: Image, im': Image, ls: Lists, ls': Lists)
    requires FreeOk(im, ls) && im'.free == im.free && ls'.freel == ls.freel
    requires forall o :: o in ls.freel && o in im.recs && FreeRec(im, ls, o) ==>
      && o in im'.recs && im'.recs[o].ptr == im.recs[o].ptr
      && FreeRec(im', ls', o)
    ensures FreeOk(im', ls')
  {
    forall j | 0 <= j < |ls.freel|
      ensures ls.freel[j] in im'.recs && FreeRec(im', ls', ls.freel[j])
      ensures im'.recs[ls.freel[j]].ptr == im.recs[ls.freel[j]].ptr
    {
      assert FreeRec(im, ls, ls.freel[j]);
    }
    ThreadedFrame(im.recs, im'.recs, im.free, ls.freel);
  }

  // ---------- Each transition keeps the partition ----------

  lemma OnChain(im: Image, ls: Lists, h: nat, j: nat)
    requires h < |im.heads| == |ls.chains| && ChainOk(im, ls, h) && j < |ls.chains[h]|
    ensures var o := ls.chains[h][j];
      0 < o <= PTR_MAX && o in im.recs && LiveOn(im, ls, o, h) && im.recs[o].ptr == NextIn(ls.chains[h], j)
  {
  }

  lemma ChainStart(im: Image, ls: Lists, h: nat)
    requires h < |im.heads| == |ls.chains| && ChainOk(im, ls, h)
    ensures im.heads[h] == FirstOf(ls.chains[h])
    ensures forall j :: 0 <= j < |ls.chains[h]| ==> ls.chains[h][j] != 0
  {
  }

  lemma FreeStart(im: Image, ls: Lists)
    requires FreeOk(im, ls)
    ensures im.free == FirstOf(ls.freel)
    ensures forall j :: 0 <= j < |ls.freel| ==> ls.freel[j] != 0
  {
  }

  lemma OnFreeList(im: Image, ls: Lists, j: nat)
    requires FreeOk(im, ls) && j < |ls.freel|
    ensures var o := ls.freel[j];
      0 < o <= PTR_MAX && o in im.recs && FreeRec(im, ls, o) && im.recs[o].ptr == NextIn(ls.freel, j)
  {
  }

  lemma ListDistinct(recs: map<nat, Rec>, p: nat, l: seq<nat>, i: nat, j: nat)
    requires Threaded(recs, p, l) && i < |l| && j < |l| && i != j
    ensures l[i] != l[j]
  {
  }

  lemma UnlinkChain(im: Image, im': Image, ls: Lists, h: nat, j: nat)
    requires h < |im.heads| == |ls.chains| && ChainOk(im, ls, h) && j < |ls.chains[h]|
    requires ls.chains[h][j] in im.recs && |im'.heads| == |im.heads|
    requires im'.heads[h] == if j == 0 then NextIn(ls.chains[h], 0) else im.heads[h]
    requires forall p :: p in im.recs ==> p in im'.recs && im'.recs[p].key == im.recs[p].key
    requires forall i :: 0 <= i < |ls.chains[h]| && ls.chains[h][i] in im.recs ==>
      im'.recs[ls.chains[h][i]].ptr ==
        if i + 1 == j then NextIn(ls.chains[h], j) else im.recs[ls.chains[h][i]].ptr
    ensures ChainOk(im', Unlinked(ls, h, j, im.recs[ls.chains[h][j]].key), h)
  {
    hide Hash;
    var l := ls.chains[h];
    var ls' := Unlinked(ls, h, j, im.recs[l[j]].key);
    ThreadedWithout(im.recs, im'.recs, im.heads[h], im'.heads[h], l, j);
    hide Threaded, NextIn;
    OnChain(im, ls, h, j);
    forall i | 0 <= i < |ls'.chains[h]|
      ensures LiveOn(im', ls', ls'.chains[h][i], h)
    {
      var i0 := if i < j then i else i + 1;
      assert ls'.chains[h][i] == l[i0];
      OnChain(im, ls, h, i0);
      ListDistinct(im.recs, im.heads[h], l, i0, j);
      StillLive(im, im', ls, ls', h, l[i0], l[j]);
    }
    hide LiveOn, Unlinked;
  }

  lemma StillLive(im: Image, im': Image, ls: Lists, ls': Lists, h: nat, o: nat, cut: nat)
    requires o in im.recs && cut in im.recs && o != cut && 0 < |im.heads| == |im'.heads|
    requires LiveOn(im, ls, o, h) && LiveOn(im, ls, cut, h)
    requires o in im'.recs && im'.recs[o].key == im.recs[o].key
    requires ls'.loc == ls.loc - {im.recs[cut].key} && ls'.home == ls.home[cut := Held]
    ensures LiveOn(im', ls', o, h)
  {
    hide Hash;
  }

  /** What a pointer write to a chain leaves alone. */
  lemma ChainSlotWrite(im: Image, ls: Lists, h: nat, j: nat, p: nat)
    requires ListsOk(im, ls) && h < |im.heads| && j < |ls.chains[h]|
    ensures IsSlot(im, SlotOf(ChainOff(h), ls.chains[h], j))
    ensures var slot := SlotOf(ChainOff(h), ls.chains[h], j);
      var im' := SetPtr(im, slot, p);
      && im'.free == im.free && im'.order == im.order
      && im'.heads == (if j == 0 then im.heads[h := p] else im.heads)
      && (j > 0 ==> slot in im.recs)
      && im'.recs == if j == 0 then im.recs else im.recs[slot := im.recs[slot].(ptr := p)]
  {
    hide Hash, Threaded, FreeOk, LocOk;
    HeadSlots(im, h);
    if j > 0 {
      assert ChainOk(im, ls, h);
      OnChain(im, ls, h, j - 1);
    }
  }

  lemma UnlinkKeeps(im: Image, ls: Lists, h: nat, j: nat)
    requires ListsOk(im, ls) && h < |im.heads| && j < |ls.chains[h]|
    ensures ls.chains[h][j] in im.recs
    ensures IsSlot(im, SlotOf(ChainOff(h), ls.chains[h], j))
    ensures var l := ls.chains[h];
      ListsOk(SetPtr(im, SlotOf(ChainOff(h), l, j), NextIn(l, j)), Unlinked(ls, h, j, im.recs[l[j]].key))
  {
    hide Hash, Threaded, ChainOk, FreeOk, SetPtr, IsSlot, Blanks, LiveOn, HomesOk, LocOk;
    var l := ls.chains[h];
    var o, slot := l[j], SlotOf(ChainOff(h), l, j);
    assert ChainOk(im, ls, h);
    OnChain(im, ls, h, j);
    LiveHome(im, ls, o, h);
    ChainSlotWrite(im, ls, h, j, NextIn(l, j));
    var im', ls' := SetPtr(im, slot, NextIn(l, j)), Unlinked(ls, h, j, im.recs[o].key);
    if j > 0 {
      OnChain(im, ls, h, j - 1);
      LiveHome(im, ls, l[j - 1], h);
    }
    UnlinkChains(im, im', ls, h, j);
    UnlinkFree(im, im', ls, ls', o, if j > 0 then l[j - 1] else o);
    UnlinkHomes(im, im', ls, h, j);
    UnlinkLoc(im, im', ls, h, j);
  }

  lemma LiveHome(im: Image, ls: Lists, o: nat, h: nat)
    requires o in im.recs && |im.heads| > 0 && LiveOn(im, ls, o, h)
    ensures o in ls.home && ls.home[o] == Live
  {
    hide Hash;
  }

  lemma UnlinkLoc(im: Image, im': Image, ls: Lists, h: nat, j: nat)
    requires h < |ls.chains| && j < |ls.chains[h]| && ls.chains[h][j] in im.recs && LocOk(im, ls)
    requires forall p :: p in im.recs ==> p in im'.recs && im'.recs[p].key == im.recs[p].key
    ensures LocOk(im', Unlinked(ls, h, j, im.recs[ls.chains[h][j]].key))
  {
  }

  lemma UnlinkFree(im: Image, im': Image, ls: Lists, ls': Lists, o: nat, slot: nat)
    requires FreeOk(im, ls) && im'.free == im.free && ls'.freel == ls.freel
    requires o in ls.home && ls.home[o] == Live && slot in ls.home && ls.home[slot] == Live
    requires ls'.home == ls.home[o := Held]
    requires forall p :: p in im.recs && p != slot ==> p in im'.recs && im'.recs[p] == im.recs[p]
    ensures FreeOk(im', ls')
  {
    hide FreeOk, Blanks;
    FreeFrame(im, im', ls, ls');
  }

  lemma UnlinkChains(im: Image, im': Image, ls: Lists, h: nat, j: nat)
    requires h < |im.heads| == |ls.chains| && j < |ls.chains[h]|
    requires forall g :: 0 <= g < |im.heads| ==> ChainOk(im, ls, g)
    requires ls.chains[h][j] in im.recs && (j > 0 ==> ls.chains[h][j - 1] in im.recs)
    requires im'.heads == if j == 0 then im.heads[h := NextIn(ls.chains[h], j)] else im.heads
    requires im'.recs ==
      if j == 0 then im.recs
      else im.recs[ls.chains[h][j - 1] := im.recs[ls.chains[h][j - 1]].(ptr := NextIn(ls.chains[h], j))]
    ensures forall g :: 0 <= g < |im.heads| ==>
      ChainOk(im', Unlinked(ls, h, j, im.recs[ls.chains[h][j]].key), g)
  {
    hide Hash, Threaded, ChainOk, Blanks, NextIn;
    var l, ls' := ls.chains[h], Unlinked(ls, h, j, im.recs[ls.chains[h][j]].key);
    assert ChainOk(im, ls, h);
    OnChain(im, ls, h, j);
    if j > 0 {
      OnChain(im, ls, h, j - 1);
    }
    forall g | 0 <= g < |im.heads|
      ensures ChainOk(im', ls', g)
    {
      assert ChainOk(im, ls, g);
      if g != h {
        ChainFrame(im, im', ls, ls', g);
      } else {
        SlotOnly(im, im', ls, h, j);
        UnlinkChain(im, im', ls, h, j);
      }
    }
  }

  lemma UnlinkHomes(im: Image, im': Image, ls: Lists, h: nat, j: nat)
    requires 0 < |im.heads| == |ls.chains| == |im'.heads| && HomesOk(im, ls)
    requires h < |im.heads| && j < |ls.chains[h]| && ls.chains[h][j] in im.recs
    requires forall p :: p in im.recs <==> p in im'.recs
    requires forall p :: p in im.recs ==> im'.recs[p].key == im.recs[p].key
    ensures HomesOk(im', Unlinked(ls, h, j, im.recs[ls.chains[h][j]].key))
  {
    hide Hash;
    var l, ls' := ls.chains[h], Unlinked(ls, h, j, im.recs[ls.chains[h][j]].key);
    forall p | p in im'.recs && ls'.home[p] == Live
      ensures p in ls'.chains[Hash(im'.recs[p].key, |im'.heads|)]
    {
      var g := Hash(im.recs[p].key, |im.heads|);
      assert p in ls.chains[g];
      if g == h {
        MembersWithout(l, j, p);
      }
    }
  }

  /** On the chain itself the write reaches position j - 1 alone. */
  lemma SlotOnly(im: Image, im': Image, ls: Lists, h: nat, j: nat)
    requires h < |im.heads| == |ls.chains| && ChainOk(im, ls, h) && j < |ls.chains[h]|
    requires j > 0 ==> ls.chains[h][j - 1] in im.recs
    requires im'.recs ==
      if j == 0 then im.recs
      else im.recs[ls.chains[h][j - 1] := im.recs[ls.chains[h][j - 1]].(ptr := NextIn(ls.chains[h], j))]
    ensures forall i :: 0 <= i < |ls.chains[h]| && ls.chains[h][i] in im.recs ==>
      im'.recs[ls.chains[h][i]].ptr ==
        if i + 1 == j then NextIn(ls.chains[h], j) else im.recs[ls.chains[h][i]].ptr
  {
    hide LiveOn, NextIn;
    forall i | 0 <= i < |ls.chains[h]| && ls.chains[h][i] in im.recs && i + 1 != j && j > 0
      ensures im'.recs[ls.chains[h][i]] == im.recs[ls.chains[h][i]]
    {
      ListDistinct(im.recs, im.heads[h], ls.chains[h], i, j - 1);
    }
  }

  lemma RewriteHeldKeeps(im: Image, ls: Lists, o: nat, r: Rec)
    requires ListsOk(im, ls) && o in im.recs && ls.home[o] == Held
    ensures ListsOk(SetRec(im, o, r), ls)
  {
    hide Hash, Threaded, ChainOk, FreeOk, LiveOn, Blanks;
    var im' := SetRec(im, o, r);
    ChainsFrame(im, im', ls, ls);
    FreeFrame(im, im', ls, ls);
  }

  lemma PushFreeList(im: Image, ls: Lists, o: nat)
    requires FreeOk(im, ls) && o in im.recs && 0 < o <= PTR_MAX
    requires o in ls.home && ls.home[o] == Held
    requires im.recs[o].ptr == im.free && im.recs[o].key == Blanks(|im.recs[o].key|)
    ensures FreeOk(im.(free := o), PushedFree(ls, o))
  {
    hide Blanks;
    var im', ls' := im.(free := o), PushedFree(ls, o);
    forall j | 0 <= j < |ls.freel|
      ensures ls.freel[j] != o && ls.freel[j] in im.recs && FreeRec(im', ls', ls.freel[j])
    {
      OnFreeList(im, ls, j);
    }
    ThreadedPush(im.recs, im.free, ls.freel, o);
    forall j | 0 <= j < |ls'.freel|
      ensures FreeRec(im', ls', ls'.freel[j])
    {
      if j > 0 {
        assert ls'.freel[j] == ls.freel[j - 1];
      }
    }
  }

  lemma PushFreeKeeps(im: Image, ls: Lists, o: nat)
    requires ListsOk(im, ls) && o in im.recs && o <= PTR_MAX && ls.home[o] == Held
    requires im.recs[o].ptr == im.free && im.recs[o].key == Blanks(|im.recs[o].key|)
    ensures ListsOk(im.(free := o), PushedFree(ls, o))
  {
    hide Hash, Threaded, ChainOk, FreeOk, LiveOn, Blanks;
    var im', ls' := im.(free := o), PushedFree(ls, o);
    ChainsFrame(im, im', ls, ls');
    PushFreeList(im, ls, o);
    forall p | p in im'.recs && ls'.home[p] == Free
      ensures p in ls'.freel
    {
      assert p == o || p in ls.freel;
    }
  }

  lemma FreeSlotWrite(im: Image, ls: Lists, j: nat, p: nat)
    requires ListsOk(im, ls) && j < |ls.freel|
    ensures IsSlot(im, SlotOf(0, ls.freel, j))
    ensures var slot := SlotOf(0, ls.freel, j);
      var im' := SetPtr(im, slot, p);
      && im'.heads == im.heads && im'.order == im.order
      && im'.free == (if j == 0 then p else im.free)
      && (j > 0 ==> slot in im.recs)
      && im'.recs == if j == 0 then im.recs else im.recs[slot := im.recs[slot].(ptr := p)]
  {
    hide Hash, Threaded, ChainOk, LocOk, Blanks;
    if j > 0 {
      OnFreeList(im, ls, j - 1);
    }
  }

  lemma TakeFreeList(im: Image, im': Image, ls: Lists, j: nat)
    requires FreeOk(im, ls) && j < |ls.freel|
    requires j > 0 ==> ls.freel[j - 1] in im.recs
    requires im'.free == if j == 0 then NextIn(ls.freel, j) else im.free
    requires im'.recs ==
      if j == 0 then im.recs
      else im.recs[ls.freel[j - 1] := im.recs[ls.freel[j - 1]].(ptr := NextIn(ls.freel, j))]
    ensures FreeOk(im', TakenFree(ls, j))
  {
    hide Blanks;
    var l, ls' := ls.freel, TakenFree(ls, j);
    FreeSlotOnly(im, im', ls, j);
    ThreadedWithout(im.recs, im'.recs, im.free, im'.free, l, j);
    hide Threaded;
    forall i | 0 <= i < |ls'.freel|
      ensures FreeRec(im', ls', ls'.freel[i])
    {
      var i0 := if i < j then i else i + 1;
      OnFreeList(im, ls, i0);
      ListDistinct(im.recs, im.free, l, i0, j);
    }
  }

  lemma FreeSlotOnly(im: Image, im': Image, ls: Lists, j: nat)
    requires FreeOk(im, ls) && j < |ls.freel|
    requires j > 0 ==> ls.freel[j - 1] in im.recs
    requires im'.recs ==
      if j == 0 then im.recs
      else im.recs[ls.freel[j - 1] := im.recs[ls.freel[j - 1]].(ptr := NextIn(ls.freel, j))]
    ensures forall i :: 0 <= i < |ls.freel| ==>
      ls.freel[i] in im.recs && ls.freel[i] in im'.recs && im'.recs[ls.freel[i]].key == im.recs[ls.freel[i]].key
    ensures forall i :: 0 <= i < |ls.freel| ==>
      im'.recs[ls.freel[i]].ptr == if i + 1 == j then NextIn(ls.freel, j) else im.recs[ls.freel[i]].ptr
  {
    hide Threaded, FreeOk, NextIn, FreeRec;
    forall i | 0 <= i < |ls.freel|
      ensures ls.freel[i] in im.recs && ls.freel[i] in im'.recs && im'.recs[ls.freel[i]].key == im.recs[ls.freel[i]].key
      ensures im'.recs[ls.freel[i]].ptr == if i + 1 == j then NextIn(ls.freel, j) else im.recs[ls.freel[i]].ptr
    {
      OnFreeList(im, ls, i);
      if j > 0 && i != j - 1 {
        FreeDistinct(im, ls, i, j - 1);
      }
    }
  }

  lemma FreeDistinct(im: Image, ls: Lists, i: nat, j: nat)
    requires FreeOk(im, ls) && i < |ls.freel| && j < |ls.freel| && i != j
    ensures ls.freel[i] != ls.freel[j]
  {
  }

  lemma TakeFreeKeeps(im: Image, ls: Lists, j: nat)
    requires ListsOk(im, ls) && j < |ls.freel|
    ensures ls.freel[j] in im.recs
    ensures IsSlot(im, SlotOf(0, ls.freel, j))
    ensures ListsOk(SetPtr(im, SlotOf(0, ls.freel, j), NextIn(ls.freel, j)), TakenFree(ls, j))
  {
    hide Hash, Threaded, ChainOk, FreeOk, LiveOn, SetPtr, IsSlot, Blanks;
    var l := ls.freel;
    var slot := SlotOf(0, l, j);
    OnFreeList(im, ls, j);
    FreeSlotWrite(im, ls, j, NextIn(l, j));
    if j > 0 {
      OnFreeList(im, ls, j - 1);
    }
    var im', ls' := SetPtr(im, slot, NextIn(l, j)), TakenFree(ls, j);
    ChainsFrame(im, im', ls, ls');
    TakeFreeList(im, im', ls, j);
    TakeFreeHomes(im, im', ls, j);
    hide LiveOn, HomesOk;
  }

  lemma TakeFreeHomes(im: Image, im': Image, ls: Lists, j: nat)
    requires 0 < |im.heads| == |ls.chains| == |im'.heads| && HomesOk(im, ls)
    requires j < |ls.freel| && ls.freel[j] in im.recs
    requires forall p :: p in im.recs <==> p in im'.recs
    requires forall p :: p in im.recs ==> im'.recs[p].key == im.recs[p].key
    ensures HomesOk(im', TakenFree(ls, j))
  {
    hide Hash;
    forall p | p in im'.recs && TakenFree(ls, j).home[p] == Free
      ensures p in TakenFree(ls, j).freel
    {
      assert p in ls.freel;
      MembersWithout(ls.freel, j, p);
    }
  }

  lemma AddHeldKeeps(im: Image, ls: Lists, o: nat, r: Rec)
    requires ListsOk(im, ls) && o !in im.recs && o >= Base(|im.heads|)
    ensures ListsOk(AddRec(im, o, r), AddedHeld(ls, o))
  {
    hide Hash, Threaded, ChainOk, FreeOk, LiveOn, Blanks;
    var im', ls' := AddRec(im, o, r), AddedHeld(ls, o);
    AddHeldHomes(im, ls, o, r);
    ChainsFrame(im, im', ls, ls');
    FreeFrame(im, im', ls, ls');
    hide HomesOk, LocOk, FreeRec;
  }

  lemma AddHeldHomes(im: Image, ls: Lists, o: nat, r: Rec)
    requires 0 < |im.heads| == |ls.chains| && HomesOk(im, ls) && LocOk(im, ls)
    requires o !in im.recs && o >= Base(|im.heads|)
    ensures HomesOk(AddRec(im, o, r), AddedHeld(ls, o)) && LocOk(AddRec(im, o, r), AddedHeld(ls, o))
  {
    hide Hash;
    forall p | p in AddRec(im, o, r).recs && AddedHeld(ls, o).home[p] == Live
      ensures p in ls.chains[Hash(AddRec(im, o, r).recs[p].key, |im.heads|)]
    {
      assert p != o && ls.home[p] == Live;
    }
  }

  lemma LinkChain(im: Image, ls: Lists, h: nat, o: nat)
    requires h < |im.heads| == |ls.chains| && ChainOk(im, ls, h)
    requires o in im.recs && 0 < o <= PTR_MAX && o in ls.home && ls.home[o] == Held
    requires Hash(im.recs[o].key, |im.heads|) == h
    requires im.recs[o].key !in ls.loc && im.recs[o].ptr == im.heads[h]
    ensures ChainOk(im.(heads := im.heads[h := o]), Linked(ls, h, o, im.recs[o].key), h)
  {
    hide Hash, Threaded, LiveOn;
    var l := ls.chains[h];
    var im', ls' := im.(heads := im.heads[h := o]), Linked(ls, h, o, im.recs[o].key);
    forall j | 0 <= j < |l|
      ensures l[j] != o && l[j] in im.recs && LiveOn(im', ls', l[j], h)
    {
      OnChain(im, ls, h, j);
      LinkedLive(im, ls, h, o, l[j]);
    }
    ThreadedPush(im.recs, im.heads[h], l, o);
    forall j | 0 <= j < |ls'.chains[h]|
      ensures ls'.chains[h][j] in im.recs && LiveOn(im', ls', ls'.chains[h][j], h)
    {
      if j > 0 {
        assert ls'.chains[h][j] == l[j - 1];
      } else {
        LinkedLive(im, ls, h, o, o);
      }
    }
  }

  lemma LinkedLive(im: Image, ls: Lists, h: nat, o: nat, x: nat)
    requires h < |im.heads| == |ls.chains| && o in im.recs && o in ls.home && ls.home[o] == Held && x in im.recs
    requires Hash(im.recs[o].key, |im.heads|) == h && im.recs[o].key !in ls.loc
    requires x == o || LiveOn(im, ls, x, h)
    ensures LiveOn(im.(heads := im.heads[h := o]), Linked(ls, h, o, im.recs[o].key), x, h)
    ensures LiveOn(im, ls, x, h) ==> x != o
  {
    hide Hash;
  }

  lemma LinkKeeps(im: Image, ls: Lists, o: nat)
    requires ListsOk(im, ls) && o in im.recs && o <= PTR_MAX && ls.home[o] == Held
    requires im.recs[o].key !in ls.loc
    requires im.recs[o].ptr == im.heads[Hash(im.recs[o].key, |im.heads|)]
    ensures var key := im.recs[o].key;
      var h := Hash(key, |im.heads|);
      ListsOk(im.(heads := im.heads[h := o]), Linked(ls, h, o, key))
  {
    var key := im.recs[o].key;
    var h := Hash(key, |im.heads|);
    hide Hash, Threaded, ChainOk, FreeOk, Blanks, LiveOn;
    var im', ls' := im.(heads := im.heads[h := o]), Linked(ls, h, o, key);
    LinkChains(im, ls, h, o);
    FreeFrame(im, im', ls, ls');
    LinkHomes(im, ls, h, o);
    hide HomesOk, FreeRec;
    LinkLoc(im, ls, h, o);
    hide LocOk, Linked;
  }

  lemma LinkLoc(im: Image, ls: Lists, h: nat, o: nat)
    requires LocOk(im, ls) && o in im.recs && h < |im.heads| && h < |ls.chains| && im.recs[o].key !in ls.loc
    ensures LocOk(im.(heads := im.heads[h := o]), Linked(ls, h, o, im.recs[o].key))
  {
  }

  lemma LinkChains(im: Image, ls: Lists, h: nat, o: nat)
    requires |im.heads| == |ls.chains| && o in im.recs && 0 < o <= PTR_MAX && o in ls.home && ls.home[o] == Held
    requires forall g :: 0 <= g < |im.heads| ==> ChainOk(im, ls, g)
    requires h < |im.heads| && Hash(im.recs[o].key, |im.heads|) == h
    requires im.recs[o].key !in ls.loc && im.recs[o].ptr == im.heads[h]
    ensures var im' := im.(heads := im.heads[h := o]);
      forall g :: 0 <= g < |im.heads| ==> ChainOk(im', Linked(ls, h, o, im.recs[o].key), g)
  {
    hide Hash, Threaded, ChainOk, Blanks;
    var im', ls' := im.(heads := im.heads[h := o]), Linked(ls, h, o, im.recs[o].key);
    forall g | 0 <= g < |im.heads|
      ensures ChainOk(im', ls', g)
    {
      assert ChainOk(im, ls, g);
      if g != h {
        ChainFrame(im, im', ls, ls', g);
      } else {
        LinkChain(im, ls, h, o);
      }
    }
  }

  lemma LinkHomes(im: Image, ls: Lists, h: nat, o: nat)
    requires 0 < |im.heads| == |ls.chains| && HomesOk(im, ls) && o in im.recs
    requires h == Hash(im.recs[o].key, |im.heads|)
    ensures HomesOk(im.(heads := im.heads[h := o]), Linked(ls, h, o, im.recs[o].key))
  {
    hide Hash;
    var im', ls' := im.(heads := im.heads[h := o]), Linked(ls, h, o, im.recs[o].key);
    forall p | p in im'.recs && ls'.home[p] == Live
      ensures p in ls'.chains[Hash(im'.recs[p].key, |im'.heads|)]
    {
      var g := Hash(im.recs[p].key, |im.heads|);
      if p != o {
        assert p in ls.chains[g];
      } else {
        assert ls'.chains[h][0] == o;
      }
    }
  }

  /**
   Each record is on exactly the list its home says: the chain of its hash, the free list,
   or none.
   */
  lemma Partition(im: Image, ls: Lists, o: nat)
    requires ListsOk(im, ls) && o in im.recs
    ensures o in ls.home
    ensures o in ls.freel <==> ls.home[o] == Free
    ensures forall h :: 0 <= h < |im.heads| ==>
      (o in ls.chains[h] <==> ls.home[o] == Live && h == Hash(im.recs[o].key, |im.heads|))
    ensures Different(ls.freel) && forall h :: 0 <= h < |im.heads| ==> Different(ls.chains[h])
  {
    hide Hash, Threaded, LocOk;
    FreeDifferent(im, ls);
    forall h | 0 <= h < |im.heads|
      ensures Different(ls.chains[h])
    {
      ChainDifferent(im, ls, h);
    }
    hide Different;
    forall h | 0 <= h < |im.heads| && o in ls.chains[h]
      ensures ls.home[o] == Live && h == Hash(im.recs[o].key, |im.heads|)
    {
      assert ChainOk(im, ls, h);
      var j: nat :| j < |ls.chains[h]| && ls.chains[h][j] == o;
      assert LiveOn(im, ls, ls.chains[h][j], h);
    }
    if o in ls.freel {
      var j: nat :| j < |ls.freel| && ls.freel[j] == o;
      assert FreeRec(im, ls, ls.freel[j]);
    }
  }

  lemma ChainDifferent(im: Image, ls: Lists, h: nat)
    requires ListsOk(im, ls) && h < |im.heads|
    ensures Different(ls.chains[h])
  {
    hide Threaded, LiveOn, FreeOk, HomesOk, LocOk;
    assert ChainOk(im, ls, h);
    forall i, j | 0 <= i < j < |ls.chains[h]|
      ensures ls.chains[h][i] != ls.chains[h][j]
    {
      ListDistinct(im.recs, im.heads[h], ls.chains[h], i, j);
    }
  }

  lemma FreeDifferent(im: Image, ls: Lists)
    requires ListsOk(im, ls)
    ensures Different(ls.freel)
  {
    hide ChainOk, HomesOk, LocOk, FreeRec, Threaded;
    forall i, j | 0 <= i < j < |ls.freel|
      ensures ls.freel[i] != ls.freel[j]
    {
      FreeDistinct(im, ls, i, j);
    }
  }

  /** A key of the database is the key of a record on its chain. */
  lemma KeyOnChain(im: Image, ls: Lists, key: string)
    requires ListsOk(im, ls) && key in ls.loc
    ensures ls.loc[key] in im.recs && im.recs[ls.loc[key]].key == key
    ensures ls.loc[key] in ls.chains[Hash(key, |im.heads|)]
  {
    hide Hash, Threaded, FreeOk;
  }

  /** The records in front of position pos have other keys. */
  ghost predicate Passed(im: Image, l: seq<nat>, pos: nat, key: string)
    requires pos <= |l|
  {
    forall i :: 0 <= i < pos ==> l[i] in im.recs && im.recs[l[i]].key != key
  }

  /** No key stands at two positions of the chains. */
  lemma KeyAtOnePosition(im: Image, ls: Lists, g: nat, i: nat, h: nat, j: nat)
    requires ListsOk(im, ls) && g < |ls.chains| && h < |ls.chains| && i < |ls.chains[g]| && j < |ls.chains[h]|
    requires ls.chains[g][i] in im.recs && ls.chains[h][j] in im.recs
    requires im.recs[ls.chains[g][i]].key == im.recs[ls.chains[h][j]].key
    ensures g == h && i == j && im.recs[ls.chains[g][i]].key in ls.loc
  {
    hide Hash, Threaded, FreeOk, HomesOk;
    assert ChainOk(im, ls, g) && ChainOk(im, ls, h);
    OnChain(im, ls, g, i);
    OnChain(im, ls, h, j);
    ChainDifferent(im, ls, h);
  }

  // ---------- The map a database stands for ----------

  /** Each key that is on a chain, with the data of its record. */
  ghost function Contents(im: Image, dat: string, ls: Lists): map<string, string>
    requires ExtentsOk(im, dat) && LocOk(im, ls)
  {
    map k | k in ls.loc :: Value(im, dat, ls.loc[k])
  }
}
