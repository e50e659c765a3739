/**
 The meaning of the reference-counted objects of threads/mutex3.c and threads/mutex2.c: a
 table of objects with an identifier and a count, in NHASH buckets, and the four operations
 as they act when nothing interferes.
 */
module FooTable {
  import opened Basics

  const NHASH: nat := 29
  const WORD: nat := 0x1_0000_0000_0000_0000

  /** HASH(id): the int is converted to unsigned long first. */
  function Bucket(id: int): (h: nat)
    ensures h < NHASH
  {
    (id % WORD) % NHASH
  }

  datatype Obj = Obj(id: int, count: nat)

  /** Objects by name, and the buckets with their members from front to back. */
  datatype Table<!O> = Table(objs: map<O, Obj>, buckets: seq<seq<O>>)

  ghost predicate TableOk<O>(t: Table<O>) {
    && |t.buckets| == NHASH
    && (forall h :: 0 <= h < NHASH ==> BucketOk(t, h))
    && (forall o :: o in t.objs ==> t.objs[o].count > 0 && o in t.buckets[Bucket(t.objs[o].id)])
  }

  ghost predicate BucketOk<O>(t: Table<O>, h: nat)
    requires h < |t.buckets|
  {
    && (forall j :: 0 <= j < |t.buckets[h]| ==>
          t.buckets[h][j] in t.objs && Bucket(t.objs[t.buckets[h][j]].id) == h)
    && Distinct(t.buckets[h])
  }

  ghost predicate Distinct<O>(l: seq<O>) {
    forall i, j :: 0 <= i < j < |l| ==> l[i] != l[j]
  }

  // ---------- The operations ----------

  ghost function Alloc<O>(t: Table<O>, o: O, id: int): Table<O>
    requires |t.buckets| == NHASH
  {
    Table(t.objs[o := Obj(id, 1)], t.buckets[Bucket(id) := [o] + t.buckets[Bucket(id)]])
  }

  ghost function Hold<O>(t: Table<O>, o: O): Table<O>
    requires o in t.objs
  {
    t.(objs := t.objs[o := Obj(t.objs[o].id, t.objs[o].count + 1)])
  }

  /** The first member of a list with the identifier. */
  ghost function FirstWith<O>(t: Table<O>, l: seq<O>, id: int): Option<O> {
    if l == [] then None
    else if l[0] in t.objs && t.objs[l[0]].id == id then Some(l[0])
    else FirstWith(t, l[1..], id)
  }

  ghost function Found<O>(t: Table<O>, id: int): Option<O>
    requires |t.buckets| == NHASH
  {
    FirstWith(t, t.buckets[Bucket(id)], id)
  }

  ghost function Find<O>(t: Table<O>, id: int): Table<O>
    requires |t.buckets| == NHASH
  {
    match Found(t, id)
    case None => t
    case Some(o) => if o in t.objs then Hold(t, o) else t
  }

  ghost function IndexOf<O>(l: seq<O>, o: O): (i: nat)
    requires o in l
    ensures i < |l| && l[i] == o && o !in l[..i]
  {
    if l[0] == o then 0 else
      var i := 1 + IndexOf(l[1..], o);
      assert l[..i] == [l[0]] + l[1..][..i - 1];
      i
  }

  ghost function Without<O>(l: seq<O>, o: O): seq<O> {
    if o in l then l[..IndexOf(l, o)] + l[IndexOf(l, o) + 1..] else l
  }

  ghost function Rele<O>(t: Table<O>, o: O): Table<O>
    requires |t.buckets| == NHASH && o in t.objs
  {
    if t.objs[o].count > 1 then t.(objs := t.objs[o := Obj(t.objs[o].id, t.objs[o].count - 1)])
    else
      var h := Bucket(t.objs[o].id);
      Table(t.objs - {o}, t.buckets[h := Without(t.buckets[h], o)])
  }

  // ---------- What they keep ----------

  lemma {:induction false} FirstWithIs<O>(t: Table<O>, l: seq<O>, id: int, pos: nat)
    requires pos <= |l|
    requires forall i :: 0 <= i < pos ==> l[i] in t.objs && t.objs[l[i]].id != id
    ensures pos == |l| ==> FirstWith(t, l, id) == None
    ensures pos < |l| && l[pos] in t.objs && t.objs[l[pos]].id == id ==> FirstWith(t, l, id) == Some(l[pos])
  {
    if pos > 0 {
      FirstWithIs(t, l[1..], id, pos - 1);
    }
  }

  /** A find returns a live object with the identifier if there is one, and None otherwise. */
  lemma FindsLive<O>(t: Table<O>, id: int)
    requires TableOk(t)
    ensures Found(t, id).Some? ==> Found(t, id).value in t.objs && t.objs[Found(t, id).value].id == id
    ensures Found(t, id).None? ==> forall o :: o in t.objs ==> t.objs[o].id != id
  {
    var l := t.buckets[Bucket(id)];
    assert BucketOk(t, Bucket(id));
    if j: nat :| j < |l| && t.objs[l[j]].id == id && forall i :: 0 <= i < j ==> t.objs[l[i]].id != id {
      FirstWithIs(t, l, id, j);
    } else {
      NoneBefore(t, l, id, |l|);
      FirstWithIs(t, l, id, |l|);
    }
  }

  lemma {:induction false} NoneBefore<O>(t: Table<O>, l: seq<O>, id: int, n: nat)
    requires n <= |l| && forall i :: 0 <= i < |l| ==> l[i] in t.objs
    requires forall j :: 0 <= j < |l| ==> t.objs[l[j]].id != id || exists i :: 0 <= i < j && t.objs[l[i]].id == id
    ensures forall i :: 0 <= i < n ==> t.objs[l[i]].id != id
  {
    if n > 0 {
      NoneBefore(t, l, id, n - 1);
    }
  }

  lemma WithoutMembers<O>(l: seq<O>, o: O)
    requires Distinct(l)
    ensures Distinct(Without(l, o)) && o !in Without(l, o)
    ensures forall p :: p != o ==> (p in Without(l, o) <==> p in l)
  {
    if o in l {
      var i, l' := IndexOf(l, o), Without(l, o);
      forall p | p in l && p != o
        ensures p in l'
      {
        var j :| 0 <= j < |l| && l[j] == p;
        assert l'[if j < i then j else j - 1] == p;
      }
    }
  }

  lemma AllocKeeps<O>(t: Table<O>, o: O, id: int)
    requires TableOk(t) && o !in t.objs
    ensures TableOk(Alloc(t, o, id))
  {
    var t' := Alloc(t, o, id);
    forall h | 0 <= h < NHASH
      ensures BucketOk(t', h)
    {
      assert BucketOk(t, h);
    }
    forall p | p in t'.objs
      ensures p in t'.buckets[Bucket(t'.objs[p].id)]
    {
      if p == o {
        assert t'.buckets[Bucket(id)][0] == o;
      } else {
        assert p in t.buckets[Bucket(t.objs[p].id)];
      }
    }
  }

  lemma HoldKeeps<O>(t: Table<O>, o: O)
    requires TableOk(t) && o in t.objs
    ensures TableOk(Hold(t, o))
  {
    forall h | 0 <= h < NHASH
      ensures BucketOk(Hold(t, o), h)
    {
      assert BucketOk(t, h);
    }
  }

  lemma ReleKeeps<O>(t: Table<O>, o: O)
    requires TableOk(t) && o in t.objs
    ensures TableOk(Rele(t, o))
  {
    var t', b := Rele(t, o), Bucket(t.objs[o].id);
    forall h | 0 <= h < NHASH
      ensures BucketOk(t', h)
    {
      assert BucketOk(t, h);
      WithoutMembers(t.buckets[h], o);
      if t.objs[o].count == 1 && h != b {
        assert o !in t.buckets[h];
      }
    }
    assert BucketOk(t, b);
    WithoutMembers(t.buckets[b], o);
  }

  /** A find followed by the release of what it found changes nothing. */
  lemma FindThenRele<O>(t: Table<O>, id: int)
    requires TableOk(t) && Found(t, id).Some?
    ensures Found(t, id).value in Find(t, id).objs
    ensures Rele(Find(t, id), Found(t, id).value) == t
  {
    FindsLive(t, id);
    var o := Found(t, id).value;
    assert t.objs[o := Obj(t.objs[o].id, t.objs[o].count + 1)][o := Obj(t.objs[o].id, t.objs[o].count)] == t.objs;
  }

  /** An allocation followed by the release of its object changes nothing. */
  lemma AllocThenRele<O>(t: Table<O>, o: O, id: int)
    requires TableOk(t) && o !in t.objs
    ensures Rele(Alloc(t, o, id), o) == t
  {
    var h, t' := Bucket(id), Alloc(t, o, id);
    assert IndexOf(t'.buckets[h], o) == 0;
    assert Without(t'.buckets[h], o) == t.buckets[h];
    assert t'.objs - {o} == t.objs;
  }

  // ---------- Links ----------

  ghost function First<O>(l: seq<O>): Option<O> {
    if l == [] then None else Some(l[0])
  }

  ghost function Following<O>(l: seq<O>, i: nat): Option<O> {
    if i + 1 < |l| then Some(l[i + 1]) else None
  }

  /** The member behind o in its bucket. */
  ghost function Next<O>(t: Table<O>, o: O): Option<O>
    requires TableOk(t) && o in t.objs
  {
    var l := t.buckets[Bucket(t.objs[o].id)];
    Following(l, IndexOf(l, o))
  }

  lemma IndexIs<O>(l: seq<O>, i: nat)
    requires Distinct(l) && i < |l|
    ensures IndexOf(l, l[i]) == i
  {
  }

  lemma NextInBucket<O>(t: Table<O>, h: nat, i: nat)
    requires TableOk(t) && h < NHASH && i < |t.buckets[h]|
    ensures t.buckets[h][i] in t.objs && Next(t, t.buckets[h][i]) == Following(t.buckets[h], i)
  {
    assert BucketOk(t, h);
    IndexIs(t.buckets[h], i);
  }

  lemma AllocLinks<O>(t: Table<O>, o: O, id: int)
    requires TableOk(t) && o !in t.objs && TableOk(Alloc(t, o, id))
    ensures Next(Alloc(t, o, id), o) == First(t.buckets[Bucket(id)])
    ensures forall p :: p in t.objs ==> Next(Alloc(t, o, id), p) == Next(t, p)
    ensures forall h :: 0 <= h < NHASH ==>
      First(Alloc(t, o, id).buckets[h]) == if h == Bucket(id) then Some(o) else First(t.buckets[h])
    ensures Alloc(t, o, id).objs == t.objs[o := Obj(id, 1)]
  {
    var t', b := Alloc(t, o, id), Bucket(id);
    assert BucketOk(t', b);
    IndexIs(t'.buckets[b], 0);
    forall p | p in t.objs
      ensures Next(t', p) == Next(t, p)
    {
      var h := Bucket(t.objs[p].id);
      if h == b {
        var i := IndexOf(t.buckets[b], p);
        assert t'.buckets[b][i + 1] == p;
        IndexIs(t'.buckets[b], i + 1);
      }
    }
  }

  lemma HoldLinks<O>(t: Table<O>, o: O)
    requires TableOk(t) && o in t.objs && TableOk(Hold(t, o))
    ensures forall p :: p in t.objs ==> Next(Hold(t, o), p) == Next(t, p)
  {
  }

  /** The release of a last reference: one object less, and its predecessor linked past it. */
  lemma ReleLinks<O>(t: Table<O>, o: O)
    requires TableOk(t) && o in t.objs && t.objs[o].count == 1 && TableOk(Rele(t, o))
    ensures var t', b := Rele(t, o), Bucket(t.objs[o].id);
      && t'.objs == t.objs - {o}
      && (forall h :: 0 <= h < NHASH ==>
            First(t'.buckets[h]) == (if First(t.buckets[h]) == Some(o) then Next(t, o) else First(t.buckets[h])))
      && (forall p :: p in t'.objs ==> Next(t', p) == (if Next(t, p) == Some(o) then Next(t, o) else Next(t, p)))
  {
    var t', b := Rele(t, o), Bucket(t.objs[o].id);
    forall h | 0 <= h < NHASH
      ensures First(t'.buckets[h]) == if First(t.buckets[h]) == Some(o) then Next(t, o) else First(t.buckets[h])
    {
      assert BucketOk(t, h);
    }
    forall p | p in t'.objs
      ensures Next(t', p) == if Next(t, p) == Some(o) then Next(t, o) else Next(t, p)
    {
      ReleNext(t, o, p);
    }
  }

  lemma ReleNext<O>(t: Table<O>, o: O, p: O)
    requires TableOk(t) && o in t.objs && t.objs[o].count == 1 && p in t.objs && p != o && TableOk(Rele(t, o))
    ensures Next(Rele(t, o), p) == if Next(t, p) == Some(o) then Next(t, o) else Next(t, p)
  {
    var t', h := Rele(t, o), Bucket(t.objs[p].id);
    var l := t.buckets[h];
    assert BucketOk(t, h) && BucketOk(t', h);
    if h == Bucket(t.objs[o].id) {
      WithoutNext(l, o, p);
    } else {
      assert forall j :: 0 <= j < |l| ==> l[j] != o;
    }
  }

  lemma WithoutNext<O>(l: seq<O>, o: O, p: O)
    requires Distinct(l) && o in l && p in l && p != o && Distinct(Without(l, o))
    ensures p in Without(l, o)
    ensures Following(Without(l, o), IndexOf(Without(l, o), p)) ==
      if Following(l, IndexOf(l, p)) == Some(o) then Following(l, IndexOf(l, o)) else Following(l, IndexOf(l, p))
  {
    var i, k, l' := IndexOf(l, p), IndexOf(l, o), Without(l, o);
    var i' := if i < k then i else i - 1;
    assert l' == l[..k] + l[k + 1..];
    assert l'[i'] == p;
    IndexIs(l', i');
  }

  lemma BucketsOf<O>(t: Table<O>)
    requires TableOk(t)
    ensures |t.buckets| == NHASH
    ensures forall o :: o in t.objs ==> t.objs[o].count > 0 && o in t.buckets[Bucket(t.objs[o].id)]
  {
  }

  lemma ReleDecLinks<O>(t: Table<O>, o: O)
    requires TableOk(t) && o in t.objs && t.objs[o].count > 1 && TableOk(Rele(t, o))
    ensures Rele(t, o).buckets == t.buckets && Rele(t, o).objs == t.objs[o := Obj(t.objs[o].id, t.objs[o].count - 1)]
    ensures forall p :: p in t.objs ==> Next(Rele(t, o), p) == Next(t, p)
  {
  }

  /** Only the pointer in front of an object leads to it: the head of its bucket or one member. */
  lemma OnlyPredecessor<O>(t: Table<O>, fp: O, idx: nat, k: nat)
    requires TableOk(t) && fp in t.objs && idx == Bucket(t.objs[fp].id)
    requires fp in t.buckets[idx] && k == IndexOf(t.buckets[idx], fp)
    ensures forall h :: 0 <= h < NHASH ==> (First(t.buckets[h]) == Some(fp) <==> h == idx && k == 0)
    ensures forall o :: o in t.objs ==> (Next(t, o) == Some(fp) <==> k > 0 && o == t.buckets[idx][k - 1])
  {
    forall h | 0 <= h < NHASH
      ensures First(t.buckets[h]) == Some(fp) <==> h == idx && k == 0
    {
      assert BucketOk(t, h);
    }
    assert BucketOk(t, idx);
    forall o | o in t.objs
      ensures Next(t, o) == Some(fp) <==> k > 0 && o == t.buckets[idx][k - 1]
    {
      var h := Bucket(t.objs[o].id);
      assert BucketOk(t, h);
      var i := IndexOf(t.buckets[h], o);
      if k > 0 && o == t.buckets[idx][k - 1] {
        IndexIs(t.buckets[idx], k - 1);
      }
      if Next(t, o) == Some(fp) {
        assert t.buckets[h][i + 1] == fp;
        assert h == idx;
        IndexIs(t.buckets[idx], i + 1);
      }
    }
  }
}
