/**
 threads/mutex3.c: the table of objects under one lock. Since every operation runs with the
 lock held from beginning to end, each method is one of the operations of FooTable.
 */
module FooMutex3 {
  import opened Basics
  import opened FooTable

  class Foo {
    var f_count: int
    const f_id: int
    var f_next: Foo?

    constructor (id: int)
      ensures f_count == 1 && f_id == id && f_next == null
    {
      f_count := 1;
      f_id := id;
      f_next := null;
    }
  }

  function Ref(o: Option<Foo>): Foo? {
    match o
    case None => null
    case Some(fp) => fp
  }

  class FooHash {
    const fh: array<Foo?>
    ghost var table: Table<Foo>

    /** Counts and links of the objects are those of the table. */
    ghost predicate Shows(o: Foo)
      requires TableOk(table) && o in table.objs
      reads this, o
    {
      o.f_count == table.objs[o].count && o.f_id == table.objs[o].id && o.f_next == Ref(Next(table, o))
    }

    ghost predicate Valid()
      reads this, fh, table.objs.Keys
    {
      && fh.Length == NHASH
      && TableOk(table)
      && (forall o :: o in table.objs ==> Shows(o))
      && (forall h :: 0 <= h < NHASH ==> fh[h] == Ref(First(table.buckets[h])))
    }

    constructor ()
      ensures Valid() && table == Table(map[], seq(NHASH, i => []))
      ensures fresh(fh)
    {
      fh := new Foo?[NHASH](i => null);
      table := Table(map[], seq(NHASH, i => []));
    }

    method Alloc(id: int) returns (fp: Foo)
      requires Valid()
      modifies this, fh
      ensures Valid() && fresh(fp)
      ensures table == FooTable.Alloc(old(table), fp, id)
    {
      hide TableOk, Bucket, Next, First, FooTable.Alloc;
      fp := new Foo(id);
      var idx := Bucket(id);
      AllocKeeps(table, fp, id);
      AllocLinks(table, fp, id);
      BucketsOf(table);
      ghost var t := table;
      fp.f_next := fh[idx];
      fh[idx] := fp;
      table := FooTable.Alloc(t, fp, id);
      forall o | o in table.objs
        ensures Shows(o)
      {
        if o != fp {
          assert old(Shows(o));
        }
      }
    }

    method Hold(fp: Foo)
      requires Valid() && fp in table.objs
      modifies this, fp
      ensures Valid() && table == FooTable.Hold(old(table), fp)
    {
      hide TableOk;
      HoldKeeps(table, fp);
      HoldLinks(table, fp);
      fp.f_count := fp.f_count + 1;
      table := FooTable.Hold(table, fp);
      hide Next;
    }

    /** The loop of foo_find: the first member of the bucket with the identifier. */
    method Look(id: int) returns (fp: Foo?)
      requires Valid()
      ensures fp == Ref(Found(table, id))
      ensures fp != null ==> fp in table.objs
    {
      hide TableOk, FirstWith;
      BucketsOf(table);
      var h := Bucket(id);
      ghost var l, j := table.buckets[h], 0;
      fp := fh[h];
      while fp != null
        invariant 0 <= j <= |l| && fp == if j < |l| then l[j] else null
        invariant forall i :: 0 <= i < j ==> l[i] in table.objs && table.objs[l[i]].id != id
        decreases |l| - j
      {
        NextInBucket(table, h, j);
        assert Shows(l[j]);
        if fp.f_id == id {
          break;
        }
        fp := fp.f_next;
        j := j + 1;
      }
      FirstWithIs(table, l, id, j);
    }

    method Find(id: int) returns (fp: Foo?)
      requires Valid()
      modifies this, table.objs.Keys
      ensures Valid() && table == FooTable.Find(old(table), id)
      ensures fp == Ref(Found(old(table), id))
    {
      hide TableOk, Found;
      fp := Look(id);
      if fp != null {
        Hold(fp);
      }
    }

    method Rele(fp: Foo)
      requires Valid() && fp in table.objs
      modifies this, fh, table.objs.Keys
      ensures Valid() && table == FooTable.Rele(old(table), fp)
    {
      hide TableOk, Bucket, Next, First, FooTable.Rele;
      ghost var t := table;
      ReleKeeps(t, fp);
      assert Shows(fp);
      BucketsOf(t);
      fp.f_count := fp.f_count - 1;
      if fp.f_count == 0 {
        ReleLinks(t, fp);
        var idx := Bucket(fp.f_id);
        Unlink(fp, idx);
        table := FooTable.Rele(t, fp);
        forall o | o in table.objs
          ensures Shows(o)
        {
          assert old(Shows(o));
        }
      } else {
        ReleDecLinks(t, fp);
        table := FooTable.Rele(t, fp);
      }
    }

    /** The pointer writes that leave the object out of its bucket. */
    method Unlink(fp: Foo, idx: nat)
      requires fh.Length == NHASH && TableOk(table) && fp in table.objs && idx == Bucket(table.objs[fp].id)
      requires forall o :: o in table.objs ==> o.f_next == Ref(Next(table, o))
      requires forall h :: 0 <= h < NHASH ==> fh[h] == Ref(First(table.buckets[h]))
      modifies fh, table.objs.Keys
      ensures forall h :: 0 <= h < NHASH ==>
        fh[h] == Ref(if First(table.buckets[h]) == Some(fp) then Next(table, fp) else First(table.buckets[h]))
      ensures forall o :: o in table.objs ==> o.f_count == old(o.f_count)
      ensures forall o :: o in table.objs && o != fp ==>
        o.f_next == Ref(if Next(table, o) == Some(fp) then Next(table, fp) else Next(table, o))
    {
      hide TableOk, Bucket, IndexOf;
      BucketsOf(table);
      ghost var l := table.buckets[idx];
      ghost var k := IndexOf(l, fp);
      OnlyPredecessor(table, fp, idx, k);
      NextInBucket(table, idx, k);
      var tfp := fh[idx];
      if tfp == fp {
        hide Next;
        fh[idx] := fp.f_next;
      } else {
        ghost var j := 0;
        NextInBucket(table, idx, 0);
        while tfp.f_next != fp
          modifies {}
          invariant 0 <= j < k && tfp == l[j] && tfp in table.objs
          decreases k - j
        {
          NextInBucket(table, idx, j);
          j := j + 1;
          tfp := tfp.f_next;
          NextInBucket(table, idx, j);
        }
        hide Next, First;
        tfp.f_next := fp.f_next;
      }
    }
  }
}
