/**
 threads/rwlock.c: a doubly linked queue of jobs against the sequence of its members.
 */
module JobQueue {

  class Job {
    var next: Job?
    var prev: Job?
    const id: int

    constructor (id: int)
      ensures this.id == id && next == null && prev == null
    {
      this.id := id;
      next, prev := null, null;
    }
  }

  function At(jobs: seq<Job>, i: int): (jp: Job?)
    ensures 0 <= i < |jobs| <==> jp != null
  {
    if 0 <= i < |jobs| then jobs[i] else null
  }

  ghost predicate Distinct(jobs: seq<Job>) {
    forall i, j :: 0 <= i < j < |jobs| ==> jobs[i] != jobs[j]
  }

  /** Head, tail and both kinds of links spell out the sequence. */
  ghost predicate Linked(jobs: seq<Job>, head: Job?, tail: Job?)
    reads jobs
  {
    && Distinct(jobs)
    && head == At(jobs, 0) && tail == At(jobs, |jobs| - 1)
    && (forall i {:trigger jobs[i].next} :: 0 <= i < |jobs| ==> jobs[i].next == At(jobs, i + 1))
    && (forall i {:trigger jobs[i].prev} :: 0 <= i < |jobs| ==> jobs[i].prev == At(jobs, i - 1))
  }

  ghost function IndexOf(jobs: seq<Job>, jp: Job): (k: nat)
    requires jp in jobs
    ensures k < |jobs| && jobs[k] == jp
  {
    var k :| 0 <= k < |jobs| && jobs[k] == jp;
    k
  }

  ghost function Without(jobs: seq<Job>, jp: Job): (r: seq<Job>)
    requires jp in jobs
  {
    var k := IndexOf(jobs, jp);
    jobs[..k] + jobs[k + 1..]
  }

  /** All links and ends as they were, but leading past member k. */
  ghost predicate LedPast(l: seq<Job>, k: nat, head: Job?, tail: Job?)
    requires k < |l|
    reads l
  {
    && head == (if k == 0 then At(l, 1) else At(l, 0))
    && tail == (if k == |l| - 1 then At(l, k - 1) else At(l, |l| - 1))
    && (forall i {:trigger l[i].next} :: 0 <= i < |l| && i != k ==> l[i].next == if i == k - 1 then At(l, k + 1) else At(l, i + 1))
    && (forall i {:trigger l[i].prev} :: 0 <= i < |l| && i != k ==> l[i].prev == if i == k + 1 then At(l, k - 1) else At(l, i - 1))
  }

  lemma NextTo(l: seq<Job>, k: nat, head: Job?, tail: Job?)
    requires Linked(l, head, tail) && k < |l|
    ensures l[k].next == At(l, k + 1) && l[k].prev == At(l, k - 1)
    ensures l[k] == head <==> k == 0
    ensures l[k] == tail <==> k == |l| - 1
  {
  }

  lemma CutOut(l: seq<Job>, k: nat, head: Job?, tail: Job?)
    requires Distinct(l) && k < |l| && LedPast(l, k, head, tail)
    ensures Linked(l[..k] + l[k + 1..], head, tail) && l[k] !in l[..k] + l[k + 1..]
  {
    var r := l[..k] + l[k + 1..];
    forall i | 0 <= i < |r|
      ensures r[i].next == At(r, i + 1) && r[i].prev == At(r, i - 1)
    {
      assert r[i] == l[if i < k then i else i + 1];
    }
  }

  /** All links as they were, but for a new member behind the last. */
  ghost predicate Extended(l: seq<Job>, jp: Job, head: Job?, tail: Job?)
    reads l, jp
  {
    && head == (if l == [] then jp else l[0]) && tail == jp
    && jp.next == null && jp.prev == At(l, |l| - 1)
    && (forall i {:trigger l[i].next} :: 0 <= i < |l| ==> l[i].next == if i == |l| - 1 then jp else At(l, i + 1))
    && (forall i {:trigger l[i].prev} :: 0 <= i < |l| ==> l[i].prev == At(l, i - 1))
  }

  lemma PutBehind(l: seq<Job>, jp: Job, head: Job?, tail: Job?)
    requires Distinct(l) && jp !in l && Extended(l, jp, head, tail)
    ensures Linked(l + [jp], head, tail)
  {
    var r := l + [jp];
    forall i | 0 <= i < |r|
      ensures r[i].next == At(r, i + 1) && r[i].prev == At(r, i - 1)
    {
      if i < |l| {
        assert r[i] == l[i];
      }
    }
  }

  /** All links as they were, but for a new member in front of the first. */
  ghost predicate Headed(l: seq<Job>, jp: Job, head: Job?, tail: Job?)
    reads l, jp
  {
    && head == jp && tail == (if l == [] then jp else l[|l| - 1])
    && jp.prev == null && jp.next == At(l, 0)
    && (forall i {:trigger l[i].next} :: 0 <= i < |l| ==> l[i].next == At(l, i + 1))
    && (forall i {:trigger l[i].prev} :: 0 <= i < |l| ==> l[i].prev == if i == 0 then jp else At(l, i - 1))
  }

  lemma PutInFront(l: seq<Job>, jp: Job, head: Job?, tail: Job?)
    requires Distinct(l) && jp !in l && Headed(l, jp, head, tail)
    ensures Linked([jp] + l, head, tail)
  {
    var r := [jp] + l;
    forall i | 0 <= i < |r|
      ensures r[i].next == At(r, i + 1) && r[i].prev == At(r, i - 1)
    {
      if i > 0 {
        assert r[i] == l[i - 1];
      }
    }
  }

  class Queue {
    var head: Job?
    var tail: Job?
    ghost var jobs: seq<Job>

    ghost predicate Valid()
      reads this, jobs
    {
      Linked(jobs, head, tail)
    }

    /** queue_init */
    constructor ()
      ensures Valid() && jobs == []
    {
      head, tail, jobs := null, null, [];
    }

    /** job_insert */
    method Insert(jp: Job)
      requires Valid() && jp !in jobs
      modifies this, jp, jobs
      ensures Valid() && jobs == [jp] + old(jobs)
    {
      jp.next := head;
      jp.prev := null;
      if head != null {
        head.prev := jp;
      } else {
        tail := jp;
      }
      head := jp;
      jobs := [jp] + jobs;
    }

    /** job_append */
    method Append(jp: Job)
      requires Valid() && jp !in jobs
      modifies this, jp, jobs
      ensures Valid() && jobs == old(jobs) + [jp]
    {
      jp.next := null;
      jp.prev := tail;
      if tail != null {
        tail.next := jp;
      } else {
        head := jp;
      }
      tail := jp;
      jobs := jobs + [jp];
    }

    /** job_remove */
    method Remove(jp: Job)
      requires Valid() && jp in jobs
      modifies this, jobs
      ensures Valid() && jobs == Without(old(jobs), jp) && jp !in jobs
    {
      hide IndexOf;
      ghost var l, k := jobs, IndexOf(jobs, jp);
      assert Without(l, jp) == l[..k] + l[k + 1..];
      NextTo(l, k, head, tail);
      if jp == head {
        head := jp.next;
        if tail == jp {
          tail := null;
        } else {
          jp.next.prev := jp.prev;
        }
      } else if jp == tail {
        tail := jp.prev;
        jp.prev.next := jp.next;
      } else {
        jp.prev.next := jp.next;
        jp.next.prev := jp.prev;
      }
      hide Without;
      assert LedPast(l, k, head, tail);
      hide Linked, LedPast;
      CutOut(l, k, head, tail);
      jobs := l[..k] + l[k + 1..];
    }

    /** job_find: the first job of the thread. */
    method Find(id: int) returns (jp: Job?)
      requires Valid()
      ensures jp == null <==> forall j :: 0 <= j < |jobs| ==> jobs[j].id != id
      ensures jp != null ==> jp in jobs && jp.id == id && forall j :: 0 <= j < |jobs| && jobs[j].id == id ==> IndexOf(jobs, jp) <= j
    {
      jp := head;
      ghost var k := 0;
      while jp != null
        invariant 0 <= k <= |jobs| && jp == At(jobs, k)
        invariant forall j :: 0 <= j < k ==> jobs[j].id != id
        decreases |jobs| - k
      {
        if jp.id == id {
          break;
        }
        jp := jp.next;
        k := k + 1;
      }
    }
  }
}
