/**
 printer/printd.c: the list of pending jobs, the requests that add to it and the thread that
 prints from it, against the order in which the jobs arrived.
 */
module PrintSpool {
  import opened Basics
  import opened JobQueue

  /**
   Jobs in order of arrival; those printed or cancelled, and those printed; the one the printer
   thread has; the pending ones.
   */
  datatype Spool = Spool(arrived: seq<Job>, finished: seq<Job>, printed: seq<Job>, hand: Option<Job>, queue: seq<Job>)

  /** What can happen next, each under joblock: a request, or a move of the printer thread. */
  datatype Event = Arrives(jp: Job) | Takes | Cancelled | Printed | Deferred

  ghost predicate Enabled(s: Spool, e: Event) {
    match e
    case Arrives(jp) => jp !in s.arrived
    case Takes => s.hand.None? && s.queue != []
    case Cancelled => s.hand.Some?
    case Printed => s.hand.Some?
    case Deferred => s.hand.Some?
  }

  ghost function Next(s: Spool, e: Event): Spool
    requires Enabled(s, e)
  {
    match e
    case Arrives(jp) => s.(arrived := s.arrived + [jp], queue := s.queue + [jp])
    case Takes => s.(hand := Some(s.queue[0]), queue := s.queue[1..])
    case Cancelled => s.(finished := s.finished + [s.hand.value], hand := None)
    case Printed => s.(finished := s.finished + [s.hand.value], printed := s.printed + [s.hand.value], hand := None)
    case Deferred => s.(hand := None, queue := [s.hand.value] + s.queue)
  }

  function InHand(h: Option<Job>): seq<Job> {
    match h
    case None => []
    case Some(jp) => [jp]
  }

  /** Every job that arrived is finished, in hand or pending, and they are so in the order of arrival. */
  ghost predicate InOrder(s: Spool) {
    && s.arrived == s.finished + InHand(s.hand) + s.queue && Distinct(s.arrived)
    && forall jp :: jp in s.printed ==> jp in s.finished
  }

  lemma KeepsOrder(s: Spool, e: Event)
    requires InOrder(s) && Enabled(s, e)
    ensures InOrder(Next(s, e))
  {
    var s' := Next(s, e);
    match e {
      case Arrives(jp) =>
        assert s'.arrived == s'.finished + InHand(s'.hand) + s'.queue;
      case _ =>
        assert s'.finished + InHand(s'.hand) + s'.queue == s.finished + InHand(s.hand) + s.queue;
    }
  }

  ghost predicate CanRun(s: Spool, es: seq<Event>)
    decreases |es|
  {
    es == [] || (Enabled(s, es[0]) && CanRun(Next(s, es[0]), es[1..]))
  }

  ghost function After(s: Spool, es: seq<Event>): Spool
    requires CanRun(s, es)
    decreases |es|
  {
    if es == [] then s else After(Next(s, es[0]), es[1..])
  }

  /** No job is lost, none is finished twice, and jobs are finished strictly in the order of arrival. */
  lemma {:induction false} FirstInFirstOut(s: Spool, es: seq<Event>)
    requires InOrder(s) && CanRun(s, es)
    ensures InOrder(After(s, es)) && After(s, es).finished <= After(s, es).arrived
    ensures s.finished <= After(s, es).finished
    decreases |es|
  {
    if es != [] {
      KeepsOrder(s, es[0]);
      FirstInFirstOut(Next(s, es[0]), es[1..]);
    }
  }

  ghost predicate OnlyArrivals(es: seq<Event>) {
    forall i :: 0 <= i < |es| ==> es[i].Arrives?
  }

  /** Whatever arrives while the printer cannot be reached, the deferred job is the next to be tried. */
  lemma {:induction false} DeferredIsNext(s: Spool, es: seq<Event>)
    requires InOrder(s) && s.hand.Some? && OnlyArrivals(es) && CanRun(Next(s, Deferred), es)
    ensures var s' := After(Next(s, Deferred), es); Enabled(s', Takes) && Next(s', Takes).hand == s.hand
  {
    HeadStays(Next(s, Deferred), es);
  }

  lemma {:induction false} HeadStays(s: Spool, es: seq<Event>)
    requires s.queue != [] && OnlyArrivals(es) && CanRun(s, es)
    ensures var s' := After(s, es); s'.queue != [] && s'.queue[0] == s.queue[0] && s'.hand == s.hand
    decreases |es|
  {
    if es != [] {
      HeadStays(Next(s, es[0]), es[1..]);
    }
  }

  /** The job in hand is not pending, and no job is pending twice. */
  lemma PartsApart(s: Spool)
    requires InOrder(s)
    ensures Distinct(s.queue) && (s.hand.Some? ==> s.hand.value !in s.queue)
    ensures forall jp :: jp in s.queue || s.hand == Some(jp) ==> jp in s.arrived
  {
    var f, h := |s.finished|, |InHand(s.hand)|;
    assert forall i :: 0 <= i < |s.queue| ==> s.queue[i] == s.arrived[f + h + i];
    if s.hand.Some? {
      assert s.arrived[f] == s.hand.value;
    }
  }

  /** A job that no record of the spool knows can arrive. */
  lemma Arrival(s: Spool, jp: Job)
    requires InOrder(s) && jp !in s.queue && s.hand != Some(jp) && jp !in s.finished
    ensures Enabled(s, Arrives(jp))
  {
    hide Distinct;
  }

  // ---------- The daemon ----------

  class Daemon {
    var jobhead: Job?
    var jobtail: Job?
    var hand: Job?                          // jp of the printer thread
    ghost var spool: Spool

    ghost predicate Valid()
      reads this, spool.queue
    {
      && InOrder(spool)
      && (hand == match spool.hand case None => null case Some(jp) => jp)
      && Linked(spool.queue, jobhead, jobtail)
    }

    constructor ()
      ensures Valid() && spool == Spool([], [], [], None, [])
    {
      jobhead, jobtail, hand, spool := null, null, null, Spool([], [], [], None, []);
    }

    method AddJob(jobid: int) returns (jp: Job)
      requires Valid()
      modifies this, spool.queue
      ensures Valid() && fresh(jp) && jp.id == jobid
      ensures Enabled(old(spool), Arrives(jp)) && spool == Next(old(spool), Arrives(jp))
    {
      hide InOrder, Distinct;
      ghost var q := spool.queue;
      jp := new Job(jobid);
      PartsApart(spool);
      Arrival(spool, jp);
      KeepsOrder(spool, Arrives(jp));
      jp.prev := jobtail;
      if jobtail == null {
        jobhead := jp;
      } else {
        jobtail.next := jp;
      }
      jobtail := jp;
      assert Extended(q, jp, jobhead, jobtail);
      PutBehind(q, jp, jobhead, jobtail);
      hide Linked;
      spool := Next(spool, Arrives(jp));
    }

    /** replace_job, at the label defer. */
    method Defer()
      requires Valid() && hand != null
      modifies this, hand, spool.queue
      ensures Valid() && Enabled(old(spool), Deferred) && spool == Next(old(spool), Deferred)
    {
      hide Distinct, InOrder;
      ghost var q := spool.queue;
      var jp := hand;
      KeepsOrder(spool, Deferred);
      PartsApart(spool);
      jp.prev := null;
      jp.next := jobhead;
      if jobhead == null {
        jobtail := jp;
      } else {
        jobhead.prev := jp;
      }
      jobhead := jp;
      hand := null;
      assert Headed(q, jp, jobhead, jobtail);
      PutInFront(q, jp, jobhead, jobtail);
      hide Linked;
      spool := Next(spool, Deferred);
    }

    /** Any pending job can be taken out; the printer thread takes the first. */
    method RemoveJob(target: Job, ghost queue: seq<Job>)
      requires Linked(queue, jobhead, jobtail) && target in queue
      modifies this`jobhead, this`jobtail, queue
      ensures Linked(Without(queue, target), jobhead, jobtail)
    {
      ghost var k := IndexOf(queue, target);
      NextTo(queue, k, jobhead, jobtail);
      if target.next != null {
        target.next.prev := target.prev;
      } else {
        jobtail := target.prev;
      }
      if target.prev != null {
        target.prev.next := target.next;
      } else {
        jobhead := target.next;
      }
      assert LedPast(queue, k, jobhead, jobtail);
      CutOut(queue, k, jobhead, jobtail);
    }

    method Take()
      requires Valid() && hand == null && jobhead != null
      modifies this, spool.queue
      ensures Valid() && Enabled(old(spool), Takes) && spool == Next(old(spool), Takes)
    {
      hide Distinct, InOrder, IndexOf, Without;
      ghost var q := spool.queue;
      PartsApart(spool);
      KeepsOrder(spool, Takes);
      FirstOut(q);
      hand := jobhead;
      RemoveJob(hand, q);
      spool := Next(spool, Takes);
    }

    /** The job is printed, or cannot be opened: either way it is freed. */
    method Finish(cancelled: bool)
      requires Valid() && hand != null
      modifies this
      ensures Valid()
      ensures Enabled(old(spool), if cancelled then Cancelled else Printed)
      ensures spool == Next(old(spool), if cancelled then Cancelled else Printed)
    {
      ghost var e := if cancelled then Cancelled else Printed;
      KeepsOrder(spool, e);
      hand := null;
      spool := Next(spool, e);
    }
  }

  /** A request comes in, or the printer thread gets on: with the job it has, or with the next one. */
  datatype Turn = Request(jobid: int) | CannotOpen | CannotPrint | Accepted

  /** The jobs not yet finished. */
  ghost function Open(s: Spool): set<Job> {
    (set jp | jp in s.queue) + (set jp | jp in InHand(s.hand))
  }

  /** What a turn is worth: jp is the job of a request. */
  ghost function EventOf(s: Spool, turn: Turn, jp: Option<Job>): seq<Event> {
    match turn
    case Request(_) => if jp.Some? then [Arrives(jp.value)] else []
    case CannotOpen => if s.hand.Some? then [Cancelled] else if s.queue != [] then [Takes] else []
    case CannotPrint => if s.hand.Some? then [Deferred] else if s.queue != [] then [Takes] else []
    case Accepted => if s.hand.Some? then [Printed] else if s.queue != [] then [Takes] else []
  }

  /**
   One turn of the daemon. A request goes to the end of the list. A thread without a job takes
   the first one, and waits only while there is none; with a job it finishes it, printed or
   not, or puts it in front.
   */
  ghost predicate Turned(s: Spool, turn: Turn, jp: Option<Job>, s': Spool) {
    if turn.Request? then
      jp.Some? && s' == s.(arrived := s.arrived + [jp.value], queue := s.queue + [jp.value])
    else
      && s'.arrived == s.arrived
      && match s.hand
         case None =>
           && s'.finished == s.finished && s'.printed == s.printed
           && (s.queue == [] ==> s'.hand == None && s'.queue == [])
           && (s.queue != [] ==> s'.hand == Some(s.queue[0]) && [s.queue[0]] + s'.queue == s.queue)
         case Some(jp) =>
           && s'.hand == None
           && s'.queue == (if turn.CannotPrint? then [jp] + s.queue else s.queue)
           && s'.finished == (if turn.CannotPrint? then s.finished else s.finished + [jp])
           && s'.printed == (if turn.Accepted? then s.printed + [jp] else s.printed)
  }

  /** Requests, and a printer that takes every job. */
  predicate AllGoesWell(turns: seq<Turn>) {
    forall i :: 0 <= i < |turns| ==> turns[i].Request? || turns[i].Accepted?
  }

  /** After n moves of a thread that had no job: every second one has printed the next of the jobs that were pending. */
  ghost predicate Progress(was: Spool, s: Spool, n: nat) {
    if n <= 2 * |was.queue| then
      && s.printed == was.printed + was.queue[..n / 2] && s.finished == was.finished + was.queue[..n / 2]
      && s.hand == (if n % 2 == 1 then Some(was.queue[n / 2]) else None)
      && was.queue[(n + 1) / 2..] <= s.queue
    else
      was.printed + was.queue <= s.printed && was.finished + was.queue <= s.finished
  }

  lemma ProgressStarts(s: Spool)
    requires s.hand.None?
    ensures Progress(s, s, 0)
  {
    assert s.printed + s.queue[..0] == s.printed && s.finished + s.queue[..0] == s.finished && s.queue[0..] == s.queue;
  }

  lemma ProgressTurn(was: Spool, s: Spool, n: nat, turn: Turn, jp: Option<Job>, s': Spool)
    requires Progress(was, s, n) && Turned(s, turn, jp, s') && (turn.Request? || turn.Accepted?)
    ensures Progress(was, s', n + if turn.Request? then 0 else 1)
  {
    hide Turned;
    if turn.Request? {
      RequestIs(s, turn, jp, s');
    } else if n < 2 * |was.queue| && n % 2 == 1 {
      PrintsNext(was, s, n, jp, s');
    } else if n < 2 * |was.queue| {
      TakesNext(was, s, n, jp, s');
    } else {
      assert was.queue[..|was.queue|] == was.queue;
      OnlyMore(s, jp, s');
    }
  }

  lemma RequestIs(s: Spool, turn: Turn, jp: Option<Job>, s': Spool)
    requires Turned(s, turn, jp, s') && turn.Request?
    ensures s'.printed == s.printed && s'.finished == s.finished && s'.hand == s.hand && s.queue <= s'.queue
  {
  }

  lemma PrintsNext(was: Spool, s: Spool, n: nat, jp: Option<Job>, s': Spool)
    requires Progress(was, s, n) && Turned(s, Accepted, jp, s') && n < 2 * |was.queue| && n % 2 == 1
    ensures Progress(was, s', n + 1)
  {
    var q := was.queue;
    assert q[..n / 2 + 1] == q[..n / 2] + [q[n / 2]];
    assert (was.printed + q[..n / 2]) + [q[n / 2]] == was.printed + q[..n / 2 + 1];
    assert (was.finished + q[..n / 2]) + [q[n / 2]] == was.finished + q[..n / 2 + 1];
  }

  lemma TakesNext(was: Spool, s: Spool, n: nat, jp: Option<Job>, s': Spool)
    requires Progress(was, s, n) && Turned(s, Accepted, jp, s') && n < 2 * |was.queue| && n % 2 == 0
    ensures Progress(was, s', n + 1)
  {
    var q := was.queue;
    assert q[n / 2..][0] == q[n / 2] == s.queue[0] && q[n / 2..][1..] == q[n / 2 + 1..];
    assert s'.queue == s.queue[1..] && q[n / 2 + 1..] <= s.queue[1..];
  }

  lemma OnlyMore(s: Spool, jp: Option<Job>, s': Spool)
    requires Turned(s, Accepted, jp, s')
    ensures s.printed <= s'.printed && s.finished <= s'.finished
  {
  }

  method OneTurn(d: Daemon, turn: Turn) returns (ghost jp: Option<Job>)
    requires d.Valid()
    modifies d, Open(d.spool)
    ensures d.Valid() && fresh(Open(d.spool) - Open(old(d.spool)))
    ensures turn.Request? ==> jp.Some? && fresh(jp.value) && jp.value.id == turn.jobid
    ensures var es := EventOf(old(d.spool), turn, jp); CanRun(old(d.spool), es) && d.spool == After(old(d.spool), es)
    ensures old(d.spool).finished <= d.spool.finished && old(d.spool).arrived <= d.spool.arrived
    ensures |d.spool.arrived| == |old(d.spool).arrived| + Requests([turn])
    ensures Turned(old(d.spool), turn, jp, d.spool)
  {
    hide InOrder, Linked;
    assert [turn][..0] == [];
    jp := None;
    if turn.Request? {
      var job := d.AddJob(turn.jobid);
      jp := Some(job);
    } else if d.hand == null {
      if d.jobhead != null {
        d.Take();
      } else {
        assert d.spool.queue == [] by { NothingPending(d); }
      }
    } else if turn.CannotOpen? {
      d.Finish(true);
    } else if turn.Accepted? {
      d.Finish(false);
    } else {
      d.Defer();
    }
  }

  lemma NothingPending(d: Daemon)
    requires d.Valid() && d.jobhead == null
    ensures d.spool.queue == []
  {
  }

  /** One event more at the end of a run. */
  lemma {:induction false} AfterMore(s: Spool, es: seq<Event>, more: seq<Event>)
    requires CanRun(s, es) && CanRun(After(s, es), more)
    ensures CanRun(s, es + more) && After(s, es + more) == After(After(s, es), more)
    decreases |es|
  {
    if es == [] {
      assert es + more == more;
    } else {
      assert (es + more)[1..] == es[1..] + more;
      AfterMore(Next(s, es[0]), es[1..], more);
    }
  }

  /** The events of a run that arrive are those of its requests, in their order. */
  ghost predicate FromTurns(es: seq<Event>, turns: seq<Turn>)
    decreases |turns|
  {
    if turns == [] then es == []
    else
      var n, t := |turns| - 1, turns[|turns| - 1];
      if t.Request? then
        es != [] && es[|es| - 1].Arrives? && es[|es| - 1].jp.id == t.jobid && FromTurns(es[..|es| - 1], turns[..n])
      else
        || FromTurns(es, turns[..n])
        || (es != [] && FromTurns(es[..|es| - 1], turns[..n])
            && (es[|es| - 1].Takes? || es[|es| - 1] == if t.CannotOpen? then Cancelled else if t.Accepted? then Printed else Deferred))
  }

  /** Any interleaving of requests with the loop of printer_thread is a run of the spool. */
  method PrinterThread(d: Daemon, turns: seq<Turn>) returns (ghost es: seq<Event>)
    requires d.Valid()
    modifies d, Open(d.spool)
    ensures d.Valid() && CanRun(old(d.spool), es) && d.spool == After(old(d.spool), es) && FromTurns(es, turns)
    ensures old(d.spool).finished <= d.spool.finished <= d.spool.arrived && old(d.spool).arrived <= d.spool.arrived
    ensures |d.spool.arrived| == |old(d.spool).arrived| + Requests(turns)
    ensures old(d.hand) == null && AllGoesWell(turns) ==> Progress(old(d.spool), d.spool, |turns| - Requests(turns))
    ensures old(d.hand) == null && AllGoesWell(turns) && Requests(turns) == 0 && |turns| == 2 * |old(d.spool).queue| ==>
      d.spool.printed == old(d.spool).printed + old(d.spool.queue) && d.hand == null && d.jobhead == null
  {
    hide Linked, Distinct, InOrder, CanRun, After, Requests, FromTurns, Progress, Ran, AllGoesWell, EventOf, Turned;
    ghost var s := d.spool;
    es := [];
    Nothing(s);
    var i := 0;
    while i < |turns|
      modifies d, Open(s)
      invariant 0 <= i <= |turns| && d.Valid() && fresh(Open(d.spool) - Open(s))
      invariant Ran(s, d.spool, es, turns[..i])
    {
      ghost var before, was := Open(d.spool), d.spool;
      ghost var jp := OneTurn(d, turns[i]);
      RanMore(s, was, es, turns[..i], turns[i], jp, d.spool);
      assert turns[..i + 1] == turns[..i] + [turns[i]];
      forall jp | jp in Open(d.spool) - Open(s)
        ensures fresh(jp)
      {
        assert jp in Open(d.spool) - before || jp in before - Open(s);
      }
      es := es + EventOf(was, turns[i], jp);
      i := i + 1;
    }
    assert turns[..i] == turns;
    RanAll(s, d, es, turns);
  }

  /** What is true after these turns. */
  ghost predicate Ran(s: Spool, now: Spool, es: seq<Event>, turns: seq<Turn>) {
    && CanRun(s, es) && now == After(s, es) && FromTurns(es, turns)
    && s.finished <= now.finished && s.arrived <= now.arrived
    && |now.arrived| == |s.arrived| + Requests(turns)
    && (s.hand.None? && AllGoesWell(turns) ==> Progress(s, now, |turns| - Requests(turns)))
  }

  lemma RanMore(s: Spool, was: Spool, es: seq<Event>, turns: seq<Turn>, turn: Turn, jp: Option<Job>, now: Spool)
    requires Ran(s, was, es, turns) && Turned(was, turn, jp, now)
    requires turn.Request? ==> jp.Some? && jp.value.id == turn.jobid
    requires var more := EventOf(was, turn, jp); CanRun(was, more) && now == After(was, more)
    requires was.finished <= now.finished && was.arrived <= now.arrived && |now.arrived| == |was.arrived| + Requests([turn])
    ensures Ran(s, now, es + EventOf(was, turn, jp), turns + [turn])
  {
    hide CanRun, After, Requests, FromTurns, Progress, Turned, AllGoesWell;
    var more := EventOf(was, turn, jp);
    AfterMore(s, es, more);
    TurnMore(es, turns, more, turn);
    RequestsMore(turns, turn);
    OneRequest(turn);
    if s.hand.None? && AllGoesWell(turns + [turn]) {
      WellBefore(turns, turn);
      ProgressTurn(s, was, |turns| - Requests(turns), turn, jp, now);
    }
  }

  lemma WellBefore(turns: seq<Turn>, turn: Turn)
    requires AllGoesWell(turns + [turn])
    ensures AllGoesWell(turns) && (turn.Request? || turn.Accepted?)
  {
    assert (turns + [turn])[|turns|] == turn;
    assert forall i :: 0 <= i < |turns| ==> (turns + [turn])[i] == turns[i];
  }

  lemma RanAll(s: Spool, d: Daemon, es: seq<Event>, turns: seq<Turn>)
    requires InOrder(s) && d.Valid() && Ran(s, d.spool, es, turns)
    ensures CanRun(s, es) && d.spool == After(s, es) && FromTurns(es, turns)
    ensures s.finished <= d.spool.finished && s.arrived <= d.spool.arrived
    ensures |d.spool.arrived| == |s.arrived| + Requests(turns)
    ensures s.hand.None? && AllGoesWell(turns) ==> Progress(s, d.spool, |turns| - Requests(turns))
    ensures d.spool.finished <= d.spool.arrived
    ensures s.hand.None? && AllGoesWell(turns) && Requests(turns) == 0 && |turns| == 2 * |s.queue| ==>
      d.spool.printed == s.printed + s.queue && d.hand == null && d.jobhead == null
  {
    hide CanRun, After, Requests, FromTurns, Progress, AllGoesWell, InOrder, Linked;
    FinishedArrived(d.spool);
    if s.hand.None? && AllGoesWell(turns) && Requests(turns) == 0 && |turns| == 2 * |s.queue| {
      AllPrinted(s, d.spool);
      NobodyLinked(d);
    }
  }

  /** Two moves for each job that was pending, and no request in between. */
  lemma AllPrinted(was: Spool, s: Spool)
    requires InOrder(was) && InOrder(s) && was.hand.None? && |s.arrived| == |was.arrived|
    requires Progress(was, s, 2 * |was.queue|)
    ensures s.printed == was.printed + was.queue && s.hand.None? && s.queue == []
  {
    hide Distinct;
    assert was.queue[..|was.queue|] == was.queue;
    assert |was.arrived| == |was.finished| + |was.queue| && |s.arrived| == |s.finished| + |s.queue|;
  }

  lemma NobodyLinked(d: Daemon)
    requires d.Valid() && d.spool.queue == []
    ensures d.jobhead == null
  {
  }

  lemma FinishedArrived(s: Spool)
    requires InOrder(s)
    ensures s.finished <= s.arrived
  {
  }

  lemma Nothing(s: Spool)
    ensures Ran(s, s, [], [])
  {
    hide Progress;
    if s.hand.None? {
      ProgressStarts(s);
    }
  }

  lemma TurnMore(es: seq<Event>, turns: seq<Turn>, more: seq<Event>, t: Turn)
    requires FromTurns(es, turns) && |more| <= 1
    requires t.Request? ==> |more| == 1 && more[0].Arrives? && more[0].jp.id == t.jobid
    requires !t.Request? && more != [] ==>
      more[0].Takes? || more[0] == if t.CannotOpen? then Cancelled else if t.Accepted? then Printed else Deferred
    ensures FromTurns(es + more, turns + [t])
  {
    assert (turns + [t])[..|turns|] == turns;
    if more == [] {
      assert es + more == es;
    } else {
      assert (es + more)[..|es|] == es;
    }
  }

  function Requests(turns: seq<Turn>): (n: nat)
    ensures n <= |turns|
  {
    if turns == [] then 0 else Requests(turns[..|turns| - 1]) + if turns[|turns| - 1].Request? then 1 else 0
  }

  lemma RequestsMore(turns: seq<Turn>, t: Turn)
    ensures Requests(turns + [t]) == Requests(turns) + Requests([t])
  {
    assert (turns + [t])[..|turns|] == turns;
    assert [t][..0] == [];
  }

  lemma OneRequest(t: Turn)
    ensures Requests([t]) == if t.Request? then 1 else 0
  {
    assert [t][..0] == [];
  }

  lemma FirstOut(q: seq<Job>)
    requires q != [] && Distinct(q)
    ensures IndexOf(q, q[0]) == 0 && Without(q, q[0]) == q[1..]
  {
  }
}
