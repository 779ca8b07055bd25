/** numRequests: jobs queued, jobs running and callbacks in flight, at every step. */
module ProxyCount {
  import opened ProxyProtocol
  import opened ProxyInvariant

  /** Jobs that a thread has cancelled and not yet subtracted. */
  function PcOwes(pc: Pc): nat {
    match pc
    case Sub(_, n) => n
    case StopSub(n) => n
    case _ => 0
  }

  function ThreadOwes(s: State, t: nat): nat {
    if t in s.threads then PcOwes(s.threads[t].pc) else 0
  }

  function HolderOwes(s: State): nat {
    if s.holder.Is? then ThreadOwes(s, s.holder.t) else 0
  }

  /** The helper's world owes something although it does not hold the lock. */
  function StopperOwes(s: State): nat {
    if s.holder == Is(0) then 0 else ThreadOwes(s, 0)
  }

  function DownOwes(d: Down): nat {
    match d
    case HandlersCancelled(n) => n
    case TimerCancelled(_, n) => n
    case _ => 0
  }

  /** Jobs that the event world has queued and not yet counted. */
  function Uncounted(e: Entry): nat {
    if e.TimerQueued? || e.HandlerQueued? then 1 else 0
  }

  predicate Count(s: State) {
    s.numRequests + Uncounted(s.entry)
    == |s.queue| + |s.threads| + HolderOwes(s) + StopperOwes(s) + DownOwes(s.down)
  }

  /** A move changes the number exactly as it changes what is queued and what the thread owes. */
  predicate Balanced(s: State, t: nat, m: Move) {
    && t in s.threads
    && m.rest.numRequests - |m.rest.queue| - PcOwes(m.pc) == s.numRequests - |s.queue| - ThreadOwes(s, t)
  }

  lemma LockBalanced(s: State, t: nat, a: LockStep)
    requires LockEnabled(s, t, a)
    ensures Balanced(s, t, LockMove(s, t, a))
  {
  }

  lemma ActBalanced(s: State, t: nat, a: ActStep)
    requires ActEnabled(s, t, a)
    ensures Balanced(s, t, ActMove(s, t, a))
  {
  }

  lemma AnswerBalanced(s: State, t: nat, a: AnswerStep)
    requires AnswerEnabled(s, t, a)
    ensures Balanced(s, t, AnswerMove(s, t, a))
  {
  }

  lemma StopBalanced(s: State, t: nat, a: StopStep)
    requires StopEnabled(s, t, a)
    ensures Balanced(s, t, StopMove(s, t, a))
  {
  }

  lemma MoveKeepsCount(s: State, t: nat, m: Move)
    requires Shape(s) && Lock(s) && Count(s) && Moves(s, t, m) && Balanced(s, t, m)
    ensures Count(Land(m, t, s.threads[t].work))
  {
  }

  lemma ExitKeepsCount(s: State, t: nat)
    requires Lock(s) && Count(s) && ExitEnabled(s, t)
    ensures Count(ExitNext(s, t))
  {
  }

  /** The part of the count that does not depend on threads. */
  function Tally(s: State): int {
    s.numRequests + Uncounted(s.entry) - |s.queue| - DownOwes(s.down)
  }

  lemma SameTally(s: State, s': State)
    requires Count(s) && s'.threads == s.threads && s'.holder == s.holder && Tally(s') == Tally(s)
    ensures Count(s')
  {
  }

  lemma SizeOfMore<T>(a: set<T>, x: T)
    requires x !in a
    ensures |a + {x}| == |a| + 1
  {
  }

  /** The event world never queues a job that is queued already. */
  predicate FreshJobs(s: State) {
    && (forall j :: j in s.queue ==> 0 < j.tag < s.nextTag)
    && (s.entry.Tagged? ==> 0 < s.entry.tag < s.nextTag && (forall j :: j in s.queue ==> j.tag != s.entry.tag))
    && (s.entry.TimerQueued? || s.entry.TimerCounted? || s.entry.HandlerQueued? ==> 0 < s.entry.tag < s.nextTag)
    && (s.entry.TimerQueued? || s.entry.TimerCounted? ==>
          forall j :: j in s.queue && j.tag == s.entry.tag ==> j.Timeout?)
    && 0 < s.nextTag
  }

  lemma NotQueuedYet(s: State)
    requires FreshJobs(s)
    ensures s.entry.Tagged? ==> Timeout(s.entry.i, s.entry.tag) !in s.queue
    ensures s.entry.TimerCounted? ==> Handle(s.entry.i, s.entry.tag) !in s.queue
  {
  }

  lemma EntryTally(s: State, e: EntryStep)
    requires EntryEnabled(s, e) && FreshJobs(s)
    ensures Tally(EntryNext(s, e)) == Tally(s)
  {
    hide DownOwes, FreshJobs;
    NotQueuedYet(s);
    match e
    case QueueTimer => SizeOfMore(s.queue, Timeout(s.entry.i, s.entry.tag));
    case QueueHandler => SizeOfMore(s.queue, Handle(s.entry.i, s.entry.tag));
    case _ =>
  }

  lemma EntryKeepsCount(s: State, e: EntryStep)
    requires Count(s) && EntryEnabled(s, e) && FreshJobs(s)
    ensures Count(EntryNext(s, e))
  {
    hide Count, FreshJobs, Tally;
    EntryTally(s, e);
    SameTally(s, EntryNext(s, e));
  }

  lemma ArrivalKeepsCount(s: State, v: Arrival)
    requires Lock(s) && Count(s) && ArrivalEnabled(s, v)
    ensures Count(ArrivalNext(s, v))
  {
  }

  lemma TeardownTally(s: State, d: DownStep)
    requires DownEnabled(s, d)
    ensures Tally(DownNext(s, d)) == Tally(s)
  {
  }

  lemma TeardownKeepsCount(s: State, d: DownStep)
    requires Count(s) && DownEnabled(s, d)
    ensures Count(DownNext(s, d))
  {
    hide Count, Tally;
    TeardownTally(s, d);
    SameTally(s, DownNext(s, d));
  }

  lemma FreshByMove(s: State, t: nat, m: Move)
    requires FreshJobs(s) && Moves(s, t, m)
    ensures FreshJobs(Land(m, t, s.threads[t].work))
  {
  }

  lemma FreshByEntry(s: State, e: EntryStep)
    requires FreshJobs(s) && EntryEnabled(s, e)
    ensures FreshJobs(EntryNext(s, e))
  {
  }

  lemma FreshByExit(s: State, t: nat)
    requires FreshJobs(s) && ExitEnabled(s, t)
    ensures FreshJobs(ExitNext(s, t))
  {
  }

  lemma FreshByArrival(s: State, v: Arrival)
    requires FreshJobs(s) && ArrivalEnabled(s, v)
    ensures FreshJobs(ArrivalNext(s, v))
  {
  }

  lemma FreshByTeardown(s: State, d: DownStep)
    requires FreshJobs(s) && DownEnabled(s, d)
    ensures FreshJobs(DownNext(s, d))
  {
  }

  lemma MoveCounts(s: State, t: nat, m: Move)
    requires Shape(s) && Lock(s) && FreshJobs(s) && Count(s) && Moves(s, t, m) && Balanced(s, t, m)
    ensures FreshJobs(Land(m, t, s.threads[t].work)) && Count(Land(m, t, s.threads[t].work))
  {
    hide Shape, Lock, Count, FreshJobs, Moves, Balanced;
    FreshByMove(s, t, m);
    MoveKeepsCount(s, t, m);
  }

  /** Every step keeps the count. */
  lemma StepKeepsCount(s: State, step: Step)
    requires Shape(s) && Lock(s) && FreshJobs(s) && Count(s) && Enabled(s, step)
    ensures FreshJobs(Next(s, step)) && Count(Next(s, step))
  {
    hide Shape, Lock, Count, FreshJobs, Moves, Balanced;
    match step
    case ByEntry(e) => FreshByEntry(s, e); EntryKeepsCount(s, e);
    case ByLock(t, l) =>
      ThreadsOk(s, t); LockMoves(s, t, l); LockBalanced(s, t, l); MoveCounts(s, t, LockMove(s, t, l));
    case ByAct(t, a) =>
      ThreadsOk(s, t); ActMoves(s, t, a); ActBalanced(s, t, a); MoveCounts(s, t, ActMove(s, t, a));
    case ByAnswer(t, r) =>
      ThreadsOk(s, t); AnswerMoves(s, t, r); AnswerBalanced(s, t, r); MoveCounts(s, t, AnswerMove(s, t, r));
    case ByStop(t, p) =>
      ThreadsOk(s, t); StopMoves(s, t, p); StopBalanced(s, t, p); MoveCounts(s, t, StopMove(s, t, p));
    case Exit(t) => FreshByExit(s, t); ExitKeepsCount(s, t);
    case Arrive(v) => FreshByArrival(s, v); ArrivalKeepsCount(s, v);
    case TearDown(d) => FreshByTeardown(s, d); TeardownKeepsCount(s, d);
  }
}
