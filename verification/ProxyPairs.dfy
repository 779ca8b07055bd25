/** Until STOPPING is set, every event has its timeout and every request that waits for its handler has one. */
module ProxyPairs {
  import opened ProxyProtocol
  import opened ProxyInvariant
  import opened ProxyCount
  import opened ProxyRequests
  import opened ProxyTimeouts
  import opened ProxyTeardown
  import opened ProxySafety

  /** The job that the helper has dequeued and that has not begun. */
  function Starting(s: State): set<Work> {
    if 0 in s.threads && (s.threads[0].pc.Poll? || s.threads[0].pc.Start?) then {s.threads[0].work} else {}
  }

  /** The timeout for event `ev` of index `i` is to be queued, queued, starting, or just claimed or cancelled. */
  predicate TimerAlive(i: nat, ev: nat, queue: set<Job>, starting: set<Work>, pc: Pc, e: Entry) {
    || e == Tagged(i, ev) || Timeout(i, ev) in queue || Timer(i, ev) in starting
    || (pc.Sub? && pc.i == i) || pc == FreeEv(i)
  }

  predicate HandlerAlive(i: nat, ev: nat, queue: set<Job>, starting: set<Work>) {
    Handle(i, ev) in queue || Handler(i, ev) in starting
  }

  predicate IndexOk(sl: Slot, i: nat, queue: set<Job>, starting: set<Work>, pc: Pc, e: Entry) {
    && (sl.event != 0 ==> HasEvent(sl, i, pc, e) && TimerAlive(i, sl.event, queue, starting, pc, e))
    && (sl.req.Incoming? && !Entering(e, i) ==> HandlerAlive(i, sl.event, queue, starting))
  }

  predicate EventsDiffer(slots: seq<Slot>) {
    forall i, j :: 0 <= i < j < |slots| && slots[i].event != 0 ==> slots[i].event != slots[j].event
  }

  predicate Indices(s: State) {
    forall i :: 0 <= i < |s.slots| ==> IndexOk(s.slots[i], i, s.queue, Starting(s), HolderPc(s), s.entry)
  }

  predicate Paired(s: State) {
    EventsDiffer(s.slots) && Indices(s)
  }

  lemma FewerEventsDiffer(slots: seq<Slot>, slots': seq<Slot>)
    requires EventsDiffer(slots) && |slots'| == |slots|
    requires forall i :: 0 <= i < |slots| ==> slots'[i].event in {0, slots[i].event}
    ensures EventsDiffer(slots')
  {
    forall i, j | 0 <= i < j < |slots'| && slots'[i].event != 0
      ensures slots'[i].event != slots'[j].event
    {
      assert slots'[i].event == slots[i].event && slots'[j].event in {0, slots[j].event};
    }
  }

  // ---- Coming and going ----

  predicate Neutral(pc: Pc) {
    !pc.Complete? && !pc.Sub? && !pc.FreeEv? && !pc.Claim?
  }

  lemma IndexStays(sl: Slot, sl': Slot, i: nat, queue: set<Job>, queue': set<Job>, starting: set<Work>,
                   starting': set<Work>, pc: Pc, pc': Pc, e: Entry)
    requires IndexOk(sl, i, queue, starting, pc, e) && queue <= queue' && starting <= starting'
    requires sl' == sl.(fw := sl'.fw)
    requires pc' == pc || (Neutral(pc) && Neutral(pc'))
    ensures IndexOk(sl', i, queue', starting', pc', e)
  {
  }

  lemma LockNeutral(s: State, t: nat, a: LockStep)
    requires Lock(s) && LockEnabled(s, t, a) && !s.auth.Stopping? && Moves(s, t, LockMove(s, t, a))
    ensures Neutral(HolderPc(s)) && Neutral(HolderPc(Land(LockMove(s, t, a), t, s.threads[t].work)))
    ensures Starting(s) <= Starting(Land(LockMove(s, t, a), t, s.threads[t].work))
  {
    HolderAfter(s, t, LockMove(s, t, a));
  }

  lemma LockPaired(s: State, t: nat, a: LockStep)
    requires Lock(s) && Paired(s) && LockEnabled(s, t, a) && !s.auth.Stopping? && Moves(s, t, LockMove(s, t, a))
    ensures Paired(Land(LockMove(s, t, a), t, s.threads[t].work))
  {
    hide Lock, Moves, IndexOk, Starting, HolderPc, Neutral, EventsDiffer;
    LockNeutral(s, t, a);
    var s' := Land(LockMove(s, t, a), t, s.threads[t].work);
    forall i | 0 <= i < |s.slots|
      ensures IndexOk(s'.slots[i], i, s'.queue, Starting(s'), HolderPc(s'), s'.entry)
    {
      IndexStays(s.slots[i], s'.slots[i], i, s.queue, s'.queue, Starting(s), Starting(s'), HolderPc(s), HolderPc(s'),
                 s.entry);
    }
  }

  lemma ExitSame(s: State, t: nat)
    requires Lock(s) && ExitEnabled(s, t)
    ensures HolderPc(ExitNext(s, t)) == HolderPc(s) && Starting(ExitNext(s, t)) == Starting(s)
  {
  }

  lemma ExitPaired(s: State, t: nat)
    requires Lock(s) && Paired(s) && ExitEnabled(s, t)
    ensures Paired(ExitNext(s, t))
  {
    hide Lock, IndexOk, Starting, HolderPc;
    ExitSame(s, t);
  }

  // ---- Acting and answering ----

  /** What a move leaves for the job that was starting. */
  function StillStarting(s: State, t: nat): set<Work> {
    if t == 0 then {} else Starting(s)
  }

  lemma StartingAfter(s: State, t: nat, m: Move)
    requires Stays(s, t, m)
    ensures Starting(Land(m, t, s.threads[t].work)) == StillStarting(s, t)
  {
  }

  lemma BeginIndex(s: State, t: nat, a: ActStep, i: nat)
    requires ActEnabled(s, t, a) && Holding(s, t, i) && a.Begin?
    requires JobOk(s, s.threads[t].work, s.threads[t].pc)
    requires EventOk(s.slots[i], i, s.threads[t].pc, s.entry, s.nextTag)
    requires IndexOk(s.slots[i], i, s.queue, Starting(s), s.threads[t].pc, s.entry)
    ensures var m := ActMove(s, t, a);
      && |m.rest.slots| == |s.slots| && m.rest.slots[i].event == s.slots[i].event && m.rest.queue == s.queue
      && IndexOk(m.rest.slots[i], i, s.queue, StillStarting(s, t), m.pc, s.entry)
  {
    if s.threads[t].work.Handler? {
    } else if s.slots[i].req.Outstanding? {
    } else {
    }
  }

  lemma LaterActIndex(s: State, t: nat, a: ActStep, i: nat)
    requires ActEnabled(s, t, a) && Holding(s, t, i) && !a.Begin?
    requires IndexOk(s.slots[i], i, s.queue, Starting(s), s.threads[t].pc, s.entry)
    ensures var m := ActMove(s, t, a);
      && |m.rest.slots| == |s.slots| && m.rest.slots[i].event == s.slots[i].event && m.rest.queue == s.queue
      && IndexOk(m.rest.slots[i], i, s.queue, StillStarting(s, t), m.pc, s.entry)
  {
    hide ThreadOk;
    match a
    case Respond(_) =>
    case Execute(_) =>
    case Executed =>
    case Refuse =>
    case FailReq =>
  }

  lemma ActQueue(s: State, t: nat, a: ActStep)
    requires ActEnabled(s, t, a)
    ensures ActMove(s, t, a).rest.queue == s.queue
  {
  }

  lemma ActPaired(s: State, t: nat, a: ActStep)
    requires Shape(s) && Lock(s) && Requests(s) && Pending(s) && Paired(s) && ActEnabled(s, t, a)
    requires Moves(s, t, ActMove(s, t, a))
    ensures Paired(Land(ActMove(s, t, a), t, s.threads[t].work))
  {
    hide Shape, Lock, Requests, Moves, ActMove, ActEnabled, Holding, HolderPc, EventOk, JobOk, IndexOk, EventsDiffer;
    hide Running0, Queued, Starting, StillStarting;
    var m := ActMove(s, t, a);
    ActStays(s, t, a);
    OwnJob(s, t);
    StartingAfter(s, t, m);
    forall i | 0 <= i < |s.slots|
      ensures m.rest.slots[i].event == s.slots[i].event && m.rest.queue == s.queue
      ensures IndexOk(m.rest.slots[i], i, s.queue, StillStarting(s, t), m.pc, s.entry)
    {
      if a.Begin? {
        BeginIndex(s, t, a, i);
      } else {
        LaterActIndex(s, t, a, i);
      }
    }
    ActQueue(s, t, a);
    FewerEventsDiffer(s.slots, m.rest.slots);
  }

  lemma AnswerIndex(s: State, t: nat, a: AnswerStep, i: nat)
    requires AnswerEnabled(s, t, a) && Holding(s, t, i)
    requires IndexOk(s.slots[i], i, s.queue, Starting(s), s.threads[t].pc, s.entry)
    requires s.threads[t].pc.Complete? && s.threads[t].pc.i != i && s.slots[i].event != 0 ==>
               s.slots[i].event != s.slots[s.threads[t].pc.i].event
    ensures var m := AnswerMove(s, t, a);
      && |m.rest.slots| == |s.slots| && m.rest.slots[i].event in {0, s.slots[i].event}
      && IndexOk(m.rest.slots[i], i, m.rest.queue, StillStarting(s, t), m.pc, s.entry)
  {
    hide ThreadOk;
    match a
    case CancelTimer =>
    case Subtract =>
    case FreeEvent =>
    case ClaimAnswer =>
    case ClearReq =>
    case TellFw(_, _) =>
  }

  lemma Differ(slots: seq<Slot>, i: nat, j: nat)
    requires EventsDiffer(slots) && i < |slots| && j < |slots| && i != j && slots[i].event != 0
    ensures slots[i].event != slots[j].event
  {
    if j < i {
      assert slots[j].event != 0 ==> slots[j].event != slots[i].event;
    }
  }

  lemma AnswerPaired(s: State, t: nat, a: AnswerStep)
    requires Shape(s) && Lock(s) && Requests(s) && Paired(s) && AnswerEnabled(s, t, a)
    requires Moves(s, t, AnswerMove(s, t, a))
    ensures Paired(Land(AnswerMove(s, t, a), t, s.threads[t].work))
  {
    hide Shape, Lock, Requests, Moves, AnswerMove, Holding, HolderPc, IndexOk, EventsDiffer, Starting, StillStarting;
    var m := AnswerMove(s, t, a);
    AnswerStays(s, t, a);
    StartingAfter(s, t, m);
    forall i | 0 <= i < |s.slots|
      ensures m.rest.slots[i].event in {0, s.slots[i].event}
      ensures IndexOk(m.rest.slots[i], i, m.rest.queue, StillStarting(s, t), m.pc, s.entry)
    {
      var pc := s.threads[t].pc;
      if pc.Complete? && pc.i != i && s.slots[i].event != 0 {
        Differ(s.slots, i, pc.i);
      }
      AnswerIndex(s, t, a, i);
    }
    FewerEventsDiffer(s.slots, m.rest.slots);
  }

  // ---- The event world ----

  lemma ElsewhereIndex(sl: Slot, sl': Slot, i: nat, queue: set<Job>, queue': set<Job>, starting: set<Work>, pc: Pc,
                       e: Entry, e': Entry)
    requires IndexOk(sl, i, queue, starting, pc, e) && !Entering(e, i) && !Entering(e', i)
    requires sl' == sl.(fw := sl'.fw) && queue <= queue'
    ensures IndexOk(sl', i, queue', starting, pc, e')
  {
  }

  lemma TakenIndex(s: State, e: EntryStep, starting: set<Work>, pc: Pc)
    requires EntryEnabled(s, e) && (e.TakeReq? || e.SetTag?)
    requires IndexOk(s.slots[s.entry.i], s.entry.i, s.queue, starting, pc, s.entry)
    requires EventOk(s.slots[s.entry.i], s.entry.i, pc, s.entry, s.nextTag)
    ensures |EntryNext(s, e).slots| == |s.slots|
    ensures var s' := EntryNext(s, e); IndexOk(s'.slots[s.entry.i], s.entry.i, s'.queue, starting, pc, s'.entry)
  {
    match e
    case TakeReq =>
    case SetTag =>
  }

  lemma QueuedIndex(s: State, e: EntryStep, starting: set<Work>, pc: Pc)
    requires EntryEnabled(s, e) && !e.ReadAuth? && !e.TakeReq? && !e.SetTag? && s.entry.i < |s.slots|
    requires IndexOk(s.slots[s.entry.i], s.entry.i, s.queue, starting, pc, s.entry)
    requires EventOk(s.slots[s.entry.i], s.entry.i, pc, s.entry, s.nextTag)
    ensures EntryNext(s, e).slots == s.slots
    ensures var s' := EntryNext(s, e); IndexOk(s.slots[s.entry.i], s.entry.i, s'.queue, starting, pc, s'.entry)
  {
    match e
    case QueueTimer =>
    case CountTimer =>
    case QueueHandler =>
    case CountHandler =>
  }

  lemma EntryQueue(s: State, e: EntryStep)
    requires EntryEnabled(s, e)
    ensures s.queue <= EntryNext(s, e).queue && EntryNext(s, e).threads == s.threads
  {
  }

  lemma NewEventDiffers(slots: seq<Slot>, i: nat, tag: nat, slots': seq<Slot>)
    requires EventsDiffer(slots) && i < |slots| == |slots'|
    requires forall j :: 0 <= j < |slots| ==>
               slots[j].event < tag && slots'[j].event == if j == i then tag else slots[j].event
    ensures EventsDiffer(slots')
  {
  }

  lemma EntryDiffers(s: State, e: EntryStep)
    requires Shape(s) && Events(s) && EventsDiffer(s.slots) && EntryEnabled(s, e)
    ensures EventsDiffer(EntryNext(s, e).slots)
  {
    if e.SetTag? {
      NewEventDiffers(s.slots, s.entry.i, s.nextTag, EntryNext(s, e).slots);
    } else {
      FewerEventsDiffer(s.slots, EntryNext(s, e).slots);
    }
  }

  lemma EntryPaired(s: State, e: EntryStep)
    requires Shape(s) && FreshJobs(s) && Pending(s) && Paired(s) && EntryEnabled(s, e)
    ensures Paired(EntryNext(s, e))
  {
    hide Shape, FreshJobs, EntryNext, HolderPc, EventOk, IndexOk, EventsDiffer, Queued, Running0, Entering;
    EntryShape(s, e);
    EntryQueue(s, e);
    EntryDiffers(s, e);
    var s', pc := EntryNext(s, e), HolderPc(s);
    forall i | 0 <= i < |s.slots|
      ensures IndexOk(s'.slots[i], i, s'.queue, Starting(s), pc, s'.entry)
    {
      if e.ReadAuth? || s.entry.i != i {
        NotBusy(s, e, i);
        ElsewhereIndex(s.slots[i], s'.slots[i], i, s.queue, s'.queue, Starting(s), pc, s.entry, s'.entry);
      } else if e.TakeReq? || e.SetTag? {
        TakenIndex(s, e, Starting(s), pc);
      } else {
        QueuedIndex(s, e, Starting(s), pc);
      }
    }
  }

  // ---- Arrivals and teardown ----

  function WorkOf(job: Job): Work {
    match job
    case Handle(i, tag) => Handler(i, tag)
    case Timeout(i, tag) => Timer(i, tag)
  }

  lemma DequeuedIndex(sl: Slot, i: nat, queue: set<Job>, job: Job, pc: Pc, e: Entry)
    requires IndexOk(sl, i, queue, {}, pc, e)
    ensures IndexOk(sl, i, queue - {job}, {WorkOf(job)}, pc, e)
  {
  }

  lemma ArrivalSame(s: State, v: Arrival)
    requires Lock(s) && ArrivalEnabled(s, v)
    ensures var s' := ArrivalNext(s, v);
      && HolderPc(s') == HolderPc(s) && s'.entry == s.entry && |s'.slots| == |s.slots|
      && (forall i :: 0 <= i < |s.slots| ==> s'.slots[i] == s.slots[i].(fw := s'.slots[i].fw))
      && if v.Dequeue? then
           s'.slots == s.slots && s'.queue == s.queue - {v.job} && Starting(s) == {} && Starting(s') == {WorkOf(v.job)}
         else
           s'.queue == s.queue && Starting(s') == Starting(s)
  {
  }

  lemma ArrivalPaired(s: State, v: Arrival)
    requires Lock(s) && Paired(s) && ArrivalEnabled(s, v)
    ensures Paired(ArrivalNext(s, v))
  {
    hide Lock, IndexOk, Starting, HolderPc, ArrivalNext, EventsDiffer;
    ArrivalSame(s, v);
    var s' := ArrivalNext(s, v);
    FewerEventsDiffer(s.slots, s'.slots);
    forall i | 0 <= i < |s.slots|
      ensures IndexOk(s'.slots[i], i, s'.queue, Starting(s'), HolderPc(s'), s'.entry)
    {
      if v.Dequeue? {
        DequeuedIndex(s.slots[i], i, s.queue, v.job, HolderPc(s), s.entry);
      } else {
        IndexStays(s.slots[i], s'.slots[i], i, s.queue, s'.queue, Starting(s), Starting(s'), HolderPc(s), HolderPc(s'),
                   s.entry);
      }
    }
  }

  lemma ClosePaired(s: State, d: DownStep)
    requires Lock(s) && Paired(s) && DownEnabled(s, d) && !s.auth.Stopping? && !DownNext(s, d).auth.Stopping?
    ensures Paired(DownNext(s, d))
  {
    hide IndexOk, EventsDiffer;
    assert d.Close?;
  }

  lemma StepKeepsPaired(s: State, step: Step)
    requires Safe(s) && Paired(s) && Enabled(s, step) && !Next(s, step).tellFailed && !Next(s, step).auth.Stopping?
    ensures Paired(Next(s, step))
  {
    hide Shape, FreshJobs, Requests, Pending, Paired, Moves, Halted;
    FlagsStay(s, step);
    if s.auth.Stopping? {
      StoppingStays(s, step);
    }
    match step
    case ByEntry(e) => EntryPaired(s, e);
    case ByLock(t, l) => ThreadsOk(s, t); LockMoves(s, t, l); LockPaired(s, t, l);
    case ByAct(t, a) => ThreadsOk(s, t); ActMoves(s, t, a); ActPaired(s, t, a);
    case ByAnswer(t, r) => ThreadsOk(s, t); AnswerMoves(s, t, r); AnswerPaired(s, t, r);
    case ByStop(t, p) => NotInStop(s, t); assert false;
    case Exit(t) => ExitPaired(s, t);
    case Arrive(v) => ArrivalPaired(s, v);
    case TearDown(d) => ClosePaired(s, d);
  }

  lemma InitIsPaired(s: State)
    requires Init(s)
    ensures Paired(s)
  {
  }

  /** In every state of every run, as long as nothing was refused and nothing stopped. */
  lemma {:induction false} RunsArePaired(run: seq<State>, k: nat)
    requires IsRun(run) && k < |run| && !run[k].tellFailed && !run[k].auth.Stopping?
    ensures Paired(run[k])
  {
    hide Safe, Paired, Enabled, Next;
    if k == 0 {
      InitIsPaired(run[0]);
    } else {
      assert Follows(run[k - 1], run[k]);
      var step :| Enabled(run[k - 1], step) && run[k] == Next(run[k - 1], step);
      FlagsStay(run[k - 1], step);
      if run[k - 1].auth.Stopping? {
        StoppingStays(run[k - 1], step);
      }
      RunsArePaired(run, k - 1);
      RunsAreSafe(run, k - 1);
      StepKeepsPaired(run[k - 1], step);
    }
  }
}
