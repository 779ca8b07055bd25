/** How runs end: what teardown leaves, exactly when a job is left over, and when a handler finds no event. */
module ProxyShutdown {
  import opened ProxyProtocol
  import opened ProxyInvariant
  import opened ProxyCount
  import opened ProxyRequests
  import opened ProxyTimeouts
  import opened ProxyTeardown
  import opened ProxySafety
  import opened ProxyPairs

  // ---- Once STOPPING is set ----

  lemma StoppedTellsNobody(s: State, step: Step)
    requires Lock(s) && s.auth.Stopping? && Enabled(s, step)
    ensures Next(s, step).tellFailed == s.tellFailed
  {
    match step
    case ByAct(t, a) => NotInside(s, t); assert false;
    case ByAnswer(t, r) => NotInside(s, t); assert false;
    case _ =>
  }

  /** What is known of every state that STOPPING leads to. */
  predicate SafelyStopped(s: State, stale: bool) {
    Safe(s) && s.auth.Stopping? && !s.tellFailed && s.stale == stale
  }

  lemma LockOf(s: State)
    requires Safe(s)
    ensures Lock(s)
  {
  }

  lemma StoppedGoesOn(s: State, stale: bool, step: Step)
    requires SafelyStopped(s, stale) && Enabled(s, step)
    ensures SafelyStopped(Next(s, step), stale)
  {
    hide Safe, Enabled, Next, Lock;
    LockOf(s);
    StoppedTellsNobody(s, step);
    StoppingStays(s, step);
    StepIsSafe(s, step);
  }

  lemma {:induction false} StoppedAlong(run: seq<State>, k: nat, stale: bool)
    requires Chained(run) && k < |run| && SafelyStopped(run[0], stale)
    ensures SafelyStopped(run[k], stale)
  {
    hide SafelyStopped, Enabled, Next;
    if k > 0 {
      StoppedAlong(run, k - 1, stale);
      assert Follows(run[k - 1], run[k]);
      var step :| Enabled(run[k - 1], step) && run[k] == Next(run[k - 1], step);
      StoppedGoesOn(run[k - 1], stale, step);
    }
  }

  lemma StopStops(s: State)
    requires Safe(s) && !s.tellFailed && DownEnabled(s, Stop)
    ensures SafelyStopped(DownNext(s, Stop), StaleTimer(s))
  {
    hide Safe;
    assert Enabled(s, TearDown(Stop)) && Next(s, TearDown(Stop)) == DownNext(s, Stop);
    StepIsSafe(s, TearDown(Stop));
  }

  // ---- Every handler finds its event ----

  /** No queued handler will look for an event that is gone. */
  predicate QueueFinds(s: State) {
    forall j :: j in s.queue ==>
      && j.index < |s.slots| && j.tag > 0
      && (s.slots[j.index].event == j.tag || (j.Timeout? && s.slots[j.index].event == 0))
  }

  predicate NoHandlerOn(queue: set<Job>, i: nat) {
    forall j :: j in queue && j.Handle? ==> j.index != i
  }

  predicate RunnerFinds(s: State, work: Work, pc: Pc) {
    match work
    case Handler(i, tag) =>
      pc.Poll? || (InStop(pc) && !pc.StopRelease?) ==>
        i < |s.slots| && s.slots[i].event == tag > 0 && Handle(i, tag) !in s.queue
    case Timer(i, tag) => pc.Poll? || pc.StopFree? ==> i < |s.slots| && NoHandlerOn(s.queue, i)
    case Callback => true
  }

  predicate Finding(s: State) {
    QueueFinds(s) && (0 in s.threads ==> RunnerFinds(s, s.threads[0].work, s.threads[0].pc))
  }

  lemma LockFinds(s: State, t: nat, a: LockStep)
    requires Lock(s) && Finding(s) && LockEnabled(s, t, a) && s.auth.Stopping?
    ensures Finding(Land(LockMove(s, t, a), t, s.threads[t].work))
  {
  }

  lemma StopFinds(s: State, t: nat, a: StopStep)
    requires Shape(s) && Finding(s) && StopEnabled(s, t, a)
    ensures Finding(Land(StopMove(s, t, a), t, s.threads[t].work))
  {
    ThreadsOk(s, t);
  }

  lemma ExitFinds(s: State, t: nat)
    requires Finding(s) && ExitEnabled(s, t)
    ensures Finding(ExitNext(s, t))
  {
  }

  lemma ArrivalFinds(s: State, v: Arrival)
    requires Finding(s) && ArrivalEnabled(s, v)
    ensures Finding(ArrivalNext(s, v))
  {
  }

  lemma TeardownFinds(s: State, d: DownStep)
    requires Finding(s) && DownEnabled(s, d)
    ensures Finding(DownNext(s, d))
  {
  }

  lemma StepFinds(s: State, stale: bool, step: Step)
    requires SafelyStopped(s, stale) && Finding(s) && Enabled(s, step)
    ensures Finding(Next(s, step))
  {
    hide Shape, FreshJobs, Count, Requests, Pending, Halted, Finding;
    match step
    case ByEntry(e) => assert false;
    case ByLock(t, l) => LockFinds(s, t, l);
    case ByAct(t, a) => NotInside(s, t); assert false;
    case ByAnswer(t, r) => NotInside(s, t); assert false;
    case ByStop(t, p) => StopFinds(s, t, p);
    case Exit(t) => ExitFinds(s, t);
    case Arrive(v) => ArrivalFinds(s, v);
    case TearDown(d) => TeardownFinds(s, d);
  }

  lemma {:induction false} FindingAlong(run: seq<State>, k: nat, stale: bool)
    requires Chained(run) && k < |run| && SafelyStopped(run[0], stale) && Finding(run[0])
    ensures Finding(run[k])
  {
    hide SafelyStopped, Finding, Enabled, Next;
    if k > 0 {
      StoppedAlong(run, k - 1, stale);
      FindingAlong(run, k - 1, stale);
      assert Follows(run[k - 1], run[k]);
      var step :| Enabled(run[k - 1], step) && run[k] == Next(run[k - 1], step);
      StepFinds(run[k - 1], stale, step);
    }
  }

  /** The handler of the request whose event a stale timeout will free is still queued. */
  predicate HandlerAtRisk(s: State) {
    && StaleTimer(s)
    && var i := s.threads[0].work.index;
       Handle(i, s.slots[i].event) in s.queue
  }

  lemma StopFinding(s: State)
    requires Shape(s) && Lock(s) && Pending(s) && DownEnabled(s, Stop) && !HandlerAtRisk(s)
    ensures Finding(DownNext(s, Stop))
  {
  }

  // ---- The stale timeout frees the event ----

  /** The helper's timeout has met STOPPING, freed the event of its index and ended. */
  function Emptied(s: State): State
    requires 0 in s.threads && s.threads[0].work.Timer? && s.threads[0].work.index < |s.slots|
  {
    var i := s.threads[0].work.index;
    Put(s, i, s.slots[i].(event := 0)).(threads := s.threads - {0}, numRequests := s.numRequests - 1)
  }

  lemma LeadsToEmptied(first: State, s: State)
    requires Leads(first, s) && s.auth.Stopping? && 0 in s.threads && s.threads[0].pc.Poll?
    requires s.threads[0].work.Timer? && s.threads[0].work.index < |s.slots|
    ensures Leads(first, Emptied(s))
  {
    hide Leads;
    var th := s.threads[0];
    var i := th.work.index;
    var a := s.(threads := s.threads[0 := th.(pc := StopFree)]);
    LeadsOn(first, s, ByLock(0, MeetStopping), a);
    var b := Put(s, i, s.slots[i].(event := 0)).(threads := s.threads[0 := th.(pc := Leave)]);
    assert a.threads[0 := th.(pc := Leave)] == b.threads;
    LeadsOn(first, a, ByStop(0, StopFreeEvent), b);
    assert b.threads - {0} == s.threads - {0};
    LeadsOn(first, b, Exit(0), Emptied(s));
  }

  // ---- The end of teardown ----

  /** After the request states are freed the helper runs nothing; when the rest is freed there is no job or thread. */
  predicate Over(s: State) {
    && (s.down.Unmapped? || s.down.Freed? ==> 0 !in s.threads)
    && (s.down.Freed? ==> s.queue == {} && s.threads == map[])
  }

  predicate SameRest(s: State, m: Move) {
    m.rest.threads == s.threads && m.rest.queue <= s.queue && m.rest.down == s.down
  }

  lemma MoveOver(s: State, t: nat, m: Move)
    requires Over(s) && t in s.threads && SameRest(s, m)
    ensures Over(Land(m, t, s.threads[t].work))
  {
  }

  lemma LockRest(s: State, t: nat, a: LockStep)
    requires LockEnabled(s, t, a)
    ensures SameRest(s, LockMove(s, t, a))
  {
  }

  lemma ActRest(s: State, t: nat, a: ActStep)
    requires ActEnabled(s, t, a)
    ensures SameRest(s, ActMove(s, t, a))
  {
  }

  lemma AnswerRest(s: State, t: nat, a: AnswerStep)
    requires AnswerEnabled(s, t, a)
    ensures SameRest(s, AnswerMove(s, t, a))
  {
  }

  lemma StopRest(s: State, t: nat, a: StopStep)
    requires StopEnabled(s, t, a)
    ensures SameRest(s, StopMove(s, t, a))
  {
  }

  lemma EntryOver(s: State, e: EntryStep)
    requires Lock(s) && Over(s) && EntryEnabled(s, e)
    ensures Over(EntryNext(s, e))
  {
  }

  lemma ArrivalOver(s: State, v: Arrival)
    requires Over(s) && ArrivalEnabled(s, v)
    ensures Over(ArrivalNext(s, v))
  {
  }

  lemma TeardownOver(s: State, d: DownStep)
    requires Lock(s) && Count(s) && Over(s) && DownEnabled(s, d)
    ensures Over(DownNext(s, d))
  {
  }

  lemma ExitOver(s: State, t: nat)
    requires Over(s) && ExitEnabled(s, t)
    ensures Over(ExitNext(s, t))
  {
  }

  lemma StepOver(s: State, step: Step)
    requires Safe(s) && Over(s) && Enabled(s, step)
    ensures Over(Next(s, step))
  {
    hide Shape, Lock, FreshJobs, Count, Requests, Pending, Halted, Over, SameRest;
    match step
    case ByEntry(e) => EntryOver(s, e);
    case ByLock(t, l) => LockRest(s, t, l); MoveOver(s, t, LockMove(s, t, l));
    case ByAct(t, a) => ActRest(s, t, a); MoveOver(s, t, ActMove(s, t, a));
    case ByAnswer(t, r) => AnswerRest(s, t, r); MoveOver(s, t, AnswerMove(s, t, r));
    case ByStop(t, p) => StopRest(s, t, p); MoveOver(s, t, StopMove(s, t, p));
    case Exit(t) => ExitOver(s, t);
    case Arrive(v) => ArrivalOver(s, v);
    case TearDown(d) => TeardownOver(s, d);
  }

  lemma UpIsNotOver(s: State)
    requires Init(s)
    ensures Over(s)
  {
  }

  lemma {:induction false} RunsAreOver(run: seq<State>, k: nat)
    requires IsRun(run) && k < |run|
    ensures Over(run[k])
  {
    hide Safe, Over, Enabled, Next;
    if k == 0 {
      UpIsNotOver(run[0]);
    } else {
      RunsAreOver(run, k - 1);
      RunsAreSafe(run, k - 1);
      assert Follows(run[k - 1], run[k]);
      var step :| Enabled(run[k - 1], step) && run[k] == Next(run[k - 1], step);
      StepOver(run[k - 1], step);
    }
  }

  lemma LastThreads(s: State)
    requires Shape(s) && Lock(s) && Over(s) && (s.down.Unmapped? || s.down.Freed?)
    ensures forall t {:trigger s.threads[t]} :: t in s.threads ==>
              s.threads[t].work.Callback? && (s.threads[t].pc.Poll? || s.threads[t].pc.Leave?)
  {
  }

  /**
   When the request states are freed, the threads that are left are callbacks
   that only wait or go, and no job is left unless teardown stopped over a
   stale timeout; when the rest is freed there are no jobs and no threads.
   */
  lemma TeardownLeavesNothing(run: seq<State>, k: nat)
    requires IsRun(run) && k < |run|
    ensures run[k].down.Unmapped? || run[k].down.Freed? ==>
              forall t {:trigger run[k].threads[t]} :: t in run[k].threads ==>
                run[k].threads[t].work.Callback? && (run[k].threads[t].pc.Poll? || run[k].threads[t].pc.Leave?)
    ensures run[k].down.Freed? ==> run[k].queue == {} && run[k].threads == map[]
    ensures run[k].down.Unmapped? && !run[k].tellFailed && !run[k].stale ==> run[k].queue == {}
  {
    RunsAreSafe(run, k);
    RunsAreOver(run, k);
    if run[k].down.Unmapped? || run[k].down.Freed? {
      LastThreads(run[k]);
    }
  }

  // ---- A job left over ----

  predicate LeftOver(s: State) {
    s.down.Unmapped? && s.queue != {}
  }

  lemma CancelledTimers(first: State, s: State) returns (r: State)
    requires Leads(first, s) && s.down.Timers? && s.down.k < |s.slots|
    ensures Leads(first, r) && r.slots == s.slots && r.threads == s.threads && r.down == Timers(s.down.k + 1)
    ensures forall j :: j in s.queue && j.tag != s.slots[s.down.k].event ==> j in r.queue
  {
    hide Leads;
    var a := DownNext(s, CancelTimers);
    LeadsOn(first, s, TearDown(CancelTimers), a);
    if s.slots[s.down.k].event == 0 {
      r := a;
    } else {
      r := DownNext(a, SubTimers);
      LeadsOn(first, a, TearDown(SubTimers), r);
    }
  }

  /** Teardown goes over the indices; a timeout that no index points to stays queued. */
  lemma {:induction false} AllTimersCancelled(first: State, s: State, job: Job) returns (r: State)
    requires Leads(first, s) && s.down.Timers? && s.down.k <= |s.slots| && job in s.queue
    requires forall i :: 0 <= i < |s.slots| ==> s.slots[i].event != job.tag
    ensures Leads(first, r) && job in r.queue && r.threads == s.threads && r.slots == s.slots
    ensures r.down == Timers(|s.slots|)
    decreases if s.down.Timers? then |s.slots| - s.down.k else 0
  {
    hide Leads;
    if s.down.k == |s.slots| {
      r := s;
    } else {
      var a := CancelledTimers(first, s);
      r := AllTimersCancelled(first, a, job);
    }
  }

  lemma LeadsToLeftOver(first: State, s: State, job: Job) returns (r: State)
    requires Leads(first, s) && s.down.Stopped? && 0 !in s.threads && job in s.queue && job.Timeout?
    requires forall i :: 0 <= i < |s.slots| ==> s.slots[i].event != job.tag
    ensures Leads(first, r) && LeftOver(r)
  {
    hide Leads;
    var a := DownNext(s, CancelHandlers);
    LeadsOn(first, s, TearDown(CancelHandlers), a);
    var b := DownNext(a, SubHandlers);
    LeadsOn(first, a, TearDown(SubHandlers), b);
    var c := AllTimersCancelled(first, b, job);
    r := DownNext(c, FreeReqs);
    LeadsOn(first, c, TearDown(FreeReqs), r);
    assert job in r.queue;
  }

  /** The event of the index that a stale timeout waits for has its own timeout queued; no other index points to it. */
  lemma StaleHasTimeout(s: State)
    requires Lock(s) && Paired(s) && StaleTimer(s) && DownEnabled(s, Stop)
    ensures var i := s.threads[0].work.index;
      && Timeout(i, s.slots[i].event) in s.queue
      && forall j :: 0 <= j < |s.slots| && j != i ==> s.slots[j].event != s.slots[i].event
  {
    hide EventsDiffer;
    var i := s.threads[0].work.index;
    assert IndexOk(s.slots[i], i, s.queue, Starting(s), HolderPc(s), s.entry);
    forall j | 0 <= j < |s.slots| && j != i
      ensures s.slots[j].event != s.slots[i].event
    {
      Differ(s.slots, i, j);
    }
  }

  lemma StaleLeavesJob(s: State) returns (r: State)
    requires Lock(s) && Paired(s) && StaleTimer(s) && DownEnabled(s, Stop)
    ensures Leads(DownNext(s, Stop), r) && LeftOver(r)
  {
    hide Leads, Lock, Paired, LeftOver;
    var i, first := s.threads[0].work.index, DownNext(s, Stop);
    StaleHasTimeout(s);
    LeadsHere(first);
    LeadsToEmptied(first, first);
    r := LeadsToLeftOver(first, Emptied(first), Timeout(i, s.slots[i].event));
  }

  lemma HaltedLeavesNothing(s: State)
    requires SafelyStopped(s, false)
    ensures !LeftOver(s)
  {
  }

  lemma LeadsToStopped(first: State, s: State, stale: bool)
    requires SafelyStopped(first, stale) && Leads(first, s)
    ensures SafelyStopped(s, stale)
  {
    hide SafelyStopped;
    var run :| Chained(run) && run != [] && run[0] == first && run[|run| - 1] == s;
    StoppedAlong(run, |run| - 1, stale);
  }

  /**
   From the state in which teardown sets STOPPING, a job can be left over when
   the request states are freed exactly when the helper runs a timeout that
   waits for the lock while its index points to the event of another request.
   */
  lemma LeftOverIffStale(run: seq<State>, k: nat)
    requires IsRun(run) && k < |run| && !run[k].tellFailed && DownEnabled(run[k], Stop)
    ensures (exists s :: Leads(DownNext(run[k], Stop), s) && LeftOver(s)) <==> StaleTimer(run[k])
  {
    hide Safe, Paired, LeftOver, StaleTimer, Leads, SafelyStopped, Lock;
    var first := DownNext(run[k], Stop);
    RunsAreSafe(run, k);
    if StaleTimer(run[k]) {
      LockOf(run[k]);
      RunsArePaired(run, k);
      var s := StaleLeavesJob(run[k]);
    } else {
      forall s | Leads(first, s)
        ensures !LeftOver(s)
      {
        StopStops(run[k]);
        LeadsToStopped(first, s, false);
        HaltedLeavesNothing(s);
      }
    }
  }

  lemma LeadsToFinding(first: State, s: State, stale: bool)
    requires SafelyStopped(first, stale) && Finding(first) && Leads(first, s)
    ensures Finding(s)
  {
    hide SafelyStopped, Finding;
    var run :| Chained(run) && run != [] && run[0] == first && run[|run| - 1] == s;
    FindingAlong(run, |run| - 1, stale);
  }

  lemma LeftOverStays(s: State, step: Step)
    requires Safe(s) && Over(s) && LeftOver(s) && Enabled(s, step)
    ensures LeftOver(Next(s, step)) && Next(s, step).queue == s.queue
  {
    hide FreshJobs, Requests, Pending, Halted;
    match step
    case ByAct(t, a) => NotInside(s, t); assert false;
    case ByAnswer(t, r) => NotInside(s, t); assert false;
    case ByStop(t, p) => ThreadsOk(s, t); assert false;
    case _ =>
  }

  lemma LeftOverCounts(s: State)
    requires Safe(s) && LeftOver(s)
    ensures s.numRequests > 0
  {
  }

  /** The job stays, numRequests does not become zero again, and the rest of the state is never freed. */
  lemma {:induction false} LeftOverForever(run: seq<State>, k: nat, m: nat)
    requires IsRun(run) && k <= m < |run| && LeftOver(run[k])
    ensures LeftOver(run[m]) && run[m].queue == run[k].queue && run[m].numRequests > 0
  {
    hide Safe, LeftOver, Over, Enabled, Next;
    RunsAreSafe(run, m);
    if k < m {
      LeftOverForever(run, k, m - 1);
      RunsAreSafe(run, m - 1);
      RunsAreOver(run, m - 1);
      assert Follows(run[m - 1], run[m]);
      var step :| Enabled(run[m - 1], step) && run[m] == Next(run[m - 1], step);
      LeftOverStays(run[m - 1], step);
    }
    LeftOverCounts(run[m]);
  }

  // ---- A handler without its event ----

  /** A handler that met STOPPING reads the tag of the event of its index, and there is no event. */
  predicate ReadsNoEvent(s: State, t: nat) {
    StopEnabled(s, t, StopCancelTimer) && s.slots[s.threads[t].work.index].event == 0
  }

  lemma FindsOwn(s: State, t: nat)
    requires Shape(s) && Finding(s) && StopEnabled(s, t, StopCancelTimer)
    ensures s.slots[s.threads[t].work.index].event == s.threads[t].work.tag > 0
  {
    ThreadsOk(s, t);
  }

  lemma RiskTaken(s: State) returns (r: State)
    requires Lock(s) && HandlerAtRisk(s) && DownEnabled(s, Stop)
    ensures Leads(DownNext(s, Stop), r) && ReadsNoEvent(r, 0)
  {
    hide Leads, Lock;
    var i, first := s.threads[0].work.index, DownNext(s, Stop);
    var job := Handle(i, s.slots[i].event);
    LeadsHere(first);
    LeadsToEmptied(first, first);
    var a := Emptied(first);
    var b := ArrivalNext(a, Dequeue(job));
    LeadsOn(first, a, Arrive(Dequeue(job)), b);
    r := Land(LockMove(b, 0, MeetStopping), 0, b.threads[0].work);
    LeadsOn(first, b, ByLock(0, MeetStopping), r);
  }

  lemma ShapeOf(s: State, stale: bool)
    requires SafelyStopped(s, stale)
    ensures Shape(s)
  {
  }

  lemma FindingFrom(s: State)
    requires Safe(s) && !s.tellFailed && DownEnabled(s, Stop) && !HandlerAtRisk(s)
    ensures Finding(DownNext(s, Stop))
  {
    hide Shape, Lock, Pending, Finding, HandlerAtRisk, Count, Requests, FreshJobs;
    StopFinding(s);
  }

  /**
   From there a handler can find no event at its index, where the driver reads
   its tag nevertheless, exactly when the handler of that other request is
   still queued. Otherwise every handler finds the event of its own request.
   */
  lemma NoEventIffHandlerAtRisk(run: seq<State>, k: nat)
    requires IsRun(run) && k < |run| && !run[k].tellFailed && DownEnabled(run[k], Stop)
    ensures (exists s, t :: Leads(DownNext(run[k], Stop), s) && ReadsNoEvent(s, t)) <==> HandlerAtRisk(run[k])
    ensures !HandlerAtRisk(run[k]) ==>
              forall s, t :: Leads(DownNext(run[k], Stop), s) && StopEnabled(s, t, StopCancelTimer) ==>
                s.slots[s.threads[t].work.index].event == s.threads[t].work.tag > 0
  {
    hide Leads, SafelyStopped, Finding, Shape, Lock, Pending, HandlerAtRisk, StaleTimer;
    hide Safe;
    var first := DownNext(run[k], Stop);
    RunsAreSafe(run, k);
    LockOf(run[k]);
    if HandlerAtRisk(run[k]) {
      var s := RiskTaken(run[k]);
    } else {
      StopStops(run[k]);
      FindingFrom(run[k]);
      forall s, t | Leads(first, s) && StopEnabled(s, t, StopCancelTimer)
        ensures s.slots[s.threads[t].work.index].event == s.threads[t].work.tag > 0
      {
        LeadsToStopped(first, s, StaleTimer(run[k]));
        LeadsToFinding(first, s, StaleTimer(run[k]));
        ShapeOf(s, StaleTimer(run[k]));
        FindsOwn(s, t);
      }
    }
  }

  /** Every state with STOPPING set comes from the step that set it. */
  lemma {:induction false} StopCameBefore(run: seq<State>, k: nat) returns (m: nat)
    requires IsRun(run) && k < |run| && run[k].auth.Stopping?
    ensures m < k && DownEnabled(run[m], Stop) && Leads(DownNext(run[m], Stop), run[k])
    ensures run[k].stale == StaleTimer(run[m]) && (run[m].tellFailed ==> run[k].tellFailed)
  {
    hide StaleTimer, Enabled, Next, DownNext, DownEnabled, Leads;
    assert k > 0;
    assert Follows(run[k - 1], run[k]);
    var step :| Enabled(run[k - 1], step) && run[k] == Next(run[k - 1], step);
    FlagsStay(run[k - 1], step);
    if run[k - 1].auth.Stopping? {
      m := StopCameBefore(run, k - 1);
      StoppingStays(run[k - 1], step);
      LeadsOn(DownNext(run[m], Stop), run[k - 1], step, run[k]);
    } else {
      m := k - 1;
      OnlyStopStops(run[m], step);
      LeadsHere(run[k]);
    }
  }

  /** A handler that meets STOPPING finds the event of its own request, if none was at risk when STOPPING was set. */
  lemma StoppingHandlersFindEvents(run: seq<State>, k: nat, t: nat) returns (m: nat)
    requires IsRun(run) && k < |run| && !run[k].tellFailed && StopEnabled(run[k], t, StopCancelTimer)
    ensures m < k && DownEnabled(run[m], Stop) && run[k].stale == StaleTimer(run[m])
    ensures !HandlerAtRisk(run[m]) ==>
              run[k].slots[run[k].threads[t].work.index].event == run[k].threads[t].work.tag > 0
  {
    hide Shape, FreshJobs, Count, Requests, Pending, Halted, StaleTimer, DownNext, DownEnabled, Leads, HandlerAtRisk;
    RunsAreSafe(run, k);
    assert InStop(run[k].threads[t].pc);
    m := StopCameBefore(run, k);
    if !HandlerAtRisk(run[m]) {
      NoEventIffHandlerAtRisk(run, m);
    }
  }
}
