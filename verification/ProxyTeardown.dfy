/** Teardown: once STOPPING is set, every job goes away and nothing is left behind. */
module ProxyTeardown {
  import opened ProxyProtocol
  import opened ProxyInvariant
  import opened ProxyCount
  import opened ProxyTimeouts

  /** Every queued job finds its own event at its index. */
  predicate JobsFindEvents(s: State) {
    forall j :: j in s.queue ==> j.index < |s.slots| && s.slots[j.index].event == j.tag > 0
  }

  predicate NoJobOn(queue: set<Job>, i: nat, tag: nat) {
    Timeout(i, tag) !in queue && Handle(i, tag) !in queue
  }

  /** The job the helper is running finds its own event, or none. */
  predicate RunnerOk(s: State, work: Work, pc: Pc) {
    match work
    case Handler(i, tag) =>
      && (pc.Poll? || pc.StopCancel? || pc.StopSub? || pc.StopFree? ==>
            i < |s.slots| && s.slots[i].event == tag > 0 && Handle(i, tag) !in s.queue)
      && (pc.StopSub? || pc.StopFree? ==> NoJobOn(s.queue, i, tag))
    case Timer(i, tag) =>
      pc.Poll? || pc.StopFree? ==>
        i < |s.slots| && s.slots[i].event in {0, tag} && NoJobOn(s.queue, i, tag)
    case Callback => true
  }

  predicate NoHandlers(queue: set<Job>) {
    forall j :: j in queue ==> j.Timeout?
  }

  predicate NoTimersBefore(queue: set<Job>, k: nat) {
    forall j :: j in queue && j.Timeout? ==> j.index >= k
  }

  /** How far teardown has come, there are no jobs left. */
  predicate Cleared(s: State) {
    match s.down
    case Up => true
    case Closing => true
    case Stopped => true
    case HandlersCancelled(_) => NoHandlers(s.queue)
    case Timers(k) => NoHandlers(s.queue) && NoTimersBefore(s.queue, k)
    case TimerCancelled(k, _) => NoHandlers(s.queue) && NoTimersBefore(s.queue, k + 1)
    case Unmapped => s.queue == {} && 0 !in s.threads
    case Freed => s.queue == {} && s.threads == map[]
  }

  predicate Halted(s: State) {
    && JobsFindEvents(s) && Cleared(s)
    && (0 in s.threads ==> RunnerOk(s, s.threads[0].work, s.threads[0].pc))
  }

  /** Stopping while no timeout is stale: every job finds its event. */
  lemma StopHalts(s: State)
    requires Shape(s) && Lock(s) && Pending(s) && DownEnabled(s, Stop) && !StaleTimer(s)
    ensures Halted(DownNext(s, Stop))
  {
  }

  lemma LockHalted(s: State, t: nat, a: LockStep)
    requires Lock(s) && Halted(s) && LockEnabled(s, t, a) && s.auth.Stopping? && Moves(s, t, LockMove(s, t, a))
    ensures Halted(Land(LockMove(s, t, a), t, s.threads[t].work))
  {
  }

  lemma StopHalted(s: State, t: nat, a: StopStep)
    requires Shape(s) && Lock(s) && Halted(s) && StopEnabled(s, t, a) && Moves(s, t, StopMove(s, t, a))
    ensures Halted(Land(StopMove(s, t, a), t, s.threads[t].work))
  {
    ThreadsOk(s, t);
  }

  lemma ExitHalted(s: State, t: nat)
    requires Halted(s) && ExitEnabled(s, t)
    ensures Halted(ExitNext(s, t))
  {
  }

  lemma ArrivalHalted(s: State, v: Arrival)
    requires Lock(s) && Halted(s) && ArrivalEnabled(s, v) && s.auth.Stopping?
    ensures Halted(ArrivalNext(s, v))
  {
  }

  /** Teardown only takes jobs away, and jobs that are left stay as they were. */
  lemma FewerJobs(s: State, s': State)
    requires Halted(s) && s'.slots == s.slots && s'.threads == s.threads && s'.queue <= s.queue && Cleared(s')
    ensures Halted(s')
  {
  }

  lemma CancelClears(s: State, d: DownStep)
    requires Cleared(s) && DownEnabled(s, d) && (d.CancelHandlers? || d.SubHandlers?)
    ensures Cleared(DownNext(s, d))
  {
  }

  /** The timeouts of index `k` are found by the event that the index points to. */
  lemma TimersClear(s: State, d: DownStep)
    requires Cleared(s) && JobsFindEvents(s) && DownEnabled(s, d) && (d.CancelTimers? || d.SubTimers?)
    ensures Cleared(DownNext(s, d))
  {
  }

  lemma FreeClears(s: State, d: DownStep)
    requires Shape(s) && Lock(s) && Count(s) && Cleared(s) && DownEnabled(s, d) && (d.FreeReqs? || d.FreeState?)
    ensures Cleared(DownNext(s, d))
  {
  }

  lemma TeardownHalted(s: State, d: DownStep)
    requires Shape(s) && Lock(s) && Count(s) && Halted(s) && DownEnabled(s, d) && s.auth.Stopping?
    ensures Halted(DownNext(s, d))
  {
    hide Shape, Count, JobsFindEvents, Cleared, RunnerOk;
    if d.CancelHandlers? || d.SubHandlers? {
      CancelClears(s, d);
    } else if d.CancelTimers? || d.SubTimers? {
      TimersClear(s, d);
    } else {
      FreeClears(s, d);
    }
    FewerJobs(s, DownNext(s, d));
  }
}
