/** What holds of every run of the proxy protocol. */
module ProxySafety {
  import opened ProxyProtocol
  import opened ProxyInvariant
  import opened ProxyCount
  import opened ProxyRequests
  import opened ProxyTimeouts
  import opened ProxyTeardown

  /** The inductive invariant. */
  predicate Safe(s: State) {
    && Shape(s) && Lock(s) && FreshJobs(s) && Count(s)
    && (!s.tellFailed ==>
          && Requests(s)
          && (!s.auth.Stopping? ==> Pending(s))
          && (s.auth.Stopping? && !s.stale ==> Halted(s)))
  }

  lemma InitIsSafe(s: State)
    requires Init(s)
    ensures Safe(s)
  {
  }

  lemma FlagsStay(s: State, step: Step)
    requires Enabled(s, step)
    ensures s.tellFailed ==> Next(s, step).tellFailed
  {
  }

  lemma NotInStop(s: State, t: nat)
    requires Lock(s) && !s.auth.Stopping? && t in s.threads
    ensures !InStop(s.threads[t].pc)
  {
  }

  lemma TeardownPending(s: State, d: DownStep)
    requires Pending(s) && DownEnabled(s, d) && Lock(s) && !s.auth.Stopping?
    ensures d.Close? || d.Stop?
    ensures Pending(s.(down := Closing))
  {
  }

  lemma StepKeepsPending(s: State, step: Step)
    requires Shape(s) && Lock(s) && FreshJobs(s) && Requests(s) && Pending(s) && Enabled(s, step) && !s.auth.Stopping?
    ensures !Next(s, step).auth.Stopping? ==> Pending(Next(s, step))
  {
    hide Shape, FreshJobs, Requests, Pending, Moves;
    match step
    case ByEntry(e) => EntryPending(s, e);
    case ByLock(t, l) => ThreadsOk(s, t); LockMoves(s, t, l); LockPending(s, t, l);
    case ByAct(t, a) => ThreadsOk(s, t); ActMoves(s, t, a); ActPending(s, t, a);
    case ByAnswer(t, r) => ThreadsOk(s, t); AnswerMoves(s, t, r); AnswerPending(s, t, r);
    case ByStop(t, p) => NotInStop(s, t); assert false;
    case Exit(t) => ExitPending(s, t);
    case Arrive(v) => ArrivalPending(s, v);
    case TearDown(d) => TeardownPending(s, d);
  }

  lemma NotInside(s: State, t: nat)
    requires Lock(s) && s.auth.Stopping? && t in s.threads
    ensures !Inside(s.threads[t].pc)
  {
  }

  lemma StepKeepsHalted(s: State, step: Step)
    requires Shape(s) && Lock(s) && Count(s) && Halted(s) && Enabled(s, step) && s.auth.Stopping?
    ensures Halted(Next(s, step))
  {
    hide Shape, Count, Halted, Moves;
    match step
    case ByEntry(e) => assert false;
    case ByLock(t, l) => ThreadsOk(s, t); LockMoves(s, t, l); LockHalted(s, t, l);
    case ByAct(t, a) => NotInside(s, t); assert false;
    case ByAnswer(t, r) => NotInside(s, t); assert false;
    case ByStop(t, p) => ThreadsOk(s, t); StopMoves(s, t, p); StopHalted(s, t, p);
    case Exit(t) => ExitHalted(s, t);
    case Arrive(v) => ArrivalHalted(s, v);
    case TearDown(d) => TeardownHalted(s, d);
  }

  predicate SameAuth(s: State, s': State) {
    s'.auth == s.auth && s'.stale == s.stale && s'.down == s.down
  }

  /** Only acquiring, releasing and teardown write `authState`. */
  lemma ActKeepsAuth(s: State, t: nat, a: ActStep)
    requires ActEnabled(s, t, a)
    ensures SameAuth(s, ActMove(s, t, a).rest)
  {
  }

  lemma AnswerKeepsAuth(s: State, t: nat, a: AnswerStep)
    requires AnswerEnabled(s, t, a)
    ensures SameAuth(s, AnswerMove(s, t, a).rest)
  {
  }

  lemma StopKeepsAuth(s: State, t: nat, a: StopStep)
    requires StopEnabled(s, t, a)
    ensures SameAuth(s, StopMove(s, t, a).rest)
  {
  }

  /** How a step may change `authState`. */
  lemma AuthChanges(s: State, step: Step)
    requires Enabled(s, step)
    ensures SameAuth(s, Next(s, step))
         || (step.ByLock? && !s.auth.Stopping? && !Next(s, step).auth.Stopping? && Next(s, step).stale == s.stale)
         || (step.TearDown? && (step.d.Stop? || (Next(s, step).auth == s.auth && Next(s, step).stale == s.stale)))
  {
    match step
    case ByAct(t, a) => hide ActMove; ActKeepsAuth(s, t, a);
    case ByAnswer(t, r) => hide AnswerMove; AnswerKeepsAuth(s, t, r);
    case ByStop(t, p) => hide StopMove; StopKeepsAuth(s, t, p);
    case _ =>
  }

  /** STOPPING is final. */
  lemma StoppingStays(s: State, step: Step)
    requires Enabled(s, step) && s.auth.Stopping?
    ensures Next(s, step).auth.Stopping? && Next(s, step).stale == s.stale
  {
    AuthChanges(s, step);
    hide Next;
  }

  lemma OnlyStopStops(s: State, step: Step)
    requires Enabled(s, step) && !s.auth.Stopping? && Next(s, step).auth.Stopping?
    ensures DownEnabled(s, Stop) && Next(s, step) == DownNext(s, Stop) && Next(s, step).stale == StaleTimer(s)
  {
    AuthChanges(s, step);
    assert step == TearDown(Stop);
  }

  /** Every step keeps the invariant. */
  lemma StepIsSafe(s: State, step: Step)
    requires Safe(s) && Enabled(s, step)
    ensures Safe(Next(s, step))
  {
    var s' := Next(s, step);
    FlagsStay(s, step);
    if s.auth.Stopping? {
      StoppingStays(s, step);
    }
    hide Shape, Lock, FreshJobs, Count, Requests, Pending, Halted, Next, Enabled;
    StepKeepsLock(s, step);
    StepKeepsCount(s, step);
    if !s'.tellFailed {
      StepKeepsRequests(s, step);
      if !s.auth.Stopping? {
        StepKeepsPending(s, step);
        if s'.auth.Stopping? && !s'.stale {
          OnlyStopStops(s, step);
          StopHalts(s);
        }
      } else if !s.stale {
        StepKeepsHalted(s, step);
      }
    }
  }

  lemma {:induction false} RunsAreSafe(run: seq<State>, k: nat)
    requires IsRun(run) && k < |run|
    ensures Safe(run[k])
  {
    if k == 0 {
      InitIsSafe(run[0]);
    } else {
      RunsAreSafe(run, k - 1);
      assert Follows(run[k - 1], run[k]);
      var step :| Enabled(run[k - 1], step) && run[k] == Next(run[k - 1], step);
      StepIsSafe(run[k - 1], step);
    }
  }

  // ---- What the invariant says ----

  /**
   `authState` is a lock: RUNNING exactly while a thread is between acquiring
   and releasing it, and never two threads are.
   */
  lemma MutualExclusion(run: seq<State>, k: nat)
    requires IsRun(run) && k < |run|
    ensures var s := run[k];
      && (s.auth.Running? <==> exists t {:trigger s.threads[t]} :: t in s.threads && Inside(s.threads[t].pc))
      && (forall t, u {:trigger s.threads[t], s.threads[u]} ::
            t in s.threads && u in s.threads && Inside(s.threads[t].pc) && Inside(s.threads[u].pc) ==> t == u)
  {
    RunsAreSafe(run, k);
    var s := run[k];
    if s.auth.Running? {
      assert Inside(s.threads[s.holder.t].pc);
    }
  }

  /** Once teardown has set STOPPING, nobody is inside, and no step lets anybody in. */
  lemma NobodyInsideAfterStop(run: seq<State>, k: nat, step: Step)
    requires IsRun(run) && k < |run| && run[k].auth.Stopping? && Enabled(run[k], step)
    ensures forall t {:trigger run[k].threads[t]} :: t in run[k].threads ==> !Inside(run[k].threads[t].pc)
    ensures Next(run[k], step).auth.Stopping?
  {
    RunsAreSafe(run, k);
    StoppingStays(run[k], step);
  }

  /**
   numRequests is what is queued, running or in flight, up to jobs whose
   counting or discounting is the next thing some thread does.
   */
  lemma NumRequestsCounts(run: seq<State>, k: nat)
    requires IsRun(run) && k < |run|
    ensures var s := run[k];
      s.numRequests + Uncounted(s.entry) == |s.queue| + |s.threads| + HolderOwes(s) + StopperOwes(s) + DownOwes(s.down)
  {
    RunsAreSafe(run, k);
  }

  /**
   As long as the firmware takes the first completion a handler makes: of the
   requests taken on an index all but the one being worked on were answered,
   each once, and the index is IDLE exactly when all were.
   */
  lemma AnsweredOnce(run: seq<State>, k: nat, i: nat)
    requires IsRun(run) && k < |run| && !run[k].tellFailed && i < |run[k].slots|
    ensures var sl := run[k].slots[i];
      sl.taken - sl.answered == if sl.req.Idle? then 0 else 1
  {
    RunsAreSafe(run, k);
  }

  /** An event is never dropped: a request raised by the firmware finds its index IDLE. */
  lemma NoRequestDropped(run: seq<State>, k: nat)
    requires IsRun(run) && k < |run| && !run[k].tellFailed && EntryEnabled(run[k], TakeReq)
    ensures run[k].slots[run[k].entry.i].req.Idle?
  {
    RunsAreSafe(run, k);
  }

  /**
   The writes of COMPLETED that look at nothing overwrite what they should:
   an operation's end finds its request COMPLETING, a handler's failure finds
   it OUTSTANDING, and the claim that follows finds it COMPLETED.
   */
  lemma BlindWritesAreRight(run: seq<State>, k: nat, t: nat)
    requires IsRun(run) && k < |run| && !run[k].tellFailed
    ensures ActEnabled(run[k], t, Executed) ==> run[k].slots[run[k].threads[t].pc.i].req.Completing?
    ensures ActEnabled(run[k], t, FailReq) ==> run[k].slots[run[k].threads[t].pc.i].req.Outstanding?
    ensures AnswerEnabled(run[k], t, ClaimAnswer) ==> run[k].slots[run[k].threads[t].pc.i].req.Completed?
  {
    hide FreshJobs, Count, Pending, Halted;
    RunsAreSafe(run, k);
    var s := run[k];
    if t in s.threads && Inside(s.threads[t].pc) {
      assert s.holder == Is(t);
      ThreadsOk(s, t);
    }
  }

  /** A timeout that was dequeued before its request was answered never completes a later request on the index. */
  lemma TimeoutsCompleteTheirOwn(run: seq<State>, k: nat, t: nat)
    requires IsRun(run) && k < |run| && !run[k].tellFailed && ActEnabled(run[k], t, Begin)
    requires run[k].threads[t].work.Timer? && run[k].slots[run[k].threads[t].work.index].req.Outstanding?
    ensures run[k].slots[run[k].threads[t].work.index].curTag == run[k].threads[t].work.tag
  {
    RunsAreSafe(run, k);
    assert Inside(run[k].threads[t].pc);
    TimeoutClaimsItsOwn(run[k], t);
  }
}
