/** From every state of every run the work that is under way can end, and teardown with it. */
module ProxyTermination {
  import opened ProxyProtocol
  import opened ProxyInvariant
  import opened ProxyCount
  import opened ProxyRequests
  import opened ProxyTimeouts
  import opened ProxyTeardown
  import opened ProxySafety
  import opened ProxyPairs
  import opened ProxyShutdown

  // ---- How much is left to do ----

  function EntryRank(e: Entry): nat {
    match e
    case NoEvent => 0
    case HandlerQueued(_, _) => 1
    case TimerCounted(_, _) => 2
    case TimerQueued(_, _) => 3
    case Tagged(_, _) => 4
    case Took(_) => 5
    case Checked(_) => 6
  }

  /** How far the holder of the lock is from letting go, when it does not take up another request. */
  function HolderRank(pc: Pc): nat {
    match pc
    case Start => 14
    case Exec(_) => 13
    case Fail(_) => 12
    case Complete(_) => 11
    case Sub(_, _) => 10
    case FreeEv(_) => 9
    case Claim(_) => 8
    case Clear(_) => 7
    case Tell(_) => 6
    case At => 5
    case Release => 4
    case _ => 15
  }

  /** The threads that have not left yet. */
  function Active(s: State): set<nat> {
    set t | t in s.threads && !s.threads[t].pc.Leave?
  }

  predicate Less(s: State, r: State) {
    || EntryRank(s.entry) < EntryRank(r.entry)
    || (s.entry == r.entry &&
        (|| |s.queue| < |r.queue|
         || (s.queue == r.queue &&
             (|| |s.threads| < |r.threads|
              || (s.threads.Keys == r.threads.Keys &&
                  (|| |Active(s)| < |Active(r)|
                   || (Active(s) == Active(r) && HolderRank(HolderPc(s)) < HolderRank(HolderPc(r)))))))))
  }

  /** No job, no thread and no event is under way, and every request taken was answered once. */
  predicate Quiet(s: State) {
    && s.entry.NoEvent? && s.queue == {} && s.threads == map[] && s.auth.Ready?
    && forall i :: 0 <= i < |s.slots| ==>
         s.slots[i].req.Idle? && s.slots[i].event == 0 && s.slots[i].answered == s.slots[i].taken
  }

  // ---- One step nearer ----

  lemma EntryAdvances(s: State) returns (e: EntryStep)
    requires Shape(s) && !s.entry.NoEvent?
    ensures EntryEnabled(s, e) && EntryRank(EntryNext(s, e).entry) < EntryRank(s.entry)
    ensures EntryNext(s, e).tellFailed == s.tellFailed && EntryNext(s, e).auth == s.auth
    ensures EntryNext(s, e).down == s.down
  {
    match s.entry
    case Checked(_) => e := TakeReq;
    case Took(_) => e := SetTag;
    case Tagged(_, _) => e := QueueTimer;
    case TimerQueued(_, _) => e := CountTimer;
    case TimerCounted(_, _) => e := QueueHandler;
    case HandlerQueued(_, _) => e := CountHandler;
  }

  /** A step of the thread that holds the lock takes it nearer to letting go. */
  predicate Nears(s: State, t: nat, m: Move)
    requires t in s.threads
  {
    && m.rest.entry == s.entry && m.rest.queue <= s.queue && m.rest.threads == s.threads
    && m.rest.tellFailed == s.tellFailed && m.rest.auth == s.auth && m.rest.down == s.down && m.rest.holder == s.holder
    && HolderRank(m.pc) < HolderRank(s.threads[t].pc) && !m.pc.Leave?
  }

  lemma ActNears(s: State, t: nat) returns (a: ActStep)
    requires t in s.threads && ThreadOk(|s.slots|, t, s.threads[t]) && s.auth.Running?
    requires s.threads[t].pc.Start? || s.threads[t].pc.Exec? || s.threads[t].pc.Fail?
    ensures ActEnabled(s, t, a) && Nears(s, t, ActMove(s, t, a))
  {
    match s.threads[t].pc
    case Start => a := Begin;
    case Exec(_) => a := Executed;
    case Fail(_) => a := FailReq;
  }

  lemma AnswerNears(s: State, t: nat) returns (a: AnswerStep)
    requires t in s.threads && ThreadOk(|s.slots|, t, s.threads[t]) && s.auth.Running?
    requires s.threads[t].pc.Complete? || s.threads[t].pc.Sub? || s.threads[t].pc.FreeEv? || s.threads[t].pc.Claim?
          || s.threads[t].pc.Clear? || s.threads[t].pc.Tell?
    requires s.threads[t].pc.Claim? ==> s.slots[s.threads[t].pc.i].req.Completed?
    ensures AnswerEnabled(s, t, a) && Nears(s, t, AnswerMove(s, t, a))
  {
    match s.threads[t].pc
    case Complete(_) => a := CancelTimer;
    case Sub(_, _) => a := Subtract;
    case FreeEv(_) => a := FreeEvent;
    case Claim(_) => a := ClaimAnswer;
    case Clear(_) => a := ClearReq;
    case Tell(_) => a := TellFw(true, true);
  }

  lemma SmallerSet<T>(a: set<T>, b: set<T>)
    requires a <= b && a != b
    ensures |a| < |b|
  {
    assert |b - a| > 0;
    assert b == a + (b - a);
  }

  lemma NearsIsLess(s: State, t: nat, m: Move)
    requires t in s.threads && s.holder == Is(t) && Nears(s, t, m) && !s.threads[t].pc.Leave?
    ensures Less(Land(m, t, s.threads[t].work), s)
  {
    hide HolderRank, EntryRank;
    var r := Land(m, t, s.threads[t].work);
    if m.rest.queue != s.queue {
      SmallerSet(m.rest.queue, s.queue);
    }
    assert r.threads.Keys == s.threads.Keys;
    assert Active(r) == Active(s);
  }

  /** A step that keeps the protocol going and leaves less to do. */
  predicate Nearer(s: State, step: Step) {
    && Enabled(s, step) && Less(Next(s, step), s)
    && Next(s, step).tellFailed == s.tellFailed && !Next(s, step).auth.Stopping? && Next(s, step).down == s.down
  }

  lemma ClaimIsOn(n: nat, t: nat, th: Thread)
    requires ThreadOk(n, t, th) && th.pc.Claim?
    ensures th.pc.i < n
  {
  }

  lemma CompletedWhenClaimed(sl: Slot, i: nat, pc: Pc, work: Work, e: Entry)
    requires RequestOk(sl, i, pc, work, e) && pc == Claim(i)
    ensures sl.req.Completed?
  {
  }

  lemma ClaimsCompleted(s: State, t: nat)
    requires Requests(s) && s.holder == Is(t) && t in s.threads && ThreadOk(|s.slots|, t, s.threads[t])
    ensures s.threads[t].pc.Claim? ==> s.slots[s.threads[t].pc.i].req.Completed?
  {
    hide ThreadOk, RequestOk;
    var pc := s.threads[t].pc;
    if pc.Claim? {
      ClaimIsOn(|s.slots|, t, s.threads[t]);
      CompletedWhenClaimed(s.slots[pc.i], pc.i, pc, s.threads[t].work, s.entry);
    }
  }

  lemma NearsKeeps(s: State, t: nat, m: Move)
    requires t in s.threads && s.holder == Is(t) && Nears(s, t, m) && !s.threads[t].pc.Leave?
    ensures var r := Land(m, t, s.threads[t].work);
      Less(r, s) && r.tellFailed == s.tellFailed && r.auth == s.auth && r.down == s.down
  {
    hide Less;
    NearsIsLess(s, t, m);
  }

  lemma FinishIsLess(s: State, t: nat)
    requires LockEnabled(s, t, Finish) && s.holder == Is(t)
    ensures Less(Next(s, ByLock(t, Finish)), s)
  {
    var r := Next(s, ByLock(t, Finish));
    assert r.threads.Keys == s.threads.Keys;
    assert Active(r) == Active(s);
  }

  lemma ReleaseIsLess(s: State, t: nat)
    requires LockEnabled(s, t, ReleaseLock)
    ensures Less(Next(s, ByLock(t, ReleaseLock)), s)
  {
    var r := Next(s, ByLock(t, ReleaseLock));
    assert r.threads.Keys == s.threads.Keys;
    assert t in Active(s) && t !in Active(r);
    SmallerSet(Active(r), Active(s));
  }

  lemma HolderAdvances(s: State, t: nat) returns (step: Step)
    requires Shape(s) && Lock(s) && Requests(s) && !s.auth.Stopping? && s.holder == Is(t)
    ensures Nearer(s, step)
  {
    hide Shape, ThreadOk, Requests, ActMove, AnswerMove, Less, Nears;
    ThreadsOk(s, t);
    assert Inside(s.threads[t].pc);
    var pc := s.threads[t].pc;
    if pc.Start? || pc.Exec? || pc.Fail? {
      var a := ActNears(s, t);
      NearsKeeps(s, t, ActMove(s, t, a));
      step := ByAct(t, a);
    } else if pc.At? {
      step := ByLock(t, Finish);
      FinishIsLess(s, t);
    } else if pc.Release? {
      step := ByLock(t, ReleaseLock);
      ReleaseIsLess(s, t);
    } else {
      ClaimsCompleted(s, t);
      var a := AnswerNears(s, t);
      NearsKeeps(s, t, AnswerMove(s, t, a));
      step := ByAnswer(t, a);
    }
  }

  lemma AcquireIsLess(s: State, t: nat)
    requires LockEnabled(s, t, Acquire) && s.holder.Nobody?
    ensures Less(Next(s, ByLock(t, Acquire)), s)
  {
    var r := Next(s, ByLock(t, Acquire));
    assert r.threads.Keys == s.threads.Keys;
    assert Active(r) == Active(s);
  }

  lemma FewerThreads(threads: map<nat, Thread>, t: nat)
    requires t in threads
    ensures |threads - {t}| < |threads|
  {
    assert (threads - {t}).Keys == threads.Keys - {t};
    SmallerSet((threads - {t}).Keys, threads.Keys);
    assert |(threads - {t}).Keys| == |threads - {t}| && |threads.Keys| == |threads|;
  }

  lemma ExitIsLess(s: State, t: nat)
    requires ExitEnabled(s, t)
    ensures Less(ExitNext(s, t), s)
  {
    FewerThreads(s.threads, t);
  }

  lemma DequeueIsLess(s: State, job: Job)
    requires ArrivalEnabled(s, Dequeue(job))
    ensures Less(ArrivalNext(s, Dequeue(job)), s)
  {
    SmallerSet(s.queue - {job}, s.queue);
  }

  /** A handler if there is one, and else a timeout. */
  lemma NextJob(queue: set<Job>) returns (job: Job)
    requires queue != {}
    ensures job in queue && (job.Timeout? ==> Handle(job.index, job.tag) !in queue)
  {
    if j :| j in queue && j.Handle? {
      job := j;
    } else {
      job :| job in queue;
    }
  }

  /** With the lock free: a thread that waits takes it, a job is dequeued, or nothing is left to do. */
  lemma FreeAdvances(s: State) returns (step: Step)
    requires Shape(s) && Lock(s) && s.auth.Ready? && s.entry.NoEvent? && !s.down.Unmapped? && !s.down.Freed?
    requires s.threads != map[] || s.queue != {}
    ensures Nearer(s, step)
  {
    hide Shape, Less;
    if t :| t in s.threads {
      if s.threads[t].pc.Leave? {
        ExitIsLess(s, t);
        step := Exit(t);
      } else {
        assert !Inside(s.threads[t].pc) && !InStop(s.threads[t].pc);
        AcquireIsLess(s, t);
        step := ByLock(t, Acquire);
      }
    } else {
      assert s.threads == map[];
      var job := NextJob(s.queue);
      DequeueIsLess(s, job);
      step := Arrive(Dequeue(job));
    }
  }

  lemma QuietWhenDone(s: State)
    requires Requests(s) && Events(s) && Paired(s) && Lock(s) && s.auth.Ready?
    requires s.entry.NoEvent? && s.threads == map[] && s.queue == {}
    ensures Quiet(s)
  {
    forall i | 0 <= i < |s.slots|
      ensures s.slots[i].req.Idle? && s.slots[i].event == 0 && s.slots[i].answered == s.slots[i].taken
    {
      assert RequestOk(s.slots[i], i, HolderPc(s), HolderWork(s), s.entry);
      assert IndexOk(s.slots[i], i, s.queue, Starting(s), HolderPc(s), s.entry);
      assert EventOk(s.slots[i], i, HolderPc(s), s.entry, s.nextTag);
    }
  }

  /** What is kept on the way: nothing was refused and nothing stopped. */
  predicate Going(s: State) {
    Safe(s) && Paired(s) && !s.tellFailed && !s.auth.Stopping?
  }

  lemma EarlierIsLess(s: State, r: State)
    requires EntryRank(r.entry) < EntryRank(s.entry)
    ensures Less(r, s)
  {
  }

  lemma Advances(s: State) returns (step: Step)
    requires Going(s) && !Quiet(s)
    ensures Nearer(s, step)
  {
    hide Shape, FreshJobs, Count, Requests, Queued, Events, Running0, Halted, Paired, Quiet, Less;
    if !s.entry.NoEvent? {
      var e := EntryAdvances(s);
      step := ByEntry(e);
      EarlierIsLess(s, EntryNext(s, e));
    } else if s.holder.Is? {
      step := HolderAdvances(s, s.holder.t);
    } else {
      if s.threads == map[] && s.queue == {} {
        QuietWhenDone(s);
      }
      step := FreeAdvances(s);
    }
  }

  lemma GoesOn(s: State, step: Step)
    requires Going(s) && Nearer(s, step)
    ensures Going(Next(s, step))
  {
    hide Safe, Paired, Less, Enabled, Next;
    StepIsSafe(s, step);
    StepKeepsPaired(s, step);
  }

  lemma SameSizes(s: State, r: State)
    ensures s.threads.Keys == r.threads.Keys ==> |s.threads| == |r.threads|
  {
    assert |s.threads.Keys| == |s.threads| && |r.threads.Keys| == |r.threads|;
  }

  lemma {:induction false} Settles(first: State, s: State) returns (r: State)
    requires Leads(first, s) && Going(s)
    ensures Leads(first, r) && Going(r) && Quiet(r) && r.down == s.down
    decreases EntryRank(s.entry), |s.queue|, |s.threads|, |Active(s)|, HolderRank(HolderPc(s))
  {
    hide Leads, Going, Quiet, Enabled, Next, EntryRank, HolderRank, Active;
    if Quiet(s) {
      r := s;
    } else {
      var step := Advances(s);
      LeadsOn(first, s, step, Next(s, step));
      GoesOn(s, step);
      SameSizes(s, Next(s, step));
      r := Settles(first, Next(s, step));
    }
  }

  lemma QuietCounts(s: State)
    requires Safe(s) && Quiet(s) && !s.auth.Stopping?
    ensures s.numRequests == 0
  {
    hide Shape, FreshJobs, Requests, Pending, Halted;
  }

  /**
   From every state of every run, as long as nothing was refused and nothing
   stopped, the protocol can go on to a state in which no job, thread or event
   is under way and every request taken on an index was answered, each once.
   */
  lemma RunsCanSettle(run: seq<State>, k: nat) returns (r: State)
    requires IsRun(run) && k < |run| && !run[k].tellFailed && !run[k].auth.Stopping?
    ensures Leads(run[k], r) && Quiet(r) && r.numRequests == 0
  {
    hide Leads, Quiet, Safe, Paired;
    RunsAreSafe(run, k);
    RunsArePaired(run, k);
    LeadsHere(run[k]);
    r := Settles(run[k], run[k]);
    QuietCounts(r);
  }

  // ---- The end of teardown ----

  function Polling(s: State): set<nat> {
    set t | t in s.threads && s.threads[t].pc.Poll?
  }

  /** How far a job that met STOPPING is from leaving. */
  function StopRank(pc: Pc): nat {
    match pc
    case StopCancel => 4
    case StopSub(_) => 3
    case StopFree => 2
    case StopRelease => 1
    case _ => 0
  }

  function HelperRank(s: State): nat {
    if 0 in s.threads then StopRank(s.threads[0].pc) else 0
  }

  function DownRank(d: Down, n: nat): int {
    match d
    case Stopped => 2 * n + 5
    case HandlersCancelled(_) => 2 * n + 4
    case Timers(k) => 2 * (n - k) + 2
    case TimerCancelled(k, _) => 2 * (n - k) + 1
    case Unmapped => 1
    case Freed => 0
    case _ => 2 * n + 6
  }

  predicate StopLess(s: State, r: State) {
    || |s.threads| < |r.threads|
    || (s.threads.Keys == r.threads.Keys &&
        (|| |Polling(s)| < |Polling(r)|
         || (Polling(s) == Polling(r) &&
             (|| HelperRank(s) < HelperRank(r)
              || (HelperRank(s) == HelperRank(r) && DownRank(s.down, |s.slots|) < DownRank(r.down, |r.slots|)
                    && DownRank(r.down, |r.slots|) > 0)))))
  }

  lemma MeetIsLess(s: State, t: nat)
    requires LockEnabled(s, t, MeetStopping)
    ensures StopLess(Next(s, ByLock(t, MeetStopping)), s)
  {
    var r := Next(s, ByLock(t, MeetStopping));
    assert r.threads.Keys == s.threads.Keys;
    assert t in Polling(s) && t !in Polling(r);
    SmallerSet(Polling(r), Polling(s));
  }

  lemma HelperNears(s: State, r: State)
    requires 0 in s.threads && r.threads.Keys == s.threads.Keys && !s.threads[0].pc.Poll?
    requires r.threads == s.threads[0 := r.threads[0]] && !r.threads[0].pc.Poll?
    requires StopRank(r.threads[0].pc) < StopRank(s.threads[0].pc)
    ensures StopLess(r, s)
  {
    assert Polling(r) == Polling(s);
  }

  lemma StopMoveNears(s: State, p: StopStep)
    requires StopEnabled(s, 0, p)
    ensures StopLess(Land(StopMove(s, 0, p), 0, s.threads[0].work), s)
  {
    hide StopLess;
    var r := Land(StopMove(s, 0, p), 0, s.threads[0].work);
    assert r.threads.Keys == s.threads.Keys;
    HelperNears(s, r);
  }

  lemma HelperIsLess(s: State) returns (step: Step)
    requires 0 in s.threads && ThreadOk(|s.slots|, 0, s.threads[0]) && InStop(s.threads[0].pc) && s.auth.Stopping?
    ensures Enabled(s, step) && StopLess(Next(s, step), s)
  {
    hide StopLess, StopMove;
    if s.threads[0].pc.StopRelease? {
      step := ByLock(0, ReleaseLock);
      assert Next(s, step).threads.Keys == s.threads.Keys;
      HelperNears(s, Next(s, step));
    } else {
      var p := match s.threads[0].pc
        case StopCancel => StopCancelTimer
        case StopSub(_) => StopSubtract
        case _ => StopFreeEvent;
      StopMoveNears(s, p);
      step := ByStop(0, p);
    }
  }

  lemma LeaveIsLess(s: State, t: nat)
    requires ExitEnabled(s, t)
    ensures StopLess(ExitNext(s, t), s)
  {
    FewerThreads(s.threads, t);
  }

  /** With no thread left, teardown goes on. */
  lemma DownAdvances(s: State) returns (d: DownStep)
    requires Lock(s) && Count(s) && Cleared(s) && s.auth.Stopping? && s.threads == map[] && !s.down.Freed?
    requires (s.down.Timers? ==> s.down.k <= |s.slots|) && (s.down.TimerCancelled? ==> s.down.k < |s.slots|)
    ensures DownEnabled(s, d) && StopLess(DownNext(s, d), s)
  {
    match s.down
    case Stopped => d := CancelHandlers;
    case HandlersCancelled(_) => d := SubHandlers;
    case Timers(k) => d := if k < |s.slots| then CancelTimers else FreeReqs;
    case TimerCancelled(_, _) => d := SubTimers;
    case Unmapped => d := FreeState;
  }

  /** Teardown never goes past the last index. */
  predicate InRange(s: State) {
    (s.down.Timers? ==> s.down.k <= |s.slots|) && (s.down.TimerCancelled? ==> s.down.k < |s.slots|)
  }

  lemma MoveInRange(s: State, t: nat, m: Move)
    requires InRange(s) && m.rest.down == s.down && |m.rest.slots| == |s.slots| && t in s.threads
    ensures InRange(Land(m, t, s.threads[t].work))
  {
  }

  lemma StepInRange(s: State, step: Step)
    requires InRange(s) && Enabled(s, step) && Safe(s)
    ensures InRange(Next(s, step))
  {
    hide ActMove, AnswerMove, StopMove, LockMove, Lock, FreshJobs, Count, Requests, Pending, Halted;
    match step
    case ByLock(t, l) => ThreadsOk(s, t); LockMoves(s, t, l); MoveInRange(s, t, LockMove(s, t, l));
    case ByAct(t, a) => ThreadsOk(s, t); ActMoves(s, t, a); MoveInRange(s, t, ActMove(s, t, a));
    case ByAnswer(t, r) => ThreadsOk(s, t); AnswerMoves(s, t, r); MoveInRange(s, t, AnswerMove(s, t, r));
    case ByStop(t, p) => ThreadsOk(s, t); StopMoves(s, t, p); MoveInRange(s, t, StopMove(s, t, p));
    case _ =>
  }

  lemma {:induction false} RunsAreInRange(run: seq<State>, k: nat)
    requires IsRun(run) && k < |run|
    ensures InRange(run[k])
  {
    hide Safe, Enabled, Next;
    if k > 0 {
      RunsAreInRange(run, k - 1);
      RunsAreSafe(run, k - 1);
      assert Follows(run[k - 1], run[k]);
      var step :| Enabled(run[k - 1], step) && run[k] == Next(run[k - 1], step);
      StepInRange(run[k - 1], step);
    }
  }

  lemma OnlyJobsStop(n: nat, t: nat, th: Thread)
    requires ThreadOk(n, t, th) && !Inside(th.pc) && !th.pc.Poll? && !th.pc.Leave?
    ensures t == 0 && InStop(th.pc)
  {
  }

  lemma StoppedAdvances(s: State) returns (step: Step)
    requires SafelyStopped(s, false) && InRange(s) && !s.down.Freed?
    ensures Enabled(s, step) && StopLess(Next(s, step), s)
  {
    hide FreshJobs, Requests, Pending, StopLess, JobsFindEvents, RunnerOk, Inside;
    if t :| t in s.threads && s.threads[t].pc.Leave? {
      LeaveIsLess(s, t);
      step := Exit(t);
    } else if t :| t in s.threads && s.threads[t].pc.Poll? {
      MeetIsLess(s, t);
      step := ByLock(t, MeetStopping);
    } else if t :| t in s.threads {
      ThreadsOk(s, t);
      NotInside(s, t);
      OnlyJobsStop(|s.slots|, t, s.threads[t]);
      step := HelperIsLess(s);
    } else {
      assert s.threads == map[];
      var d := DownAdvances(s);
      step := TearDown(d);
    }
  }

  lemma StoppedIsSafe(s: State)
    requires SafelyStopped(s, false)
    ensures Safe(s)
  {
  }

  lemma {:induction false} Ends(first: State, s: State) returns (r: State)
    requires Leads(first, s) && SafelyStopped(s, false) && InRange(s)
    ensures Leads(first, r) && r.down.Freed?
    decreases |s.threads|, |Polling(s)|, HelperRank(s), DownRank(s.down, |s.slots|)
  {
    hide Leads, SafelyStopped, Enabled, Next, DownRank, HelperRank, Polling, InRange;
    if s.down.Freed? {
      r := s;
    } else {
      var step := StoppedAdvances(s);
      LeadsOn(first, s, step, Next(s, step));
      StoppedIsSafe(s);
      StepInRange(s, step);
      StoppedGoesOn(s, false, step);
      SameSizes(s, Next(s, step));
      r := Ends(first, Next(s, step));
    }
  }

  lemma GoingIsUp(s: State)
    requires Going(s)
    ensures s.down.Up? || s.down.Closing?
  {
  }

  /** From a quiet state teardown starts. */
  lemma Closes(first: State, s: State) returns (r: State)
    requires Leads(first, s) && Going(s) && Quiet(s)
    ensures Leads(first, r) && SafelyStopped(r, false) && InRange(r)
  {
    hide Leads, Safe, Paired;
    GoingIsUp(s);
    var c := s.(down := Closing);
    if s.down.Up? {
      LeadsOn(first, s, TearDown(Close), c);
      StepIsSafe(s, TearDown(Close));
    } else {
      assert c == s;
    }
    StopStops(c);
    r := DownNext(c, Stop);
    LeadsOn(first, c, TearDown(Stop), r);
  }

  lemma StoppedOf(s: State)
    requires Safe(s) && s.auth.Stopping? && !s.tellFailed && !s.stale
    ensures SafelyStopped(s, false)
  {
  }

  /**
   From every state of every run, as long as nothing was refused and teardown
   did not stop over a stale timeout, teardown can come to its end.
   */
  lemma RunsCanEnd(run: seq<State>, k: nat) returns (r: State)
    requires IsRun(run) && k < |run| && !run[k].tellFailed && (run[k].auth.Stopping? ==> !run[k].stale)
    ensures Leads(run[k], r) && r.down.Freed?
  {
    hide Leads, Quiet, Safe, Paired, InRange, SafelyStopped;
    var s := run[k];
    RunsAreSafe(run, k);
    LeadsHere(s);
    if s.auth.Stopping? {
      assert SafelyStopped(s, false) by { StoppedOf(s); }
      RunsAreInRange(run, k);
      r := Ends(s, s);
    } else {
      RunsArePaired(run, k);
      var quiet := Settles(s, s);
      var stopped := Closes(s, quiet);
      r := Ends(s, stopped);
    }
  }
}
