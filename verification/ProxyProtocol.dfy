/**
 The SR-IOV proxy authorisation protocol, as atomic steps.

 The firmware raises a request on one of `blockCount` indices. The event world
 takes it and queues two jobs on a helper with a single world: a timeout that
 runs after a delay, and a handler that asks the hypervisor. The handler, the
 timeout and callbacks of the hypervisor work on requests while they hold
 `authState`; teardown sets it to STOPPING and then takes everything apart.
 Each step reads or writes one shared variable, or makes one call.
 */
module ProxyProtocol {

  datatype Auth = Ready | Running | Stopping

  datatype Req = Idle | Incoming | Outstanding | Completing | Completed | Responding

  /** The firmware's view of an index: free, an event on its way, or an answer awaited. */
  datatype Firmware = Free | Raised | Waiting

  /**
   The request state of an index. `event` is the tag of the event the index
   points to, zero for none. The other fields record history: the tag given
   to the last request taken, and how many were taken and answered.
   */
  datatype Slot = Slot(req: Req, event: nat, curTag: nat, fw: Firmware, taken: nat, answered: nat)

  datatype Job = Handle(index: nat, tag: nat) | Timeout(index: nat, tag: nat)

  datatype Work = Handler(index: nat, tag: nat) | Timer(index: nat, tag: nat) | Callback

  /** Where a thread is. */
  datatype Pc =
    | Poll                    // polling authState for READY
    | Start                   // lock held; about to claim the request the job is for
    | At                      // lock held; free to act
    | Exec(i: nat)            // running the operation itself
    | Complete(i: nat)        // the request is COMPLETED; about to cancel its timeout
    | Sub(i: nat, n: nat)     // about to subtract the jobs cancelled
    | FreeEv(i: nat)          // about to free the event
    | Claim(i: nat)           // about to move COMPLETED to RESPONDING
    | Clear(i: nat)           // about to write IDLE
    | Tell(i: nat)            // about to tell the firmware
    | Fail(i: nat)            // handler only: about to write COMPLETED after a failure
    | Release                 // about to release the lock
    | StopCancel              // handler that met STOPPING: about to cancel its timeout
    | StopSub(n: nat)
    | StopFree                // handler or timeout that met STOPPING: about to free the event
    | StopRelease             // handler that met STOPPING: tries to release what it does not hold
    | Leave                   // about to decrement numRequests

  /** A running job (thread 0, the only world of the helper) or a callback. */
  datatype Thread = Thread(work: Work, pc: Pc, again: bool)

  /** The event world; it handles one event at a time. */
  datatype Entry =
    | NoEvent
    | Checked(i: nat)
    | Took(i: nat)
    | Tagged(i: nat, tag: nat)
    | TimerQueued(i: nat, tag: nat)
    | TimerCounted(i: nat, tag: nat)
    | HandlerQueued(i: nat, tag: nat)

  /** How far teardown has come. From `Closing` on it holds the lock under which callbacks register. */
  datatype Down =
    | Up
    | Closing
    | Stopped
    | HandlersCancelled(n: nat)
    | Timers(k: nat)
    | TimerCancelled(k: nat, n: nat)
    | Unmapped
    | Freed

  datatype Holder = Nobody | Is(t: nat)

  /**
   The whole state. `holder`, `tellFailed` and `stale` record history: who
   holds the lock; that the firmware could not be told of the first completion
   that a handler made; and that teardown stopped the protocol while a timeout was
   waiting for the lock whose index already had a newer request.
   */
  datatype State = State(
    auth: Auth,
    numRequests: int,
    slots: seq<Slot>,
    queue: set<Job>,
    threads: map<nat, Thread>,
    entry: Entry,
    nextTag: nat,
    down: Down,
    holder: Holder,
    tellFailed: bool,
    stale: bool)

  predicate Init(s: State) {
    && s.auth == Ready && s.numRequests == 0 && s.queue == {} && s.threads == map[]
    && s.entry == NoEvent && s.nextTag > 0 && s.down == Up && s.holder == Nobody
    && !s.tellFailed && !s.stale
    && (forall i :: 0 <= i < |s.slots| ==> s.slots[i] == Slot(Idle, 0, 0, Free, 0, 0))
  }

  function Put(s: State, i: nat, slot: Slot): State
    requires i < |s.slots|
  {
    s.(slots := s.slots[i := slot])
  }

  /** Jobs with a tag, as vmk_HelperCancelRequest finds them; handlers all have tag zero. */
  function Tagged0(queue: set<Job>): set<Job> {
    set j | j in queue && j.Handle?
  }

  function WithTag(queue: set<Job>, tag: nat): set<Job> {
    set j | j in queue && j.Timeout? && j.tag == tag
  }

  // ---- The event world ----

  datatype EntryStep = ReadAuth(i: nat) | TakeReq | SetTag | QueueTimer | CountTimer | QueueHandler | CountHandler

  predicate EntryEnabled(s: State, a: EntryStep) {
    match a
    case ReadAuth(i) => s.entry.NoEvent? && s.down.Up? && i < |s.slots| && s.slots[i].fw.Raised?
    case TakeReq => s.entry.Checked? && s.entry.i < |s.slots|
    case SetTag => s.entry.Took? && s.entry.i < |s.slots|
    case QueueTimer => s.entry.Tagged?
    case CountTimer => s.entry.TimerQueued?
    case QueueHandler => s.entry.TimerCounted?
    case CountHandler => s.entry.HandlerQueued?
  }

  function EntryNext(s: State, a: EntryStep): State
    requires EntryEnabled(s, a)
  {
    match a
    case ReadAuth(i) =>
      var t := Put(s, i, s.slots[i].(fw := Waiting));
      if s.auth.Stopping? then t else t.(entry := Checked(i))
    case TakeReq =>
      var i := s.entry.i;
      if s.slots[i].req.Idle? then
        Put(s, i, s.slots[i].(req := Incoming, taken := s.slots[i].taken + 1)).(entry := Took(i))
      else s.(entry := NoEvent)
    case SetTag =>
      var i := s.entry.i;
      Put(s, i, s.slots[i].(event := s.nextTag, curTag := s.nextTag))
        .(entry := Tagged(i, s.nextTag), nextTag := s.nextTag + 1)
    case QueueTimer =>
      s.(queue := s.queue + {Timeout(s.entry.i, s.entry.tag)}, entry := TimerQueued(s.entry.i, s.entry.tag))
    case CountTimer =>
      s.(numRequests := s.numRequests + 1, entry := TimerCounted(s.entry.i, s.entry.tag))
    case QueueHandler =>
      s.(queue := s.queue + {Handle(s.entry.i, s.entry.tag)}, entry := HandlerQueued(s.entry.i, s.entry.tag))
    case CountHandler =>
      s.(numRequests := s.numRequests + 1, entry := NoEvent)
  }

  // ---- Handlers, timeouts and callbacks ----

  /** What a step of a thread does: the state but for the thread itself, and where the thread goes. */
  datatype Move = Move(rest: State, pc: Pc, again: bool)

  function Land(m: Move, t: nat, work: Work): State {
    m.rest.(threads := m.rest.threads[t := Thread(work, m.pc, m.again)])
  }

  /** Where a thread goes when an action on request `i` is over, `good` telling whether it succeeded. */
  function AfterAct(th: Thread, i: nat, good: bool): Pc {
    match th.work
    case Callback => At
    case Timer(_, _) => Release
    case Handler(_, _) => if good || th.again then Release else Fail(i)
  }

  /** Coming and going. */
  datatype LockStep =
    | Acquire         // READY to RUNNING
    | MeetStopping    // the poll finds STOPPING
    | Finish          // nothing more to do
    | ReleaseLock

  predicate LockEnabled(s: State, t: nat, a: LockStep) {
    && t in s.threads
    && var th := s.threads[t];
       match a
       case Acquire => th.pc.Poll? && s.auth.Ready?
       case MeetStopping => th.pc.Poll? && s.auth.Stopping?
       case Finish => th.pc.At?
       case ReleaseLock => (th.pc.Release? || th.pc.StopRelease?) && !s.auth.Ready?
  }

  function LockMove(s: State, t: nat, a: LockStep): Move
    requires LockEnabled(s, t, a)
  {
    var th := s.threads[t];
    match a
    case Acquire => Move(s.(auth := Running, holder := Is(t)), if th.work.Callback? then At else Start, th.again)
    case MeetStopping =>
      var pc := match th.work case Handler(_, _) => StopCancel case Timer(_, _) => StopFree case Callback => Leave;
      Move(s, pc, th.again)
    case Finish => Move(s, Release, th.again)
    case ReleaseLock =>
      var auth := if s.auth.Running? then Ready else s.auth;
      Move(s.(auth := auth, holder := if th.pc.Release? then Nobody else s.holder), Leave, th.again)
  }

  /** Claiming requests and acting on them, with the lock held. */
  datatype ActStep =
    | Begin              // the job claims its request
    | Respond(i: nat)    // answers request i
    | Execute(i: nat)    // runs the operation of request i, to answer it then
    | Executed
    | Refuse             // the handler's authorisation fails
    | FailReq            // the handler writes COMPLETED after a failure

  predicate ActEnabled(s: State, t: nat, a: ActStep) {
    && t in s.threads
    && var th := s.threads[t];
       match a
       case Begin => th.pc.Start? && !th.work.Callback? && th.work.index < |s.slots|
       case Respond(i) => th.pc.At? && i < |s.slots| && (th.work.Handler? ==> i == th.work.index)
       case Execute(i) => th.pc.At? && i < |s.slots| && (th.work.Handler? ==> i == th.work.index)
       case Executed => th.pc.Exec? && th.pc.i < |s.slots|
       case Refuse => th.pc.At? && th.work.Handler?
       case FailReq => th.pc.Fail? && th.pc.i < |s.slots|
  }

  function SetReq(s: State, i: nat, req: Req): State
    requires i < |s.slots|
  {
    Put(s, i, s.slots[i].(req := req))
  }

  function ActMove(s: State, t: nat, a: ActStep): Move
    requires ActEnabled(s, t, a)
  {
    var th := s.threads[t];
    match a
    case Begin =>
      var i := th.work.index;
      if th.work.Handler? && s.slots[i].req.Incoming? then Move(SetReq(s, i, Outstanding), At, th.again)
      else if th.work.Timer? && s.slots[i].req.Outstanding? then Move(SetReq(s, i, Completed), FreeEv(i), th.again)
      else Move(s, Release, th.again)
    case Respond(i) =>
      if s.auth.Running? && s.slots[i].req.Outstanding? then Move(SetReq(s, i, Completed), Complete(i), th.again)
      else Move(s, AfterAct(th, i, false), th.again)
    case Execute(i) =>
      if s.auth.Running? && s.slots[i].req.Outstanding? then Move(SetReq(s, i, Completing), Exec(i), th.again)
      else Move(s, AfterAct(th, i, false), th.again)
    case Executed =>
      var i := th.pc.i;
      if s.auth.Running? then Move(SetReq(s, i, Completed), Complete(i), th.again)
      else Move(s, AfterAct(th, i, false), th.again)
    case Refuse => Move(s, Fail(th.work.index), th.again)
    case FailReq =>
      var i := th.pc.i;
      if s.auth.Running? then Move(SetReq(s, i, Completed), Complete(i), true)
      else Move(s, Release, th.again)
  }

  /** Cancelling the timeout of a request and answering it. */
  datatype AnswerStep =
    | CancelTimer
    | Subtract
    | FreeEvent
    | ClaimAnswer
    | ClearReq
    | TellFw(ok: bool, reached: bool)   // `reached`: whether a call that failed had its effect nevertheless

  predicate AnswerEnabled(s: State, t: nat, a: AnswerStep) {
    && t in s.threads
    && var th := s.threads[t];
       match a
       case CancelTimer => th.pc.Complete? && th.pc.i < |s.slots|
       case Subtract => th.pc.Sub?
       case FreeEvent => th.pc.FreeEv? && th.pc.i < |s.slots|
       case ClaimAnswer => th.pc.Claim? && th.pc.i < |s.slots|
       case ClearReq => th.pc.Clear? && th.pc.i < |s.slots|
       case TellFw(_, _) => th.pc.Tell? && th.pc.i < |s.slots|
  }

  function AnswerMove(s: State, t: nat, a: AnswerStep): Move
    requires AnswerEnabled(s, t, a)
  {
    var th := s.threads[t];
    match a
    case CancelTimer =>
      var i := th.pc.i;
      var gone := WithTag(s.queue, s.slots[i].event);
      if s.slots[i].event == 0 then Move(s, FreeEv(i), th.again)
      else Move(s.(queue := s.queue - gone), Sub(i, |gone|), th.again)
    case Subtract => Move(s.(numRequests := s.numRequests - th.pc.n), FreeEv(th.pc.i), th.again)
    case FreeEvent =>
      var i := th.pc.i;
      Move(Put(s, i, s.slots[i].(event := 0)), Claim(i), th.again)
    case ClaimAnswer =>
      var i := th.pc.i;
      if s.slots[i].req.Completed? then Move(SetReq(s, i, Responding), Clear(i), th.again)
      else Move(s, AfterAct(th, i, false), th.again)
    case ClearReq =>
      var i := th.pc.i;
      Move(Put(s, i, s.slots[i].(req := Idle, answered := s.slots[i].answered + 1)), Tell(i), th.again)
    case TellFw(ok, reached) =>
      var i := th.pc.i;
      var told := if ok || reached then Put(s, i, s.slots[i].(fw := Free)) else s;
      Move(told.(tellFailed := s.tellFailed || (!ok && th.work.Handler? && !th.again)), AfterAct(th, i, ok), th.again)
  }

  /** What jobs do that meet STOPPING. */
  datatype StopStep = StopCancelTimer | StopSubtract | StopFreeEvent

  predicate StopEnabled(s: State, t: nat, a: StopStep) {
    && t in s.threads
    && var th := s.threads[t];
       match a
       case StopCancelTimer => th.pc.StopCancel? && th.work.Handler? && th.work.index < |s.slots|
       case StopSubtract => th.pc.StopSub?
       case StopFreeEvent => th.pc.StopFree? && !th.work.Callback? && th.work.index < |s.slots|
  }

  function StopMove(s: State, t: nat, a: StopStep): Move
    requires StopEnabled(s, t, a)
  {
    var th := s.threads[t];
    match a
    case StopCancelTimer =>
      var gone := WithTag(s.queue, s.slots[th.work.index].event);
      Move(s.(queue := s.queue - gone), StopSub(|gone|), th.again)
    case StopSubtract => Move(s.(numRequests := s.numRequests - th.pc.n), StopFree, th.again)
    case StopFreeEvent =>
      var i := th.work.index;
      Move(Put(s, i, s.slots[i].(event := 0)), if th.work.Handler? then StopRelease else Leave, th.again)
  }

  /** The end of a handler, a timeout or a callback. */
  predicate ExitEnabled(s: State, t: nat) {
    t in s.threads && s.threads[t].pc.Leave?
  }

  function ExitNext(s: State, t: nat): State {
    s.(numRequests := s.numRequests - 1, threads := s.threads - {t})
  }

  // ---- Arrivals ----

  datatype Arrival = Raise(i: nat) | Dequeue(job: Job) | EnterCallback(t: nat)

  predicate InEntry(s: State, tag: nat) {
    (s.entry.TimerQueued? || s.entry.TimerCounted?) && s.entry.tag == tag
  }

  /**
   A job is dequeued only while the helper's world is idle, and the timeout of
   a request, which is delayed by seconds, not before its handler.
   */
  predicate ArrivalEnabled(s: State, a: Arrival) {
    match a
    case Raise(i) => i < |s.slots| && s.slots[i].fw.Free?
    case Dequeue(job) =>
      && job in s.queue && 0 !in s.threads && !s.down.Unmapped? && !s.down.Freed?
      && (job.Timeout? ==> Handle(job.index, job.tag) !in s.queue && !InEntry(s, job.tag))
    case EnterCallback(t) => t > 0 && t !in s.threads && s.down.Up?
  }

  function ArrivalNext(s: State, a: Arrival): State
    requires ArrivalEnabled(s, a)
  {
    match a
    case Raise(i) => Put(s, i, s.slots[i].(fw := Raised))
    case Dequeue(job) =>
      var work := match job case Handle(i, tag) => Handler(i, tag) case Timeout(i, tag) => Timer(i, tag);
      s.(queue := s.queue - {job}, threads := s.threads[0 := Thread(work, Poll, false)])
    case EnterCallback(t) =>
      s.(numRequests := s.numRequests + 1, threads := s.threads[t := Thread(Callback, Poll, false)])
  }

  // ---- Teardown ----

  /** The helper runs a timeout that waits for the lock while its index points to the event of another request. */
  predicate StaleTimer(s: State) {
    && 0 in s.threads && s.threads[0].work.Timer? && s.threads[0].pc.Poll?
    && s.threads[0].work.index < |s.slots|
    && s.slots[s.threads[0].work.index].event !in {0, s.threads[0].work.tag}
  }

  datatype DownStep = Close | Stop | CancelHandlers | SubHandlers | CancelTimers | SubTimers | FreeReqs | FreeState

  /** Events are stopped before teardown starts, so no event is being handled then. */
  predicate DownEnabled(s: State, a: DownStep) {
    match a
    case Close => s.down.Up? && s.entry.NoEvent?
    case Stop => s.down.Closing? && s.auth.Ready?
    case CancelHandlers => s.down.Stopped?
    case SubHandlers => s.down.HandlersCancelled?
    case CancelTimers => s.down.Timers? && s.down.k < |s.slots|
    case SubTimers => s.down.TimerCancelled?
    case FreeReqs => s.down.Timers? && s.down.k == |s.slots| && 0 !in s.threads
    case FreeState => s.down.Unmapped? && s.numRequests == 0
  }

  function DownNext(s: State, a: DownStep): State
    requires DownEnabled(s, a)
  {
    match a
    case Close => s.(down := Closing)
    case Stop => s.(auth := Stopping, down := Stopped, stale := StaleTimer(s))
    case CancelHandlers =>
      s.(queue := s.queue - Tagged0(s.queue), down := HandlersCancelled(|Tagged0(s.queue)|))
    case SubHandlers => s.(numRequests := s.numRequests - s.down.n, down := Timers(0))
    case CancelTimers =>
      var e := s.slots[s.down.k].event;
      if e == 0 then s.(down := Timers(s.down.k + 1))
      else
        s.(queue := s.queue - WithTag(s.queue, e), down := TimerCancelled(s.down.k, |WithTag(s.queue, e)|))
    case SubTimers => s.(numRequests := s.numRequests - s.down.n, down := Timers(s.down.k + 1))
    case FreeReqs => s.(down := Unmapped)
    case FreeState => s.(down := Freed)
  }

  // ---- Runs ----

  datatype Step =
    | ByEntry(e: EntryStep)
    | ByLock(t: nat, l: LockStep)
    | ByAct(t: nat, a: ActStep)
    | ByAnswer(t: nat, r: AnswerStep)
    | ByStop(t: nat, p: StopStep)
    | Exit(t: nat)
    | Arrive(v: Arrival)
    | TearDown(d: DownStep)

  predicate Enabled(s: State, step: Step) {
    match step
    case ByEntry(e) => EntryEnabled(s, e)
    case ByLock(t, l) => LockEnabled(s, t, l)
    case ByAct(t, a) => ActEnabled(s, t, a)
    case ByAnswer(t, r) => AnswerEnabled(s, t, r)
    case ByStop(t, p) => StopEnabled(s, t, p)
    case Exit(t) => ExitEnabled(s, t)
    case Arrive(v) => ArrivalEnabled(s, v)
    case TearDown(d) => DownEnabled(s, d)
  }

  function Next(s: State, step: Step): State
    requires Enabled(s, step)
  {
    match step
    case ByEntry(e) => EntryNext(s, e)
    case ByLock(t, l) => Land(LockMove(s, t, l), t, s.threads[t].work)
    case ByAct(t, a) => Land(ActMove(s, t, a), t, s.threads[t].work)
    case ByAnswer(t, r) => Land(AnswerMove(s, t, r), t, s.threads[t].work)
    case ByStop(t, p) => Land(StopMove(s, t, p), t, s.threads[t].work)
    case Exit(t) => ExitNext(s, t)
    case Arrive(v) => ArrivalNext(s, v)
    case TearDown(d) => DownNext(s, d)
  }

  ghost predicate Follows(s: State, s': State) {
    exists step :: Enabled(s, step) && s' == Next(s, step)
  }

  /** Each state of `run` follows from the one before it by some step. */
  ghost predicate Chained(run: seq<State>) {
    forall k {:trigger run[k]} :: 0 < k < |run| ==> Follows(run[k - 1], run[k])
  }

  /** `run` is a run of the protocol: it starts in an initial state. */
  ghost predicate IsRun(run: seq<State>) {
    run != [] && Init(run[0]) && Chained(run)
  }

  /** `s'` can be reached from `s`. */
  ghost predicate Leads(s: State, s': State) {
    exists run {:trigger Chained(run)} :: Chained(run) && run != [] && run[0] == s && run[|run| - 1] == s'
  }

  lemma LeadsHere(s: State)
    ensures Leads(s, s)
  {
    assert Chained([s]);
  }

  lemma ChainedOn(run: seq<State>, b: State)
    requires Chained(run) && run != [] && Follows(run[|run| - 1], b)
    ensures Chained(run + [b])
  {
    hide Follows;
    var longer := run + [b];
    forall k {:trigger longer[k]} | 0 < k < |longer|
      ensures Follows(longer[k - 1], longer[k])
    {
      if k < |run| {
        assert longer[k] == run[k] && longer[k - 1] == run[k - 1];
      }
    }
  }

  lemma LeadsOn(s: State, a: State, step: Step, b: State)
    requires Leads(s, a) && Enabled(a, step) && b == Next(a, step)
    ensures Leads(s, b)
  {
    hide Enabled, Next;
    var run :| Chained(run) && run != [] && run[0] == s && run[|run| - 1] == a;
    assert Follows(a, b);
    ChainedOn(run, b);
    assert (run + [b])[0] == s;
  }
}
