/** Runs that show why the theorems about the proxy protocol have conditions. */
module ProxyCounterexamples {
  import opened ProxyProtocol
  import opened ProxyInvariant
  import opened ProxyCount
  import opened ProxyRequests
  import opened ProxyTimeouts
  import opened ProxyTeardown
  import opened ProxySafety
  import opened ProxyProgress
  import opened ProxyShutdown

  ghost predicate Reachable(s: State) {
    exists first :: Init(first) && Leads(first, s)
  }

  lemma Go(s: State, step: Step, s': State)
    requires Reachable(s) && Enabled(s, step) && s' == Next(s, step)
    ensures Reachable(s')
  {
    hide Enabled, Next, Leads, Init;
    var first :| Init(first) && Leads(first, s);
    LeadsOn(first, s, step, s');
  }

  /** One index, nothing going on. */
  const QUIET: State :=
    State(Ready, 0, [Slot(Idle, 0, 0, Free, 0, 0)], {}, map[], NoEvent, 1, Up, Nobody, false, false)

  lemma QuietIsReachable()
    ensures Reachable(QUIET)
  {
    LeadsHere(QUIET);
  }

  /** The only slot after a step that changes it. */
  function With(s: State, slot: Slot): State {
    s.(slots := [slot])
  }

  lemma PutIsWith(s: State, slot: Slot)
    requires |s.slots| == 1
    ensures Put(s, 0, slot) == With(s, slot)
  {
  }

  predicate Free1(s: State) {
    && s.entry.NoEvent? && s.down.Up? && !s.auth.Stopping? && |s.slots| == 1
    && s.slots[0].req.Idle? && s.slots[0].fw.Free? && s.nextTag > 0
  }

  /** A state after the firmware has raised a request and the event world has taken it. */
  function Raised1(s: State): State
    requires Free1(s)
  {
    var sl, g := s.slots[0], s.nextTag;
    State(s.auth, s.numRequests + 2, [Slot(Incoming, g, g, Waiting, sl.taken + 1, sl.answered)],
          s.queue + {Timeout(0, g)} + {Handle(0, g)}, s.threads, NoEvent, g + 1, Up, s.holder, s.tellFailed, s.stale)
  }

  lemma RaiseAndTake(s: State)
    requires Reachable(s) && Free1(s)
    ensures Reachable(Raised1(s))
  {
    hide Leads, Init;
    var first :| Init(first) && Leads(first, s);
    var a := With(s, s.slots[0].(fw := Raised));
    PutIsWith(s, s.slots[0].(fw := Raised));
    LeadsOn(first, s, Arrive(Raise(0)), a);
    RaisedLeads(first, a, 0);
    assert Taken(a, 0) == Raised1(s);
  }

  /** The helper dequeues a handler, which takes the lock and claims its request. */
  lemma HandlerBegins(s: State, g: nat)
    requires Reachable(s) && |s.slots| == 1 && s.slots[0].req.Incoming? && s.auth.Ready? && s.down.Up?
    requires s.entry.NoEvent? && Handle(0, g) in s.queue && 0 !in s.threads
    ensures Reachable(Asking(s, 0, g))
  {
    hide Leads, Init, Asking;
    var first :| Init(first) && Leads(first, s);
    HandlerLeads(first, s, 0, g);
  }

  /** Answering request 0: from COMPLETED to telling the firmware. */
  function Answered(s: State, t: nat): State
    requires t in s.threads && |s.slots| == 1
  {
    Replied(s, t, 0).(queue := s.queue - GoneFrom(s, 0), numRequests := s.numRequests - |GoneFrom(s, 0)|)
  }

  lemma AnswerIt(s: State, t: nat)
    requires Reachable(s) && t in s.threads && s.threads[t].pc == Complete(0)
    requires |s.slots| == 1 && s.slots[0].req.Completed?
    ensures Reachable(Answered(s, t))
  {
    hide Leads, Init, Replied, GoneFrom;
    var first :| Init(first) && Leads(first, s);
    CompletedReplies(first, s, t, 0);
  }

  /** The first handler has claimed its request. */
  function Begun1(): State {
    Asking(Raised1(QUIET), 0, 1)
  }

  /** The first handler has its request COMPLETED. */
  function Completing1(): State {
    var b := Begun1();
    Moved(With(b, b.slots[0].(req := Completed)), 0, Handler(0, 1), Complete(0), false)
  }

  /** The first handler has answered its request and is about to tell the firmware. */
  const TOLD: State :=
    State(Running, 1, [Slot(Idle, 0, 1, Waiting, 1, 1)], {}, map[0 := Thread(Handler(0, 1), Tell(0), false)],
          NoEvent, 2, Up, Is(0), false, false)

  lemma Begun1IsReachable()
    ensures Reachable(Begun1()) && |Begun1().slots| == 1 && 0 in Begun1().threads
  {
    hide Reachable;
    QuietIsReachable();
    RaiseAndTake(QUIET);
    HandlerBegins(Raised1(QUIET), 1);
  }

  lemma AnsweredIsTold()
    ensures 0 in Completing1().threads && |Completing1().slots| == 1 && Answered(Completing1(), 0) == TOLD
  {
    var c := Completing1();
    assert c.queue == {Timeout(0, 1)};
    assert WithTag(c.queue, 1) == {Timeout(0, 1)} && c.queue - {Timeout(0, 1)} == {};
    assert Answered(c, 0).threads == TOLD.threads;
  }

  lemma ToldIsReachable()
    ensures Reachable(TOLD)
  {
    hide Reachable;
    Begun1IsReachable();
    var b := Begun1();
    PutIsWith(b, b.slots[0].(req := Completed));
    Go(b, ByAct(0, Respond(0)), Completing1());
    AnswerIt(Completing1(), 0);
    AnsweredIsTold();
  }

  /**
   When the firmware refuses the first completion a handler makes, the handler
   completes the request once more: one request taken, two answers.
   */
  lemma AnsweredTwice()
    ensures exists s: State :: Reachable(s) && |s.slots| == 1 && s.slots[0].taken == 1 && s.slots[0].answered == 2
  {
    hide Reachable, GoneFrom;
    ToldIsReachable();
    var w, again := Handler(0, 1), TOLD.slots[0].(req := Completed);
    var e := Moved(TOLD, 0, w, Fail(0), false).(tellFailed := true);
    Go(TOLD, ByAnswer(0, TellFw(false, false)), e);
    PutIsWith(e, again);
    var f := Moved(With(e, again), 0, w, Complete(0), true);
    Go(e, ByAct(0, FailReq), f);
    AnswerIt(f, 0);
    assert Reachable(Answered(f, 0)) && Answered(f, 0).slots[0].answered == 2;
  }

  /**
   The call that failed had reached the firmware, which has raised a second
   request, and the event world took it.
   */
  const OVERWRITING: State :=
    State(Running, 3, [Slot(Incoming, 2, 2, Waiting, 2, 1)], {Timeout(0, 2), Handle(0, 2)},
          map[0 := Thread(Handler(0, 1), Fail(0), false)], NoEvent, 3, Up, Is(0), true, false)

  /** Then the first request's handler is about to write COMPLETED over the INCOMING of the second request. */
  lemma LaterRequestOverwritten()
    ensures Reachable(OVERWRITING)
    ensures OVERWRITING.slots[0].req.Incoming? && ActEnabled(OVERWRITING, 0, FailReq)
    ensures OVERWRITING.threads[0].work.tag < OVERWRITING.slots[0].curTag && Handle(0, 2) in OVERWRITING.queue
  {
    hide Reachable;
    ToldIsReachable();
    PutIsWith(TOLD, TOLD.slots[0].(fw := Free));
    var a := Moved(With(TOLD, TOLD.slots[0].(fw := Free)), 0, Handler(0, 1), Fail(0), false).(tellFailed := true);
    Go(TOLD, ByAnswer(0, TellFw(false, true)), a);
    RaiseAndTake(a);
    assert Raised1(a).queue == OVERWRITING.queue && Raised1(a).threads == OVERWRITING.threads;
  }

  /** The handler of the first request has written COMPLETED. */
  const OVERWRITTEN: State :=
    State(Running, 3, [Slot(Completed, 2, 2, Waiting, 2, 1)], {Timeout(0, 2), Handle(0, 2)},
          map[0 := Thread(Handler(0, 1), Complete(0), true)], NoEvent, 3, Up, Is(0), true, false)

  /** And the second request is answered while its own handler is still queued. */
  lemma LaterRequestAnswered()
    ensures exists s: State :: Reachable(s) && |s.slots| == 1 && s.slots[0].curTag == 2 && s.slots[0].req.Idle?
              && s.slots[0].taken == 2 && s.slots[0].answered == 2 && Handle(0, 2) in s.queue
  {
    hide Reachable;
    LaterRequestOverwritten();
    PutIsWith(OVERWRITING, OVERWRITTEN.slots[0]);
    assert OVERWRITING.threads[0 := OVERWRITTEN.threads[0]] == OVERWRITTEN.threads;
    Go(OVERWRITING, ByAct(0, FailReq), OVERWRITTEN);
    AnswerIt(OVERWRITTEN, 0);
    assert Reachable(Answered(OVERWRITTEN, 0)) && Handle(0, 2) in Answered(OVERWRITTEN, 0).queue;
  }

  /**
   The condition of `AnsweredOnce` is needed: whenever the firmware refuses a
   handler's first completion, the handler's next step makes taken minus
   answered zero on an index that is not IDLE.
   */
  lemma RefusalBreaksAnsweredOnce(s: State, t: nat, reached: bool)
    requires Safe(s) && !s.tellFailed && AnswerEnabled(s, t, TellFw(false, reached))
    requires s.threads[t].work.Handler? && !s.threads[t].again
    ensures var s1 := Next(s, ByAnswer(t, TellFw(false, reached)));
      && Enabled(s1, ByAct(t, FailReq))
      && var sl := Next(s1, ByAct(t, FailReq)).slots[s.threads[t].pc.i];
         !sl.req.Idle? && sl.taken - sl.answered == 0
  {
    hide Pending, Halted, FreshJobs, Count;
    assert Inside(s.threads[t].pc);
    ThreadsOk(s, t);
    assert RequestOk(s.slots[s.threads[t].pc.i], s.threads[t].pc.i, HolderPc(s), HolderWork(s), s.entry);
  }

  /** A thread that holds the lock and has nothing more to do lets go and ends. */
  function Ended(s: State, t: nat): State {
    s.(auth := Ready, holder := Nobody, threads := s.threads - {t}, numRequests := s.numRequests - 1)
  }

  lemma End(s: State, t: nat)
    requires Reachable(s) && t in s.threads && s.threads[t].pc.At? && s.auth.Running?
    ensures Reachable(Ended(s, t))
  {
    hide Reachable;
    var th := s.threads[t];
    var a := Moved(s, t, th.work, Release, th.again);
    Go(s, ByLock(t, Finish), a);
    var b := Moved(a, t, th.work, Leave, th.again).(auth := Ready, holder := Nobody);
    Go(a, ByLock(t, ReleaseLock), b);
    assert b.threads - {t} == s.threads - {t};
    Go(b, Exit(t), Ended(s, t));
  }

  /** The hypervisor has a request, its handler is gone, its timeout waits. */
  const ASKED: State :=
    State(Ready, 1, [Slot(Outstanding, 1, 1, Waiting, 1, 0)], {Timeout(0, 1)}, map[],
          NoEvent, 2, Up, Nobody, false, false)

  lemma AskedIsReachable()
    ensures Reachable(ASKED)
  {
    hide Reachable;
    Begun1IsReachable();
    var b := Begun1();
    End(b, 0);
    assert Raised1(QUIET).queue - {Handle(0, 1)} == {Timeout(0, 1)};
    assert Ended(b, 0) == ASKED;
  }

  const WAITING: Thread := Thread(Timer(0, 1), Poll, false)

  /** While the timeout waits for the lock, a callback answers the request. */
  const OVERTAKEN: State :=
    State(Running, 2, [Slot(Idle, 0, 1, Free, 1, 1)], {}, map[0 := WAITING, 1 := Thread(Callback, At, false)],
          NoEvent, 2, Up, Is(1), false, false)

  /** A callback has the lock while the timeout waits for it. */
  const CALLED: State :=
    State(Running, 2, [Slot(Outstanding, 1, 1, Waiting, 1, 0)], {}, map[0 := WAITING, 1 := Thread(Callback, At, false)],
          NoEvent, 2, Up, Is(1), false, false)

  lemma CalledIsReachable()
    ensures Reachable(CALLED)
  {
    hide Reachable;
    AskedIsReachable();
    var a := ASKED.(queue := {}, threads := map[0 := WAITING]);
    assert ASKED.queue - {Timeout(0, 1)} == {};
    Go(ASKED, Arrive(Dequeue(Timeout(0, 1))), a);
    var b := Moved(a, 1, Callback, Poll, false).(numRequests := 2);
    Go(a, Arrive(EnterCallback(1)), b);
    var c := Moved(b, 1, Callback, At, false).(auth := Running, holder := Is(1));
    Go(b, ByLock(1, Acquire), c);
    assert c == CALLED;
  }

  lemma OvertakenIsReachable()
    ensures Reachable(OVERTAKEN)
  {
    hide Reachable;
    CalledIsReachable();
    var done := CALLED.slots[0].(req := Completed);
    PutIsWith(CALLED, done);
    var d := Moved(With(CALLED, done), 1, Callback, Complete(0), false);
    Go(CALLED, ByAct(1, Respond(0)), d);
    AnswerIt(d, 1);
    var e := Answered(d, 1);
    assert WithTag({}, 1) == {} && e.queue == {};
    var told := e.slots[0].(fw := Free);
    PutIsWith(e, told);
    var f := Moved(With(e, told), 1, Callback, At, false);
    Go(e, ByAnswer(1, TellFw(true, true)), f);
    assert f.threads == OVERTAKEN.threads;
  }

  /** The index has a new request, the timeout still waits, and teardown stops the protocol. */
  const STALE: State :=
    State(Stopping, 3, [Slot(Incoming, 2, 2, Waiting, 2, 1)], {Timeout(0, 2), Handle(0, 2)}, map[0 := WAITING],
          NoEvent, 3, Stopped, Nobody, false, true)

  lemma StaleIsReachable()
    ensures Reachable(STALE)
  {
    hide Reachable;
    OvertakenIsReachable();
    RaiseAndTake(OVERTAKEN);
    var a := Raised1(OVERTAKEN);
    End(a, 1);
    var b := Ended(a, 1);
    assert b.threads == map[0 := WAITING] && b.queue == {Timeout(0, 2), Handle(0, 2)};
    Go(b, TearDown(Close), b.(down := Closing));
    Go(b.(down := Closing), TearDown(Stop), STALE);
  }

  /** The request states are freed, the timeout of the second request is still queued. */
  const LEFTOVER: State :=
    State(Stopping, 1, [Slot(Incoming, 0, 2, Waiting, 2, 1)], {Timeout(0, 2)}, map[],
          NoEvent, 3, Unmapped, Nobody, false, true)

  /** The stale timeout has freed the event of the new request, and ended. */
  const EMPTIED: State :=
    State(Stopping, 2, [Slot(Incoming, 0, 2, Waiting, 2, 1)], {Timeout(0, 2), Handle(0, 2)}, map[],
          NoEvent, 3, Stopped, Nobody, false, true)

  lemma EmptiedIsReachable()
    ensures Reachable(EMPTIED)
  {
    hide Reachable;
    StaleIsReachable();
    var a := Moved(STALE, 0, Timer(0, 1), StopFree, false);
    Go(STALE, ByLock(0, MeetStopping), a);
    PutIsWith(a, EMPTIED.slots[0]);
    var b := Moved(With(a, EMPTIED.slots[0]), 0, Timer(0, 1), Leave, false);
    Go(a, ByStop(0, StopFreeEvent), b);
    assert b.threads - {0} == map[];
    Go(b, Exit(0), EMPTIED);
  }

  lemma LeftoverIsReachable()
    ensures Reachable(LEFTOVER)
  {
    hide Reachable;
    EmptiedIsReachable();
    var c := EMPTIED;
    assert Tagged0(c.queue) == {Handle(0, 2)} && c.queue - {Handle(0, 2)} == {Timeout(0, 2)};
    var d := c.(queue := {Timeout(0, 2)}, down := HandlersCancelled(1));
    Go(c, TearDown(CancelHandlers), d);
    var e := d.(numRequests := 1, down := Timers(0));
    Go(d, TearDown(SubHandlers), e);
    Go(e, TearDown(CancelTimers), e.(down := Timers(1)));
    Go(e.(down := Timers(1)), TearDown(FreeReqs), LEFTOVER);
  }

  /**
   A timeout that waits for the lock while its request is answered and a new
   one comes, and then meets STOPPING, frees the event of the new request.
   Teardown does not find the timeout that belongs to that event: the job is
   left in the queue when the request states are freed, and the wait for
   numRequests to become zero never ends.
   */
  lemma StaleTimeoutLeavesJob()
    ensures Reachable(LEFTOVER) && LEFTOVER.queue != {}
    ensures forall step :: Enabled(LEFTOVER, step) ==> step.Arrive? && step.v.Raise?
  {
    hide Reachable;
    LeftoverIsReachable();
  }

  /**
   The handler of the new request is dequeued after that timeout: it meets
   STOPPING, and there is no event whose timeout it could cancel.
   */
  lemma HandlerFindsNoEvent()
    ensures exists s: State :: Reachable(s) && ReadsNoEvent(s, 0)
  {
    hide Reachable;
    EmptiedIsReachable();
    var a := EMPTIED.(queue := {Timeout(0, 2)}, threads := map[0 := Thread(Handler(0, 2), Poll, false)]);
    assert EMPTIED.queue - {Handle(0, 2)} == {Timeout(0, 2)};
    Go(EMPTIED, Arrive(Dequeue(Handle(0, 2))), a);
    var b := Moved(a, 0, Handler(0, 2), StopCancel, false);
    Go(a, ByLock(0, MeetStopping), b);
    assert ReadsNoEvent(b, 0);
  }
}
