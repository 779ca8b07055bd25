/** What the protocol achieves: requests are taken and answered, and from every state of every run all work can end. */
module ProxyProgress {
  import opened ProxyProtocol
  import opened ProxyInvariant
  import opened ProxyCount
  import opened ProxyRequests
  import opened ProxyTimeouts
  import opened ProxyTeardown
  import opened ProxySafety
  import opened ProxyPairs

  function Moved(s: State, t: nat, work: Work, pc: Pc, again: bool): State {
    s.(threads := s.threads[t := Thread(work, pc, again)])
  }

  // ---- Answering a request ----

  /** The timeouts that answering request `i` cancels. */
  function GoneFrom(s: State, i: nat): set<Job>
    requires i < |s.slots|
  {
    if s.slots[i].event == 0 then {} else WithTag(s.queue, s.slots[i].event)
  }

  /** Thread `t` has answered request `i` and is about to tell the firmware. */
  function Replied(s: State, t: nat, i: nat): State
    requires t in s.threads && i < |s.slots|
  {
    var sl, th := s.slots[i], s.threads[t];
    Moved(Put(s, i, sl.(req := Idle, event := 0, answered := sl.answered + 1)), t, th.work, Tell(i), th.again)
  }

  lemma CancelLeads(first: State, s: State, t: nat, i: nat)
    requires Leads(first, s) && t in s.threads && s.threads[t].pc == Complete(i) && i < |s.slots|
    ensures var gone := GoneFrom(s, i);
      Leads(first, Moved(s, t, s.threads[t].work, FreeEv(i), s.threads[t].again)
                     .(queue := s.queue - gone, numRequests := s.numRequests - |gone|))
  {
    hide Leads;
    var th, gone := s.threads[t], GoneFrom(s, i);
    var b := Moved(s, t, th.work, FreeEv(i), th.again).(queue := s.queue - gone, numRequests := s.numRequests - |gone|);
    if s.slots[i].event == 0 {
      assert s.queue - gone == s.queue;
      LeadsOn(first, s, ByAnswer(t, CancelTimer), b);
    } else {
      var a := Moved(s, t, th.work, Sub(i, |gone|), th.again).(queue := s.queue - gone);
      LeadsOn(first, s, ByAnswer(t, CancelTimer), a);
      assert Moved(a, t, th.work, FreeEv(i), th.again).threads == b.threads;
      LeadsOn(first, a, ByAnswer(t, Subtract), b);
    }
  }

  lemma FreeLeads(first: State, s: State, t: nat, i: nat)
    requires Leads(first, s) && t in s.threads && s.threads[t].pc == FreeEv(i) && i < |s.slots|
    ensures Leads(first, Moved(Put(s, i, s.slots[i].(event := 0)), t, s.threads[t].work, Claim(i), s.threads[t].again))
  {
    hide Leads;
    var sl, th := s.slots[i], s.threads[t];
    LeadsOn(first, s, ByAnswer(t, FreeEvent), Moved(Put(s, i, sl.(event := 0)), t, th.work, Claim(i), th.again));
  }

  lemma ClaimLeads(first: State, s: State, t: nat, i: nat)
    requires Leads(first, s) && t in s.threads && s.threads[t].pc == Claim(i)
    requires i < |s.slots| && s.slots[i].req.Completed?
    ensures Leads(first, Moved(Put(s, i, s.slots[i].(req := Idle, answered := s.slots[i].answered + 1)), t,
                               s.threads[t].work, Tell(i), s.threads[t].again))
  {
    hide Leads;
    var sl, th := s.slots[i], s.threads[t];
    var d := Moved(Put(s, i, sl.(req := Responding)), t, th.work, Clear(i), th.again);
    LeadsOn(first, s, ByAnswer(t, ClaimAnswer), d);
    var e := Moved(Put(s, i, sl.(req := Idle, answered := sl.answered + 1)), t, th.work, Tell(i), th.again);
    assert e.slots == Put(d, i, d.slots[i].(req := Idle, answered := d.slots[i].answered + 1)).slots;
    assert e.threads == d.threads[t := Thread(th.work, Tell(i), th.again)];
    LeadsOn(first, d, ByAnswer(t, ClearReq), e);
  }

  /** From a freed event to telling the firmware: what a timeout does when it has claimed its request. */
  lemma FreedReplies(first: State, s: State, t: nat, i: nat)
    requires Leads(first, s) && t in s.threads && s.threads[t].pc == FreeEv(i)
    requires i < |s.slots| && s.slots[i].req.Completed?
    ensures Leads(first, Replied(s, t, i))
  {
    hide Leads;
    var sl, th := s.slots[i], s.threads[t];
    FreeLeads(first, s, t, i);
    var c := Moved(Put(s, i, sl.(event := 0)), t, th.work, Claim(i), th.again);
    ClaimLeads(first, c, t, i);
    var cl := c.slots[i];
    var d := Moved(Put(c, i, cl.(req := Idle, answered := cl.answered + 1)), t, th.work, Tell(i), th.again);
    assert d.slots == Replied(s, t, i).slots;
    assert d.threads == Replied(s, t, i).threads;
  }

  /** From COMPLETED to telling the firmware; the request's timeout is cancelled. */
  lemma CompletedReplies(first: State, s: State, t: nat, i: nat)
    requires Leads(first, s) && t in s.threads && s.threads[t].pc == Complete(i)
    requires i < |s.slots| && s.slots[i].req.Completed?
    ensures var gone := GoneFrom(s, i);
      Leads(first, Replied(s, t, i).(queue := s.queue - gone, numRequests := s.numRequests - |gone|))
  {
    hide Leads, GoneFrom;
    var th, gone := s.threads[t], GoneFrom(s, i);
    CancelLeads(first, s, t, i);
    var b := Moved(s, t, th.work, FreeEv(i), th.again).(queue := s.queue - gone, numRequests := s.numRequests - |gone|);
    FreedReplies(first, b, t, i);
    assert Replied(b, t, i).threads == Replied(s, t, i).threads;
  }

  /** The firmware is told. */
  lemma ToldLeads(first: State, s: State, t: nat, i: nat)
    requires Leads(first, s) && t in s.threads && s.threads[t].pc == Tell(i) && i < |s.slots|
    ensures Leads(first, Moved(Put(s, i, s.slots[i].(fw := Free)), t, s.threads[t].work,
                               AfterAct(s.threads[t], i, true), s.threads[t].again))
  {
    hide Leads;
    var sl, th := s.slots[i], s.threads[t];
    var b := Moved(Put(s, i, sl.(fw := Free)), t, th.work, AfterAct(th, i, true), th.again);
    LeadsOn(first, s, ByAnswer(t, TellFw(true, true)), b);
  }

  /**
   Request `i` has been answered once and the firmware knows; its event and its
   timeout are gone. The thread that did it goes on as `again` says.
   */
  function Settled(s: State, t: nat, i: nat, again: bool): State
    requires t in s.threads && i < |s.slots|
  {
    var sl, gone, work := s.slots[i], GoneFrom(s, i), s.threads[t].work;
    s.(slots := s.slots[i := Slot(Idle, 0, sl.curTag, Free, sl.taken, sl.answered + 1)],
       queue := s.queue - gone, numRequests := s.numRequests - |gone|,
       threads := s.threads[t := Thread(work, if work.Callback? then At else Release, again)])
  }

  lemma CompletedSettles(first: State, s: State, t: nat, i: nat)
    requires Leads(first, s) && t in s.threads && s.threads[t].pc == Complete(i)
    requires i < |s.slots| && s.slots[i].req.Completed?
    ensures Leads(first, Settled(s, t, i, s.threads[t].again))
  {
    hide Leads, GoneFrom;
    var th, gone := s.threads[t], GoneFrom(s, i);
    CompletedReplies(first, s, t, i);
    var a := Replied(s, t, i).(queue := s.queue - gone, numRequests := s.numRequests - |gone|);
    ToldLeads(first, a, t, i);
    var r := Settled(s, t, i, th.again);
    assert Put(a, i, a.slots[i].(fw := Free)).slots == r.slots;
    assert a.threads[t := Thread(th.work, AfterAct(th, i, true), th.again)] == r.threads;
  }

  lemma SettledAlike(s: State, a: State, t: nat, i: nat, th: Thread, again: bool)
    requires t in s.threads && i < |s.slots| && i < |a.slots| && th.work == s.threads[t].work
    requires a == Moved(SetReq(s, i, a.slots[i].req), t, th.work, th.pc, th.again)
    ensures t in a.threads && Settled(a, t, i, again) == Settled(s, t, i, again)
  {
    assert Settled(a, t, i, again).slots == Settled(s, t, i, again).slots;
    assert Settled(a, t, i, again).threads == Settled(s, t, i, again).threads;
  }

  lemma RespondLeads(first: State, s: State, t: nat, i: nat)
    requires Leads(first, s) && ActEnabled(s, t, Respond(i)) && s.slots[i].req.Outstanding? && s.auth.Running?
    ensures Leads(first, Settled(s, t, i, s.threads[t].again))
  {
    hide Leads, Settled;
    var a := Next(s, ByAct(t, Respond(i)));
    LeadsOn(first, s, ByAct(t, Respond(i)), a);
    CompletedSettles(first, a, t, i);
    SettledAlike(s, a, t, i, a.threads[t], s.threads[t].again);
  }

  /** A thread that responds to a request answers it. */
  lemma RespondAnswers(s: State, t: nat, i: nat)
    requires Safe(s) && ActEnabled(s, t, Respond(i)) && s.slots[i].req.Outstanding?
    ensures Leads(Next(s, ByAct(t, Respond(i))), Settled(s, t, i, s.threads[t].again))
  {
    hide Leads, Settled, Count, FreshJobs, Requests, Pending, Halted, Shape;
    InsideHolds(s, t);
    var th, a := s.threads[t], Next(s, ByAct(t, Respond(i)));
    LeadsHere(a);
    CompletedSettles(a, a, t, i);
    SettledAlike(s, a, t, i, a.threads[t], th.again);
  }

  /** A thread that executes the operation of a request, to answer it then, does so. */
  lemma ExecuteAnswers(s: State, t: nat, i: nat)
    requires Safe(s) && ActEnabled(s, t, Execute(i)) && s.slots[i].req.Outstanding?
    ensures Leads(Next(s, ByAct(t, Execute(i))), Settled(s, t, i, s.threads[t].again))
  {
    hide Leads, Settled, Count, FreshJobs, Requests, Pending, Halted, Shape;
    InsideHolds(s, t);
    var th, a := s.threads[t], Next(s, ByAct(t, Execute(i)));
    LeadsHere(a);
    var b := Next(a, ByAct(t, Executed));
    LeadsOn(a, a, ByAct(t, Executed), b);
    CompletedSettles(a, b, t, i);
    SettledAlike(s, a, t, i, a.threads[t], th.again);
    SettledAlike(a, b, t, i, b.threads[t], th.again);
  }

  /** A handler whose authorisation fails declines its request: that is an answer too. */
  lemma RefuseAnswers(s: State, t: nat)
    requires Safe(s) && ActEnabled(s, t, Refuse) && !s.tellFailed
    ensures s.threads[t].work.index < |s.slots|
    ensures Leads(Next(s, ByAct(t, Refuse)), Settled(s, t, s.threads[t].work.index, true))
  {
    hide Leads, Settled, Count, FreshJobs, Requests, Pending, Halted;
    InsideHolds(s, t);
    ThreadsOk(s, t);
    var i, th, a := s.threads[t].work.index, s.threads[t], Next(s, ByAct(t, Refuse));
    LeadsHere(a);
    var b := Next(a, ByAct(t, FailReq));
    LeadsOn(a, a, ByAct(t, FailReq), b);
    CompletedSettles(a, b, t, i);
    assert a == Moved(SetReq(s, i, a.slots[i].req), t, th.work, Fail(i), th.again);
    SettledAlike(s, a, t, i, a.threads[t], true);
    SettledAlike(a, b, t, i, b.threads[t], true);
  }

  lemma FreedSettles(first: State, s: State, a: State, t: nat, i: nat)
    requires t in s.threads && i < |s.slots| && s.threads[t].work.Timer? && Leads(first, a)
    requires a == Moved(SetReq(s, i, Completed), t, s.threads[t].work, FreeEv(i), s.threads[t].again)
    ensures Leads(first, Settled(s, t, i, s.threads[t].again).(queue := s.queue, numRequests := s.numRequests))
  {
    hide Leads;
    var th := s.threads[t];
    FreedReplies(first, a, t, i);
    var b := Replied(a, t, i);
    ToldLeads(first, b, t, i);
    var r := Settled(s, t, i, th.again).(queue := s.queue, numRequests := s.numRequests);
    assert Put(b, i, b.slots[i].(fw := Free)).slots == r.slots;
    assert b.threads[t := Thread(th.work, Release, th.again)] == r.threads;
  }

  lemma TimeoutLeads(first: State, s: State, t: nat)
    requires Leads(first, s) && ActEnabled(s, t, Begin) && s.threads[t].work.Timer?
    requires s.slots[s.threads[t].work.index].req.Outstanding?
    ensures Leads(first, Settled(s, t, s.threads[t].work.index, s.threads[t].again)
                           .(queue := s.queue, numRequests := s.numRequests))
  {
    hide Leads, Settled;
    var a := Next(s, ByAct(t, Begin));
    LeadsOn(first, s, ByAct(t, Begin), a);
    FreedSettles(first, s, a, t, s.threads[t].work.index);
  }

  /** A timeout that finds its request OUTSTANDING answers it; there is no timeout to cancel but itself. */
  lemma TimeoutAnswers(s: State, t: nat)
    requires ActEnabled(s, t, Begin) && s.threads[t].work.Timer?
    requires s.slots[s.threads[t].work.index].req.Outstanding?
    ensures Leads(Next(s, ByAct(t, Begin)), Settled(s, t, s.threads[t].work.index, s.threads[t].again)
                                              .(queue := s.queue, numRequests := s.numRequests))
  {
    hide Leads, Settled;
    var a := Next(s, ByAct(t, Begin));
    LeadsHere(a);
    FreedSettles(a, s, a, t, s.threads[t].work.index);
  }

  // ---- From the firmware to the handler ----

  /** The request on `i` has been taken, with the next tag, and both its jobs are queued and counted. */
  function Taken(s: State, i: nat): State
    requires i < |s.slots|
  {
    var sl, g := s.slots[i], s.nextTag;
    s.(slots := s.slots[i := Slot(Incoming, g, g, Waiting, sl.taken + 1, sl.answered)], nextTag := g + 1,
       queue := s.queue + {Timeout(i, g)} + {Handle(i, g)}, numRequests := s.numRequests + 2, entry := NoEvent)
  }

  lemma TagLeads(first: State, s: State, i: nat)
    requires Leads(first, s) && i < |s.slots| && s.entry == Took(i)
    ensures var sl, g := s.slots[i], s.nextTag;
      Leads(first, Put(s, i, sl.(event := g, curTag := g))
                     .(nextTag := g + 1, queue := s.queue + {Timeout(i, g)}, numRequests := s.numRequests + 1,
                       entry := TimerCounted(i, g)))
  {
    hide Leads;
    var sl, g := s.slots[i], s.nextTag;
    var d := Put(s, i, sl.(event := g, curTag := g)).(nextTag := g + 1, entry := Tagged(i, g));
    var e := d.(queue := s.queue + {Timeout(i, g)}, entry := TimerQueued(i, g));
    LeadsOn(first, s, ByEntry(SetTag), d);
    LeadsOn(first, d, ByEntry(QueueTimer), e);
    LeadsOn(first, e, ByEntry(CountTimer), e.(numRequests := s.numRequests + 1, entry := TimerCounted(i, g)));
  }

  lemma ReadLeads(first: State, s: State, i: nat)
    requires Leads(first, s) && EntryEnabled(s, ReadAuth(i)) && s.slots[i].req.Idle? && !s.auth.Stopping?
    ensures Leads(first, Put(s, i, s.slots[i].(req := Incoming, fw := Waiting, taken := s.slots[i].taken + 1))
                           .(entry := Took(i)))
  {
    hide Leads;
    var sl := s.slots[i];
    var a := Put(s, i, sl.(fw := Waiting)).(entry := Checked(i));
    LeadsOn(first, s, ByEntry(ReadAuth(i)), a);
    var b := Put(s, i, sl.(req := Incoming, fw := Waiting, taken := sl.taken + 1)).(entry := Took(i));
    assert b.slots == Put(a, i, a.slots[i].(req := Incoming, taken := a.slots[i].taken + 1)).slots;
    LeadsOn(first, a, ByEntry(TakeReq), b);
  }

  lemma RaisedLeads(first: State, s: State, i: nat)
    requires Leads(first, s) && EntryEnabled(s, ReadAuth(i)) && s.slots[i].req.Idle? && !s.auth.Stopping?
    ensures Leads(first, Taken(s, i))
  {
    hide Leads;
    var sl, g := s.slots[i], s.nextTag;
    ReadLeads(first, s, i);
    var b := Put(s, i, sl.(req := Incoming, fw := Waiting, taken := sl.taken + 1)).(entry := Took(i));
    TagLeads(first, b, i);
    var f := Put(b, i, b.slots[i].(event := g, curTag := g))
      .(nextTag := g + 1, queue := s.queue + {Timeout(i, g)}, numRequests := s.numRequests + 1,
        entry := TimerCounted(i, g));
    var h := f.(queue := f.queue + {Handle(i, g)}, entry := HandlerQueued(i, g));
    LeadsOn(first, f, ByEntry(QueueHandler), h);
    assert h.slots == Taken(s, i).slots;
    LeadsOn(first, h, ByEntry(CountHandler), Taken(s, i));
  }

  /** A request that the firmware raises is taken, and both its jobs are queued. */
  lemma RaisedIsTaken(s: State, i: nat)
    requires Safe(s) && !s.tellFailed && !s.auth.Stopping? && EntryEnabled(s, ReadAuth(i))
    ensures Leads(s, Taken(s, i))
  {
    hide Leads, Shape, Lock, FreshJobs, Count, Pending, Halted, Taken;
    assert RequestOk(s.slots[i], i, HolderPc(s), HolderWork(s), s.entry);
    LeadsHere(s);
    RaisedLeads(s, s, i);
  }

  /** The helper has dequeued `job`, which holds the lock. */
  function Dequeued(s: State, job: Job): State {
    Moved(s, 0, WorkOf(job), Start, false).(queue := s.queue - {job}, auth := Running, holder := Is(0))
  }

  lemma DequeueLeads(first: State, s: State, job: Job)
    requires Leads(first, s) && ArrivalEnabled(s, Dequeue(job)) && s.auth.Ready?
    ensures Leads(first, Dequeued(s, job))
  {
    hide Leads;
    var a := Moved(s, 0, WorkOf(job), Poll, false).(queue := s.queue - {job});
    LeadsOn(first, s, Arrive(Dequeue(job)), a);
    assert a.threads[0 := Thread(WorkOf(job), Start, false)] == Dequeued(s, job).threads;
    LeadsOn(first, a, ByLock(0, Acquire), Dequeued(s, job));
  }

  /** The handler of request `i` has claimed it and asks the hypervisor. */
  function Asking(s: State, i: nat, g: nat): State
    requires i < |s.slots|
  {
    Moved(SetReq(s, i, Outstanding), 0, Handler(i, g), At, false)
      .(queue := s.queue - {Handle(i, g)}, auth := Running, holder := Is(0))
  }

  lemma HandlerLeads(first: State, s: State, i: nat, g: nat)
    requires Leads(first, s) && ArrivalEnabled(s, Dequeue(Handle(i, g))) && s.auth.Ready?
    requires i < |s.slots| && s.slots[i].req.Incoming?
    ensures Leads(first, Asking(s, i, g))
  {
    hide Leads;
    DequeueLeads(first, s, Handle(i, g));
    var a := Dequeued(s, Handle(i, g));
    assert a.threads[0 := Thread(Handler(i, g), At, false)] == Asking(s, i, g).threads;
    LeadsOn(first, a, ByAct(0, Begin), Asking(s, i, g));
  }

  lemma QueuedIsIncoming(s: State, i: nat, g: nat)
    requires Safe(s) && !s.tellFailed && !s.auth.Stopping? && Handle(i, g) in s.queue
    ensures i < |s.slots| && s.slots[i].req.Incoming? && s.slots[i].event == g && !s.down.Unmapped? && !s.down.Freed?
  {
    hide Shape, FreshJobs, Count, Requests, Events, Running0, Halted;
  }

  /** A handler that is queued gets to its request when the helper and the lock are free. */
  lemma QueuedHandlerBegins(s: State, i: nat, g: nat)
    requires Safe(s) && !s.tellFailed && s.auth.Ready? && Handle(i, g) in s.queue && 0 !in s.threads
    ensures i < |s.slots| && Leads(s, Asking(s, i, g))
  {
    hide Safe, Leads, Asking;
    QueuedIsIncoming(s, i, g);
    LeadsHere(s);
    HandlerLeads(s, s, i, g);
  }

  /** A timeout that is queued answers its request, when the helper and the lock are free and nobody else has. */
  lemma QueuedTimeoutAnswers(s: State, i: nat, g: nat)
    requires ArrivalEnabled(s, Dequeue(Timeout(i, g))) && s.auth.Ready? && i < |s.slots| && s.slots[i].req.Outstanding?
    ensures var a := Dequeued(s, Timeout(i, g));
      Leads(s, Settled(a, 0, i, false).(queue := a.queue, numRequests := a.numRequests))
  {
    hide Leads, Settled;
    var a := Dequeued(s, Timeout(i, g));
    LeadsHere(s);
    DequeueLeads(s, s, Timeout(i, g));
    TimeoutLeads(s, a, 0);
  }

  /** A callback of the hypervisor takes the lock. */
  function Called(s: State, t: nat): State {
    Moved(s, t, Callback, At, false).(numRequests := s.numRequests + 1, auth := Running, holder := Is(t))
  }

  lemma CallLeads(first: State, s: State, t: nat)
    requires Leads(first, s) && ArrivalEnabled(s, EnterCallback(t)) && s.auth.Ready?
    ensures Leads(first, Called(s, t))
  {
    hide Leads;
    var a := Moved(s, t, Callback, Poll, false).(numRequests := s.numRequests + 1);
    LeadsOn(first, s, Arrive(EnterCallback(t)), a);
    assert a.threads[t := Thread(Callback, At, false)] == Called(s, t).threads;
    LeadsOn(first, a, ByLock(t, Acquire), Called(s, t));
  }

  /** A callback that finds the lock free answers a request that waits for it. */
  lemma CallbackAnswers(s: State, t: nat, i: nat)
    requires ArrivalEnabled(s, EnterCallback(t)) && s.auth.Ready? && i < |s.slots| && s.slots[i].req.Outstanding?
    ensures Leads(s, Settled(Called(s, t), t, i, false))
  {
    hide Leads, Settled;
    LeadsHere(s);
    CallLeads(s, s, t);
    RespondLeads(s, Called(s, t), t, i);
  }

  // ---- Jobs that meet STOPPING ----

  /**
   A handler that has met STOPPING: its request's timeout is cancelled and
   discounted, its event freed, and it is about to release a lock that it does
   not hold, which changes nothing.
   */
  function Dropped(s: State, i: nat, g: nat): State
    requires i < |s.slots| && 0 in s.threads
  {
    var gone := WithTag(s.queue, s.slots[i].event);
    Moved(Put(s, i, s.slots[i].(event := 0)), 0, Handler(i, g), StopRelease, s.threads[0].again)
      .(queue := s.queue - gone, numRequests := s.numRequests - |gone|)
  }

  lemma StoppingHandlerEnds(s: State, i: nat, g: nat)
    requires StopEnabled(s, 0, StopCancelTimer) && s.threads[0].work == Handler(i, g) && s.auth.Stopping?
    ensures Leads(s, Dropped(s, i, g))
    ensures LockEnabled(Dropped(s, i, g), 0, ReleaseLock)
    ensures LockMove(Dropped(s, i, g), 0, ReleaseLock) == Move(Dropped(s, i, g), Leave, s.threads[0].again)
  {
    hide Leads;
    var th, gone := s.threads[0], WithTag(s.queue, s.slots[i].event);
    var a := Moved(s, 0, th.work, StopSub(|gone|), th.again).(queue := s.queue - gone);
    LeadsHere(s);
    LeadsOn(s, s, ByStop(0, StopCancelTimer), a);
    var b := Moved(a, 0, th.work, StopFree, th.again).(numRequests := s.numRequests - |gone|);
    LeadsOn(s, a, ByStop(0, StopSubtract), b);
    assert b.threads[0 := Thread(th.work, StopRelease, th.again)] == Dropped(s, i, g).threads;
    LeadsOn(s, b, ByStop(0, StopFreeEvent), Dropped(s, i, g));
  }

  /** A timeout that has met STOPPING frees the event of its index and leaves. */
  lemma StoppingTimeoutEnds(s: State, i: nat, g: nat)
    requires StopEnabled(s, 0, StopFreeEvent) && s.threads[0].work == Timer(i, g)
    ensures Leads(s, Moved(Put(s, i, s.slots[i].(event := 0)), 0, Timer(i, g), Leave, s.threads[0].again))
  {
    hide Leads;
    LeadsHere(s);
    LeadsOn(s, s, ByStop(0, StopFreeEvent),
            Moved(Put(s, i, s.slots[i].(event := 0)), 0, Timer(i, g), Leave, s.threads[0].again));
  }
}
