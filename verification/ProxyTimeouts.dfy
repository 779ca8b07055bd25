/** Jobs and events: a timeout only ever completes the request it was made for. */
module ProxyTimeouts {
  import opened ProxyProtocol
  import opened ProxyInvariant
  import opened ProxyCount
  import opened ProxyRequests

  /** The event world has taken a request on `i`, and its handler is not queued yet. */
  predicate Entering(e: Entry, i: nat) {
    (e.Took? || e.Tagged? || e.TimerQueued? || e.TimerCounted?) && e.i == i
  }

  /** A queued timeout belongs to the request its index is at, and that request is not yet answered. */
  predicate TimeoutOk(sl: Slot, i: nat, tag: nat, pc: Pc, e: Entry) {
    && tag == sl.curTag == sl.event
    && (sl.req.Incoming? || sl.req.Outstanding? || sl.req.Completing? || (sl.req.Completed? && pc == Complete(i)))
    && e != Took(i) && !(e.Tagged? && e.i == i)
  }

  /** A handler that has not begun belongs to the request its index is at, and that request is INCOMING. */
  predicate HandlerOk(sl: Slot, i: nat, tag: nat, e: Entry) {
    tag == sl.curTag == sl.event && sl.req.Incoming? && !Entering(e, i)
  }

  /** From the tagging of a request until its event is freed to answer it. */
  predicate HasEvent(sl: Slot, i: nat, pc: Pc, e: Entry) {
    || sl.req.Outstanding? || sl.req.Completing?
    || (sl.req.Incoming? && e != Took(i))
    || (sl.req.Completed? && pc != Claim(i))
  }

  predicate EventOk(sl: Slot, i: nat, pc: Pc, e: Entry, nextTag: nat) {
    && sl.event < nextTag && sl.curTag < nextTag
    && (HasEvent(sl, i, pc, e) ==> sl.event == sl.curTag > 0)
    && (Entering(e, i) ==> sl.req.Incoming? && (!e.Took? ==> e.tag == sl.curTag))
  }

  predicate QueuedOk(sl: Slot, j: Job, pc: Pc, e: Entry) {
    if j.Timeout? then TimeoutOk(sl, j.index, j.tag, pc, e) else HandlerOk(sl, j.index, j.tag, e)
  }

  predicate Queued(s: State) {
    forall j :: j in s.queue ==> j.index < |s.slots| && QueuedOk(s.slots[j.index], j, HolderPc(s), s.entry)
  }

  predicate Events(s: State) {
    forall i :: 0 <= i < |s.slots| ==> EventOk(s.slots[i], i, HolderPc(s), s.entry, s.nextTag)
  }

  /** What is known of the job that the helper is running, until it begins. */
  predicate JobOk(s: State, work: Work, pc: Pc) {
    match work
    case Handler(i, tag) =>
      (pc.Poll? || pc.Start?) ==>
        && i < |s.slots| && HandlerOk(s.slots[i], i, tag, s.entry) && Handle(i, tag) !in s.queue
    case Timer(i, tag) =>
      && i < |s.slots| && 0 < tag < s.nextTag
      && Timeout(i, tag) !in s.queue && Handle(i, tag) !in s.queue
      && ((s.entry.Tagged? || s.entry.TimerQueued? || s.entry.TimerCounted?) ==> s.entry.tag != tag)
      && ((pc.Poll? || pc.Start?) && s.slots[i].req.Outstanding? ==> s.slots[i].curTag == tag)
    case Callback => true
  }

  predicate Running0(s: State) {
    0 in s.threads ==> JobOk(s, s.threads[0].work, s.threads[0].pc)
  }

  predicate Pending(s: State) {
    Queued(s) && Events(s) && Running0(s)
  }

  /** A timeout that claims a request claims the one it was made for. */
  lemma TimeoutClaimsItsOwn(s: State, t: nat)
    requires Shape(s) && Pending(s) && ActEnabled(s, t, Begin)
    requires s.threads[t].work.Timer? && s.slots[s.threads[t].work.index].req.Outstanding?
    ensures s.slots[s.threads[t].work.index].curTag == s.threads[t].work.tag
  {
  }

  // ---- Steps of threads ----

  /** Whether a move leaves alone what is not about requests, and keeps the thread where it holds the lock. */
  predicate Stays(s: State, t: nat, m: Move) {
    && t in s.threads && m.rest.threads == s.threads && |m.rest.slots| == |s.slots| && m.rest.queue <= s.queue
    && m.rest.entry == s.entry && m.rest.nextTag == s.nextTag && !m.pc.Poll? && !m.pc.Start?
    && (forall i :: 0 <= i < |s.slots| ==> Holding(s, t, i))
    && HolderPc(s) == s.threads[t].pc && HolderPc(Land(m, t, s.threads[t].work)) == m.pc
  }

  lemma ActStays(s: State, t: nat, a: ActStep)
    requires Shape(s) && Lock(s) && Requests(s) && ActEnabled(s, t, a) && Moves(s, t, ActMove(s, t, a))
    ensures Stays(s, t, ActMove(s, t, a))
  {
    hide ThreadOk, RequestOk;
    ThreadsOk(s, t);
  }

  lemma AnswerStays(s: State, t: nat, a: AnswerStep)
    requires Shape(s) && Lock(s) && Requests(s) && AnswerEnabled(s, t, a) && Moves(s, t, AnswerMove(s, t, a))
    ensures Stays(s, t, AnswerMove(s, t, a))
  {
    hide ThreadOk, RequestOk;
    ThreadsOk(s, t);
  }

  lemma RunningJob(s: State)
    requires Running0(s) && 0 in s.threads
    ensures JobOk(s, s.threads[0].work, s.threads[0].pc)
  {
    hide JobOk;
  }

  lemma CallbackJob(s: State, pc: Pc)
    ensures JobOk(s, Callback, pc)
  {
  }

  lemma OwnJob(s: State, t: nat)
    requires Shape(s) && Running0(s) && t in s.threads
    ensures JobOk(s, s.threads[t].work, s.threads[t].pc)
  {
    hide JobOk, Running0;
    ThreadsOk(s, t);
    if t == 0 {
      RunningJob(s);
    } else {
      CallbackJob(s, s.threads[t].pc);
    }
  }

  /** A request that is INCOMING stays as it is, and none becomes OUTSTANDING. */
  predicate Undisturbed(sl: Slot, sl': Slot) {
    && (sl.req.Incoming? ==> sl'.req.Incoming? && sl'.event == sl.event && sl'.curTag == sl.curTag)
    && (sl'.req.Outstanding? ==> sl.req.Outstanding? && sl'.curTag == sl.curTag)
  }

  predicate SameJobs(s: State, s': State) {
    |s'.slots| == |s.slots| && s'.queue <= s.queue && s'.entry == s.entry && s'.nextTag == s.nextTag
  }

  lemma JobStays(s: State, s': State, work: Work, pc: Pc)
    requires JobOk(s, work, pc) && SameJobs(s, s')
    requires !work.Callback? && work.index < |s.slots| ==> Undisturbed(s.slots[work.index], s'.slots[work.index])
    ensures JobOk(s', work, pc)
  {
  }

  lemma JobBegun(s: State, s': State, work: Work, pc: Pc, pc': Pc)
    requires JobOk(s, work, pc) && SameJobs(s, s') && !pc'.Poll? && !pc'.Start?
    ensures JobOk(s', work, pc')
  {
  }

  /** A thread that holds the lock moves: its own job has begun, and the helper's, if another, is not disturbed. */
  lemma RunningAfter(s: State, t: nat, m: Move)
    requires Shape(s) && Running0(s) && Stays(s, t, m)
    requires t != 0 ==> forall i :: 0 <= i < |s.slots| ==> Undisturbed(s.slots[i], m.rest.slots[i])
    ensures Running0(Land(m, t, s.threads[t].work))
  {
    hide Shape, JobOk, Holding, HolderPc, Undisturbed;
    var s' := Land(m, t, s.threads[t].work);
    if t == 0 {
      JobBegun(s, s', s.threads[0].work, s.threads[0].pc, m.pc);
    } else if 0 in s.threads {
      JobStays(s, s', s.threads[0].work, s.threads[0].pc);
    }
  }

  lemma LockJob(s: State, t: nat, a: LockStep)
    requires Shape(s) && Running0(s) && LockEnabled(s, t, a) && !s.auth.Stopping?
    ensures JobOk(s, s.threads[t].work, LockMove(s, t, a).pc)
  {
    OwnJob(s, t);
  }

  /** The holder is nowhere where it matters for queued jobs and events, before and after. */
  lemma LockHolder(s: State, t: nat, a: LockStep)
    requires Lock(s) && LockEnabled(s, t, a) && !s.auth.Stopping? && Moves(s, t, LockMove(s, t, a))
    ensures var pc, pc' := HolderPc(s), HolderPc(Land(LockMove(s, t, a), t, s.threads[t].work));
      !pc.Complete? && !pc.Claim? && !pc'.Complete? && !pc'.Claim?
  {
    HolderAfter(s, t, LockMove(s, t, a));
  }

  lemma PcDoesNotMatter(sl: Slot, i: nat, e: Entry, nextTag: nat, pc: Pc, pc': Pc)
    requires !pc.Complete? && !pc.Claim? && !pc'.Complete? && !pc'.Claim?
    ensures EventOk(sl, i, pc, e, nextTag) ==> EventOk(sl, i, pc', e, nextTag)
    ensures forall j: Job :: j.index == i && QueuedOk(sl, j, pc, e) ==> QueuedOk(sl, j, pc', e)
  {
  }

  lemma SameJob(s: State, s': State, work: Work, pc: Pc)
    requires JobOk(s, work, pc) && SameJobs(s, s') && s'.slots == s.slots
    ensures JobOk(s', work, pc)
  {
  }

  lemma JobStaysThere(s: State, s': State)
    requires Running0(s) && SameJobs(s, s') && s'.slots == s.slots
    ensures 0 in s.threads ==> JobOk(s', s.threads[0].work, s.threads[0].pc)
  {
    hide JobOk;
    if 0 in s.threads {
      SameJob(s, s', s.threads[0].work, s.threads[0].pc);
    }
  }

  lemma LockPending(s: State, t: nat, a: LockStep)
    requires Shape(s) && Lock(s) && Pending(s) && LockEnabled(s, t, a) && !s.auth.Stopping?
    requires Moves(s, t, LockMove(s, t, a))
    ensures Pending(Land(LockMove(s, t, a), t, s.threads[t].work))
  {
    hide Shape, Lock, Moves, HolderPc, EventOk, QueuedOk, JobOk;
    LockHolder(s, t, a);
    LockJob(s, t, a);
    var s' := Land(LockMove(s, t, a), t, s.threads[t].work);
    forall i | 0 <= i < |s.slots|
      ensures EventOk(s.slots[i], i, HolderPc(s'), s.entry, s.nextTag)
      ensures forall j: Job :: j.index == i && QueuedOk(s.slots[i], j, HolderPc(s), s.entry)
                ==> QueuedOk(s.slots[i], j, HolderPc(s'), s.entry)
    {
      PcDoesNotMatter(s.slots[i], i, s.entry, s.nextTag, HolderPc(s), HolderPc(s'));
    }
    JobStaysThere(s, s');
    SameJob(s, s', s.threads[t].work, LockMove(s, t, a).pc);
  }

  lemma ActEvent(s: State, t: nat, a: ActStep, i: nat)
    requires ActEnabled(s, t, a) && Holding(s, t, i) && JobOk(s, s.threads[t].work, s.threads[t].pc)
    requires EventOk(s.slots[i], i, s.threads[t].pc, s.entry, s.nextTag)
    ensures |ActMove(s, t, a).rest.slots| == |s.slots|
    ensures EventOk(ActMove(s, t, a).rest.slots[i], i, ActMove(s, t, a).pc, s.entry, s.nextTag)
  {
    hide AfterAct;
    match a
    case Begin =>
    case Respond(_) =>
    case Execute(_) =>
    case Executed =>
    case Refuse =>
    case FailReq =>
  }

  lemma ActJob(s: State, t: nat, a: ActStep, j: Job)
    requires ActEnabled(s, t, a) && Holding(s, t, j.index) && JobOk(s, s.threads[t].work, s.threads[t].pc)
    requires j in s.queue && QueuedOk(s.slots[j.index], j, s.threads[t].pc, s.entry)
    ensures |ActMove(s, t, a).rest.slots| == |s.slots|
    ensures QueuedOk(ActMove(s, t, a).rest.slots[j.index], j, ActMove(s, t, a).pc, s.entry)
  {
    hide AfterAct;
    match a
    case Begin =>
    case Respond(_) =>
    case Execute(_) =>
    case Executed =>
    case Refuse =>
    case FailReq =>
  }

  lemma ActUndisturbed(s: State, t: nat, a: ActStep, i: nat)
    requires ActEnabled(s, t, a) && Holding(s, t, i) && t != 0
    ensures |ActMove(s, t, a).rest.slots| == |s.slots| && Undisturbed(s.slots[i], ActMove(s, t, a).rest.slots[i])
  {
    match a
    case Begin =>
    case Respond(_) =>
    case Execute(_) =>
    case Executed =>
    case Refuse =>
    case FailReq =>
  }

  lemma ActPending(s: State, t: nat, a: ActStep)
    requires Shape(s) && Lock(s) && Requests(s) && Pending(s) && ActEnabled(s, t, a)
    requires Moves(s, t, ActMove(s, t, a))
    ensures Pending(Land(ActMove(s, t, a), t, s.threads[t].work))
  {
    hide Shape, Lock, Requests, Moves, ActMove, ActEnabled, Holding, HolderPc, EventOk, QueuedOk, JobOk, Undisturbed;
    var m := ActMove(s, t, a);
    ActStays(s, t, a);
    OwnJob(s, t);
    forall i | 0 <= i < |s.slots|
      ensures EventOk(m.rest.slots[i], i, m.pc, s.entry, s.nextTag)
      ensures t != 0 ==> Undisturbed(s.slots[i], m.rest.slots[i])
    {
      ActEvent(s, t, a, i);
      if t != 0 {
        ActUndisturbed(s, t, a, i);
      }
    }
    forall j | j in s.queue
      ensures QueuedOk(m.rest.slots[j.index], j, m.pc, s.entry)
    {
      ActJob(s, t, a, j);
    }
    RunningAfter(s, t, m);
  }

  lemma AnswerEvent(s: State, t: nat, a: AnswerStep, i: nat)
    requires AnswerEnabled(s, t, a) && Holding(s, t, i)
    requires EventOk(s.slots[i], i, s.threads[t].pc, s.entry, s.nextTag)
    ensures |AnswerMove(s, t, a).rest.slots| == |s.slots|
    ensures EventOk(AnswerMove(s, t, a).rest.slots[i], i, AnswerMove(s, t, a).pc, s.entry, s.nextTag)
  {
    hide ThreadOk;
    match a
    case CancelTimer =>
    case Subtract =>
    case FreeEvent =>
    case ClaimAnswer =>
    case ClearReq =>
    case TellFw(_, _) =>
  }

  lemma AnswerJob(s: State, t: nat, a: AnswerStep, j: Job)
    requires AnswerEnabled(s, t, a) && Holding(s, t, j.index) && j in AnswerMove(s, t, a).rest.queue && j in s.queue
    requires EventOk(s.slots[j.index], j.index, s.threads[t].pc, s.entry, s.nextTag)
    requires QueuedOk(s.slots[j.index], j, s.threads[t].pc, s.entry)
    ensures |AnswerMove(s, t, a).rest.slots| == |s.slots|
    ensures QueuedOk(AnswerMove(s, t, a).rest.slots[j.index], j, AnswerMove(s, t, a).pc, s.entry)
  {
    hide ThreadOk;
    match a
    case CancelTimer =>
    case Subtract =>
    case FreeEvent =>
    case ClaimAnswer =>
    case ClearReq =>
    case TellFw(_, _) =>
  }

  lemma AnswerUndisturbed(s: State, t: nat, a: AnswerStep, i: nat)
    requires AnswerEnabled(s, t, a) && Holding(s, t, i)
    ensures |AnswerMove(s, t, a).rest.slots| == |s.slots| && Undisturbed(s.slots[i], AnswerMove(s, t, a).rest.slots[i])
  {
    hide ThreadOk;
    match a
    case CancelTimer =>
    case Subtract =>
    case FreeEvent =>
    case ClaimAnswer =>
    case ClearReq =>
    case TellFw(_, _) =>
  }

  lemma AnswerPending(s: State, t: nat, a: AnswerStep)
    requires Shape(s) && Lock(s) && Requests(s) && Pending(s) && AnswerEnabled(s, t, a)
    requires Moves(s, t, AnswerMove(s, t, a))
    ensures Pending(Land(AnswerMove(s, t, a), t, s.threads[t].work))
  {
    hide Shape, Lock, Requests, Moves, AnswerMove, AnswerEnabled;
    hide Holding, HolderPc, EventOk, QueuedOk, JobOk, Undisturbed;
    var m := AnswerMove(s, t, a);
    AnswerStays(s, t, a);
    forall i | 0 <= i < |s.slots|
      ensures EventOk(m.rest.slots[i], i, m.pc, s.entry, s.nextTag)
      ensures Undisturbed(s.slots[i], m.rest.slots[i])
    {
      AnswerEvent(s, t, a, i);
      AnswerUndisturbed(s, t, a, i);
    }
    forall j | j in m.rest.queue
      ensures QueuedOk(m.rest.slots[j.index], j, m.pc, s.entry)
    {
      AnswerJob(s, t, a, j);
    }
    RunningAfter(s, t, m);
  }

  // ---- The event world ----

  lemma EntryJob(s: State, e: EntryStep, j: Job, pc: Pc)
    requires EntryEnabled(s, e) && j.index < |s.slots| && QueuedOk(s.slots[j.index], j, pc, s.entry)
    ensures |EntryNext(s, e).slots| == |s.slots|
    ensures QueuedOk(EntryNext(s, e).slots[j.index], j, pc, EntryNext(s, e).entry)
  {
    match e
    case ReadAuth(_) =>
    case TakeReq =>
    case SetTag =>
    case QueueTimer =>
    case CountTimer =>
    case QueueHandler =>
    case CountHandler =>
  }

  lemma NewJob(s: State, e: EntryStep, j: Job, pc: Pc)
    requires EntryEnabled(s, e) && j in EntryNext(s, e).queue && j !in s.queue
    requires j.index < |s.slots| && EventOk(s.slots[j.index], j.index, pc, s.entry, s.nextTag)
    ensures |EntryNext(s, e).slots| == |s.slots|
    ensures QueuedOk(EntryNext(s, e).slots[j.index], j, pc, EntryNext(s, e).entry)
  {
  }

  /** Nothing changes for an index that the event world is not busy with. */
  lemma ElsewhereEvent(sl: Slot, sl': Slot, i: nat, pc: Pc, e: Entry, e': Entry, nextTag: nat, nextTag': nat)
    requires EventOk(sl, i, pc, e, nextTag) && !Entering(e, i) && !Entering(e', i)
    requires sl' == sl.(fw := sl'.fw) && nextTag <= nextTag'
    ensures EventOk(sl', i, pc, e', nextTag')
  {
  }

  /** The index it is busy with, while it takes and tags a request. */
  lemma TakenEvent(s: State, pc: Pc)
    requires EntryEnabled(s, TakeReq) && EventOk(s.slots[s.entry.i], s.entry.i, pc, s.entry, s.nextTag)
    ensures |EntryNext(s, TakeReq).slots| == |s.slots|
    ensures var s' := EntryNext(s, TakeReq); EventOk(s'.slots[s.entry.i], s.entry.i, pc, s'.entry, s'.nextTag)
  {
  }

  lemma TaggedEvent(s: State, pc: Pc)
    requires EntryEnabled(s, SetTag) && EventOk(s.slots[s.entry.i], s.entry.i, pc, s.entry, s.nextTag) && s.nextTag > 0
    ensures |EntryNext(s, SetTag).slots| == |s.slots|
    ensures var s' := EntryNext(s, SetTag); EventOk(s'.slots[s.entry.i], s.entry.i, pc, s'.entry, s'.nextTag)
  {
  }

  /** While it queues and counts the jobs. */
  lemma QueuedEvent(s: State, e: EntryStep, pc: Pc)
    requires EntryEnabled(s, e) && !e.ReadAuth? && !e.TakeReq? && !e.SetTag? && s.entry.i < |s.slots|
    requires EventOk(s.slots[s.entry.i], s.entry.i, pc, s.entry, s.nextTag)
    ensures EntryNext(s, e).slots == s.slots
    ensures var s' := EntryNext(s, e); EventOk(s.slots[s.entry.i], s.entry.i, pc, s'.entry, s'.nextTag)
  {
  }

  lemma NotBusy(s: State, e: EntryStep, i: nat)
    requires EntryEnabled(s, e) && i < |s.slots| && (e.ReadAuth? || s.entry.i != i)
    ensures !Entering(s.entry, i) && !Entering(EntryNext(s, e).entry, i) && s.nextTag <= EntryNext(s, e).nextTag
    ensures var slots := EntryNext(s, e).slots; |slots| == |s.slots| && slots[i] == s.slots[i].(fw := slots[i].fw)
  {
  }

  lemma EntryEvent(s: State, e: EntryStep, i: nat, pc: Pc)
    requires EntryEnabled(s, e) && i < |s.slots| && s.nextTag > 0 && (e.ReadAuth? || s.entry.i < |s.slots|)
    requires EventOk(s.slots[i], i, pc, s.entry, s.nextTag)
    ensures |EntryNext(s, e).slots| == |s.slots|
    ensures EventOk(EntryNext(s, e).slots[i], i, pc, EntryNext(s, e).entry, EntryNext(s, e).nextTag)
  {
    hide EntryNext, EventOk, Entering;
    if e.ReadAuth? || s.entry.i != i {
      NotBusy(s, e, i);
      var s' := EntryNext(s, e);
      ElsewhereEvent(s.slots[i], s'.slots[i], i, pc, s.entry, s'.entry, s.nextTag, s'.nextTag);
    } else if e.TakeReq? {
      TakenEvent(s, pc);
    } else if e.SetTag? {
      TaggedEvent(s, pc);
    } else {
      QueuedEvent(s, e, pc);
    }
  }

  /** While the event world takes and tags a request. */
  lemma TakingRunning(s: State, e: EntryStep, work: Work, pc: Pc, hpc: Pc)
    requires EntryEnabled(s, e) && (e.ReadAuth? || e.TakeReq? || e.SetTag?) && JobOk(s, work, pc)
    requires e.SetTag? ==> EventOk(s.slots[s.entry.i], s.entry.i, hpc, s.entry, s.nextTag)
    ensures JobOk(EntryNext(s, e), work, pc)
  {
    hide HasEvent;
  }

  /** While it queues and counts the jobs. */
  lemma QueuingRunning(s: State, e: EntryStep, work: Work, pc: Pc, hpc: Pc)
    requires EntryEnabled(s, e) && !(e.ReadAuth? || e.TakeReq? || e.SetTag?) && JobOk(s, work, pc)
    requires s.entry.i < |s.slots| && EventOk(s.slots[s.entry.i], s.entry.i, hpc, s.entry, s.nextTag)
    ensures JobOk(EntryNext(s, e), work, pc)
  {
    hide HasEvent;
  }

  lemma EntryShape(s: State, e: EntryStep)
    requires Shape(s) && FreshJobs(s) && EntryEnabled(s, e)
    ensures s.nextTag > 0 && |EntryNext(s, e).slots| == |s.slots| && EntryNext(s, e).threads == s.threads
    ensures e.ReadAuth? || (!s.entry.NoEvent? && s.entry.i < |s.slots|)
    ensures HolderPc(EntryNext(s, e)) == HolderPc(s)
    ensures forall j :: j in EntryNext(s, e).queue && j !in s.queue ==> j.index < |s.slots|
  {
  }

  lemma EntryPending(s: State, e: EntryStep)
    requires Shape(s) && FreshJobs(s) && Pending(s) && EntryEnabled(s, e)
    ensures Pending(EntryNext(s, e))
  {
    hide Shape, FreshJobs, EntryNext, HolderPc, EventOk, QueuedOk, JobOk;
    EntryShape(s, e);
    var s', pc := EntryNext(s, e), HolderPc(s);
    forall i | 0 <= i < |s.slots|
      ensures EventOk(s'.slots[i], i, pc, s'.entry, s'.nextTag)
    {
      EntryEvent(s, e, i, pc);
    }
    forall j | j in s'.queue
      ensures j.index < |s.slots| && QueuedOk(s'.slots[j.index], j, pc, s'.entry)
    {
      if j in s.queue {
        EntryJob(s, e, j, pc);
      } else {
        NewJob(s, e, j, pc);
      }
    }
    if 0 in s.threads {
      if e.ReadAuth? || e.TakeReq? || e.SetTag? {
        TakingRunning(s, e, s.threads[0].work, s.threads[0].pc, pc);
      } else {
        QueuingRunning(s, e, s.threads[0].work, s.threads[0].pc, pc);
      }
    }
  }

  lemma RaisePending(s: State, i: nat)
    requires Pending(s) && ArrivalEnabled(s, Raise(i))
    ensures Pending(ArrivalNext(s, Raise(i)))
  {
  }

  lemma DequeuePending(s: State, job: Job)
    requires Lock(s) && FreshJobs(s) && Pending(s) && ArrivalEnabled(s, Dequeue(job))
    ensures Pending(ArrivalNext(s, Dequeue(job)))
  {
    hide EventOk;
  }

  lemma EnterPending(s: State, t: nat)
    requires Lock(s) && Pending(s) && ArrivalEnabled(s, EnterCallback(t))
    ensures Pending(ArrivalNext(s, EnterCallback(t)))
  {
    hide EventOk, QueuedOk;
  }

  lemma ArrivalPending(s: State, v: Arrival)
    requires Lock(s) && FreshJobs(s) && Pending(s) && ArrivalEnabled(s, v)
    ensures Pending(ArrivalNext(s, v))
  {
    hide Lock, FreshJobs, Pending, ArrivalNext;
    match v
    case Raise(i) => RaisePending(s, i);
    case Dequeue(job) => DequeuePending(s, job);
    case EnterCallback(t) => EnterPending(s, t);
  }

  lemma ExitPending(s: State, t: nat)
    requires Lock(s) && Pending(s) && ExitEnabled(s, t)
    ensures Pending(ExitNext(s, t))
  {
  }
}
