/** Requests: each is answered at most once, by whoever claimed it. */
module ProxyRequests {
  import opened ProxyProtocol
  import opened ProxyInvariant

  /** Where the holder of the lock is; `Poll` stands for nobody. */
  function HolderPc(s: State): Pc {
    if s.holder.Is? && s.holder.t in s.threads then s.threads[s.holder.t].pc else Poll
  }

  function HolderWork(s: State): Work {
    if s.holder.Is? && s.holder.t in s.threads then s.threads[s.holder.t].work else Callback
  }

  /** The request on index `i` is in a state of being answered exactly while the holder is answering it. */
  predicate RequestOk(sl: Slot, i: nat, pc: Pc, work: Work, e: Entry) {
    && (sl.req.Completing? <==> pc == Exec(i))
    && (sl.req.Completed? <==> pc == Complete(i) || (pc.Sub? && pc.i == i) || pc == FreeEv(i) || pc == Claim(i))
    && (sl.req.Responding? <==> pc == Clear(i))
    && (pc == Tell(i) ==> sl.req.Idle? && sl.fw.Waiting?)
    && (work.Handler? && work.index == i && (pc.At? || pc == Fail(i)) ==> sl.req.Outstanding?)
    && (!sl.req.Idle? ==> sl.fw.Waiting?)
    && (e == Checked(i) ==> sl.fw.Waiting? && sl.req.Idle? && pc != Tell(i))
    && sl.taken - sl.answered == if sl.req.Idle? then 0 else 1
  }

  predicate Requests(s: State) {
    forall i :: 0 <= i < |s.slots| ==> RequestOk(s.slots[i], i, HolderPc(s), HolderWork(s), s.entry)
  }

  /** The holder of the lock after a move of thread `t`. */
  lemma HolderAfter(s: State, t: nat, m: Move)
    requires Lock(s) && Moves(s, t, m)
    ensures var s' := Land(m, t, s.threads[t].work);
      && (HolderPc(s') == if m.rest.holder == Is(t) then m.pc else HolderPc(m.rest))
      && (HolderWork(s') == if m.rest.holder == Is(t) then s.threads[t].work else HolderWork(m.rest))
      && (m.rest.holder != Is(t) ==> s.holder != Is(t) || m.rest.holder.Nobody?)
  {
  }

  /** What a move must do to the requests. */
  predicate Serves(s: State, t: nat, m: Move) {
    && Moves(s, t, m)
    && forall i :: 0 <= i < |s.slots| ==>
         (if m.rest.holder == Is(t) then RequestOk(m.rest.slots[i], i, m.pc, s.threads[t].work, s.entry)
          else if s.holder == Is(t) then RequestOk(m.rest.slots[i], i, Poll, Callback, s.entry)
          else m.rest.slots[i].(event := 0) == s.slots[i].(event := 0))
  }

  lemma ServesKeeps(s: State, t: nat, m: Move)
    requires Lock(s) && Requests(s) && Serves(s, t, m)
    ensures Requests(Land(m, t, s.threads[t].work))
  {
  }

  lemma LockServes(s: State, t: nat, a: LockStep)
    requires Shape(s) && Lock(s) && Requests(s) && LockEnabled(s, t, a) && Moves(s, t, LockMove(s, t, a))
    ensures Serves(s, t, LockMove(s, t, a))
  {
  }

  /** A move of the holder, seen from one index. */
  predicate ServesOne(s: State, t: nat, m: Move, i: nat)
    requires t in s.threads
  {
    && i < |m.rest.slots| == |s.slots|
    && RequestOk(m.rest.slots[i], i, m.pc, s.threads[t].work, s.entry)
  }

  predicate Holding(s: State, t: nat, i: nat) {
    && t in s.threads && ThreadOk(|s.slots|, t, s.threads[t]) && s.auth.Running? && i < |s.slots|
    && RequestOk(s.slots[i], i, s.threads[t].pc, s.threads[t].work, s.entry)
  }

  lemma BeginServes(s: State, t: nat, i: nat)
    requires ActEnabled(s, t, Begin) && Holding(s, t, i)
    ensures ServesOne(s, t, ActMove(s, t, Begin), i)
  {
  }

  lemma RespondServes(s: State, t: nat, a: ActStep, i: nat)
    requires ActEnabled(s, t, a) && (a.Respond? || a.Execute?) && Holding(s, t, i)
    ensures ServesOne(s, t, ActMove(s, t, a), i)
  {
    hide ThreadOk;
    match a
    case Respond(_) =>
    case Execute(_) =>
  }

  lemma OtherActServes(s: State, t: nat, a: ActStep, i: nat)
    requires ActEnabled(s, t, a) && (a.Executed? || a.Refuse? || a.FailReq?) && Holding(s, t, i)
    ensures ServesOne(s, t, ActMove(s, t, a), i)
  {
  }

  lemma ActServes(s: State, t: nat, a: ActStep)
    requires Shape(s) && Lock(s) && Requests(s) && ActEnabled(s, t, a) && Moves(s, t, ActMove(s, t, a))
    ensures Serves(s, t, ActMove(s, t, a))
  {
    ThreadsOk(s, t);
    assert Inside(s.threads[t].pc);
    assert ActMove(s, t, a).rest.holder == s.holder;
    hide ActMove, ThreadOk, RequestOk, Moves, Shape;
    forall i | 0 <= i < |s.slots|
      ensures RequestOk(ActMove(s, t, a).rest.slots[i], i, ActMove(s, t, a).pc, s.threads[t].work, s.entry)
    {
      if a.Begin? {
        BeginServes(s, t, i);
      } else if a.Respond? || a.Execute? {
        RespondServes(s, t, a, i);
      } else {
        OtherActServes(s, t, a, i);
      }
    }
  }

  lemma AnswerServesOne(s: State, t: nat, a: AnswerStep, i: nat)
    requires AnswerEnabled(s, t, a) && Holding(s, t, i) && !AnswerMove(s, t, a).rest.tellFailed
    ensures ServesOne(s, t, AnswerMove(s, t, a), i)
  {
    match a
    case CancelTimer =>
    case Subtract =>
    case FreeEvent =>
    case ClaimAnswer =>
    case ClearReq =>
    case TellFw(_, _) =>
  }

  lemma AnswerServes(s: State, t: nat, a: AnswerStep)
    requires Shape(s) && Lock(s) && Requests(s) && AnswerEnabled(s, t, a) && Moves(s, t, AnswerMove(s, t, a))
    requires !AnswerMove(s, t, a).rest.tellFailed
    ensures Serves(s, t, AnswerMove(s, t, a))
  {
    ThreadsOk(s, t);
    assert Inside(s.threads[t].pc);
    assert AnswerMove(s, t, a).rest.holder == s.holder;
    hide AnswerMove, ThreadOk, RequestOk, Moves, Shape;
    forall i | 0 <= i < |s.slots|
      ensures RequestOk(AnswerMove(s, t, a).rest.slots[i], i, AnswerMove(s, t, a).pc, s.threads[t].work, s.entry)
    {
      AnswerServesOne(s, t, a, i);
    }
  }

  lemma StopServes(s: State, t: nat, a: StopStep)
    requires Shape(s) && Lock(s) && Requests(s) && StopEnabled(s, t, a) && Moves(s, t, StopMove(s, t, a))
    ensures Serves(s, t, StopMove(s, t, a))
  {
  }

  lemma RequestsByEntry(s: State, e: EntryStep)
    requires Lock(s) && Requests(s) && EntryEnabled(s, e)
    ensures Requests(EntryNext(s, e))
  {
  }

  lemma RequestsByArrival(s: State, v: Arrival)
    requires Lock(s) && Requests(s) && ArrivalEnabled(s, v)
    ensures Requests(ArrivalNext(s, v))
  {
  }

  lemma RequestsByExit(s: State, t: nat)
    requires Lock(s) && Requests(s) && ExitEnabled(s, t)
    ensures Requests(ExitNext(s, t))
  {
  }

  lemma RequestsByTeardown(s: State, d: DownStep)
    requires Requests(s) && DownEnabled(s, d)
    ensures Requests(DownNext(s, d))
  {
  }

  /** As long as the firmware refuses no handler's first completion, every step keeps the requests in order. */
  lemma StepKeepsRequests(s: State, step: Step)
    requires Shape(s) && Lock(s) && Requests(s) && Enabled(s, step) && !Next(s, step).tellFailed
    ensures Requests(Next(s, step))
  {
    hide Shape, Lock, Requests, Moves, Serves;
    match step
    case ByEntry(e) => RequestsByEntry(s, e);
    case ByLock(t, l) => ThreadsOk(s, t); LockMoves(s, t, l); LockServes(s, t, l); ServesKeeps(s, t, LockMove(s, t, l));
    case ByAct(t, a) => ThreadsOk(s, t); ActMoves(s, t, a); ActServes(s, t, a); ServesKeeps(s, t, ActMove(s, t, a));
    case ByAnswer(t, r) =>
      ThreadsOk(s, t); AnswerMoves(s, t, r); AnswerServes(s, t, r); ServesKeeps(s, t, AnswerMove(s, t, r));
    case ByStop(t, p) => ThreadsOk(s, t); StopMoves(s, t, p); StopServes(s, t, p); ServesKeeps(s, t, StopMove(s, t, p));
    case Exit(t) => RequestsByExit(s, t);
    case Arrive(v) => RequestsByArrival(s, v);
    case TearDown(d) => RequestsByTeardown(s, d);
  }
}
