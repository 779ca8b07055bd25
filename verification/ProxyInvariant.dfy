/** What every step of the proxy protocol keeps. */
module ProxyInvariant {
  import opened ProxyProtocol

  predicate Inside(pc: Pc) {
    || pc.Start? || pc.At? || pc.Exec? || pc.Complete? || pc.Sub? || pc.FreeEv? || pc.Claim? || pc.Clear?
    || pc.Tell? || pc.Fail? || pc.Release?
  }

  predicate InStop(pc: Pc) {
    pc.StopCancel? || pc.StopSub? || pc.StopFree? || pc.StopRelease?
  }

  /** The request a thread is busy with, for the places where it is busy with one. */
  predicate OnRequest(pc: Pc) {
    pc.Exec? || pc.Complete? || pc.Sub? || pc.FreeEv? || pc.Claim? || pc.Clear? || pc.Tell? || pc.Fail?
  }

  predicate ThreadOk(n: nat, t: nat, th: Thread) {
    && (th.work.Callback? <==> t > 0)
    && (OnRequest(th.pc) ==> th.pc.i < n)
    && (match th.work
        case Callback => !InStop(th.pc) && !th.pc.Start? && !th.pc.Fail?
        case Handler(i, _) => i < n && (OnRequest(th.pc) ==> th.pc.i == i)
        case Timer(i, _) =>
          && i < n && (OnRequest(th.pc) ==> th.pc.i == i)
          && (th.pc.Poll? || th.pc.Start? || th.pc.FreeEv? || th.pc.Claim? || th.pc.Clear? || th.pc.Tell?
              || th.pc.Release? || th.pc.StopFree? || th.pc.Leave?))
  }

  predicate Shape(s: State) {
    && (forall t {:trigger s.threads[t]} :: t in s.threads ==> ThreadOk(|s.slots|, t, s.threads[t]))
    && (forall j :: j in s.queue ==> j.index < |s.slots|)
    && (!s.entry.NoEvent? ==> s.entry.i < |s.slots|)
  }

  /** `authState` is a lock: RUNNING exactly while one thread is inside, and that thread is its holder. */
  predicate Lock(s: State) {
    && (s.auth.Running? <==> s.holder.Is?)
    && (s.holder.Is? ==> s.holder.t in s.threads)
    && (forall t {:trigger s.threads[t]} :: t in s.threads ==>
          && (Inside(s.threads[t].pc) <==> s.holder == Is(t))
          && (InStop(s.threads[t].pc) ==> s.auth.Stopping?))
    && (s.auth.Stopping? <==> !s.down.Up? && !s.down.Closing?)
    && (!s.down.Up? ==> s.entry.NoEvent?)
  }

  /** What a move does to the shape of the state and to the lock, as seen from the thread that makes it. */
  predicate Moves(s: State, t: nat, m: Move) {
    && t in s.threads
    && m.rest.threads == s.threads && |m.rest.slots| == |s.slots| && m.rest.queue <= s.queue
    && m.rest.entry == s.entry && m.rest.nextTag == s.nextTag && m.rest.down == s.down
    && ThreadOk(|s.slots|, t, Thread(s.threads[t].work, m.pc, m.again))
    && (m.rest.auth.Running? <==> m.rest.holder.Is?) && (m.rest.auth.Stopping? <==> s.auth.Stopping?)
    && (m.rest.holder == s.holder || (s.holder in {Nobody, Is(t)} && m.rest.holder in {Nobody, Is(t)}))
    && (Inside(m.pc) <==> m.rest.holder == Is(t))
    && (InStop(m.pc) ==> s.auth.Stopping?)
  }

  lemma LockMoves(s: State, t: nat, a: LockStep)
    requires Lock(s) && LockEnabled(s, t, a) && ThreadOk(|s.slots|, t, s.threads[t])
    ensures Moves(s, t, LockMove(s, t, a))
  {
  }

  lemma InsideHolds(s: State, t: nat)
    requires Lock(s) && t in s.threads && Inside(s.threads[t].pc)
    ensures s.holder == Is(t) && s.auth.Running?
  {
  }

  lemma OperationMoves(s: State, t: nat, a: ActStep)
    requires s.holder == Is(t) && s.auth.Running? && ActEnabled(s, t, a) && (a.Respond? || a.Execute? || a.Executed?)
    requires ThreadOk(|s.slots|, t, s.threads[t])
    ensures Moves(s, t, ActMove(s, t, a))
  {
  }

  lemma JobMoves(s: State, t: nat, a: ActStep)
    requires s.holder == Is(t) && s.auth.Running? && ActEnabled(s, t, a) && (a.Begin? || a.Refuse? || a.FailReq?)
    requires ThreadOk(|s.slots|, t, s.threads[t])
    ensures Moves(s, t, ActMove(s, t, a))
  {
  }

  lemma ActMoves(s: State, t: nat, a: ActStep)
    requires Lock(s) && ActEnabled(s, t, a) && ThreadOk(|s.slots|, t, s.threads[t])
    ensures Moves(s, t, ActMove(s, t, a))
  {
    hide Lock, ThreadOk, Moves, ActMove;
    InsideHolds(s, t);
    if a.Respond? || a.Execute? || a.Executed? {
      OperationMoves(s, t, a);
    } else {
      JobMoves(s, t, a);
    }
  }

  lemma CancelMoves(s: State, t: nat, a: AnswerStep)
    requires s.holder == Is(t) && s.auth.Running? && AnswerEnabled(s, t, a)
    requires ThreadOk(|s.slots|, t, s.threads[t]) && (a.CancelTimer? || a.Subtract? || a.FreeEvent?)
    ensures Moves(s, t, AnswerMove(s, t, a))
  {
  }

  lemma ReplyMoves(s: State, t: nat, a: AnswerStep)
    requires s.holder == Is(t) && s.auth.Running? && AnswerEnabled(s, t, a)
    requires ThreadOk(|s.slots|, t, s.threads[t]) && (a.ClaimAnswer? || a.ClearReq? || a.TellFw?)
    ensures Moves(s, t, AnswerMove(s, t, a))
  {
  }

  lemma AnswerMoves(s: State, t: nat, a: AnswerStep)
    requires Lock(s) && AnswerEnabled(s, t, a) && ThreadOk(|s.slots|, t, s.threads[t])
    ensures Moves(s, t, AnswerMove(s, t, a))
  {
    hide Lock, ThreadOk, Moves, AnswerMove;
    InsideHolds(s, t);
    if a.CancelTimer? || a.Subtract? || a.FreeEvent? {
      CancelMoves(s, t, a);
    } else {
      ReplyMoves(s, t, a);
    }
  }

  lemma StopMoves(s: State, t: nat, a: StopStep)
    requires Lock(s) && StopEnabled(s, t, a) && ThreadOk(|s.slots|, t, s.threads[t])
    ensures Moves(s, t, StopMove(s, t, a))
  {
  }

  /** A move of one thread keeps the shape and the lock. */
  lemma MoveKeeps(s: State, t: nat, m: Move)
    requires Shape(s) && Lock(s) && Moves(s, t, m)
    ensures Shape(Land(m, t, s.threads[t].work)) && Lock(Land(m, t, s.threads[t].work))
  {
  }

  lemma ExitKeeps(s: State, t: nat)
    requires Shape(s) && Lock(s) && ExitEnabled(s, t)
    ensures Shape(ExitNext(s, t)) && Lock(ExitNext(s, t))
  {
  }

  lemma EntryKeeps(s: State, e: EntryStep)
    requires Shape(s) && Lock(s) && EntryEnabled(s, e)
    ensures Shape(EntryNext(s, e)) && Lock(EntryNext(s, e))
  {
  }

  lemma ArrivalKeeps(s: State, v: Arrival)
    requires Shape(s) && Lock(s) && ArrivalEnabled(s, v)
    ensures Shape(ArrivalNext(s, v)) && Lock(ArrivalNext(s, v))
  {
  }

  lemma TeardownKeeps(s: State, d: DownStep)
    requires Shape(s) && Lock(s) && DownEnabled(s, d)
    ensures Shape(DownNext(s, d)) && Lock(DownNext(s, d))
  {
    hide ThreadOk, Inside;
  }

  lemma ThreadsOk(s: State, t: nat)
    requires Shape(s) && t in s.threads
    ensures ThreadOk(|s.slots|, t, s.threads[t])
  {
  }

  /** Every step keeps the shape of the state and the lock. */
  lemma StepKeepsLock(s: State, step: Step)
    requires Shape(s) && Lock(s) && Enabled(s, step)
    ensures Shape(Next(s, step)) && Lock(Next(s, step))
  {
    hide Shape, Lock;
    match step
    case ByEntry(e) => EntryKeeps(s, e);
    case ByLock(t, l) => ThreadsOk(s, t); LockMoves(s, t, l); MoveKeeps(s, t, LockMove(s, t, l));
    case ByAct(t, a) => ThreadsOk(s, t); ActMoves(s, t, a); MoveKeeps(s, t, ActMove(s, t, a));
    case ByAnswer(t, r) => ThreadsOk(s, t); AnswerMoves(s, t, r); MoveKeeps(s, t, AnswerMove(s, t, r));
    case ByStop(t, p) => ThreadsOk(s, t); StopMoves(s, t, p); MoveKeeps(s, t, StopMove(s, t, p));
    case Exit(t) => ExitKeeps(s, t);
    case Arrive(v) => ArrivalKeeps(s, v);
    case TearDown(d) => TeardownKeeps(s, d);
  }
}
