/**
 Stopping and restarting a transmit queue. A state keeps how many descriptors
 are in flight, how many of them the hardware has reported done, and whether
 the VMkernel has been told to stop sending. The methods of the queue are
 proved to make these steps and no others.
 */
module TxFlow {

  datatype Flow = Flow(inFlight: nat, reported: nat, stopped: bool)

  predicate ValidFlow(limit: nat, f: Flow) {
    f.reported <= f.inFlight <= limit
  }

  /** A packet with estimate `e` is handed over; the VMkernel does so only while the queue is not stopped. */
  predicate Sent(limit: nat, e: nat, f: Flow, g: Flow) {
    && !f.stopped
    && (if f.inFlight + e > limit then g == f.(stopped := true)
        else !g.stopped && g.reported == f.reported && f.inFlight <= g.inFlight <= f.inFlight + e)
  }

  /** The hardware reports more descriptors done. */
  predicate Reported(f: Flow, g: Flow) {
    g.inFlight == f.inFlight && g.stopped == f.stopped && f.reported <= g.reported <= f.inFlight
  }

  /** What was reported is completed; the queue restarts when no more than a quarter of the limit is left. */
  predicate Completed(limit: nat, f: Flow, g: Flow) {
    && f.reported <= f.inFlight
    && g == Flow(f.inFlight - f.reported, 0, f.stopped && f.inFlight - f.reported > limit / 4)
  }

  /** The steps of a started queue that is sent packets with estimates from `ests`. A completion follows a report. */
  predicate Step(limit: nat, ests: set<nat>, f: Flow, g: Flow) {
    || (exists e :: e in ests && Sent(limit, e, f, g))
    || Reported(f, g)
    || (f.reported > 0 && Completed(limit, f, g))
  }

  /** A run from an empty queue. */
  predicate IsRun(limit: nat, ests: set<nat>, run: seq<Flow>) {
    && run != [] && run[0] == Flow(0, 0, false)
    && forall i {:trigger run[i]} :: 0 < i < |run| ==> Step(limit, ests, run[i - 1], run[i])
  }

  /** Stopped, and nothing in flight whose completion could restart it. */
  predicate Stuck(f: Flow) {
    f.stopped && f.inFlight == 0
  }

  /** A stuck queue stays stuck: no step leads anywhere else. */
  lemma StuckForever(limit: nat, ests: set<nat>, f: Flow, g: Flow)
    requires ValidFlow(limit, f) && Stuck(f) && Step(limit, ests, f, g)
    ensures g == f
  {
  }

  lemma {:induction false} RunsStayValid(limit: nat, ests: set<nat>, run: seq<Flow>)
    requires IsRun(limit, ests, run)
    ensures ValidFlow(limit, run[|run| - 1])
    ensures (forall e :: e in ests ==> e <= limit) ==> !Stuck(run[|run| - 1])
  {
    var n := |run| - 1;
    if n > 0 {
      assert run[..n][n - 1] == run[n - 1];
      RunsStayValid(limit, ests, run[..n]);
      assert Step(limit, ests, run[n - 1], run[n]);
    }
  }

  /** Some run gets stuck exactly when some packet's estimate is beyond the limit. */
  lemma StuckIffTooLarge(limit: nat, ests: set<nat>)
    ensures (exists run :: IsRun(limit, ests, run) && Stuck(run[|run| - 1])) <==> (exists e :: e in ests && e > limit)
  {
    if e :| e in ests && e > limit {
      var run := [Flow(0, 0, false), Flow(0, 0, true)];
      assert Sent(limit, e, run[0], run[1]);
      assert IsRun(limit, ests, run) && Stuck(run[|run| - 1]);
    } else {
      forall run | IsRun(limit, ests, run)
        ensures !Stuck(run[|run| - 1])
      {
        RunsStayValid(limit, ests, run);
      }
    }
  }

  /**
   With estimates within the limit, a stopped queue always restarts once the
   hardware has done what is in flight: the report and the completion that
   follow are steps, and lead to a queue that is not stopped.
   */
  lemma StoppedQueueRestarts(limit: nat, ests: set<nat>, run: seq<Flow>)
    requires IsRun(limit, ests, run) && run[|run| - 1].stopped
    requires forall e :: e in ests ==> e <= limit
    ensures var f := run[|run| - 1];
      var done := f.(reported := f.inFlight);
      Step(limit, ests, f, done) && Step(limit, ests, done, Flow(0, 0, false))
  {
    RunsStayValid(limit, ests, run);
  }
}
