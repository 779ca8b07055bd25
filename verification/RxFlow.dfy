/**
 Keeping a receive queue supplied. A state keeps how many buffers the hardware
 has and has not completed, how many of those it has reported, and how many
 refill requests and events are on their way. The methods of the queue are
 proved to make these steps and no others while the queue is started.
 */
module RxFlow {

  datatype Flow = Flow(left: nat, reported: nat, requests: nat, events: nat)

  /** The ring is filled as far as buffers can be had; if the hardware has none then, a refill is asked for. */
  predicate Filled(f: Flow, g: Flow, submitOk: bool) {
    && f.left <= g.left && g.reported == f.reported && g.events == f.events
    && g.requests == f.requests + if g.left == 0 && submitOk then 1 else 0
  }

  /** The hardware reports more buffers done. */
  predicate Reported(f: Flow, g: Flow) {
    g == f.(reported := g.reported) && f.reported <= g.reported <= f.left
  }

  /** What was reported is completed, and the ring is filled if it has run low. */
  predicate Completed(f: Flow, g: Flow, submitOk: bool) {
    f.reported <= f.left && Filled(Flow(f.left - f.reported, 0, f.requests, f.events), g, submitOk)
  }

  /** The helper turns a refill request into an event. */
  predicate Helped(f: Flow, g: Flow) {
    f.requests > 0 && g == f.(requests := f.requests - 1, events := f.events + 1)
  }

  /** The event arrives, and the ring is filled. */
  predicate Arrived(f: Flow, g: Flow, submitOk: bool) {
    f.events > 0 && Filled(f.(events := f.events - 1), g, submitOk)
  }

  /** A step of a started queue; `canFail` tells whether a refill request may fail to be submitted. */
  predicate Step(canFail: bool, f: Flow, g: Flow) {
    || Reported(f, g) || Helped(f, g)
    || (f.reported > 0 && (Completed(f, g, true) || (canFail && Completed(f, g, false))))
    || Arrived(f, g, true) || (canFail && Arrived(f, g, false))
  }

  /** A run from the fill that a start ends with. */
  predicate IsRun(canFail: bool, run: seq<Flow>) {
    && run != []
    && (Filled(Flow(0, 0, 0, 0), run[0], true) || (canFail && Filled(Flow(0, 0, 0, 0), run[0], false)))
    && forall i {:trigger run[i]} :: 0 < i < |run| ==> Step(canFail, run[i - 1], run[i])
  }

  /** The hardware has no buffer, and nothing is on its way that would give it one. */
  predicate Starved(f: Flow) {
    f.left == 0 && f.requests == 0 && f.events == 0
  }

  /** A starved queue stays starved. */
  lemma StarvedForever(canFail: bool, f: Flow, g: Flow)
    requires f.reported <= f.left && Starved(f) && Step(canFail, f, g)
    ensures g == f
  {
  }

  lemma {:induction false} RunsAreSupplied(run: seq<Flow>)
    requires IsRun(false, run)
    ensures var f := run[|run| - 1]; f.reported <= f.left && !Starved(f)
  {
    var n := |run| - 1;
    if n > 0 {
      assert run[..n][n - 1] == run[n - 1];
      RunsAreSupplied(run[..n]);
      assert Step(false, run[n - 1], run[n]);
    }
  }

  /** Some run starves exactly when a refill request may fail to be submitted. */
  lemma StarvesIffSubmitFails(canFail: bool)
    ensures (exists run :: IsRun(canFail, run) && Starved(run[|run| - 1])) <==> canFail
  {
    if canFail {
      var run := [Flow(0, 0, 0, 0)];
      assert Filled(Flow(0, 0, 0, 0), run[0], false);
      assert IsRun(canFail, run) && Starved(run[|run| - 1]);
    } else {
      forall run | IsRun(false, run)
        ensures !Starved(run[|run| - 1])
      {
        RunsAreSupplied(run);
      }
    }
  }
}
