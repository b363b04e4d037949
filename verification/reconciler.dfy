/**
 * The reconciler goroutine started by `startDaemon`: a loop that waits for
 * either the shutdown request or the five-minute timer. On shutdown it sends
 * one acknowledgement and returns; on the timer it runs one sweep and logs
 * the sweep's error, if any, and waits again.
 *
 * The loop is modelled as a function of the sequence of things that wake its
 * `select`, in the order it observes them. A timer wake carries the outcome of
 * the sweep it triggers.
 */
module Reconciler {
  import opened Errors
  import opened Trace

  /**
   * What wakes the loop's `select`. A timer wake carries the `result` of
   * `Sweep.CleanupClusters` for the listing, clock readings, kill results
   * and drain order of the sweep it triggers.
   */
  datatype Wake = TimerFired(sweep: MaybeError) | ShutdownReceived

  /** What the loop did with a sequence of wakes, and whether it has returned. */
  datatype Loop = Loop(effects: seq<Event>, stopped: bool)

  /** One timer wake per sweep outcome, in order. */
  function Timers(outcomes: seq<MaybeError>): (wakes: seq<Wake>)
    ensures |wakes| == |outcomes|
    ensures ShutdownReceived !in wakes
  {
    seq(|outcomes|, i requires 0 <= i < |outcomes| => TimerFired(outcomes[i]))
  }

  /** The steps of one timer-triggered iteration: the sweep, then its error log line if it failed. */
  function SweepIteration(result: MaybeError): seq<Event>
  {
    [Swept(result)] + LogError(result, AtSweep)
  }

  /**
   * The loop run over `wakes`; wakes after the shutdown request are never
   * observed.
   */
  function Run(wakes: seq<Wake>): (r: Loop)
    ensures r.stopped <==> ShutdownReceived in wakes
    ensures r.stopped ==> |r.effects| > 0 && r.effects[|r.effects| - 1] == AckSent
  {
    if |wakes| == 0 then Loop([], false)
    else
      match wakes[0]
      case ShutdownReceived => Loop([AckSent], true)
      case TimerFired(result) =>
        var rest := Run(wakes[1..]);
        assert wakes == [wakes[0]] + wakes[1..];
        Loop(SweepIteration(result) + rest.effects, rest.stopped)
  }

  /**
   * The loop stops exactly when a shutdown request arrives, and the
   * acknowledgement is its last step and occurs nowhere else: nothing, no
   * sweep in particular, follows it.
   */
  lemma {:induction false} AckIsLast(wakes: seq<Wake>)
    ensures Run(wakes).stopped <==> ShutdownReceived in wakes
    ensures Run(wakes).stopped ==> |Run(wakes).effects| > 0 && Run(wakes).effects[|Run(wakes).effects| - 1] == AckSent
    ensures forall i :: 0 <= i < |Run(wakes).effects| && Run(wakes).effects[i] == AckSent ==>
              Run(wakes).stopped && i == |Run(wakes).effects| - 1
  {
    if |wakes| > 0 && wakes[0].TimerFired? {
      AckIsLast(wakes[1..]);
      assert wakes == [wakes[0]] + wakes[1..];
      var head, rest := SweepIteration(wakes[0].sweep), Run(wakes[1..]).effects;
      assert Run(wakes).effects == head + rest;
      forall i | 0 <= i < |head + rest| && (head + rest)[i] == AckSent
        ensures Run(wakes).stopped && i == |head + rest| - 1
      {
        assert i >= |head|;
        assert rest[i - |head|] == AckSent;
      }
    }
  }

  /** Every step of a loop run is the reconciler goroutine's. */
  lemma {:induction false} RunSteps(wakes: seq<Wake>)
    ensures forall e :: e in Run(wakes).effects ==> ByReconciler(e)
  {
    if |wakes| > 0 && wakes[0].TimerFired? {
      RunSteps(wakes[1..]);
    }
  }

  /**
   * The loop stops at the first shutdown request: what it did is what it did
   * before that request, followed by exactly one acknowledgement, and it ran
   * one sweep per timer wake before the request.
   */
  lemma StopsAtFirstShutdown(wakes: seq<Wake>, j: nat)
    requires j < |wakes| && wakes[j] == ShutdownReceived
    requires forall i :: 0 <= i < j ==> wakes[i] != ShutdownReceived
    ensures Run(wakes).stopped
    ensures Run(wakes).effects == Run(wakes[..j]).effects + [AckSent]
    ensures SweepCount(Run(wakes).effects) == j
  {
    ShutdownEffects(wakes, j);
    assert ShutdownReceived !in wakes[..j];
    SweepsCounted(wakes[..j]);
    SweepCountAppend(Run(wakes[..j]).effects, [AckSent]);
  }

  /** The loop's steps up to a first shutdown request are those of the earlier wakes and one acknowledgement. */
  lemma {:induction false} ShutdownEffects(wakes: seq<Wake>, j: nat)
    requires j < |wakes| && wakes[j] == ShutdownReceived
    requires forall i :: 0 <= i < j ==> wakes[i] != ShutdownReceived
    ensures Run(wakes).effects == Run(wakes[..j]).effects + [AckSent]
  {
    if j == 0 {
      assert wakes[..0] == [];
    } else {
      var tail := wakes[1..];
      assert tail[j - 1] == wakes[j];
      ShutdownEffects(tail, j - 1);
      assert wakes[..j][1..] == tail[..j - 1];
      assert wakes[..j][0] == wakes[0];
      var result := wakes[0].sweep;
      assert Run(wakes).effects == SweepIteration(result) + Run(tail).effects;
      assert Run(wakes[..j]).effects == SweepIteration(result) + Run(tail[..j - 1]).effects;
    }
  }

  /**
   * Sweep errors never end the loop: without a shutdown request the loop is
   * still running after any sequence of timer wakes, it ran a sweep for
   * every one of them, and every failed sweep's error was logged.
   */
  lemma {:induction false} SweepErrorsNeverStop(wakes: seq<Wake>)
    requires ShutdownReceived !in wakes
    ensures !Run(wakes).stopped
    ensures SweepCount(Run(wakes).effects) == |wakes|
    ensures forall i :: 0 <= i < |wakes| && wakes[i].TimerFired? && wakes[i].sweep.NonNil? ==>
              SweepErrorLogged(wakes[i].sweep.error) in Run(wakes).effects
  {
    SweepsCounted(wakes);
    forall i | 0 <= i < |wakes| && wakes[i].TimerFired? && wakes[i].sweep.NonNil?
      ensures SweepErrorLogged(wakes[i].sweep.error) in Run(wakes).effects
    {
      FailedSweepLogged(wakes, i);
    }
  }

  /** Without a shutdown request, the loop sweeps once per wake. */
  lemma {:induction false} SweepsCounted(wakes: seq<Wake>)
    requires ShutdownReceived !in wakes
    ensures SweepCount(Run(wakes).effects) == |wakes|
  {
    if |wakes| > 0 {
      assert wakes[0] in wakes;
      assert forall w :: w in wakes[1..] ==> w in wakes;
      SweepsCounted(wakes[1..]);
      SweepCountAppend(SweepIteration(wakes[0].sweep), Run(wakes[1..]).effects);
    }
  }

  /** The error of the sweep a timer wake triggered is logged, whatever the other wakes. */
  lemma {:induction false} FailedSweepLogged(wakes: seq<Wake>, i: nat)
    requires i < |wakes| && wakes[i].TimerFired? && wakes[i].sweep.NonNil?
    requires forall j :: 0 <= j < i ==> wakes[j].TimerFired?
    ensures SweepErrorLogged(wakes[i].sweep.error) in Run(wakes).effects
  {
    var head := SweepIteration(wakes[0].sweep);
    assert Run(wakes).effects == head + Run(wakes[1..]).effects;
    if i == 0 {
      assert head[1] == SweepErrorLogged(wakes[0].sweep.error);
    } else {
      assert wakes[1..][i - 1] == wakes[i];
      FailedSweepLogged(wakes[1..], i - 1);
    }
  }

  /**
   * Running the loop over the wakes of two periods, the first with no
   * shutdown request, does what running it over each period in turn does.
   */
  lemma {:induction false} RunAppend(a: seq<Wake>, b: seq<Wake>)
    requires ShutdownReceived !in a
    ensures Run(a + b) == Loop(Run(a).effects + Run(b).effects, Run(b).stopped)
  {
    if |a| == 0 {
      assert a + b == b;
    } else {
      assert a[0] in a;
      var r := a[0].sweep;
      assert (a + b)[0] == a[0];
      assert (a + b)[1..] == a[1..] + b;
      assert forall w :: w in a[1..] ==> w in a;
      RunAppend(a[1..], b);
      var head, front, back := SweepIteration(r), Run(a[1..]).effects, Run(b).effects;
      assert Run(a + b) == Loop(head + Run(a[1..] + b).effects, Run(a[1..] + b).stopped);
      assert Run(a) == Loop(head + front, Run(a[1..]).stopped);
      assert head + (front + back) == (head + front) + back;
    }
  }
}
