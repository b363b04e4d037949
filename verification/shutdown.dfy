/**
 * The serving phase of `startDaemon` and its graceful shutdown, as one
 * interleaving of the main goroutine and the reconciler goroutine.
 *
 * The main goroutine blocks in the REST listener until it returns, logs the
 * listener's error, sends the shutdown request to the reconciler, waits for
 * the reconciler's acknowledgement, closes the meta-data store, logs a close
 * failure, and reports completion. Meanwhile the reconciler sweeps on every
 * timer wake: some sweeps happen while the listener serves (`before`), and
 * some after the listener returned but before the reconciler's `select`
 * takes the shutdown request (`after`). Both channels are unbuffered, so a
 * send completes only when the other side receives it.
 */
module Shutdown {
  import opened Errors
  import opened Trace
  import opened Reconciler

  /** The main goroutine's steps, from the listener's return to the end of `startDaemon`. */
  function CoordinatorSteps(serve: MaybeError, close: MaybeError): (c: seq<Event>)
    ensures |c| > 0 && c[0] == ListenerReturned && c[|c| - 1] == ShutdownCompleted
  {
    ListenerSteps(serve) + [ShutdownSent] + [AckReceived] + Closing(close)
  }

  /** The listener returns, and its error, if any, is logged. */
  function ListenerSteps(serve: MaybeError): seq<Event>
  {
    [ListenerReturned] + LogError(serve, AtServe)
  }

  /** The meta-data store is closed, a close failure is logged, and completion is reported. */
  function Closing(close: MaybeError): seq<Event>
  {
    [MetaClosed] + LogError(close, AtClose) + [ShutdownCompleted]
  }

  /**
   * The serving phase and the shutdown handshake: sweeps while serving, the
   * listener's return, sweeps the reconciler still runs before it observes
   * the request, the request, the acknowledgement, and the teardown.
   */
  function ServeAndShutdown(before: seq<MaybeError>, after: seq<MaybeError>, serve: MaybeError, close: MaybeError): (t: seq<Event>)
    ensures |t| > 0 && t[|t| - 1] == ShutdownCompleted
  {
    Run(Timers(before)).effects
    + ListenerSteps(serve)
    + Run(Timers(after)).effects
    + [ShutdownSent]
    + Run([ShutdownReceived]).effects
    + [AckReceived]
    + Closing(close)
  }

  /** A period of timer wakes only sweeps and logs sweep errors. */
  lemma {:induction false} TimerRunSteps(outcomes: seq<MaybeError>)
    ensures forall e :: e in Run(Timers(outcomes)).effects ==> e.Swept? || e.SweepErrorLogged?
    ensures !Run(Timers(outcomes)).stopped
    ensures SweepCount(Run(Timers(outcomes)).effects) == |outcomes|
  {
    SweepErrorsNeverStop(Timers(outcomes));
    if |outcomes| > 0 {
      assert Timers(outcomes)[1..] == Timers(outcomes[1..]);
      TimerRunSteps(outcomes[1..]);
    }
  }

  /** What the listener's steps hold. */
  lemma ListenerStepsFacts(serve: MaybeError)
    ensures ListenerReturned in ListenerSteps(serve)
    ensures forall e :: e in ListenerSteps(serve) ==> e.ListenerReturned? || e.ServeErrorLogged?
    ensures SweepCount(ListenerSteps(serve)) == 0
  {
    assert NoSweep(ListenerSteps(serve));
    NoSweepCount(ListenerSteps(serve));
  }

  /** What the closing steps hold: the close, its error line exactly when it failed, and completion last. */
  lemma ClosingFacts(close: MaybeError, e: Error)
    ensures MetaClosed in Closing(close) && NoSweep(Closing(close))
    ensures forall x :: x in Closing(close) ==> x.MetaClosed? || x.CloseErrorLogged? || x.ShutdownCompleted?
    ensures Closing(close)[|Closing(close)| - 1] == ShutdownCompleted
    ensures CloseErrorLogged(e) in Closing(close) <==> close == NonNil(e)
    ensures SweepCount(Closing(close)) == 0
  {
    NoSweepCount(Closing(close));
  }

  /** Steps taken by the reconciler alone are its own view and vanish from the main goroutine's. */
  lemma {:induction false} ReconcilerOnlyViews(t: seq<Event>)
    requires forall e :: e in t ==> ByReconciler(e)
    ensures ReconcilerView(t) == t && MainView(t) == []
  {
    if |t| > 0 {
      assert t[0] in t;
      assert forall e :: e in t[1..] ==> e in t;
      ReconcilerOnlyViews(t[1..]);
      assert t == [t[0]] + t[1..];
    }
  }

  /** Steps taken by the main goroutine alone are its own view and vanish from the reconciler's. */
  lemma {:induction false} MainOnlyViews(t: seq<Event>)
    requires forall e :: e in t ==> !ByReconciler(e)
    ensures ReconcilerView(t) == [] && MainView(t) == t
  {
    if |t| > 0 {
      assert t[0] in t;
      assert forall e :: e in t[1..] ==> e in t;
      MainOnlyViews(t[1..]);
      assert t == [t[0]] + t[1..];
    }
  }

  /** Appending reconciler steps extends the reconciler's view only. */
  lemma ReconcilerStep(prefix: seq<Event>, segment: seq<Event>)
    requires forall e :: e in segment ==> ByReconciler(e)
    ensures ReconcilerView(prefix + segment) == ReconcilerView(prefix) + segment
    ensures MainView(prefix + segment) == MainView(prefix)
  {
    ReconcilerOnlyViews(segment);
    ReconcilerViewAppend(prefix, segment);
    MainViewAppend(prefix, segment);
  }

  /** Appending main-goroutine steps extends the main goroutine's view only. */
  lemma MainStep(prefix: seq<Event>, segment: seq<Event>)
    requires forall e :: e in segment ==> !ByReconciler(e)
    ensures ReconcilerView(prefix + segment) == ReconcilerView(prefix)
    ensures MainView(prefix + segment) == MainView(prefix) + segment
  {
    MainOnlyViews(segment);
    ReconcilerViewAppend(prefix, segment);
    MainViewAppend(prefix, segment);
  }

  /** The reconciler's run over both timer periods and the shutdown request, period by period. */
  lemma RunOfBothPeriods(before: seq<MaybeError>, after: seq<MaybeError>)
    ensures Run(Timers(before) + Timers(after) + [ShutdownReceived]).effects
            == Run(Timers(before)).effects + Run(Timers(after)).effects + Run([ShutdownReceived]).effects
  {
    RunOfThree(Timers(before), Timers(after), [ShutdownReceived]);
  }

  /** The loop over three periods, the first two without shutdown, is the loop over each in turn. */
  lemma RunOfThree(a: seq<Wake>, b: seq<Wake>, c: seq<Wake>)
    requires ShutdownReceived !in a && ShutdownReceived !in b
    ensures Run(a + b + c).effects == Run(a).effects + Run(b).effects + Run(c).effects
  {
    assert a + b + c == a + (b + c);
    RunAppend(a, b + c);
    RunAppend(b, c);
  }

  /** The two goroutines' views of a trace cut into these parts. */
  lemma ViewsOfParts(s1: seq<Event>, s2: seq<Event>, s3: seq<Event>, c: seq<Event>)
    requires forall e :: e in s1 ==> ByReconciler(e)
    requires forall e :: e in s2 ==> !ByReconciler(e)
    requires forall e :: e in s3 ==> ByReconciler(e)
    requires forall e :: e in c ==> !ByReconciler(e)
    ensures var t := s1 + s2 + s3 + [ShutdownSent] + [AckSent] + [AckReceived] + c;
            && ReconcilerView(t) == s1 + s3 + [AckSent]
            && MainView(t) == s2 + [ShutdownSent] + [AckReceived] + c
  {
    var p2 := s1 + s2;
    var p3 := p2 + s3;
    var p4 := p3 + [ShutdownSent];
    var p5 := p4 + [AckSent];
    var p6 := p5 + [AckReceived];
    assert ReconcilerView(p2) == s1 && MainView(p2) == s2 by {
      ReconcilerOnlyViews(s1);
      MainStep(s1, s2);
    }
    assert ReconcilerView(p3) == s1 + s3 && MainView(p3) == s2 by {
      ReconcilerStep(p2, s3);
    }
    assert ReconcilerView(p4) == s1 + s3 && MainView(p4) == s2 + [ShutdownSent] by {
      MainStep(p3, [ShutdownSent]);
    }
    assert ReconcilerView(p5) == s1 + s3 + [AckSent] && MainView(p5) == s2 + [ShutdownSent] by {
      ReconcilerStep(p4, [AckSent]);
    }
    assert ReconcilerView(p6) == s1 + s3 + [AckSent] && MainView(p6) == s2 + [ShutdownSent] + [AckReceived] by {
      MainStep(p5, [AckReceived]);
    }
    MainStep(p6, c);
  }

  /**
   * The trace is an interleaving of the two goroutines: the reconciler's
   * steps are exactly its loop run over all its timer wakes followed by the
   * shutdown request, and the main goroutine's steps are exactly the
   * coordinator's sequence.
   */
  lemma Interleaving(before: seq<MaybeError>, after: seq<MaybeError>, serve: MaybeError, close: MaybeError)
    ensures ReconcilerView(ServeAndShutdown(before, after, serve, close))
            == Run(Timers(before) + Timers(after) + [ShutdownReceived]).effects
    ensures MainView(ServeAndShutdown(before, after, serve, close)) == CoordinatorSteps(serve, close)
  {
    TimerRunSteps(before);
    TimerRunSteps(after);
    ListenerStepsFacts(serve);
    ClosingFacts(close, Error([]));
    assert Run([ShutdownReceived]).effects == [AckSent];
    ViewsOfParts(Run(Timers(before)).effects, ListenerSteps(serve), Run(Timers(after)).effects, Closing(close));
    RunOfBothPeriods(before, after);
  }

  /** None of the handshake's steps occurs in `s`. */
  predicate FreeOfHandshake(s: seq<Event>)
  {
    ListenerReturned !in s && ShutdownSent !in s && AckSent !in s && AckReceived !in s && MetaClosed !in s
  }

  /** A period of timer wakes takes no handshake step. */
  lemma TimerRunQuiet(outcomes: seq<MaybeError>)
    ensures FreeOfHandshake(Run(Timers(outcomes)).effects)
  {
    TimerRunSteps(outcomes);
  }

  /** The order of the handshake in any trace cut into these parts. */
  lemma OrderOfParts(s1: seq<Event>, s2: seq<Event>, s3: seq<Event>, c: seq<Event>)
    requires FreeOfHandshake(s1) && FreeOfHandshake(s3)
    requires ListenerReturned in s2 && ShutdownSent !in s2 && AckSent !in s2 && AckReceived !in s2 && MetaClosed !in s2
    requires MetaClosed in c && ListenerReturned !in c && ShutdownSent !in c && AckSent !in c && AckReceived !in c
    requires NoSweep(c)
    ensures var t := s1 + s2 + s3 + [ShutdownSent] + [AckSent] + [AckReceived] + c;
            && Precedes(t, ListenerReturned, ShutdownSent)
            && Precedes(t, ShutdownSent, AckSent)
            && Precedes(t, AckSent, AckReceived)
            && Precedes(t, AckReceived, MetaClosed)
            && SweepsPrecede(t, AckSent)
  {
    var p3 := s1 + s2 + s3;
    var p4 := p3 + [ShutdownSent];
    var p5 := p4 + [AckSent];
    var p6 := p5 + [AckReceived];
    var t := p6 + c;
    assert Precedes(t, ListenerReturned, ShutdownSent) by {
      PrecedesAcross(p3, [ShutdownSent], ListenerReturned, ShutdownSent);
      PrecedesExtend(p4, [AckSent], ListenerReturned, ShutdownSent);
      PrecedesExtend(p5, [AckReceived], ListenerReturned, ShutdownSent);
      PrecedesExtend(p6, c, ListenerReturned, ShutdownSent);
    }
    assert Precedes(t, ShutdownSent, AckSent) by {
      PrecedesAcross(p4, [AckSent], ShutdownSent, AckSent);
      PrecedesExtend(p5, [AckReceived], ShutdownSent, AckSent);
      PrecedesExtend(p6, c, ShutdownSent, AckSent);
    }
    assert Precedes(t, AckSent, AckReceived) by {
      PrecedesAcross(p5, [AckReceived], AckSent, AckReceived);
      PrecedesExtend(p6, c, AckSent, AckReceived);
    }
    assert Precedes(t, AckReceived, MetaClosed) by {
      PrecedesAcross(p6, c, AckReceived, MetaClosed);
    }
    assert SweepsPrecede(t, AckSent) by {
      SweepsPrecedeAcross(p4, [AckSent], AckSent);
      SweepsPrecedeExtend(p5, [AckReceived], AckSent);
      SweepsPrecedeExtend(p6, c, AckSent);
    }
  }

  /**
   * The handshake's order holds in every run of this model: the listener returns,
   * then the shutdown request is sent, then acknowledged, then the
   * acknowledgement is received, then the meta-data store is closed, and
   * completion is the last step. Every sweep happens before the
   * acknowledgement, so none runs against a closed store.
   */
  lemma HandshakeOrder(before: seq<MaybeError>, after: seq<MaybeError>, serve: MaybeError, close: MaybeError)
    ensures var t := ServeAndShutdown(before, after, serve, close);
            && Precedes(t, ListenerReturned, ShutdownSent)
            && Precedes(t, ShutdownSent, AckSent)
            && Precedes(t, AckSent, AckReceived)
            && Precedes(t, AckReceived, MetaClosed)
            && SweepsPrecede(t, AckSent)
            && t[|t| - 1] == ShutdownCompleted
  {
    TimerRunQuiet(before);
    TimerRunQuiet(after);
    ListenerStepsFacts(serve);
    ClosingFacts(close, Error([]));
    assert Run([ShutdownReceived]).effects == [AckSent];
    OrderOfParts(Run(Timers(before)).effects, ListenerSteps(serve), Run(Timers(after)).effects, Closing(close));
  }

  /** The sweeps of a trace cut into these parts are those of `s1` and `s3`. */
  lemma SweepsOfParts(s1: seq<Event>, s2: seq<Event>, s3: seq<Event>, c: seq<Event>)
    requires SweepCount(s2) == 0 && SweepCount(c) == 0
    ensures SweepCount(s1 + s2 + s3 + [ShutdownSent] + [AckSent] + [AckReceived] + c) == SweepCount(s1) + SweepCount(s3)
  {
    var p2 := s1 + s2;
    var p3 := p2 + s3;
    var p4 := p3 + [ShutdownSent];
    var p5 := p4 + [AckSent];
    var p6 := p5 + [AckReceived];
    SweepCountAppend(s1, s2);
    SweepCountAppend(p2, s3);
    SweepCountAppend(p3, [ShutdownSent]);
    SweepCountAppend(p4, [AckSent]);
    SweepCountAppend(p5, [AckReceived]);
    SweepCountAppend(p6, c);
  }

  /** In a trace cut into these parts, a step absent from the first six parts occurs exactly when it occurs in `c`, which ends the trace. */
  lemma TailOfParts(s1: seq<Event>, s2: seq<Event>, s3: seq<Event>, c: seq<Event>, x: Event)
    requires x !in s1 && x !in s2 && x !in s3
    requires x != ShutdownSent && x != AckSent && x != AckReceived
    requires |c| > 0
    ensures var t := s1 + s2 + s3 + [ShutdownSent] + [AckSent] + [AckReceived] + c;
            && (x in t <==> x in c)
            && t[|t| - 1] == c[|c| - 1]
  {
  }

  /**
   * A failed close of the meta-data store is only logged: the shutdown
   * completes either way, and the close error is logged exactly when the
   * close failed. Every timer wake ran a sweep, failed sweeps included.
   */
  lemma CloseFailureOnlyLogged(before: seq<MaybeError>, after: seq<MaybeError>, serve: MaybeError, close: MaybeError, e: Error)
    ensures var t := ServeAndShutdown(before, after, serve, close);
            && t[|t| - 1] == ShutdownCompleted
            && (CloseErrorLogged(e) in t <==> close == NonNil(e))
            && SweepCount(t) == |before| + |after|
  {
    var s1, s2, s3, c := Run(Timers(before)).effects, ListenerSteps(serve), Run(Timers(after)).effects, Closing(close);
    TimerRunSteps(before);
    TimerRunSteps(after);
    ListenerStepsFacts(serve);
    ClosingFacts(close, e);
    assert Run([ShutdownReceived]).effects == [AckSent];
    TailOfParts(s1, s2, s3, c, CloseErrorLogged(e));
    SweepsOfParts(s1, s2, s3, c);
  }
}
