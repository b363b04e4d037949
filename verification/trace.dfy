/**
 * The daemon's observable steps, as one sequential trace. The daemon runs
 * its main goroutine and the reconciler goroutine concurrently; the model
 * records one interleaving of their steps, and each goroutine's own steps
 * can be read back by filtering.
 */
module Trace {
  import opened Errors

  datatype Event =
    // main goroutine, startup
    | MetaOpened
    | DockerConnected
    | Macvlan0Located
    | StartupAborted
    | ReconcilerStarted
    // reconciler goroutine
    | Swept(result: MaybeError)
    | SweepErrorLogged(error: Error)
    | AckSent
    // main goroutine, serving and shutdown
    | ListenerReturned
    | ServeErrorLogged(error: Error)
    | ShutdownSent
    | AckReceived
    | MetaClosed
    | CloseErrorLogged(error: Error)
    | ShutdownCompleted

  /** Steps taken by the reconciler goroutine; every other step is the main goroutine's. */
  predicate ByReconciler(e: Event)
  {
    e.Swept? || e.SweepErrorLogged? || e.AckSent?
  }

  /** The reconciler goroutine's steps of a trace, in trace order. */
  function ReconcilerView(t: seq<Event>): seq<Event>
  {
    if |t| == 0 then []
    else (if ByReconciler(t[0]) then [t[0]] else []) + ReconcilerView(t[1..])
  }

  /** The main goroutine's steps of a trace, in trace order. */
  function MainView(t: seq<Event>): seq<Event>
  {
    if |t| == 0 then []
    else (if ByReconciler(t[0]) then [] else [t[0]]) + MainView(t[1..])
  }

  /** The reconciler's view of a concatenation is the concatenation of the views. */
  lemma {:induction false} ReconcilerViewAppend(a: seq<Event>, b: seq<Event>)
    ensures ReconcilerView(a + b) == ReconcilerView(a) + ReconcilerView(b)
  {
    if |a| == 0 {
      assert a + b == b;
    } else {
      assert (a + b)[0] == a[0];
      assert (a + b)[1..] == a[1..] + b;
      ReconcilerViewAppend(a[1..], b);
      var head := if ByReconciler(a[0]) then [a[0]] else [];
      assert ReconcilerView(a + b) == head + ReconcilerView(a[1..] + b);
      assert ReconcilerView(a) == head + ReconcilerView(a[1..]);
      assert head + (ReconcilerView(a[1..]) + ReconcilerView(b)) == (head + ReconcilerView(a[1..])) + ReconcilerView(b);
    }
  }

  /** The main goroutine's view of a concatenation is the concatenation of the views. */
  lemma {:induction false} MainViewAppend(a: seq<Event>, b: seq<Event>)
    ensures MainView(a + b) == MainView(a) + MainView(b)
  {
    if |a| == 0 {
      assert a + b == b;
    } else {
      assert (a + b)[0] == a[0];
      assert (a + b)[1..] == a[1..] + b;
      MainViewAppend(a[1..], b);
      var head := if ByReconciler(a[0]) then [] else [a[0]];
      assert MainView(a + b) == head + MainView(a[1..] + b);
      assert MainView(a) == head + MainView(a[1..]);
      assert head + (MainView(a[1..]) + MainView(b)) == (head + MainView(a[1..])) + MainView(b);
    }
  }

  /** How many sweeps a trace records, whatever their outcome. */
  function SweepCount(t: seq<Event>): nat
  {
    if |t| == 0 then 0
    else (if t[0].Swept? then 1 else 0) + SweepCount(t[1..])
  }

  lemma {:induction false} SweepCountAppend(a: seq<Event>, b: seq<Event>)
    ensures SweepCount(a + b) == SweepCount(a) + SweepCount(b)
  {
    if |a| == 0 {
      assert a + b == b;
    } else {
      assert (a + b)[1..] == a[1..] + b;
      SweepCountAppend(a[1..], b);
    }
  }

  /** Both steps occur, and every occurrence of `a` comes before every occurrence of `b`. */
  ghost predicate Precedes(t: seq<Event>, a: Event, b: Event)
  {
    && a in t
    && b in t
    && forall i, j :: 0 <= i < |t| && 0 <= j < |t| && t[i] == a && t[j] == b ==> i < j
  }

  /** A step found only in the first part of a trace precedes one found only in the second. */
  lemma PrecedesAcross(x: seq<Event>, y: seq<Event>, a: Event, b: Event)
    requires a in x && a !in y
    requires b in y && b !in x
    ensures Precedes(x + y, a, b)
  {
  }

  /** Appending steps other than `a` and `b` keeps their order. */
  lemma PrecedesExtend(p: seq<Event>, q: seq<Event>, a: Event, b: Event)
    requires Precedes(p, a, b)
    requires a !in q && b !in q
    ensures Precedes(p + q, a, b)
  {
  }

  /** No step of `s` is a sweep. */
  ghost predicate NoSweep(s: seq<Event>)
  {
    forall e :: e in s ==> !e.Swept?
  }

  /** A sweep-free trace counts no sweep. */
  lemma {:induction false} NoSweepCount(s: seq<Event>)
    requires NoSweep(s)
    ensures SweepCount(s) == 0
  {
    if |s| > 0 {
      assert s[0] in s;
      assert forall e :: e in s[1..] ==> e in s;
      NoSweepCount(s[1..]);
    }
  }

  /** Every sweep of `t` comes before every occurrence of `b`. */
  ghost predicate SweepsPrecede(t: seq<Event>, b: Event)
  {
    forall i, j :: 0 <= i < |t| && 0 <= j < |t| && t[i].Swept? && t[j] == b ==> i < j
  }

  /** Sweeps of a first part precede a step found only in a sweep-free second part. */
  lemma SweepsPrecedeAcross(x: seq<Event>, y: seq<Event>, b: Event)
    requires b !in x
    requires NoSweep(y)
    ensures SweepsPrecede(x + y, b)
  {
  }

  /** Appending sweep-free steps other than `b` keeps every sweep before `b`. */
  lemma SweepsPrecedeExtend(p: seq<Event>, q: seq<Event>, b: Event)
    requires SweepsPrecede(p, b)
    requires b !in q && NoSweep(q)
    ensures SweepsPrecede(p + q, b)
  {
  }

  /** Every sweep of `t` comes after every occurrence of `a`. */
  ghost predicate SweepsFollow(t: seq<Event>, a: Event)
  {
    forall i, j :: 0 <= i < |t| && 0 <= j < |t| && t[i] == a && t[j].Swept? ==> i < j
  }

  /** Sweeps of a second part follow a step found only in a sweep-free first part. */
  lemma SweepsFollowAcross(x: seq<Event>, y: seq<Event>, a: Event)
    requires a !in y
    requires NoSweep(x)
    ensures SweepsFollow(x + y, a)
  {
  }

  /** Steps of the startup checks, all taken before any other. */
  predicate IsStartupStep(e: Event)
  {
    e.MetaOpened? || e.DockerConnected? || e.Macvlan0Located? || e.StartupAborted? || e.ReconcilerStarted?
  }

  /** Where in the daemon an error is logged. */
  datatype LogSite = AtSweep | AtServe | AtClose

  /** The log line for a non-nil error at a site. */
  function ErrorLine(site: LogSite, error: Error): Event
  {
    match site
    case AtSweep => SweepErrorLogged(error)
    case AtServe => ServeErrorLogged(error)
    case AtClose => CloseErrorLogged(error)
  }

  /** The log line a non-nil error produces at a site; nothing for nil. */
  function LogError(e: MaybeError, site: LogSite): seq<Event>
  {
    match e
    case Nil => []
    case NonNil(err) => [ErrorLine(site, err)]
  }
}
