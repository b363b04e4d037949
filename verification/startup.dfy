/**
 * `startDaemon` from the top: open the meta-data store, connect to Docker,
 * check that the `macvlan0` network exists, and only then start the
 * reconciler and serve until shutdown. The store, the Docker client and the
 * network listing are outside the model; their results are inputs.
 */
module Startup {
  import opened Errors
  import opened Trace
  import opened Shutdown

  /** A Docker network; only its name is consulted. */
  datatype Network = Network(name: string)

  /** The network the daemon's containers need to reach the public network. */
  const Macvlan0: string := "macvlan0"

  /** `hasMacvlan0` once the network listing succeeded: some network is named `macvlan0`. */
  function HasMacvlan0(networks: seq<Network>): (found: bool)
    ensures found <==> exists i :: 0 <= i < |networks| && networks[i].name == Macvlan0
  {
    if |networks| == 0 then false
    else if networks[0].name == Macvlan0 then true
    else
      var rest := HasMacvlan0(networks[1..]);
      assert forall i :: 0 <= i < |networks[1..]| ==> networks[1..][i] == networks[i + 1];
      assert rest ==> exists i :: 0 <= i < |networks| && networks[i].name == Macvlan0;
      rest
  }

  /** Why startup stopped. A failed network listing panics rather than returning. */
  datatype Abort = MetaOpenFailed(error: Error) | DockerConnectFailed(error: Error) | NetworkListPanicked(error: Error) | Macvlan0Missing

  /** The outcome of the startup checks. */
  datatype Boot = Booted | Aborted(why: Abort)

  /** What the outside world answers during startup. */
  datatype Environment = Environment(openMeta: MaybeError, connectDocker: MaybeError, networks: Result<seq<Network>>)

  /**
   * The startup checks, in the source's order; the first failure decides the
   * outcome and no later check is attempted.
   */
  function BootChecks(env: Environment): (b: Boot)
    ensures b.Booted? <==> && env.openMeta.Nil? && env.connectDocker.Nil? && env.networks.Ok?
                           && exists i :: 0 <= i < |env.networks.value| && env.networks.value[i].name == Macvlan0
    ensures env.openMeta.NonNil? ==> b == Aborted(MetaOpenFailed(env.openMeta.error))
    ensures env.openMeta.Nil? && env.connectDocker.NonNil? ==> b == Aborted(DockerConnectFailed(env.connectDocker.error))
    ensures env.openMeta.Nil? && env.connectDocker.Nil? && env.networks.Err? ==> b == Aborted(NetworkListPanicked(env.networks.error))
    ensures env.openMeta.Nil? && env.connectDocker.Nil? && env.networks.Ok? && !HasMacvlan0(env.networks.value) ==> b == Aborted(Macvlan0Missing)
  {
    if env.openMeta.NonNil? then Aborted(MetaOpenFailed(env.openMeta.error))
    else if env.connectDocker.NonNil? then Aborted(DockerConnectFailed(env.connectDocker.error))
    else
      match env.networks
      case Err(e) => Aborted(NetworkListPanicked(e))
      case Ok(networks) => if HasMacvlan0(networks) then Booted else Aborted(Macvlan0Missing)
  }

  /** The steps of startup: each check that passed, then either the abort or the reconciler's start. */
  function StartupSteps(env: Environment): (s: seq<Event>)
    ensures |s| > 0 && s[|s| - 1] == (if BootChecks(env).Booted? then ReconcilerStarted else StartupAborted)
    ensures ReconcilerStarted in s <==> BootChecks(env).Booted?
    ensures MetaOpened in s <==> env.openMeta.Nil?
    ensures DockerConnected in s <==> env.openMeta.Nil? && env.connectDocker.Nil?
  {
    if env.openMeta.NonNil? then [StartupAborted]
    else if env.connectDocker.NonNil? then [MetaOpened, StartupAborted]
    else if BootChecks(env).Booted? then [MetaOpened, DockerConnected, Macvlan0Located, ReconcilerStarted]
    else [MetaOpened, DockerConnected, StartupAborted]
  }

  /** How the serving phase unfolds once started: see `Shutdown.ServeAndShutdown`. */
  datatype Schedule = Schedule(before: seq<MaybeError>, after: seq<MaybeError>, serve: MaybeError, close: MaybeError)

  /** `startDaemon`: the startup steps, then, only when every check passed, serving and shutdown. */
  function StartDaemon(env: Environment, schedule: Schedule): (t: seq<Event>)
    ensures |t| > 0 && t[|t| - 1] == (if BootChecks(env).Booted? then ShutdownCompleted else StartupAborted)
  {
    StartupSteps(env)
    + (if BootChecks(env).Booted?
       then ServeAndShutdown(schedule.before, schedule.after, schedule.serve, schedule.close)
       else [])
  }

  /** The serving phase takes no startup step. */
  lemma ServingTakesNoStartupStep(schedule: Schedule)
    ensures forall e :: e in ServeAndShutdown(schedule.before, schedule.after, schedule.serve, schedule.close) ==> !IsStartupStep(e)
  {
    var Schedule(before, after, serve, close) := schedule;
    TimerRunSteps(before);
    TimerRunSteps(after);
    ListenerStepsFacts(serve);
    ClosingFacts(close, Error([]));
    assert Reconciler.Run([Reconciler.ShutdownReceived]).effects == [AckSent];
    PartsTakeNoStartupStep(Reconciler.Run(Reconciler.Timers(before)).effects, ListenerSteps(serve),
                           Reconciler.Run(Reconciler.Timers(after)).effects, Closing(close));
  }

  lemma PartsTakeNoStartupStep(s1: seq<Event>, s2: seq<Event>, s3: seq<Event>, c: seq<Event>)
    requires forall e :: e in s1 ==> e.Swept? || e.SweepErrorLogged?
    requires forall e :: e in s2 ==> e.ListenerReturned? || e.ServeErrorLogged?
    requires forall e :: e in s3 ==> e.Swept? || e.SweepErrorLogged?
    requires forall e :: e in c ==> e.MetaClosed? || e.CloseErrorLogged? || e.ShutdownCompleted?
    ensures forall e :: e in s1 + s2 + s3 + [ShutdownSent] + [AckSent] + [AckReceived] + c ==> !IsStartupStep(e)
  {
  }

  /**
   * A failed startup check stops the daemon before anything else runs: the
   * trace ends with the abort, the reconciler never starts and never sweeps,
   * no listener runs, and the meta-data store is not closed. When the store
   * cannot be opened Docker is never contacted.
   */
  lemma FailedStartupStartsNothing(env: Environment, schedule: Schedule)
    requires BootChecks(env).Aborted?
    ensures var t := StartDaemon(env, schedule);
            && t[|t| - 1] == StartupAborted
            && ReconcilerStarted !in t && ListenerReturned !in t && MetaClosed !in t
            && NoSweep(t)
            && (env.openMeta.NonNil? ==> DockerConnected !in t)
  {
    assert StartDaemon(env, schedule) == StartupSteps(env);
  }

  /**
   * The reconciler starts exactly when every startup check passed, after
   * the store was opened, Docker connected and `macvlan0` located, and every
   * sweep comes after its start.
   */
  lemma ReconcilerStartsOnlyAfterChecks(env: Environment, schedule: Schedule)
    ensures var t := StartDaemon(env, schedule);
            && (ReconcilerStarted in t <==> BootChecks(env).Booted?)
            && SweepsFollow(t, ReconcilerStarted)
            && (BootChecks(env).Booted? ==>
                  && Precedes(t, MetaOpened, DockerConnected)
                  && Precedes(t, DockerConnected, Macvlan0Located)
                  && Precedes(t, Macvlan0Located, ReconcilerStarted))
  {
    var s := StartupSteps(env);
    var serving := if BootChecks(env).Booted?
                   then ServeAndShutdown(schedule.before, schedule.after, schedule.serve, schedule.close)
                   else [];
    assert StartDaemon(env, schedule) == s + serving;
    ServingTakesNoStartupStep(schedule);
    assert ReconcilerStarted !in serving;
    SweepsFollowAcross(s, serving, ReconcilerStarted);
    if BootChecks(env).Booted? {
      ChecksInOrder(s, serving);
    }
  }

  /** The checks of a successful startup keep their order whatever steps follow them. */
  lemma ChecksInOrder(s: seq<Event>, serving: seq<Event>)
    requires s == [MetaOpened, DockerConnected, Macvlan0Located, ReconcilerStarted]
    requires forall e :: e in serving ==> !IsStartupStep(e)
    ensures var t := s + serving;
            && Precedes(t, MetaOpened, DockerConnected)
            && Precedes(t, DockerConnected, Macvlan0Located)
            && Precedes(t, Macvlan0Located, ReconcilerStarted)
  {
    assert Precedes(s, MetaOpened, DockerConnected);
    assert Precedes(s, DockerConnected, Macvlan0Located);
    assert Precedes(s, Macvlan0Located, ReconcilerStarted);
    PrecedesExtend(s, serving, MetaOpened, DockerConnected);
    PrecedesExtend(s, serving, DockerConnected, Macvlan0Located);
    PrecedesExtend(s, serving, Macvlan0Located, ReconcilerStarted);
  }
}
