/**
 * The node lifecycle: `startIpfs` brings an in-process IPFS node up through a
 * `series` of six tasks, `startIpfsApi` attaches to a remote node instead,
 * and `stopService` tears the node and the GPS stream down through a
 * `series` of two tasks. The results of the foreign calls are inputs.
 */
module NodeLifecycle {
  import opened Wrappers
  import Series
  import opened CarState

  /** What the node library answers during startup, one field per foreign call. */
  datatype NodeEnv = NodeEnv(
    repoExists: Result<bool, Error>,  // `_repo.exists`
    init: Outcome<Error>,             // `init`, only asked when the repo is missing
    start: Outcome<Error>,            // `start`
    online: bool,                     // `isOnline()` after start
    identity: Result<string, Error>,  // `id`
    connect: Outcome<Error>,          // `swarm.connect` to the first bootstrap peer
    peers: Outcome<Error>)            // `swarm.peers`

  /** The number of tasks in the startup series. */
  const StartIpfsTasks: nat := 6

  /** The key strength a missing repo is initialised with. */
  const RepoBits: nat := 2048

  /**
   * Task k of the startup series, run from state s:
   * 0 constructs the node (pubsub on, no implicit init or start);
   * 1 checks the repo, then waits for 'ready' if it exists and initialises an
   *   empty repo otherwise;
   * 2 starts the node;
   * 3 fails unless the node is online, else marks it running and only then
   *   fetches its id, recording the id when that succeeds;
   * 4 connects to the bootstrap peer; 5 lists the peers.
   * A task's outcome depends on the library's answers alone.
   */
  function StartIpfsStep(k: nat, s: Car, repo: string, peer: string, env: NodeEnv): (e: Effect)
    ensures e.outcome == StartIpfsOutcome(k, env)
  {
    if k == 0 then Series.Step(s.(node := LocalNode(repo)), [NewNode(repo, true)], Pass)
    else if k == 1 then
      match env.repoExists
      case Failure(err) => Series.Step(s, [RepoExists], Fail(err))
      case Success(found) =>
        if found then Series.Step(s, [RepoExists, AwaitReady], Pass)
        else Series.Step(s, [RepoExists, InitRepo(true, RepoBits)], env.init)
    else if k == 2 then Series.Step(s, [StartNode], env.start)
    else if k == 3 then
      if !env.online then Series.Step(s, [IsOnline], Fail(NotOnlineError))
      else match env.identity
        case Failure(err) => Series.Step(s.(ipfsRunning := true), [IsOnline, FetchId], Fail(err))
        case Success(id) =>
          Series.Step(s.(ipfsRunning := true, ipfsNodeId := Some(id)), [IsOnline, FetchId], Pass)
    else if k == 4 then Series.Step(s, [SwarmConnect(peer)], env.connect)
    else if k == 5 then Series.Step(s, [SwarmPeers], env.peers)
    else Series.Step(s, [], Pass)
  }

  /**
   * The outcome each startup task hands to its callback, read off the
   * library's answers alone: the state-free reference against which
   * `StartIpfsStep` and the lemmas about the whole series are stated.
   */
  function StartIpfsOutcome(k: nat, env: NodeEnv): Outcome<Error>
  {
    if k == 1 then
      match env.repoExists
      case Failure(err) => Fail(err)
      case Success(found) => if found then Pass else env.init
    else if k == 2 then env.start
    else if k == 3 then
      if !env.online then Fail(NotOnlineError)
      else if env.identity.Failure? then Fail(env.identity.error)
      else Pass
    else if k == 4 then env.connect
    else if k == 5 then env.peers
    else Pass
  }

  /** The task list handed to `series`. */
  function StartIpfsTask(repo: string, peer: string, env: NodeEnv): (nat, Car) -> Effect
  {
    (k: nat, s: Car) => StartIpfsStep(k, s, repo, peer, env)
  }

  /** `startIpfs(repo, callback)`: the whole startup series. */
  function StartIpfs(s: Car, repo: string, peer: string, env: NodeEnv): Report
  {
    Series.Run(StartIpfsTask(repo, peer, env), StartIpfsTasks, 0, s)
  }

  /** Every call the startup series can make, in the order it makes them. */
  function StartIpfsPlan(repo: string, peer: string, env: NodeEnv): seq<Call>
  {
    [NewNode(repo, true), RepoExists]
    + (if env.repoExists == Success(true) then [AwaitReady] else [InitRepo(true, RepoBits)])
    + [StartNode, IsOnline, FetchId, SwarmConnect(peer), SwarmPeers]
  }

  /**
   * The first failing startup task ends the series: the callback receives
   * exactly that task's error and no later task is started.
   */
  lemma StartIpfsStopsAtFirstError(s: Car, repo: string, peer: string, env: NodeEnv, f: nat)
    requires f < StartIpfsTasks
    requires StartIpfsOutcome(f, env).Fail?
    requires forall j :: 0 <= j < f ==> StartIpfsOutcome(j, env).Pass?
    ensures StartIpfs(s, repo, peer, env).outcome == StartIpfsOutcome(f, env)
    ensures StartIpfs(s, repo, peer, env).ran == f + 1
  {
    var task := StartIpfsTask(repo, peer, env);
    Series.RunPassesIffEveryTaskPasses(task, f, 0, s);
    Series.RunStopsAtFirstFailure(task, StartIpfsTasks, f, 0, s);
  }

  /** Success is reported exactly when every startup task passes. */
  lemma StartIpfsSucceedsIff(s: Car, repo: string, peer: string, env: NodeEnv)
    ensures StartIpfs(s, repo, peer, env).outcome.Pass? <==>
            forall j :: 0 <= j < StartIpfsTasks ==> StartIpfsOutcome(j, env).Pass?
  {
    var task := StartIpfsTask(repo, peer, env);
    Series.RunPassesIffEveryTaskPasses(task, StartIpfsTasks, 0, s);
  }

  /**
   * A fully successful startup makes every planned call in order, marks the
   * node running and records the id it returned.
   */
  lemma StartIpfsSuccess(s: Car, repo: string, peer: string, env: NodeEnv)
    requires env.repoExists.Success? && (env.repoExists.value || env.init.Pass?)
    requires env.start.Pass? && env.online && env.identity.Success?
    requires env.connect.Pass? && env.peers.Pass?
    ensures StartIpfs(s, repo, peer, env) == Series.Report(
              s.(node := LocalNode(repo), ipfsRunning := true, ipfsNodeId := Some(env.identity.value)),
              StartIpfsPlan(repo, peer, env), Pass, StartIpfsTasks)
  {
  }

  /** An error from the repo check ends the series right after it. */
  lemma StartIpfsRepoCheckFails(s: Car, repo: string, peer: string, env: NodeEnv)
    requires env.repoExists.Failure?
    ensures StartIpfs(s, repo, peer, env) == Series.Report(
              s.(node := LocalNode(repo)), [NewNode(repo, true), RepoExists], Fail(env.repoExists.error), 2)
  {
  }

  /** A missing repo whose initialisation fails ends the series with that error. */
  lemma StartIpfsInitFails(s: Car, repo: string, peer: string, env: NodeEnv)
    requires env.repoExists == Success(false) && env.init.Fail?
    ensures StartIpfs(s, repo, peer, env) == Series.Report(
              s.(node := LocalNode(repo)),
              [NewNode(repo, true), RepoExists, InitRepo(true, RepoBits)], env.init, 2)
  {
  }

  /** A start error ends the series before the online check. */
  lemma StartIpfsStartFails(s: Car, repo: string, peer: string, env: NodeEnv)
    requires env.repoExists.Success? && (env.repoExists.value || env.init.Pass?)
    requires env.start.Fail?
    ensures StartIpfs(s, repo, peer, env) == Series.Report(
              s.(node := LocalNode(repo)), StartIpfsPlan(repo, peer, env)[..4], env.start, 3)
  {
  }

  /**
   * A node that is not online after start fails the series with the
   * online-check error before it is marked running or asked for its id.
   */
  lemma StartIpfsNotOnline(s: Car, repo: string, peer: string, env: NodeEnv)
    requires env.repoExists.Success? && (env.repoExists.value || env.init.Pass?)
    requires env.start.Pass? && !env.online
    ensures StartIpfs(s, repo, peer, env) == Series.Report(
              s.(node := LocalNode(repo)),
              StartIpfsPlan(repo, peer, env)[..5], Fail(NotOnlineError), 4)
  {
  }

  /**
   * An id fetch that fails leaves the node marked running (the flag is set
   * before the fetch) with no new id, and nothing after it runs.
   */
  lemma StartIpfsIdFails(s: Car, repo: string, peer: string, env: NodeEnv)
    requires env.repoExists.Success? && (env.repoExists.value || env.init.Pass?)
    requires env.start.Pass? && env.online && env.identity.Failure?
    ensures StartIpfs(s, repo, peer, env) == Series.Report(
              s.(node := LocalNode(repo), ipfsRunning := true),
              StartIpfsPlan(repo, peer, env)[..6], Fail(env.identity.error), 4)
  {
  }

  /**
   * A bootstrap connection error is fatal as written: the series ends with it,
   * the peer list is never asked for, the node stays marked running with its id.
   */
  lemma StartIpfsBootstrapFails(s: Car, repo: string, peer: string, env: NodeEnv)
    requires env.repoExists.Success? && (env.repoExists.value || env.init.Pass?)
    requires env.start.Pass? && env.online && env.identity.Success? && env.connect.Fail?
    ensures StartIpfs(s, repo, peer, env) == Series.Report(
              s.(node := LocalNode(repo), ipfsRunning := true, ipfsNodeId := Some(env.identity.value)),
              StartIpfsPlan(repo, peer, env)[..7], env.connect, 5)
  {
  }

  /** An error from the peer listing is the series' error; the node is already up. */
  lemma StartIpfsPeersFail(s: Car, repo: string, peer: string, env: NodeEnv)
    requires env.repoExists.Success? && (env.repoExists.value || env.init.Pass?)
    requires env.start.Pass? && env.online && env.identity.Success?
    requires env.connect.Pass? && env.peers.Fail?
    ensures StartIpfs(s, repo, peer, env) == Series.Report(
              s.(node := LocalNode(repo), ipfsRunning := true, ipfsNodeId := Some(env.identity.value)),
              StartIpfsPlan(repo, peer, env), env.peers, 6)
  {
  }

  /**
   * Whatever the library answers, the startup makes its calls in plan order
   * (a prefix of the plan), replaces the node handle, sets the running flag
   * exactly when the online check was reached and passed, records an id
   * exactly when the id fetch then succeeded, and changes nothing else.
   */
  lemma StartIpfsEffects(s: Car, repo: string, peer: string, env: NodeEnv)
    ensures var r := StartIpfs(s, repo, peer, env);
            var onlineReached := r.ran >= 4 && env.online;
            r.calls <= StartIpfsPlan(repo, peer, env)
            && r.after == s.(node := LocalNode(repo),
                             ipfsRunning := s.ipfsRunning || onlineReached,
                             ipfsNodeId := if onlineReached && env.identity.Success?
                                           then Some(env.identity.value) else s.ipfsNodeId)
  {
    if env.repoExists.Failure? {
      StartIpfsRepoCheckFails(s, repo, peer, env);
    } else if !env.repoExists.value && env.init.Fail? {
      StartIpfsInitFails(s, repo, peer, env);
    } else if env.start.Fail? {
      StartIpfsStartFails(s, repo, peer, env);
    } else if !env.online {
      StartIpfsNotOnline(s, repo, peer, env);
    } else if env.identity.Failure? {
      StartIpfsIdFails(s, repo, peer, env);
    } else if env.connect.Fail? {
      StartIpfsBootstrapFails(s, repo, peer, env);
    } else if env.peers.Fail? {
      StartIpfsPeersFail(s, repo, peer, env);
    } else {
      StartIpfsSuccess(s, repo, peer, env);
    }
  }

  /**
   * `startIpfsApi(connectionOpts, cb)`: replaces the node handle with an API
   * client and asks it for its id; success records the id, an error is handed
   * to the callback. The running flag is never touched.
   */
  function StartIpfsApi(s: Car, options: string, identity: Result<string, Error>): (e: Effect)
    ensures e.after.ipfsRunning == s.ipfsRunning
    ensures e.after == s.(node := ApiClient(options), ipfsNodeId := e.after.ipfsNodeId)
    ensures e.calls == [ApiConnect(options), FetchId]
    ensures identity.Success? ==> e.outcome == Pass && e.after.ipfsNodeId == Some(identity.value)
    ensures identity.Failure? ==> e.outcome == Fail(identity.error) && e.after.ipfsNodeId == s.ipfsNodeId
  {
    var client := s.(node := ApiClient(options));
    match identity
    case Failure(err) => Series.Step(client, [ApiConnect(options), FetchId], Fail(err))
    case Success(id) => Series.Step(client.(ipfsNodeId := Some(id)), [ApiConnect(options), FetchId], Pass)
  }

  /** The number of tasks in the shutdown series. */
  const StopServiceTasks: nat := 2

  /**
   * Task k of the shutdown series: 0 stops the node if it is marked running
   * (handing on the stop's outcome), 1 detaches the GPS listeners if they are
   * marked listening. Neither task resets a flag.
   */
  function StopServiceStep(k: nat, s: Car, stop: Outcome<Error>): (e: Effect)
    ensures e.after == s
  {
    if k == 0 then
      if s.ipfsRunning then Series.Step(s, [StopNode], stop) else Series.Step(s, [], Pass)
    else if k == 1 then
      if s.gpsListening then Series.Step(s, [GpsOff("GGA"), PortOff("data")], Pass)
      else Series.Step(s, [], Pass)
    else Series.Step(s, [], Pass)
  }

  /** The task list handed to `series` by `stopService`. */
  function StopServiceTask(stop: Outcome<Error>): (nat, Car) -> Effect
  {
    (k: nat, s: Car) => StopServiceStep(k, s, stop)
  }

  /**
   * `stopService()`; `stop` is what the node's stop would hand its callback.
   * The outcome is what the final callback logs (an error, or the stopped
   * message); nothing is thrown.
   */
  function StopService(s: Car, stop: Outcome<Error>): Report
  {
    Series.Run(StopServiceTask(stop), StopServiceTasks, 0, s)
  }

  /**
   * The shutdown changes no field; it stops the node exactly when the node is
   * marked running, detaches the GPS listeners exactly when they are marked
   * listening and no node-stop error came first, and logs the node-stop error
   * exactly when there was one. From a `Consistent` state it only stops a node
   * handle that exists and only detaches a serial port that was created.
   */
  lemma StopServiceGating(s: Car, stop: Outcome<Error>)
    ensures var r := StopService(s, stop);
            var nodeFailed := s.ipfsRunning && stop.Fail?;
            r.after == s
            && (StopNode in r.calls <==> s.ipfsRunning)
            && (GpsOff("GGA") in r.calls <==> s.gpsListening && !nodeFailed)
            && (PortOff("data") in r.calls <==> s.gpsListening && !nodeFailed)
            && r.calls == (if s.ipfsRunning then [StopNode] else [])
                          + (if s.gpsListening && !nodeFailed then [GpsOff("GGA"), PortOff("data")] else [])
            && r.outcome == (if s.ipfsRunning then stop else Pass)
            && (Consistent(s) ==> (StopNode in r.calls ==> !s.node.NoNode?)
                                  && (PortOff("data") in r.calls ==> s.gpsportCreated))
  {
  }

  /**
   * Not idempotent: as no flag is reset, a second shutdown makes the same
   * calls again, the node stop included.
   */
  lemma StopServiceRepeats(s: Car, stop: Outcome<Error>)
    ensures var r1 := StopService(s, stop);
            var r2 := StopService(r1.after, stop);
            r2 == r1 && (s.ipfsRunning ==> Count(r1.calls + r2.calls, StopNode) == 2)
  {
    StopServiceGating(s, stop);
    var r1 := StopService(s, stop);
    assert multiset(r1.calls + r1.calls) == multiset(r1.calls) + multiset(r1.calls);
  }
}
