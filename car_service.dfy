/**
 * The in-car service object. Its fields are the ones its methods update in
 * place; every outcome of a foreign library arrives as a parameter, and a
 * ghost trace records, in order, every call the object makes into the
 * keyfob, the IPFS node, the MQTT client, the serial port and the GPS parser.
 * Each method is proved to do what the matching specification function says.
 */
module Service {
  import opened Wrappers
  import Series
  import opened CarState
  import Commands
  import Telemetry
  import NodeLifecycle
  import Transport

  class CarService {
    var ipfsRunning: bool
    var ipfsNodeId: Option<string>
    var node: NodeHandle
    var gpsFixed: bool
    var loc: Location
    var speed: real
    var locked: Lock
    var gpsListening: bool
    var gpsportCreated: bool
    ghost var trace: seq<Call>

    /** The object's fields as a value. */
    function State(): Car
      reads this
    {
      Car(ipfsRunning, ipfsNodeId, node, gpsFixed, loc, speed, locked, gpsListening, gpsportCreated)
    }

    ghost predicate Valid()
      reads this
    {
      Consistent(State())
    }

    /** `new CarService()`: the default state, before any call. */
    constructor()
      ensures Valid() && State() == Initial && trace == []
    {
      ipfsRunning := false;
      ipfsNodeId := None;
      node := NoNode;
      gpsFixed := false;
      locked := Unknown;
      loc := DefaultLocation;
      speed := 0.0;
      gpsListening := false;
      gpsportCreated := false;
      trace := [];
    }

    /** `execCmd(command)`; a throw is returned as a failure. */
    method ExecCmd(command: string) returns (r: Outcome<Error>)
      requires Valid()
      modifies this
      ensures Valid()
      ensures var e := Commands.ExecCmd(old(State()), command);
              State() == e.after && trace == old(trace) + e.calls && r == e.outcome
    {
      if command == "lock" {
        trace := trace + [KeyfobLock];
        locked := Locked;
        r := Pass;
      } else if command == "unlock" {
        trace := trace + [KeyfobUnlock];
        locked := Unlocked;
        r := Pass;
      } else {
        r := Fail(MsgNotDefinedError);
      }
    }

    /** The GPS parser's 'data' handler, given the parser's state. */
    method OnGpsReport(fix: Option<string>, time: int, lat: real, lon: real, alt: real, reportSpeed: real)
      requires Valid()
      modifies this
      ensures Valid()
      ensures State() == Telemetry.OnGpsReport(old(State()), Telemetry.GpsReport(fix, time, lat, lon, alt, reportSpeed))
      ensures trace == old(trace)
    {
      if fix.Some? {
        gpsFixed := true;
        loc := Location(time, lat, lon, alt);
        speed := reportSpeed;
      } else {
        gpsFixed := false;
      }
    }

    /** `startGPSData()`. */
    method StartGpsData()
      requires Valid()
      modifies this
      ensures Valid()
      ensures var e := Telemetry.StartGpsData(old(State()));
              State() == e.after && trace == old(trace) + e.calls
    {
      if !gpsportCreated {
        trace := trace + [Telemetry.OpenGpsPort];
        gpsportCreated := true;
      }
      trace := trace + [PortOnData, GpsOnData];
      gpsListening := true;
    }

    /** The body of task k of the startup series. */
    method StartIpfsStep(k: nat, repo: string, peer: string, env: NodeLifecycle.NodeEnv) returns (r: Outcome<Error>)
      requires k < NodeLifecycle.StartIpfsTasks
      modifies this
      ensures var e := NodeLifecycle.StartIpfsStep(k, old(State()), repo, peer, env);
              State() == e.after && trace == old(trace) + e.calls && r == e.outcome
    {
      if k == 0 {
        node := LocalNode(repo);
        trace := trace + [NewNode(repo, true)];
        r := Pass;
      } else if k == 1 {
        trace := trace + [RepoExists];
        match env.repoExists
        case Failure(err) =>
          r := Fail(err);
        case Success(found) =>
          if found {
            trace := trace + [AwaitReady];
            r := Pass;
          } else {
            trace := trace + [InitRepo(true, NodeLifecycle.RepoBits)];
            r := env.init;
          }
      } else if k == 2 {
        trace := trace + [StartNode];
        r := env.start;
      } else if k == 3 {
        trace := trace + [IsOnline];
        if !env.online {
          r := Fail(NotOnlineError);
        } else {
          ipfsRunning := true;
          trace := trace + [FetchId];
          match env.identity
          case Failure(err) =>
            r := Fail(err);
          case Success(id) =>
            ipfsNodeId := Some(id);
            r := Pass;
        }
      } else if k == 4 {
        trace := trace + [SwarmConnect(peer)];
        r := env.connect;
      } else {
        trace := trace + [SwarmPeers];
        r := env.peers;
      }
    }

    /**
     * One turn of `series` in `startIpfs`: the tasks before k have passed and
     * left `done`, and `whole` is what the entire series does; runs task k
     * and reports what has run so far, including it.
     */
    method StartIpfsTurn(k: nat, repo: string, peer: string, env: NodeLifecycle.NodeEnv,
                         ghost whole: Report, ghost t0: seq<Call>, ghost done: Report)
      returns (r: Outcome<Error>, ghost next: Report)
      requires k < NodeLifecycle.StartIpfsTasks
      requires done.after == State() && trace == t0 + done.calls
      requires whole == Series.Join(done, Series.Run(NodeLifecycle.StartIpfsTask(repo, peer, env),
                                                     NodeLifecycle.StartIpfsTasks, k, State()))
      modifies this
      ensures next.after == State() && next.outcome == r && next.ran == done.ran + 1
      ensures trace == t0 + next.calls
      ensures r.Pass? ==> whole == Series.Join(next, Series.Run(NodeLifecycle.StartIpfsTask(repo, peer, env),
                                                                NodeLifecycle.StartIpfsTasks, k + 1, State()))
      ensures r.Fail? ==> whole == next
    {
      ghost var task := NodeLifecycle.StartIpfsTask(repo, peer, env);
      ghost var t := task(k, State());
      Series.RunAdvance(task, NodeLifecycle.StartIpfsTasks, k, whole, done);
      assert t0 + (done.calls + t.calls) == trace + t.calls;
      next := Series.Extend(done, t);
      r := StartIpfsStep(k, repo, peer, env);
    }

    /**
     * `startIpfs(repo, callback)`, with `peer` the first configured bootstrap
     * address; the result is what the final callback receives. The loop is
     * `series`: it starts the next task only while every earlier one passed.
     */
    method StartIpfs(repo: string, peer: string, env: NodeLifecycle.NodeEnv) returns (r: Outcome<Error>)
      requires Valid()
      modifies this
      ensures Valid()
      ensures var rep := NodeLifecycle.StartIpfs(old(State()), repo, peer, env);
              State() == rep.after && trace == old(trace) + rep.calls && r == rep.outcome
    {
      ghost var task := NodeLifecycle.StartIpfsTask(repo, peer, env);
      ghost var s0, t0 := State(), trace;
      ghost var whole := NodeLifecycle.StartIpfs(s0, repo, peer, env);
      ghost var done: Report := Series.Start(s0);
      Series.RunEnds(task, NodeLifecycle.StartIpfsTasks, 0, done);
      var k := 0;
      r := Pass;
      while k < NodeLifecycle.StartIpfsTasks && r.Pass?
        invariant k <= NodeLifecycle.StartIpfsTasks
        invariant done.after == State() && done.outcome == r && done.ran == k
        invariant trace == t0 + done.calls
        invariant r.Pass? ==> whole == Series.Join(done, Series.Run(task, NodeLifecycle.StartIpfsTasks, k, State()))
        invariant r.Fail? ==> whole == done
      {
        r, done := StartIpfsTurn(k, repo, peer, env, whole, t0, done);
        k := k + 1;
      }
      if r.Pass? {
        Series.RunEnds(task, NodeLifecycle.StartIpfsTasks, k, done);
      }
      NodeLifecycle.StartIpfsEffects(s0, repo, peer, env);
    }

    /** `startIpfsApi(connectionOpts, cb)`; the result is what `cb` receives. */
    method StartIpfsApi(options: string, identity: Result<string, Error>) returns (r: Outcome<Error>)
      requires Valid()
      modifies this
      ensures Valid()
      ensures var e := NodeLifecycle.StartIpfsApi(old(State()), options, identity);
              State() == e.after && trace == old(trace) + e.calls && r == e.outcome
    {
      node := ApiClient(options);
      trace := trace + [ApiConnect(options), FetchId];
      match identity
      case Failure(err) =>
        r := Fail(err);
      case Success(id) =>
        ipfsNodeId := Some(id);
        r := Pass;
    }

    /** `_subscribe2IPFSCarTopic(topic, msgReceiver, cb)`. */
    method SubscribeIpfs(topic: string)
      modifies this
      ensures State() == old(State())
      ensures trace == old(trace) + Transport.SubscribeIpfs(old(State()), topic).calls
    {
      if !ipfsRunning {
        return;
      }
      trace := trace + [PubsubSubscribe(topic, true), Completed];
    }

    /** `_subscribe2MQTTCarTopic(topic, msgReceiver, cb)`, with `broker` the configured broker address. */
    method SubscribeMqtt(broker: string)
      modifies this
      ensures State() == old(State())
      ensures trace == old(trace) + Transport.SubscribeMqtt(old(State()), broker).calls
    {
      trace := trace + [MqttConnect(broker), MqttOnConnect, MqttOnMessage];
    }

    /** The MQTT client's 'connect' handler registered by `SubscribeMqtt`. */
    method OnMqttConnect(topic: string)
      modifies this
      ensures State() == old(State())
      ensures trace == old(trace) + Transport.OnMqttConnect(old(State()), topic).calls
    {
      trace := trace + [MqttSubscribe(topic), Completed];
    }

    /** `listenCarTopic(M2MProtocol, topic, msgReceiver, cb)`; a throw is returned as a failure. */
    method ListenCarTopic(protocol: string, topic: string, broker: string) returns (r: Outcome<Error>)
      requires Valid()
      modifies this
      ensures Valid()
      ensures var e := Transport.ListenCarTopic(old(State()), protocol, topic, broker);
              State() == e.after && trace == old(trace) + e.calls && r == e.outcome
    {
      if protocol == "MQTT" {
        SubscribeMqtt(broker);
        r := Pass;
      } else if protocol == "IPFS" {
        SubscribeIpfs(topic);
        r := Pass;
      } else {
        r := Fail(ProtocolNotDefinedError);
      }
    }

    /** The body of task k of the shutdown series. */
    method StopServiceStep(k: nat, stop: Outcome<Error>) returns (r: Outcome<Error>)
      requires k < NodeLifecycle.StopServiceTasks
      modifies this
      ensures var e := NodeLifecycle.StopServiceStep(k, old(State()), stop);
              State() == e.after && trace == old(trace) + e.calls && r == e.outcome
    {
      if k == 0 {
        if ipfsRunning {
          trace := trace + [StopNode];
          r := stop;
        } else {
          r := Pass;
        }
      } else {
        if gpsListening {
          trace := trace + [GpsOff("GGA"), PortOff("data")];
        }
        r := Pass;
      }
    }

    /**
     * One turn of `series` in `stopService`, in the manner of `StartIpfsTurn`.
     */
    method StopServiceTurn(k: nat, stop: Outcome<Error>,
                           ghost whole: Report, ghost t0: seq<Call>, ghost done: Report)
      returns (r: Outcome<Error>, ghost next: Report)
      requires k < NodeLifecycle.StopServiceTasks
      requires done.after == State() && trace == t0 + done.calls
      requires whole == Series.Join(done, Series.Run(NodeLifecycle.StopServiceTask(stop),
                                                     NodeLifecycle.StopServiceTasks, k, State()))
      modifies this
      ensures next.after == State() && next.outcome == r && next.ran == done.ran + 1
      ensures trace == t0 + next.calls
      ensures r.Pass? ==> whole == Series.Join(next, Series.Run(NodeLifecycle.StopServiceTask(stop),
                                                                NodeLifecycle.StopServiceTasks, k + 1, State()))
      ensures r.Fail? ==> whole == next
    {
      ghost var task := NodeLifecycle.StopServiceTask(stop);
      ghost var t := task(k, State());
      Series.RunAdvance(task, NodeLifecycle.StopServiceTasks, k, whole, done);
      assert t0 + (done.calls + t.calls) == trace + t.calls;
      next := Series.Extend(done, t);
      r := StopServiceStep(k, stop);
    }

    /**
     * `stopService()`, with `stop` what the node's stop hands its callback;
     * the result is what the final callback logs.
     */
    method StopService(stop: Outcome<Error>) returns (logged: Outcome<Error>)
      requires Valid()
      modifies this
      ensures Valid()
      ensures var rep := NodeLifecycle.StopService(old(State()), stop);
              State() == rep.after && trace == old(trace) + rep.calls && logged == rep.outcome
    {
      ghost var task := NodeLifecycle.StopServiceTask(stop);
      ghost var s0, t0 := State(), trace;
      ghost var whole := NodeLifecycle.StopService(s0, stop);
      ghost var done: Report := Series.Start(s0);
      Series.RunEnds(task, NodeLifecycle.StopServiceTasks, 0, done);
      var k := 0;
      logged := Pass;
      while k < NodeLifecycle.StopServiceTasks && logged.Pass?
        invariant k <= NodeLifecycle.StopServiceTasks
        invariant done.after == State() && done.outcome == logged && done.ran == k
        invariant trace == t0 + done.calls
        invariant logged.Pass? ==> whole == Series.Join(done, Series.Run(task, NodeLifecycle.StopServiceTasks, k, State()))
        invariant logged.Fail? ==> whole == done
      {
        logged, done := StopServiceTurn(k, stop, whole, t0, done);
        k := k + 1;
      }
      if logged.Pass? {
        Series.RunEnds(task, NodeLifecycle.StopServiceTasks, k, done);
      }
      NodeLifecycle.StopServiceGating(s0, stop);
    }
  }
}
