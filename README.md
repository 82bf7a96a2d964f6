# In-car service: a verified model of `CarService`

This project models the state logic of the in-car service object of the
mobility dapp (`app/car/js/car-service.js`): the lock/unlock command
executor, the GPS fix handler, the ordered startup of the IPFS node (or the
attachment to a remote node through the API client), the protocol dispatch
of the command-topic subscription with its running-node guard, and the
gated teardown.

Everything the service asks of a library it cannot see (the IPFS node, the
ipfs-api client, the MQTT client, the serial port, the GPS sentence parser,
the keyfob driver) is turned around: the library's answer is a parameter,
and the call itself is appended to a ghost `trace`. Given those answers every
operation is sequential and deterministic.

Layout:

- `wrappers.dfy` — `Option`, `Result` (a callback's `(err, value)`), `Outcome` (a callback's `(err)`).
- `series.dfy` — `async/series`: tasks run in order and the first failing task ends the run; stated once for any task list and reused by startup and teardown.
- `car_state.dfy` — the object's fields as a value (`Car`), the constructor defaults (`Initial`), the call alphabet (`Call`) and the error strings.
- `commands.dfy`, `telemetry.dfy`, `node_lifecycle.dfy`, `transport.dfy` — one specification function per operation, and the lemmas about them.
- `car_service.dfy` — class `CarService`, whose fields are updated in place by methods. Each method is proved to leave exactly the state, trace and result its specification function gives. `startIpfs` and `stopService` are loops that start the next task only while every earlier one has passed.

Behaviour as written that a reader might not expect, all modelled as the code has it:

- An unrecognised command is not just logged. The log line reads the undeclared variable `msg`, so `execCmd` throws a ReferenceError before logging. Nothing is changed and no actuator is called.
- The unsupported-protocol branch of `listenCarTopic` reads the undeclared `m2mProtocol`, so what it throws is a ReferenceError too.
- A bootstrap-connection error ends the startup series with that error. The node is still left marked running, with its id.
- The running flag is set before the id fetch. A failed fetch leaves the node marked running with no new id.
- `startIpfsApi` never sets the running flag. A service attached to a remote node therefore cannot subscribe through the IPFS route, and its completion callback is never invoked, unless an earlier local startup already marked it running.
- `stopService` resets neither flag. A second call stops the node again.
- `startGPSData` opens the serial port only once but registers both 'data' handlers again on every call.
- The MQTT 'message' handler is registered at once, not after the 'connect' event.
- `gpsListening` is not set by the constructor, so it starts out false (undefined).

## Model

| member | source | states |
|---|---|---|
| `Series.Run` | app/car/js/car-service.js:47-106 | a series that reports success has started every one of its tasks; a failed one started at least the failing task |
| `Series.RunSplit` | app/car/js/car-service.js:47-106 | a series splits at any task: if the earlier tasks failed, no later task starts; otherwise the later tasks run from the state the earlier ones left |
| `Series.RunStopsAtFirstFailure` | app/car/js/car-service.js:47-106 | if every task before task f passed and task f fails, the series' error is exactly task f's, exactly the tasks up to f started, and the calls are theirs alone |
| `Series.RunPassesIffEveryTaskPasses` | app/car/js/car-service.js:101-105 | the final callback gets no error exactly when every task, run from the state its predecessors left, passed |
| `Commands.ParseCommand` | app/car/js/car-service.js:218-230 | a string is recognised exactly when it is the name of one of the two commands, and then as that command |
| `Commands.ExecCmd` | app/car/js/car-service.js:216-232 | 'lock' calls the keyfob's lock exactly once and sets the flag to locked; 'unlock' calls unlock exactly once and sets it to unlocked; anything else throws the ReferenceError, calls nothing and changes nothing; no field but the lock flag ever changes |
| `Commands.ExecCmdsFollowsLastCommand` | app/car/js/car-service.js:216-232 | after any sequence of commands the lock flag is the one the last recognised command set (unchanged if none), and the keyfob was called once per 'lock' and once per 'unlock' and never otherwise |
| `Telemetry.OnGpsReport` | app/car/js/car-service.js:191-207 | a report with a fix sets the fix flag and replaces position and speed with that report's values; a report without one clears the flag and keeps position and speed; nothing else changes |
| `Telemetry.FeedReportsKeepsLastFix` | app/car/js/car-service.js:191-207 | after any stream of reports, position and speed all come from the last report with a fix (or are the old ones), and the fix flag is the latest report's |
| `Telemetry.StartGpsData` | app/car/js/car-service.js:178-210 | opens the serial port (/dev/ttyS0, 9600 baud, CRLF lines) first and only when none exists yet, then registers the port's and the parser's 'data' handlers and makes no other call; marks the port created and the service listening |
| `Telemetry.StartGpsDataTwice` | app/car/js/car-service.js:180-191 | two calls open the port at most once but register each handler twice; the second call changes no field |
| `NodeLifecycle.StartIpfsStep` | app/car/js/car-service.js:48-99 | the outcome each startup task hands its callback depends on the library's answers alone, not on the service's state |
| `NodeLifecycle.StartIpfsStopsAtFirstError` | app/car/js/car-service.js:47-106 | the first failing startup task ends the series; its error is exactly what the final callback receives, and no later task starts |
| `NodeLifecycle.StartIpfsSucceedsIff` | app/car/js/car-service.js:101-105 | startup reports success exactly when all six tasks pass |
| `NodeLifecycle.StartIpfsSuccess` | app/car/js/car-service.js:47-106 | a full success constructs the node, checks the repo, waits for 'ready' or inits with emptyRepo and 2048 bits, starts, checks online, fetches the id, connects to the bootstrap peer and lists peers, in that order; the node ends marked running with the returned id |
| `NodeLifecycle.StartIpfsRepoCheckFails` | app/car/js/car-service.js:67-69 | a repo-check error ends startup after the construction and the check |
| `NodeLifecycle.StartIpfsInitFails` | app/car/js/car-service.js:67-71 | for a missing repo, an init error ends startup with that error |
| `NodeLifecycle.StartIpfsStartFails` | app/car/js/car-service.js:74 | a start error ends startup before the online check |
| `NodeLifecycle.StartIpfsNotOnline` | app/car/js/car-service.js:75-76 | a node not online after start fails with 'error bringing ipfs online'; the running flag and the id stay as they were and the id is never fetched |
| `NodeLifecycle.StartIpfsIdFails` | app/car/js/car-service.js:75-79 | an id-fetch error leaves the node marked running with the old id, and no swarm call is made |
| `NodeLifecycle.StartIpfsBootstrapFails` | app/car/js/car-service.js:86-91 | a bootstrap-connection error ends startup with that error before the peer listing, with the node marked running and its id recorded |
| `NodeLifecycle.StartIpfsPeersFail` | app/car/js/car-service.js:93-98 | a peer-listing error is the series' error after every call has been made |
| `NodeLifecycle.StartIpfsEffects` | app/car/js/car-service.js:45-108 | for any answers, startup makes a prefix of the planned calls in plan order; it sets the running flag exactly when the online check was reached and passed, sets the id exactly when the fetch then succeeded, and changes only the node handle besides |
| `NodeLifecycle.StartIpfsApi` | app/car/js/car-service.js:115-125 | attaches an API client and fetches the id; success records the id, an error reaches the callback with the id unchanged; the running flag is never set |
| `NodeLifecycle.StopServiceStep` | app/car/js/car-service.js:239-253 | no teardown task changes a field |
| `NodeLifecycle.StopServiceGating` | app/car/js/car-service.js:237-258 | teardown stops the node exactly when it is marked running; it detaches the GPS listeners exactly when they are marked listening and no node-stop error came first; the node-stop error is what the final callback logs; it resets no flag; from a consistent state it stops only a node handle that exists and detaches only a port that was created |
| `NodeLifecycle.StopServiceRepeats` | app/car/js/car-service.js:237-258 | a second teardown makes the same calls again, so the node is stopped twice |
| `Transport.ParseProtocol` | app/car/js/car-service.js:163-172 | a protocol name is recognised exactly when it names MQTT or IPFS, and then as that protocol |
| `Transport.SubscribeIpfs` | app/car/js/car-service.js:132-140 | subscribes (with discovery) and invokes the completion callback exactly when the node is marked running; otherwise makes no call at all |
| `Transport.SubscribeMqtt` | app/car/js/car-service.js:142-152 | makes exactly three calls: connects to the broker first, then registers the 'connect' and 'message' handlers; it neither subscribes the topic nor completes before 'connect' |
| `Transport.OnMqttConnect` | app/car/js/car-service.js:145-149 | on 'connect' the topic is subscribed and then completion is signalled |
| `Transport.ListenCarTopic` | app/car/js/car-service.js:161-173 | 'MQTT' and 'IPFS' go to their own subscription routines; any other name throws and calls nothing; no field changes |
| `Transport.RemoteNodeCannotSubscribe` | app/car/js/car-service.js:115-140 | a service not already running that attaches to a remote node still subscribes to nothing on IPFS and never completes, whatever the node answers |
| `Transport.StartedNodeSubscribes` | app/car/js/car-service.js:45-140 | after a successful local startup, listening on IPFS subscribes and completes |
| `Service.CarService.constructor` | app/car/js/car-service.js:20-40 | a new service has no node and is not running; it has no fix, the default position and speed 0, an unknown lock state, and is not listening |
| `Service.CarService.ExecCmd` | app/car/js/car-service.js:216-232 | updates the lock field and the trace as `Commands.ExecCmd` says |
| `Service.CarService.OnGpsReport` | app/car/js/car-service.js:191-207 | updates the fix, position and speed fields as `Telemetry.OnGpsReport` says |
| `Service.CarService.StartGpsData` | app/car/js/car-service.js:178-210 | updates the port and listening fields and the trace as `Telemetry.StartGpsData` says |
| `Service.CarService.StartIpfsStep` | app/car/js/car-service.js:48-99 | each task's body does what `NodeLifecycle.StartIpfsStep` says |
| `Service.CarService.StartIpfs` | app/car/js/car-service.js:45-108 | runs the tasks in order while they pass, leaving the state, trace and result of `NodeLifecycle.StartIpfs` |
| `Service.CarService.StartIpfsApi` | app/car/js/car-service.js:115-125 | leaves the state, trace and result of `NodeLifecycle.StartIpfsApi` |
| `Service.CarService.SubscribeIpfs` | app/car/js/car-service.js:132-140 | changes no field and makes the calls of `Transport.SubscribeIpfs` |
| `Service.CarService.SubscribeMqtt` | app/car/js/car-service.js:142-152 | changes no field and makes the calls of `Transport.SubscribeMqtt` |
| `Service.CarService.OnMqttConnect` | app/car/js/car-service.js:145-149 | changes no field and makes the calls of `Transport.OnMqttConnect` |
| `Service.CarService.ListenCarTopic` | app/car/js/car-service.js:161-173 | dispatches as `Transport.ListenCarTopic` says |
| `Service.CarService.StopServiceStep` | app/car/js/car-service.js:240-253 | each teardown task's body does what `NodeLifecycle.StopServiceStep` says |
| `Service.CarService.StopService` | app/car/js/car-service.js:237-258 | runs the teardown tasks while they pass, leaving the state, trace and logged result of `NodeLifecycle.StopService` |

## Left out

- The IPFS node, the ipfs-api client, the MQTT client, the serial port and the GPS sentence parser are foreign libraries: only their answers are modelled, as parameters, and only their invocation as trace entries.
- The keyfob's hardware effect: `lock()`/`unlock()` are only recorded in the trace.
- Event timing: the 'ready' wait is assumed to fire, which is what lets the series continue. The MQTT 'connect' event is a separate handler method. Serial data arrival is not modelled. A series or subscription whose event never arrives, and so never completes, is not represented.
- Floating-point arithmetic: latitude, longitude, altitude and speed are copied, never computed, and are exact reals here. The report's time is taken as already converted by `new Date(...).getTime()`.
- The bootstrap and peer-listing tasks call their callback a second time after an error. What that second call does depends on the once-guard inside `async`, whose code is not part of this model. The model propagates the first error only.
- The configuration module `app-common` is not part of this model. The first bootstrap peer address and the MQTT broker address are parameters.
- The two ReferenceErrors assume that no global `msg` or `m2mProtocol` exists elsewhere in the process.
- The message-receiver callback is not modelled: only its registration is recorded. The completion callback is recorded as the `Completed` call.
- Logging, the implicit global MQTT `client`, the `gpsRunning` field (set but never read), the `gps` parser object, and the unused imports (geolib, Web3, os, path, multiaddr) are not modelled.
- NodeLifecycle.StopServiceGating: assumes that detaching the GPS listeners returns normally. `gpsport.off('data')` is called with no listener, and an emitter may throw a TypeError there; a throw from that task is not modelled.
- The teardown's `gps.off('GGA')` is recorded as a call only. That it names a different event from the registered 'data' listener, and how the emitter treats an `off` without a listener, are not modelled.
