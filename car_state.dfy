/**
 * The state of one in-car service object, as a value, and the alphabet of the
 * calls it makes into the libraries and hardware around it.
 */
module CarState {
  import opened Wrappers
  import Series

  /** Errors are what the callbacks receive or what is thrown; all are strings here. */
  type Error = string

  /** The error the online check hands to the startup series. */
  const NotOnlineError: Error := "error bringing ipfs online"

  /** Thrown by the unknown-command branch: it reads an undeclared variable `msg`. */
  const MsgNotDefinedError: Error := "ReferenceError: msg is not defined"

  /** Thrown by the unknown-protocol branch: it reads an undeclared variable `m2mProtocol`. */
  const ProtocolNotDefinedError: Error := "ReferenceError: m2mProtocol is not defined"

  /** The tri-state lock flag: the string 'unknown' at first, then true or false. */
  datatype Lock = Unknown | Locked | Unlocked

  /**
   * A position record. The coordinates are copied, never computed, so they are
   * exact reals here; `time` is the timestamp already converted to a number.
   */
  datatype Location = Location(time: int, lat: real, lon: real, alt: real)

  /** What the `ipfsNode` field holds: nothing yet, an in-process node, or an API client. */
  datatype NodeHandle = NoNode | LocalNode(repo: string) | ApiClient(options: string)

  /** The fields of a car service object that its methods read or write. */
  datatype Car = Car(
    ipfsRunning: bool,
    ipfsNodeId: Option<string>,
    node: NodeHandle,
    gpsFixed: bool,
    loc: Location,
    speed: real,
    locked: Lock,
    gpsListening: bool,
    gpsportCreated: bool)

  /** The placeholder position shown before the first fix. */
  const DefaultLocation: Location := Location(1495050105, 37.263056, -115.79302, 0.0)

  /**
   * The state a freshly constructed service starts in; `gpsListening` is never
   * assigned by the constructor, so it reads as false.
   */
  const Initial: Car := Car(
    ipfsRunning := false,
    ipfsNodeId := None,
    node := NoNode,
    gpsFixed := false,
    loc := DefaultLocation,
    speed := 0.0,
    locked := Unknown,
    gpsListening := false,
    gpsportCreated := false)

  /**
   * The objects the teardown dereferences exist whenever their flags say so:
   * a service marked listening has created its serial port, and a service
   * marked running holds a node handle.
   */
  predicate Consistent(s: Car)
  {
    (s.gpsListening ==> s.gpsportCreated) && (s.ipfsRunning ==> !s.node.NoNode?)
  }

  /** A call made into the actuator, the IPFS node, the MQTT client, the serial port or the GPS parser. */
  datatype Call =
    | KeyfobLock
    | KeyfobUnlock
    | NewNode(repo: string, pubsub: bool)
    | RepoExists
    | AwaitReady
    | InitRepo(emptyRepo: bool, bits: nat)
    | StartNode
    | IsOnline
    | FetchId
    | SwarmConnect(address: string)
    | SwarmPeers
    | StopNode
    | ApiConnect(options: string)
    | PubsubSubscribe(topic: string, discover: bool)
    | MqttConnect(broker: string)
    | MqttOnConnect
    | MqttOnMessage
    | MqttSubscribe(topic: string)
    | Completed
    | OpenSerialPort(path: string, baudRate: nat, delimiter: string)
    | PortOnData
    | GpsOnData
    | GpsOff(event: string)
    | PortOff(event: string)

  /** What one operation or task of the service does. */
  type Effect = Series.Step<Car, Call, Error>

  /** What a whole `series` of tasks of the service does. */
  type Report = Series.Report<Car, Call, Error>

  /** How many times a call occurs in a trace. */
  function Count(calls: seq<Call>, c: Call): nat
  {
    multiset(calls)[c]
  }
}
