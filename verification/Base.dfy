/** Values and constants shared by the models of the service's components. */
module Base {

  datatype Option<+T> = None | Some(value: T)

  type IpAddr = string

  /** Feature name to JSON text. */
  type Features = map<string, string>

  /** What a packet or a stored object says about a host. */
  datatype Node = Node(ipAddr: IpAddr, timeNs: int, features: Features)

  const SECOND := 1_000_000_000

  const MIN_TRANSMIT_INTERVAL := 20 * SECOND
  const MAX_TRANSMIT_INTERVAL := 40 * SECOND
  const LATENCY_TOLERANCE := 15 * SECOND

  const MIN_STORAGE_INTERVAL := 120 * SECOND
  const MAX_STORAGE_INTERVAL := 240 * SECOND
  const EXPIRE_TIMEOUT := 15 * 60 * SECOND
}
