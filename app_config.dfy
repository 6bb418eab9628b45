/** The node's configuration, read once at start-up and treated as constant. */
module AppConfig {

  /** The node's own IP address (found by a DNS lookup at start-up) and its listening port. */
  datatype Settings = Settings(ipAddress: string, port: int)

  /** The address used both for the loopback fallback of the DNS lookup and as a robbery victim. */
  const Loopback: string := "127.0.0.1"
}
