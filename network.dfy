/** The outbound peer client, seen from the core. */
module Network {

  /** NetworkClient.SendRequest(ip, port, line): one request line out, one trimmed
      response line back. Timeouts and I/O errors come back as "ER ..." strings,
      never as exceptions, so the client is a total function of its arguments. */
  type Transport = (string, int, string) -> string
}
