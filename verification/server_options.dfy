/** The option record handed from the PHP binding to the server core
    (`php_h2o_server_options` in ext/h2o_server.h). */
module ServerConfig {
  import opened Wrappers

  /** C's `uint16_t`. */
  newtype uint16 = x: int | 0 <= x < 0x1_0000

  /** A `const char *` that may be NULL is an `Option<string>`; the host and
      the body are never NULL. `responseBodyLen` is the byte count the
      handler sends, kept apart from the buffer as in the C struct. */
  datatype ServerOptions = ServerOptions(
    host: string,
    port: uint16,
    responseBody: string,
    responseBodyLen: nat,
    tlsCert: Option<string>,
    tlsKey: Option<string>)
  {
    /** The server sets up TLS only when both paths are non-NULL. */
    predicate HasTls() {
      tlsCert.Some? && tlsKey.Some?
    }
  }
}
