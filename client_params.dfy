/** The connection parameters the promise-based client hands to
    `mg::Client::Connect`, and the TLS modes shared with the synchronous
    connection. */
module ClientParams {
  import opened Numbers

  /** `MG_SSLMODE_DISABLE` and `MG_SSLMODE_REQUIRE`. */
  datatype SslMode = SslDisable | SslRequire

  /** The fields of `mg::Client::Params` the binding writes. The port is a
      `uint16_t`. The library's own default values are not part of this model:
      every validator takes them as a `defaults` argument. */
  datatype Params = Params(
    host: string,
    port: Port,
    username: string,
    password: string,
    userAgent: string,
    useSsl: SslMode)

  /** A boolean chooses the TLS mode: true requires TLS, false disables it. */
  function SslModeOf(requireTls: bool): SslMode {
    if requireTls then SslRequire else SslDisable
  }
}
