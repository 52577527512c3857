/** The options the proxy is started with (`Opts`). */
module Config {
  import opened Js

  /** `auth` is the path of the credential file; the two ports arrive from the
      command line as values of unknown type; `timeout` bounds the upstream
      connect in milliseconds; `crt` and `key` are the TLS file paths. An option
      that was not given is `None` (or `Absent` for a port). */
  datatype Opts = Opts(
    auth: Option<string>,
    httpPort: Unknown,
    httpsPort: Unknown,
    timeout: Option<int>,
    crt: Option<string>,
    key: Option<string>)

  /** `auth && ...`: an absent or empty `auth` means no credential check. */
  predicate HasAuth(opts: Opts) {
    opts.auth.Some? && opts.auth.value != ""
  }
}
