/** Listener start-up validation (`pre_serves`): which options let the plain
    and the TLS listener be bound, and in which order their failures are
    reported. Binding and reading the TLS files are collaborators passed in:
    `listen` binds (and may throw, say when the port is taken), `read` reads a
    text file. */
module Listeners {
  import opened Js
  import opened Ports
  import opened Config

  /** The argument of `Deno.listen` or `Deno.listenTls`. */
  datatype ListenOptions = Plain(port: int) | Tls(port: int, key: string, cert: string)

  const NoHttpPort: Error := PlainError("no http port")
  const NoHttpsPort: Error := PlainError("no https port")
  const NoKeyOrCert: Error := PlainError("no key or cert file")

  /** A port value a listener can be bound to: an integer in 1..65535. */
  predicate Listenable(v: Unknown) {
    v.Num? && 1 <= v.n <= MaxPort
  }

  /** `port_verify(v) ?? 0` */
  function VerifiedPort(v: Unknown): int {
    match PortVerify(v)
    case Some(p) => p
    case None => 0
  }

  /** `serve_http(opts)`: rejects with 'no http port' unless the HTTP port is
      an integer in 1..65535, and otherwise binds exactly that port. */
  function ServeHttp<L>(opts: Opts, listen: ListenOptions -> Result<L>): (r: Result<L>)
    ensures !Listenable(opts.httpPort) ==> r == Err(Raised(NoHttpPort))
    ensures Listenable(opts.httpPort) ==> r == listen(Plain(opts.httpPort.n))
  {
    PortVerifySpec(opts.httpPort);
    var port := VerifiedPort(opts.httpPort);
    if port < 1 then Err(Raised(NoHttpPort)) else listen(Plain(port))
  }

  /** `serve_https(opts)`: the port test first ('no https port'), then the
      presence of both paths ('no key or cert file'), then the key read, the
      certificate read and the bind, each of whose errors is passed on. */
  function ServeHttps<L>(opts: Opts, read: string -> Result<string>, listen: ListenOptions -> Result<L>): (r: Result<L>)
    ensures !Listenable(opts.httpsPort) ==> r == Err(Raised(NoHttpsPort))
    ensures Listenable(opts.httpsPort) && (opts.key.None? || opts.crt.None?) ==> r == Err(Raised(NoKeyOrCert))
    ensures Listenable(opts.httpsPort) && opts.key.Some? && opts.crt.Some? && read(opts.key.value).Err? ==>
      r == Err(read(opts.key.value).error)
    ensures Listenable(opts.httpsPort) && opts.key.Some? && opts.crt.Some? ==>
      read(opts.key.value).Ok? && read(opts.crt.value).Err? ==> r == Err(read(opts.crt.value).error)
    ensures Listenable(opts.httpsPort) && opts.key.Some? && opts.crt.Some? ==>
      read(opts.key.value).Ok? && read(opts.crt.value).Ok? ==>
      r == listen(Tls(opts.httpsPort.n, read(opts.key.value).value, read(opts.crt.value).value))
    ensures r.Ok? ==>
      && Listenable(opts.httpsPort) && opts.key.Some? && opts.crt.Some?
      && read(opts.key.value).Ok? && read(opts.crt.value).Ok?
      && r == listen(Tls(opts.httpsPort.n, read(opts.key.value).value, read(opts.crt.value).value))
  {
    PortVerifySpec(opts.httpsPort);
    var port := VerifiedPort(opts.httpsPort);
    if port < 1 then Err(Raised(NoHttpsPort))
    else if opts.key.None? || opts.crt.None? then Err(Raised(NoKeyOrCert))
    else
      match read(opts.key.value)
      case Err(e) => Err(e)
      case Ok(key) =>
        match read(opts.crt.value)
        case Err(e) => Err(e)
        case Ok(cert) => listen(Tls(port, key, cert))
  }

  /** Port 0 counts as no port at all, for both listeners, whatever else is
      configured; and a bad port is reported before missing TLS files. */
  lemma PortZeroRejected<L>(opts: Opts, read: string -> Result<string>, listen: ListenOptions -> Result<L>)
    requires opts.httpPort == Num(0) && opts.httpsPort == Num(0)
    ensures ServeHttp(opts, listen) == Err(Raised(NoHttpPort))
    ensures ServeHttps(opts, read, listen) == Err(Raised(NoHttpsPort))
  {
  }
}
