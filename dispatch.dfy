/** The request dispatcher (`pre_on_request`): set up once from the options,
    then applied to each inbound request, answering with 204 or 407 or handing
    the request to the tunnel. */
module Dispatch {
  import opened Js
  import opened Ports
  import opened Auth
  import opened Config

  /** A response without a body. */
  datatype Response = Response(status: int, statusText: string, headers: seq<(string, string)>)

  /** `new Response(null, { status: 204 })` */
  const NoContent: Response := Response(204, "", [])

  /** `auth_failure` */
  const AuthFailure: Response :=
    Response(407, "Proxy Authentication Required", [("Proxy-Authenticate", "proxy auth")])

  /** What the dispatcher reads of a request: its method, its URL as the URL
      parser splits it, and the value of its `proxy-authorization` header. */
  datatype Request = Request(httpMethod: string, url: Url, proxyAuthorization: Option<string>)

  /** What the dispatcher does with one request: answer it, or call
      `tunnel(port, hostname)(event, timeout)` once. */
  datatype Action = Respond(response: Response) | Tunnel(port: int, hostname: string, timeout: Option<int>)

  /** The closure the set-up returns: the credential store if one was
      configured, and the configured connect timeout. */
  datatype Handler = Handler(store: Option<set<string>>, timeout: Option<int>)

  /** The set-up: without `auth` (or with an empty one) no check at all;
      otherwise the store read from `locate(auth)`, the file URL of the
      resolved path, whose failure fails the set-up. */
  function OnRequest(
    opts: Opts,
    locate: string -> string,
    read: string -> Result<string>,
    parse: string -> Result<seq<Entry>>): (r: Result<Handler>)
    ensures !HasAuth(opts) ==> r == Ok(Handler(None, opts.timeout))
    ensures HasAuth(opts) ==> (r.Ok? <==> Verify(Location(locate(opts.auth.value)), read, parse).Ok?)
    ensures HasAuth(opts) && r.Ok? ==>
      r.value == Handler(Some(Verify(Location(locate(opts.auth.value)), read, parse).value), opts.timeout)
    ensures r.Err? ==> IsReadFailure(r.error)
  {
    if !HasAuth(opts) then Ok(Handler(None, opts.timeout))
    else
      match Verify(Location(locate(opts.auth.value)), read, parse)
      case Err(e) => Err(e)
      case Ok(store) => Ok(Handler(Some(store), opts.timeout))
  }

  /** The request passes the credential check, or there is none. */
  predicate Admits(h: Handler, header: Option<string>) {
    h.store.None? || Check(h.store.value, header)
  }

  /** The handler applied to one request: the method test first, then the
      credential check, then the tunnel to the normalised port. */
  function Handle(h: Handler, req: Request): (a: Action)
    ensures req.httpMethod != "CONNECT" ==> a == Respond(NoContent)
    ensures req.httpMethod == "CONNECT" && !Admits(h, req.proxyAuthorization) ==> a == Respond(AuthFailure)
    ensures a.Tunnel? <==> req.httpMethod == "CONNECT" && Admits(h, req.proxyAuthorization)
    ensures a.Tunnel? ==>
      && 1 <= a.port <= MaxPort
      && a.port == PortNormalize(req.url)
      && a.hostname == req.url.hostname
      && a.timeout == h.timeout
  {
    if req.httpMethod != "CONNECT" then Respond(NoContent)
    else if h.store.Some? && Check(h.store.value, req.proxyAuthorization) == false then Respond(AuthFailure)
    else Tunnel(PortNormalize(req.url), req.url.hostname, h.timeout)
  }

  /** With credentials configured, a CONNECT request is tunnelled exactly when
      its header is the Basic token of one of the entries; otherwise it gets
      407. */
  lemma ConfiguredProxyTunnelsExactlyCredentials(entries: seq<Entry>, timeout: Option<int>, req: Request)
    requires AllLatin1(entries)
    requires req.httpMethod == "CONNECT"
    ensures Handle(Handler(Some(TokenSet(entries)), timeout), req).Tunnel? <==>
      exists e :: e in entries && req.proxyAuthorization == Some(BasicToken(e))
    ensures !Handle(Handler(Some(TokenSet(entries)), timeout), req).Tunnel? ==>
      Handle(Handler(Some(TokenSet(entries)), timeout), req) == Respond(AuthFailure)
  {
    CheckAdmitsExactlyConfigured(entries, req.proxyAuthorization);
  }

  /** Without `auth`, every CONNECT request is tunnelled, with or without a
      header. */
  lemma OpenProxyTunnelsEveryConnect(opts: Opts, locate: string -> string, read: string -> Result<string>,
                                     parse: string -> Result<seq<Entry>>, req: Request)
    requires !HasAuth(opts) && req.httpMethod == "CONNECT"
    ensures OnRequest(opts, locate, read, parse).Ok?
    ensures Handle(OnRequest(opts, locate, read, parse).value, req)
      == Tunnel(PortNormalize(req.url), req.url.hostname, opts.timeout)
  {
  }
}
