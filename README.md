# caldera: the decision logic of a CONNECT tunnelling proxy, in Dafny

caldera is a small Deno proxy. It listens on a plain HTTP port and a TLS
port. For every `CONNECT host:port` request it checks the
`proxy-authorization` header against a credential store, opens a TCP
connection upstream, acknowledges with `200`, and relays bytes both ways.
Almost all of its runtime work is socket I/O and concurrent piping. This
project models the sequential decisions around that I/O, from `mod.ts`, as
pure Dafny functions, and proves what they promise:

- **Ports** (`ports.dfy`). `safe_int`/`port_verify` accept a value of
  unknown type only if it is an integral number in 0..65535.
  `port_normalize` picks the CONNECT target port from a parsed URL: the
  explicit port if it is non-zero, else 80 for `http:` and 443 otherwise.
- **Listener start-up** (`listeners.dfy`). `serve_http` and `serve_https`
  validate their port. `serve_https` also needs both TLS paths. Failures are
  reported in a fixed order, and each listener is bound only on a port in
  1..65535.
- **Credential store** (`auth.dfy`, `base64.dfy`). The store is the set of
  `"Basic " + btoa(user + ":" + pass)` tokens of the Basic scheme (section 2
  of RFC 7617). Base64 follows section 4 of RFC 4648 and is written out here
  with its inverse. Every failure is re-thrown as 'fail to read auth file'.
  An empty store is such a failure. The check is exact membership of the
  header value.
- **Dispatcher** (`dispatch.dfy`). The set-up builds the store when `auth`
  is non-empty. Each request is then classified as 204 (not CONNECT), 407
  (the check failed) or one tunnel call with the normalised port, the
  hostname and the configured timeout.
- **Start-up of `main`** (`lifecycle.dfy`). It throws 'program exited' only
  when every listener failed. The cause is a leading line break followed by
  each reason on its own line. Otherwise it keeps exactly the listeners that
  started, in order.
- **Helpers** (`errors.dfy`, `streams.dfy`, `tunnel.dfy`). These cover
  `ignores`, `try_catch`, `catch_iterable_when`, `catch_all`,
  `catch_abortable` and `prepend`/`all_readable`. They also cover the two
  socket-independent decisions of the tunnel: whether the connect gets a
  deadline, and whether a failure is logged.

Collaborators are passed in as values or functions. `Deno.listen` and
`Deno.listenTls` become `listen`, `Deno.readTextFile` becomes `read`, and
`JSON.parse` with `Object.entries` becomes `parse`. `toFileUrl(toAbsolute(..))`
becomes `locate`. The URL parser's output is the `Url` record, and a request's
`proxy-authorization` header value is an input. Async iterables are finite
`Stream`s: values, then a clean end or a thrown value.

Behaviour of the code worth knowing:

- `main` attaches `.catch(ignores)` to every handler promise. This absorbs
  every rejection of a request handler's promise, not only the ignorable
  ones (`Lifecycle.CatchIgnores`). A synchronous throw from `handle` is not
  absorbed.
- The dispatcher always passes `verify` a file URL, so the credentials are
  always read from a file. Inline JSON text is modelled (`Auth.Source.Inline`)
  but `main` never uses it.
- The tunnel's connect timeout defaults to 0, which means no deadline.
- A port of `0` is rejected as 'no http port' / 'no https port'. It does not
  silently skip the listener.

## Model

| member | source | states |
|---|---|---|
| `Errors.IgnoresOnlyByClass` | mod.ts:321-334 | `ignores` holds exactly for instances of BadResource, BrokenPipe, ConnectionReset, Interrupted and DeadlineError. Name and message play no part. A plain `Error` or a non-Error value is never ignored. |
| `Errors.TryCatch` | mod.ts:389-396 | `try_catch` returns the function's value when it returns. When it throws, the result is the thrown `Error` itself, or a new `Error('unknown')` whose cause is the non-Error value. |
| `Errors.TryCatchIdempotent` | mod.ts:389-396 | The `Error` that `try_catch` produces passes through `try_catch` again unchanged. |
| `Ports.SafeInt` | mod.ts:360-377 | The result is defined exactly when `n` is a safe integer (within ±(2^53 − 1)) in `[min, max]`, and it is then `n` itself. A non-number, a non-integer, an unsafe integer or an out-of-range value gives undefined. |
| `Ports.PortVerifySpec` | mod.ts:450 | `port_verify(v)` returns `v` exactly when `v` is an integral number in 0..65535. Every other input gives undefined. |
| `Ports.PortVerifyExamples` | mod.ts:450 | 80 and 443 pass. -1, a fraction, 999999, the string "42", `true` and undefined do not. |
| `Ports.DecimalRoundTrip` | mod.ts:352 | `+s` on the decimal spelling of `n` gives `n` back. |
| `Ports.PortNormalize` | mod.ts:351-353 | The chosen target port is always in 1..65535 for a port the URL parser can produce. |
| `Ports.ExplicitPortWins` | mod.ts:352 | An explicit non-zero port is returned as that integer, whatever the protocol. |
| `Ports.DefaultPortFallback` | mod.ts:352 | An empty port and "0" give the same result. That result is 80 exactly when the protocol is "http:", and 443 otherwise. |
| `Ports.PortNormalizeTestCases` | mod.test.ts:19-26 | The unit test's six URLs give 80, 443, 80, 443, 80, 443. An explicit default port is elided by the URL parser. |
| `Base64.Encode` | mod.ts:282 | A base64 text has four characters per started group of three bytes, all from the alphabet or '='. |
| `Base64.DecodeEncode` | mod.ts:282 | Decoding the encoding of any byte string gives it back (round trip). |
| `Base64.EncodeDecode` | mod.ts:282 | The only text that decodes to a byte string is that string's encoding, so decoding and encoding are inverse in both directions. |
| `Base64.NonZeroPadBitsRejected` | mod.ts:282 | Texts with non-zero pad bits ("Zh==", "Zm9=") are refused, as section 3.5 of RFC 4648 requires. |
| `Base64.EncodeInjective` | mod.ts:282 | Distinct byte strings have distinct encodings. |
| `Base64.Btoa` | mod.ts:282 | `btoa` succeeds exactly on strings whose code units are all at most 0xFF. It then returns the one text that decodes back to those bytes, and otherwise throws InvalidCharacterError. |
| `Base64.BtoaCanonical` | mod.ts:282 | Any text that decodes to a string's bytes is exactly what `btoa` returns for that string. |
| `Base64.BtoaInjective` | mod.ts:282 | Two strings that `btoa` accepts and encodes alike are equal. |
| `Base64.BtoaPaddedVectors` | mod.ts:282 | "f" and "fo" encode to "Zg==" and "Zm8=", as in section 10 of RFC 4648. |
| `Base64.BtoaFoobar` | mod.ts:282 | "foobar" encodes to "Zm9vYmFy". |
| `Auth.Tokens` | mod.ts:280-284 | Mapping the entries succeeds exactly when every credential is Latin-1, with one Basic token per entry in order. Otherwise it fails with `btoa`'s error. |
| `Auth.StoreIsTokenSet` | mod.ts:280-284 | The `Set` built from the token list is the set of the entries' Basic tokens. |
| `Auth.TokenSetEmpty` | mod.ts:286 | The token set is empty exactly when there are no entries. |
| `Auth.Store` | mod.ts:280-288 | The store is built exactly when there are entries and all are Latin-1. It is then non-empty and equal to the entries' token set. Otherwise the failure is 'empty auth file' or `btoa`'s error. |
| `Auth.Verify` | mod.ts:271-305 | Every failure of the read, the parse, `btoa` or an empty store surfaces as 'fail to read auth file', whose cause is built from that inner failure. On success the store is non-empty and equals the token set of the parsed entries. |
| `Auth.VerifyRejectsEmptyObject` | mod.ts:286-288 | An object with no entries gives an error. It never gives a store that admits nobody. |
| `Auth.VerifyReadFails` | mod.ts:295-302 | A failed file read is re-thrown with the cause ": " followed by the reader error's own cause when it has one, and by its message otherwise. |
| `Auth.Check` | mod.ts:290-293 | A header is accepted exactly when it is present and its value is in the store, so a missing header is always refused. |
| `Auth.CheckAdmitsExactlyConfigured` | mod.ts:290-293 | The check admits a header exactly when it is present and equals, case and all, the Basic token of some entry. |
| `Auth.AcceptedHeaderDecodes` | mod.ts:280-293 | Every accepted header starts with "Basic ", and the rest decodes to the bytes of some entry's `user:pass`. |
| `Auth.TokenInjective` | mod.ts:280-284 | Two entries share a token only when their `user:pass` texts are equal. |
| `Auth.ColonCredentialsCollapse` | mod.ts:280-284 | Duplicates collapse: the users "a:b"/"c" and "a"/"b:c" give one token between them. |
| `Streams.CatchWhen` | mod.ts:411-431 | The wrapper yields exactly the input values in order. A terminal error `e` ends it cleanly when `p(e)` holds and is re-thrown unchanged otherwise. |
| `Streams.CatchWhenIdempotent` | mod.ts:411-431 | Wrapping twice with the same predicate equals wrapping once. |
| `Streams.CatchAll` | mod.ts:443 | `catch_all` keeps every value and never re-throws. |
| `Streams.CatchAbortable` | mod.ts:437-440 | `catch_abortable` keeps every value. It swallows exactly the errors named 'AbortError' and re-throws every other error unchanged. |
| `Streams.Prepend` | mod.ts:402-405 | `prepend` yields the head, then the tail's values, and ends as the tail ends. |
| `Tunnel.AllReadable` | mod.ts:221-227 | The stream sent upstream carries the bytes buffered during the upgrade, then the client's bytes. Nothing is lost or reordered, whether or not any bytes were buffered. |
| `Tunnel.ConnectDeadline` | mod.ts:199-214 | The connect runs under a deadline exactly when a timeout above 0 was given, and the deadline is that timeout. |
| `Tunnel.Reports` | mod.ts:241-245 | An ignorable failure is not logged. Any other failure is logged exactly once, with the hostname, the port and the original error. |
| `Listeners.ServeHttp` | mod.ts:99-111 | Rejects with 'no http port' unless the port is an integer in 1..65535. Otherwise it binds exactly that port. |
| `Listeners.ServeHttps` | mod.ts:113-134 | Checks in order: 'no https port', then 'no key or cert file' if either path is missing, then the key read's error, then the certificate read's error. When every check and both reads pass, the result is exactly the TLS bind on that port with the two files' contents, whether the bind succeeds or throws. |
| `Listeners.PortZeroRejected` | mod.ts:101-118 | Port 0 is rejected by both listeners, and before any check of the TLS paths. |
| `Dispatch.OnRequest` | mod.ts:150-152 | Without `auth`, or with an empty one, there is no check. Otherwise the set-up succeeds exactly when the store can be built, keeps that store, and fails with 'fail to read auth file' when it cannot. |
| `Dispatch.Handle` | mod.ts:154-173 | A non-CONNECT request always gets 204. A CONNECT request that fails the check gets 407 with `Proxy-Authenticate: proxy auth`. Otherwise there is exactly one tunnel, to the normalised port (in 1..65535) and the URL's hostname, with the configured timeout. |
| `Dispatch.ConfiguredProxyTunnelsExactlyCredentials` | mod.ts:152-171 | With credentials configured, a CONNECT request is tunnelled exactly when its header is some entry's Basic token. Otherwise it gets 407. |
| `Dispatch.OpenProxyTunnelsEveryConnect` | mod.ts:152-171 | Without `auth`, every CONNECT request is tunnelled, with or without a header. |
| `Lifecycle.JoinAfterEmpty` | mod.ts:48-51 | Joining `['', ...reasons]` with "\n" puts a line break before every reason. |
| `Lifecycle.FulfilledMembers` | mod.ts:57 | The kept values are exactly the values of the fulfilled outcomes. |
| `Lifecycle.FulfilledEmpty` | mod.ts:46 | Nothing is fulfilled exactly when every outcome is rejected. |
| `Lifecycle.TwoOutcomes` | mod.ts:41-44 | For the two services, the fulfilled values and the rejection reasons come in listing order (HTTP first). |
| `Lifecycle.StartUp` | mod.ts:46-57 | Throws 'program exited' exactly when every outcome is rejected, with each reason on its own line after a leading line break. Otherwise it returns exactly the fulfilled values, at least one, in order. |
| `Lifecycle.Start` | mod.ts:39-57 | A failing handler set-up is thrown first. Then `main` fails exactly when both listeners failed, and then throws 'program exited' with the reasons joined as the cause. Otherwise it keeps the handler and the one or two listeners that started. |
| `Lifecycle.StartedListenersHaveValidPorts` | mod.ts:41-57 | Every listener `main` goes on with was bound on a port in 1..65535. |
| `Lifecycle.NoPortsProgramExits` | mod.ts:41-55 | With no ports and no `auth`, `main` throws 'program exited' with the cause "\nError: no http port\nError: no https port". |
| `Lifecycle.NoPortsCause` | mod.ts:48-51 | The cause text for two port-less listeners is "\nError: no http port\nError: no https port". |
| `Lifecycle.CatchIgnores` | mod.ts:74 | Every rejection of a handler's promise is absorbed: after `.catch(ignores)` the promise always settles as fulfilled. |

## Left out

- The accept loop of `main` is left out: the `for await` over `MuxAsyncIterator`, the per-connection `Deno.serveHttp`, and the `finally` that closes every listener through `try_close`. It is concurrent I/O. The model stops at the listeners `main` goes on with.
- The tunnel's socket work is left out: `Deno.connect`, `Deno.upgradeHttp`, `respondWith(established)`, the two `pipeTo` relays, `try_close` and `AbortController`. It is concurrent I/O with cancellation. Only its deadline choice, its error-report choice and `all_readable` are modelled.
- The cancellation and timer library is left out: `abortablePromise`, `abortableAsyncIterable`, `deadline` and `MuxAsyncIterator`. Their code is not part of this model.
- Foreign parsers and readers are inputs, not models: `JSON.parse`/`Object.entries`, the URL parser, `toFileUrl`/`resolve`, `Deno.readTextFile` and the header lookup. If `new URL(request.url)` throws, that is not modelled. Such a throw is synchronous: the function `handle` returns is not `async`, so the throw escapes `.catch(ignores)`, leaves both `for await` loops and ends the accept loop, whose `finally` closes the listeners, and `main` rejects.
- `pre_tap_catch` is left out. It logs and re-throws, with no result to state.
- Logging (`console.info`, `console.error`) is left out, except that `Tunnel.Reports` states which `error(hostname, port, e)` call is made.
- bin.ts (command-line parsing through an external library) and deps.ts (re-exports only) are not part of this model.
- `Ports.SafeInt`: JavaScript numbers are modelled as `Num(int)` for integral values and `NonIntegerNum` for the rest. Doubles too large to be exact integers and `-0` are not told apart.
- `Base64.Btoa`: strings are sequences of Unicode scalar values, not UTF-16 code units. A lone surrogate cannot be written, and a character above U+FFFF is rejected as a whole, as `btoa` rejects its two code units. The message of `InvalidCharacterError` is the runtime's, which this repository does not contain.
- `Auth.Verify`: a password that is not a JSON string is modelled after JavaScript's `+` has made it text (the `parse` input already holds text).
- `Lifecycle.StartUp`: a rejection reason is kept as its `String` text. `join` writes a `null` or `undefined` reason as the empty string, not as "null" or "undefined", and the model does not tell those two values apart.
- `Dispatch.Handle`: the response to a non-CONNECT request and the 407 response are values. Their being sent through `respondWith` is not modelled.
