/** The start-up decision of `main`: build the handler, start both
    listeners, and go on with the listeners that started unless none did. */
module Lifecycle {
  import opened Js
  import opened Errors
  import opened Config
  import opened Auth
  import opened Listeners
  import opened Dispatch

  /** `settling.rejected`, mapped to `r.reason`: the reasons of the rejected
      outcomes, in order. */
  function Reasons<L>(services: seq<Result<L>>): seq<Thrown> {
    if services == [] then []
    else (if services[0].Err? then [services[0].error] else []) + Reasons(services[1..])
  }

  /** `settling.fulfilled`, mapped to `r.value`: the values of the fulfilled
      outcomes, in order. */
  function Fulfilled<L>(services: seq<Result<L>>): seq<L> {
    if services == [] then []
    else (if services[0].Ok? then [services[0].value] else []) + Fulfilled(services[1..])
  }

  /** The text `join` writes for each reason: `String(reason)`. (`join` writes
      a `null` or `undefined` reason as the empty string; a thrown value keeps
      only its `String` text here, so that case is not told apart.) */
  function ShowAll(ts: seq<Thrown>): seq<string> {
    if ts == [] then [] else [Show(ts[0])] + ShowAll(ts[1..])
  }

  /** `parts.join(sep)` */
  function Join(parts: seq<string>, sep: string): string {
    if parts == [] then ""
    else if |parts| == 1 then parts[0]
    else parts[0] + sep + Join(parts[1..], sep)
  }

  /** Each line preceded by a line break. */
  function Lines(lines: seq<string>): string {
    if lines == [] then "" else "\n" + lines[0] + Lines(lines[1..])
  }

  /** Joining behind a leading empty part puts a line break before every part. */
  lemma {:induction false} JoinAfterEmpty(lines: seq<string>)
    ensures Join([""] + lines, "\n") == Lines(lines)
  {
    if lines != [] {
      JoinAfterEmpty(lines[1..]);
      assert ([""] + lines)[1..] == lines;
      assert [lines[0]] + lines[1..] == lines;
      if |lines| == 1 {
        assert Lines(lines) == "\n" + lines[0];
      } else {
        assert Join(lines, "\n") == lines[0] + "\n" + Join(lines[1..], "\n");
        assert Join([""] + lines[1..], "\n") == "\n" + Join(lines[1..], "\n");
      }
    }
  }

  /** The fulfilled values are exactly the values of the `Ok` outcomes. */
  lemma {:induction false} FulfilledMembers<L>(services: seq<Result<L>>, x: L)
    ensures x in Fulfilled(services) <==> exists i :: 0 <= i < |services| && services[i] == Ok(x)
  {
    if services != [] {
      FulfilledMembers(services[1..], x);
      if exists i :: 0 <= i < |services| && services[i] == Ok(x) {
        var i :| 0 <= i < |services| && services[i] == Ok(x);
        if i > 0 { assert services[1..][i - 1] == Ok(x); }
      }
      if exists j :: 0 <= j < |services[1..]| && services[1..][j] == Ok(x) {
        var j :| 0 <= j < |services[1..]| && services[1..][j] == Ok(x);
        assert services[j + 1] == Ok(x);
      }
    }
  }

  /** There is no fulfilled value exactly when every outcome is a rejection. */
  lemma {:induction false} FulfilledEmpty<L>(services: seq<Result<L>>)
    ensures Fulfilled(services) == [] <==> forall i :: 0 <= i < |services| ==> services[i].Err?
  {
    if services != [] {
      FulfilledEmpty(services[1..]);
      assert forall i :: 1 <= i < |services| ==> services[i] == services[1..][i - 1];
    }
  }

  /** The two-outcome case `main` has, written out. */
  lemma TwoOutcomes<L>(a: Result<L>, b: Result<L>)
    ensures Fulfilled([a, b]) == (if a.Ok? then [a.value] else []) + (if b.Ok? then [b.value] else [])
    ensures Reasons([a, b]) == (if a.Err? then [a.error] else []) + (if b.Err? then [b.error] else [])
  {
    assert [a, b][1..] == [b];
    assert [b][1..] == [];
    var fb := if b.Ok? then [b.value] else [];
    assert Fulfilled([b]) == fb + Fulfilled([b][1..]) == fb;
    var rb := if b.Err? then [b.error] else [];
    assert Reasons([b]) == rb + Reasons([b][1..]) == rb;
  }

  /** The error `main` throws when no listener started. */
  function ProgramExited(cause: string): Thrown {
    Raised(ErrorWithCause("program exited", cause))
  }

  /** `services.every(settling.rejected)`: then 'program exited' with every
      reason on a line of its own after a leading line break; otherwise the
      fulfilled listeners, in their order. */
  function StartUp<L>(services: seq<Result<L>>): (r: Result<seq<L>>)
    ensures r.Err? <==> forall i :: 0 <= i < |services| ==> services[i].Err?
    ensures r.Err? ==> r.error == ProgramExited(Lines(ShowAll(Reasons(services))))
    ensures r.Ok? ==> r.value == Fulfilled(services) && |r.value| >= 1
  {
    FulfilledEmpty(services);
    JoinAfterEmpty(ShowAll(Reasons(services)));
    if forall i :: 0 <= i < |services| ==> services[i].Err? then
      Err(ProgramExited(Join([""] + ShowAll(Reasons(services)), "\n")))
    else
      Ok(Fulfilled(services))
  }

  /** What `main` goes on to serve with. */
  datatype Running<L> = Running(handler: Handler, listeners: seq<L>)

  /** The two start-up outcomes, plain listener first. */
  function Services<L>(opts: Opts, read: string -> Result<string>, listen: ListenOptions -> Result<L>): seq<Result<L>> {
    [ServeHttp(opts, listen), ServeHttps(opts, read, listen)]
  }

  /** `main` up to the accept loop: a failing handler set-up is thrown first;
      then 'program exited' if both listeners failed, else the handler and the
      listeners that started. */
  function Start<L>(
    opts: Opts,
    locate: string -> string,
    read: string -> Result<string>,
    parse: string -> Result<seq<Entry>>,
    listen: ListenOptions -> Result<L>): (r: Result<Running<L>>)
    ensures OnRequest(opts, locate, read, parse).Err? ==> r == Err(OnRequest(opts, locate, read, parse).error)
    ensures OnRequest(opts, locate, read, parse).Ok? ==>
      (r.Err? <==> ServeHttp(opts, listen).Err? && ServeHttps(opts, read, listen).Err?)
    ensures OnRequest(opts, locate, read, parse).Ok? && r.Err? ==>
      r.error == ProgramExited(Lines(ShowAll(Reasons(Services(opts, read, listen)))))
    ensures r.Ok? ==>
      && r.value.handler == OnRequest(opts, locate, read, parse).value
      && 1 <= |r.value.listeners| <= 2
      && r.value.listeners == Fulfilled(Services(opts, read, listen))
  {
    match OnRequest(opts, locate, read, parse)
    case Err(e) => Err(e)
    case Ok(handle) =>
      var services := Services(opts, read, listen);
      TwoOutcomes(services[0], services[1]);
      match StartUp(services)
      case Err(e) => Err(e)
      case Ok(fulfilled) => Ok(Running(handle, fulfilled))
  }

  /** Every listener `main` goes on with was bound through `listen` on a port
      in 1..65535. */
  lemma StartedListenersHaveValidPorts<L>(
    opts: Opts,
    locate: string -> string,
    read: string -> Result<string>,
    parse: string -> Result<seq<Entry>>,
    listen: ListenOptions -> Result<L>,
    l: L)
    requires Start(opts, locate, read, parse, listen).Ok?
    requires l in Start(opts, locate, read, parse, listen).value.listeners
    ensures exists o: ListenOptions :: 1 <= o.port <= 65535 && listen(o) == Ok(l)
  {
    var services := Services(opts, read, listen);
    FulfilledMembers(services, l);
    var i :| 0 <= i < |services| && services[i] == Ok(l);
    if i == 0 {
      assert listen(Plain(opts.httpPort.n)) == Ok(l);
    } else {
      assert listen(Tls(opts.httpsPort.n, read(opts.key.value).value, read(opts.crt.value).value)) == Ok(l);
    }
  }

  /** With no port configured (and no credential file), `main` fails at once
      with 'program exited', naming both listeners' reasons. */
  lemma NoPortsProgramExits<L>(
    opts: Opts,
    locate: string -> string,
    read: string -> Result<string>,
    parse: string -> Result<seq<Entry>>,
    listen: ListenOptions -> Result<L>)
    requires !HasAuth(opts) && opts.httpPort == Absent && opts.httpsPort == Absent
    ensures Start(opts, locate, read, parse, listen)
      == Err(ProgramExited("\n" + "Error: no http port" + "\n" + "Error: no https port"))
  {
    var services := Services(opts, read, listen);
    assert services == [Err(Raised(NoHttpPort)), Err(Raised(NoHttpsPort))];
    TwoOutcomes(services[0], services[1]);
    NoPortsCause();
  }

  /** The cause text when both listeners lack a port. */
  lemma NoPortsCause()
    ensures Lines(ShowAll([Raised(NoHttpPort), Raised(NoHttpsPort)])) == "\n" + "Error: no http port" + "\n" + "Error: no https port"
  {
    var a, b := Show(Raised(NoHttpPort)), Show(Raised(NoHttpsPort));
    assert a == "Error: no http port";
    assert b == "Error: no https port";
    var ts := [Raised(NoHttpPort), Raised(NoHttpsPort)];
    assert ts[1..] == [Raised(NoHttpsPort)];
    assert ts[1..][1..] == [];
    assert ShowAll(ts[1..][1..]) == [];
    assert ShowAll(ts[1..]) == [b] + ShowAll(ts[1..][1..]);
    assert ShowAll(ts) == [a] + ShowAll(ts[1..]);
    assert ShowAll(ts) == [a, b];
    LinesOfTwo(a, b);
    assert Lines(ShowAll(ts)) == Lines([a, b]);
    assert "\n" + a + "\n" + b == "\n" + "Error: no http port" + "\n" + "Error: no https port";
  }

  lemma LinesOfTwo(a: string, b: string)
    ensures Lines([a, b]) == "\n" + a + "\n" + b
  {
    assert [a, b][1..] == [b];
    assert [b][1..] == [];
    assert Lines([b]) == "\n" + b + Lines([b][1..]) == "\n" + b;
    assert Lines([a, b]) == "\n" + a + Lines([b]);
  }

  /** `handle(event).catch(ignores)`: every rejection of the handler's promise
      is absorbed, and turns into the value `ignores` gives for it. (A
      synchronous throw from `handle` happens before `.catch` is attached and
      is not an outcome here.) */
  function CatchIgnores(outcome: Result<()>): (r: Result<Option<bool>>)
    ensures r.Ok?
    ensures outcome.Err? ==> r.value == Some(Ignores(outcome.error))
    ensures outcome.Ok? ==> r.value == None
  {
    match outcome
    case Ok(_) => Ok(None)
    case Err(e) => Ok(Some(Ignores(e)))
  }
}
