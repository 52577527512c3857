/** The decisions inside `pre_tunnel_to` that do not depend on the sockets:
    whether the connect is bounded by a deadline, whether a failure is
    reported, and the stream handed upstream after the upgrade. */
module Tunnel {
  import opened Js
  import opened Errors
  import opened Streams

  /** `timeout = 0`, then `timeout > 0 ? deadline(conn, timeout) : conn`:
      the deadline the connect runs under, if any. */
  function ConnectDeadline(timeout: Option<int>): (d: Option<int>)
    ensures d.Some? <==> timeout.Some? && timeout.value > 0
    ensures d.Some? ==> d == timeout
  {
    var t := match timeout case Some(v) => v case None => 0;
    if t > 0 then Some(t) else None
  }

  /** One call of the error logger: `error(hostname, port, e)`. */
  datatype Report = Report(hostname: string, port: int, cause: Thrown)

  /** The logger calls made for a failure `e` of the connect or the relay:
      none for an ignorable error, otherwise exactly one carrying `e`. */
  function Reports(hostname: string, port: int, e: Thrown): (r: seq<Report>)
    ensures |r| <= 1
    ensures r == [] <==> Ignores(e)
    ensures r != [] ==> r[0].cause == e && r[0].hostname == hostname && r[0].port == port
  {
    if Ignores(e) then [] else [Report(hostname, port, e)]
  }

  /** `all_readable`: the client's stream when nothing was buffered during the
      upgrade, otherwise the buffered bytes followed by that stream. No byte is
      lost or reordered either way, and the stream ends as the client's does. */
  function AllReadable(init: seq<Byte>, readable: Stream<seq<Byte>>): (r: Stream<seq<Byte>>)
    ensures Flatten(Items(r)) == init + Flatten(Items(readable))
    ensures Ending(r) == Ending(readable)
  {
    if |init| < 1 then readable
    else
      var r := Prepend(init, readable);
      assert Items(r)[1..] == Items(readable);
      r
  }
}
