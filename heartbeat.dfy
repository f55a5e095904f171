/** The keep-alive request (src/camera/heartbeat.py, `send_heartbeat` only). */
module Heartbeat {
  import opened Wrappers
  import opened Http

  const HeartbeatFailedMessage: string := "Heartbeat failed"

  /** The request `send_heartbeat` posts: an empty body with the fingerprint header. */
  function HeartbeatRequest(stateUrl: string, fingerprint: Json): Request {
    Request(stateUrl, JObj(map[]),
      Some(map["Fingerprint" := fingerprint, "Content-Type" := JsonContentType]), 5)
  }

  /**
   * `send_heartbeat(state_url, fingerprint)` answered by `reply`: it always
   * posts, returns normally on status 200, raises "Heartbeat failed" on any
   * other status, and lets a transport error through.
   */
  function SendHeartbeat(stateUrl: string, fingerprint: Json, reply: Response): (c: Call<Outcome<Exc>>)
    ensures c.sent.Some?
    ensures var req := c.sent.value;
      && req.url == stateUrl && req.body == JObj(map[]) && req.timeout == 5
      && req.headers.Some? && req.headers.value.Keys == {"Fingerprint", "Content-Type"}
      && req.headers.value["Fingerprint"] == fingerprint
      && req.headers.value["Content-Type"] == JStr("application/json")
    ensures c.result.Pass? <==> reply.Reply? && reply.status == 200
    ensures reply.Reply? && reply.status != 200 ==> c.result == Fail(Exc(PlainException, HeartbeatFailedMessage))
    ensures reply.TransportFailure? ==> c.result == Fail(Exc(RequestException, reply.message))
  {
    var req := HeartbeatRequest(stateUrl, fingerprint);
    match reply
    case TransportFailure(m) => Call(Some(req), Fail(Exc(RequestException, m)))
    case Reply(status, _, _) =>
      Call(Some(req), if status != 200 then Fail(Exc(PlainException, HeartbeatFailedMessage)) else Pass)
  }
}
