/**
 * The signal queue and the fingerprint handshake
 * (src/signal_processing/signal_handler.py).
 */
module SignalHandling {
  import opened Wrappers
  import opened Http

  /** `SignalHandler`: a FIFO queue of signals and the handler calls made so far. */
  class SignalHandler<S> {
    var queue: seq<S>
    var handled: seq<S>   // the signals passed to `handle_signal`, in call order

    constructor ()
      ensures queue == [] && handled == []
    {
      queue := [];
      handled := [];
    }

    /** `add_signal`: appends at the tail. */
    method AddSignal(signal: S)
      modifies this`queue
      ensures queue == old(queue) + [signal]
    {
      queue := queue + [signal];
    }

    /** `process_signals`: hands every queued signal to the handler, oldest first, and empties the queue. */
    method ProcessSignals()
      modifies this`queue, this`handled
      ensures queue == []
      ensures handled == old(handled) + old(queue)
    {
      while queue != []
        invariant handled + queue == old(handled) + old(queue)
        decreases |queue|
      {
        var signal := queue[0];
        queue := queue[1..];
        handled := handled + [signal];
        assert handled + queue == old(handled) + old(queue) by {
          assert handled + queue == (handled[..|handled| - 1] + [signal]) + queue;
        }
      }
    }
  }

  const DefaultTimeZone: string := "GMT+8"
  const ConnectCommand: string := "camera._connect"
  const RegisterFailedMessage: string := "Failed to register fingerprint"

  /** The request `register_fingerprint` posts. */
  function RegisterRequest(commandUrl: string, hwTime: string, timeZone: string): Request {
    Request(
      commandUrl,
      JObj(map[
        "name" := JStr(ConnectCommand),
        "parameters" := JObj(map["hw_time" := JStr(hwTime), "time_zone" := JStr(timeZone)])]),
      Some(map["Content-Type" := JsonContentType]),
      10)
  }

  /**
   * What `register_fingerprint` makes of the reply: the status code is never
   * looked at; the body must decode and be an object; `state == "done"`
   * returns `results.get("Fingerprint")` (`None` when absent), any other state
   * raises.
   */
  function RegisterDecision(reply: Response): Result<Json, Exc> {
    match reply
    case TransportFailure(m) => Err(Exc(RequestException, m))
    case Reply(_, _, body) =>
      (match DecodeBody(body)
      case Err(e) => Err(e)
      case Ok(JObj(data)) =>
        if "state" in data && data["state"] == JStr("done") then
          if "results" !in data then Err(Exc(KeyError, "'results'"))
          else
            (match data["results"]
             case JObj(results) => Ok(if "Fingerprint" in results then results["Fingerprint"] else JNull)
             case _ => Err(Exc(AttributeError, "object has no attribute 'get'")))
        else Err(Exc(PlainException, RegisterFailedMessage))
      case Ok(_) => Err(Exc(AttributeError, "object has no attribute 'get'")))
  }

  /** `register_fingerprint(command_url, hw_time, time_zone)` answered by `reply`. */
  function RegisterFingerprint(commandUrl: string, hwTime: string, timeZone: string := DefaultTimeZone, reply: Response): (c: Call<Result<Json, Exc>>)
    ensures c.sent == Some(RegisterRequest(commandUrl, hwTime, timeZone))
    ensures c.result == RegisterDecision(reply)
  {
    Call(Some(RegisterRequest(commandUrl, hwTime, timeZone)), RegisterDecision(reply))
  }

  /**
   * The handshake request is a `camera._connect` command carrying exactly the
   * hardware time and time zone, with a JSON content type and no Fingerprint
   * header.
   */
  lemma RegisterRequestShape(commandUrl: string, hwTime: string, timeZone: string)
    ensures var req := RegisterRequest(commandUrl, hwTime, timeZone);
      && req.url == commandUrl
      && req.body.JObj? && req.body.fields.Keys == {"name", "parameters"}
      && req.body.fields["name"] == JStr("camera._connect")
      && req.body.fields["parameters"].JObj?
      && req.body.fields["parameters"].fields.Keys == {"hw_time", "time_zone"}
      && req.body.fields["parameters"].fields["hw_time"] == JStr(hwTime)
      && req.body.fields["parameters"].fields["time_zone"] == JStr(timeZone)
      && req.headers.Some? && req.headers.value.Keys == {"Content-Type"}
      && "Fingerprint" !in req.headers.value
  {
  }

  /**
   * The handshake succeeds exactly on a decodable object reply whose state is
   * "done" and whose results are an object; it then returns the Fingerprint,
   * or `None` when the results lack one. It raises "Failed to register
   * fingerprint" exactly on an object reply whose state is missing or not
   * "done". The status code plays no part.
   */
  lemma RegisterDecisionCases(reply: Response)
    ensures RegisterDecision(reply).Ok? <==>
      && reply.Reply? && reply.body.JsonBody? && reply.body.json.JObj?
      && "state" in reply.body.json.fields && reply.body.json.fields["state"] == JStr("done")
      && "results" in reply.body.json.fields && reply.body.json.fields["results"].JObj?
    ensures RegisterDecision(reply).Ok? ==>
      var results := reply.body.json.fields["results"].fields;
      RegisterDecision(reply).value == if "Fingerprint" in results then results["Fingerprint"] else JNull
    ensures RegisterDecision(reply) == Err(Exc(PlainException, RegisterFailedMessage)) <==>
      && reply.Reply? && reply.body.JsonBody? && reply.body.json.JObj?
      && !("state" in reply.body.json.fields && reply.body.json.fields["state"] == JStr("done"))
    ensures reply.Reply? ==> forall status :: RegisterDecision(reply.(status := status)) == RegisterDecision(reply)
  {
  }
}
