/**
 * The control plane as seen by the camera code: JSON values, the request
 * record a `requests.post` call is given, the reply it comes back with, and
 * the Python exceptions that can come out of it.
 */
module Http {
  import opened Wrappers

  /** A decoded JSON value (numbers are integers in this model). */
  datatype Json =
    | JNull
    | JBool(b: bool)
    | JNum(n: int)
    | JStr(s: string)
    | JArr(items: seq<Json>)
    | JObj(fields: map<string, Json>)

  /** Python truthiness of a decoded JSON value (`None`, `False`, `0`, `""`, `[]`, `{}` are falsy). */
  predicate Truthy(j: Json) {
    match j
    case JNull => false
    case JBool(b) => b
    case JNum(n) => n != 0
    case JStr(s) => s != ""
    case JArr(items) => items != []
    case JObj(fields) => fields != map[]
  }

  /** The Python exception classes that the core raises or lets through. */
  datatype ExcKind =
    | RequestException   // transport failure inside `requests.post`
    | HTTPError          // raised by `raise_for_status`
    | JSONDecodeError    // raised by `response.json()` on a body that is not JSON
    | ValueError
    | KeyError
    | TypeError
    | AttributeError
    | RuntimeError
    | ZeroDivisionError
    | OpenCVError        // `cv2.error`
    | PlainException     // `raise Exception(...)`

  datatype Exc = Exc(kind: ExcKind, message: string)

  /** The exceptions that `except requests.exceptions.RequestException` catches. */
  predicate IsRequestException(k: ExcKind) {
    k == RequestException || k == HTTPError || k == JSONDecodeError
  }

  /** The arguments of one `requests.post(url, json=body, headers=headers, timeout=timeout)`. */
  datatype Request = Request(url: string, body: Json, headers: Option<map<string, Json>>, timeout: nat)

  /** One call that may post a request: the request it posted, if any, and what it returned or raised. */
  datatype Call<+T> = Call(sent: Option<Request>, result: T)

  /** What the body of a reply decodes to. */
  datatype Body = JsonBody(json: Json) | NotJson(decodeError: string)

  /** What the server (or the transport) answers to one request. */
  datatype Response =
    | Reply(status: int, reason: string, body: Body)
    | TransportFailure(message: string)

  const JsonContentType: Json := JStr("application/json")

  /** The decimal digits of `n`. */
  function NatToString(n: nat): (s: string)
    ensures |s| >= 1
    ensures forall i :: 0 <= i < |s| ==> '0' <= s[i] <= '9'
  {
    var d := ['0' + (n % 10) as char];
    if n < 10 then d else NatToString(n / 10) + d
  }

  /** The message of the `HTTPError` that `raise_for_status` raises. */
  function StatusErrorMessage(status: nat, reason: string, url: string): string {
    NatToString(status) + (if status < 500 then " Client Error: " else " Server Error: ")
      + reason + " for url: " + url
  }

  /** `response.raise_for_status()`: 4xx and 5xx replies raise `HTTPError`. */
  function RaiseForStatus(reply: Response, url: string): (o: Outcome<Exc>)
    requires reply.Reply?
    ensures o.Fail? <==> 400 <= reply.status < 600
    ensures o.Fail? ==> o.error.kind == HTTPError
  {
    if 400 <= reply.status < 600 then
      Fail(Exc(HTTPError, StatusErrorMessage(reply.status, reply.reason, url)))
    else Pass
  }

  /** `response.json()`. */
  function DecodeBody(b: Body): (r: Result<Json, Exc>)
    ensures r.Ok? <==> b.JsonBody?
    ensures r.Ok? ==> r.value == b.json
    ensures r.Err? ==> r.error.kind == JSONDecodeError
  {
    match b
    case JsonBody(j) => Ok(j)
    case NotJson(e) => Err(Exc(JSONDecodeError, e))
  }

  /**
   * `requests.post(...)`, then `raise_for_status()`, then `json()`: the
   * sequence that `InstaAPI.send_command` and `InstaAPI.poll_state` share.
   */
  function CheckedJson(reply: Response, url: string): (r: Result<Json, Exc>)
    ensures r.Ok? <==> reply.Reply? && !(400 <= reply.status < 600) && reply.body.JsonBody?
    ensures r.Ok? ==> r.value == reply.body.json
    ensures r.Err? ==> IsRequestException(r.error.kind)
  {
    match reply
    case TransportFailure(m) => Err(Exc(RequestException, m))
    case Reply(_, _, body) =>
      match RaiseForStatus(reply, url)
      case Fail(e) => Err(e)
      case Pass => DecodeBody(body)
  }
}
