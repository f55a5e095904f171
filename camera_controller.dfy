/**
 * `CameraController` (src/camera/camera_controller.py): the capture switch
 * and the fingerprint that gates the authenticated commands. The values the
 * module reads from its configuration file (`COMMAND_URL`, `STATE_URL`,
 * `PREVIEW_PARAMETERS`) are constructor arguments here.
 */
module CameraControl {
  import opened Wrappers
  import opened Http
  import opened Frames
  import SignalHandling
  import Heartbeat

  const PreviewCommand: string := "camera._startPreview"
  const HeartbeatNeedsFingerprint: string := "Fingerprint is required to send heartbeat"
  const PreviewNeedsFingerprint: string := "Fingerprint is required to start preview"
  const PreviewFailedMessage: string := "Failed to start preview"

  /** A `cv2.VideoCapture` on a device index, and whether `release()` has been called on it. */
  datatype CaptureHandle = CaptureHandle(cameraIndex: int, released: bool)

  /** The request `start_preview` posts. */
  function PreviewRequest(commandUrl: string, previewParameters: Json, fingerprint: Json): Request {
    Request(commandUrl,
      JObj(map["name" := JStr(PreviewCommand), "parameters" := previewParameters]),
      Some(map["Fingerprint" := fingerprint, "Content-Type" := JsonContentType]), 10)
  }

  /** `send_heartbeat`: refuses before posting anything when the fingerprint is falsy. */
  function GatedHeartbeat(stateUrl: string, fingerprint: Json, reply: Response): (c: Call<Outcome<Exc>>)
    ensures !Truthy(fingerprint) ==> c == Call(None, Fail(Exc(PlainException, HeartbeatNeedsFingerprint)))
    ensures Truthy(fingerprint) ==> c == Heartbeat.SendHeartbeat(stateUrl, fingerprint, reply)
  {
    if !Truthy(fingerprint) then Call(None, Fail(Exc(PlainException, HeartbeatNeedsFingerprint)))
    else Heartbeat.SendHeartbeat(stateUrl, fingerprint, reply)
  }

  /**
   * `start_preview`: refuses before posting anything when the fingerprint is
   * falsy; otherwise posts the preview command and raises on any status but 200.
   */
  function GatedPreview(commandUrl: string, previewParameters: Json, fingerprint: Json, reply: Response): (c: Call<Outcome<Exc>>)
    ensures c.sent.Some? <==> Truthy(fingerprint)
    ensures !Truthy(fingerprint) ==> c.result == Fail(Exc(PlainException, PreviewNeedsFingerprint))
    ensures Truthy(fingerprint) ==> c.sent.value == PreviewRequest(commandUrl, previewParameters, fingerprint)
    ensures Truthy(fingerprint) ==> (c.result.Pass? <==> reply.Reply? && reply.status == 200)
    ensures Truthy(fingerprint) && reply.Reply? && reply.status != 200 ==>
      c.result == Fail(Exc(PlainException, PreviewFailedMessage))
  {
    if !Truthy(fingerprint) then Call(None, Fail(Exc(PlainException, PreviewNeedsFingerprint)))
    else
      var req := PreviewRequest(commandUrl, previewParameters, fingerprint);
      match reply
      case TransportFailure(m) => Call(Some(req), Fail(Exc(RequestException, m)))
      case Reply(status, _, _) =>
        Call(Some(req), if status != 200 then Fail(Exc(PlainException, PreviewFailedMessage)) else Pass)
  }

  /**
   * A "done" handshake whose results lack a Fingerprint stores `None`, and
   * with `None` stored both gated commands raise without posting.
   */
  lemma DoneWithoutFingerprintLocksOut(commandUrl: string, stateUrl: string, previewParameters: Json,
                                       reply: Response, later: Response)
    requires reply.Reply? && reply.body.JsonBody? && reply.body.json.JObj?
    requires "state" in reply.body.json.fields && reply.body.json.fields["state"] == JStr("done")
    requires "results" in reply.body.json.fields && reply.body.json.fields["results"].JObj?
    requires "Fingerprint" !in reply.body.json.fields["results"].fields
    ensures SignalHandling.RegisterDecision(reply) == Ok(JNull)
    ensures GatedHeartbeat(stateUrl, JNull, later).sent.None?
    ensures GatedHeartbeat(stateUrl, JNull, later).result.Fail?
    ensures GatedPreview(commandUrl, previewParameters, JNull, later).sent.None?
    ensures GatedPreview(commandUrl, previewParameters, JNull, later).result.Fail?
  {
    SignalHandling.RegisterDecisionCases(reply);
  }

  class CameraController {
    const cameraIndex: int
    const commandUrl: string
    const stateUrl: string
    const previewParameters: Json
    var capture: Option<CaptureHandle>
    var running: bool
    var fingerprint: Json   // `None` is JNull

    constructor (commandUrl: string, stateUrl: string, previewParameters: Json, cameraIndex: int := 0)
      ensures this.cameraIndex == cameraIndex && this.commandUrl == commandUrl
      ensures this.stateUrl == stateUrl && this.previewParameters == previewParameters
      ensures capture.None? && !running && fingerprint == JNull
    {
      this.cameraIndex := cameraIndex;
      this.commandUrl := commandUrl;
      this.stateUrl := stateUrl;
      this.previewParameters := previewParameters;
      capture := None;
      running := false;
      fingerprint := JNull;
    }

    /** `start_camera`: installs a fresh capture on the device and sets running. */
    method StartCamera()
      modifies this`capture, this`running
      ensures capture == Some(CaptureHandle(cameraIndex, false)) && running
    {
      capture := Some(CaptureHandle(cameraIndex, false));
      running := true;
    }

    /** `stop_camera`: releases the capture if there is one (it stays installed) and clears running. */
    method StopCamera()
      modifies this`capture, this`running
      ensures !running
      ensures capture == if old(capture).Some? then Some(old(capture).value.(released := true)) else None
    {
      if capture.Some? {
        capture := Some(capture.value.(released := true));
      }
      running := false;
    }

    /**
     * `get_frame`, where `read` is what `capture.read()` would give: a frame
     * only with a capture installed, running set and a successful read.
     */
    method GetFrame(read: ReadOutcome) returns (r: Result<Option<Image>, Exc>)
      ensures r.Ok? && r.value.Some? <==> capture.Some? && running && read.Grabbed?
      ensures r.Ok? && r.value.Some? ==> r.value.value == read.frame
      ensures r.Err? <==> capture.Some? && running && read.ReadRaised?
    {
      if capture.Some? && running {
        match read {
          case Grabbed(f) => return Ok(Some(f));
          case NoFrame =>
          case ReadRaised(m) => return Err(Exc(OpenCVError, m));
        }
      }
      r := Ok(None);
    }

    /**
     * `boot_camera`, with the formatted local time passed in: stores whatever
     * the handshake returns (possibly `None`); if the handshake raises, the
     * stored fingerprint is kept.
     */
    method BootCamera(hwTime: string, reply: Response) returns (c: Call<Outcome<Exc>>)
      modifies this`fingerprint
      ensures var reg := SignalHandling.RegisterFingerprint(commandUrl, hwTime, reply := reply);
        && c.sent == reg.sent
        && (reg.result.Ok? ==> fingerprint == reg.result.value && c.result == Pass)
        && (reg.result.Err? ==> fingerprint == old(fingerprint) && c.result == Fail(reg.result.error))
    {
      var reg := SignalHandling.RegisterFingerprint(commandUrl, hwTime, reply := reply);
      match reg.result {
        case Ok(fp) =>
          fingerprint := fp;
          c := Call(reg.sent, Pass);
        case Err(e) =>
          c := Call(reg.sent, Fail(e));
      }
    }

    /** `send_heartbeat` on the stored fingerprint. */
    method SendHeartbeat(reply: Response) returns (c: Call<Outcome<Exc>>)
      ensures c == GatedHeartbeat(stateUrl, fingerprint, reply)
    {
      if !Truthy(fingerprint) {
        return Call(None, Fail(Exc(PlainException, HeartbeatNeedsFingerprint)));
      }
      c := Heartbeat.SendHeartbeat(stateUrl, fingerprint, reply);
    }

    /** `start_preview` on the stored fingerprint. */
    method StartPreview(reply: Response) returns (c: Call<Outcome<Exc>>)
      ensures c == GatedPreview(commandUrl, previewParameters, fingerprint, reply)
    {
      if !Truthy(fingerprint) {
        return Call(None, Fail(Exc(PlainException, PreviewNeedsFingerprint)));
      }
      var req := PreviewRequest(commandUrl, previewParameters, fingerprint);
      if reply.TransportFailure? {
        return Call(Some(req), Fail(Exc(RequestException, reply.message)));
      }
      if reply.status != 200 {
        return Call(Some(req), Fail(Exc(PlainException, PreviewFailedMessage)));
      }
      c := Call(Some(req), Pass);
    }
  }
}
