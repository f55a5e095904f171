/**
 * The background capture loop (insta_cam_module/utils/frame_receiver.py).
 *
 * The capture device is abstracted as the sequence of outcomes its `read()`
 * calls give, and the `on_error` callback as the list of messages it has been
 * called with. One run of the loop consumes a prefix of those outcomes.
 */
module FrameReceiving {
  import opened Wrappers
  import opened Http
  import opened Frames

  /** Consecutive failed reads after which the loop gives up. */
  const FailureThreshold: nat := 30

  const StreamErrorMessage: string := "Stream error, stopped automatically."

  function StreamExceptionMessage(detail: string): string {
    "Stream exception: " + detail
  }

  /** Passed to `on_error` when the source cannot be opened. */
  const OpenFailureNotice: string := "無法開啟串流來源"

  /** The message of the `RuntimeError` raised when the source cannot be opened. */
  function OpenFailureMessage(url: string): string {
    "無法開啟串流來源：" + url
  }

  /** A `cv2.VideoCapture` handle: the URL it was opened on and whether `isOpened()` holds. */
  datatype Capture = Capture(url: string, isOpened: bool)

  /** The `on_error` calls made for `message`: one if a callback was given, none otherwise. */
  function Reported(callback: bool, message: string): (calls: seq<string>)
    ensures |calls| <= 1 && (calls != [] <==> callback)
    ensures calls != [] ==> calls[0] == message
  {
    if callback then [message] else []
  }

  /** Where one run of the loop ends. */
  datatype LoopEnd = LoopEnd(
    latest: Option<Image>,   // `latest_frame` afterwards
    running: bool,           // `running` afterwards
    failCount: nat,          // the local `fail_count` afterwards
    consumed: nat,           // how many reads were made
    reported: seq<string>)   // the `on_error` calls made

  /** Read outcomes from index `i` on, with `latest` and `failCount` as they stand before read `i`. */
  function Drive(outs: seq<ReadOutcome>, i: nat, latest: Option<Image>, failCount: nat, callback: bool): LoopEnd
    requires i <= |outs|
    decreases |outs| - i
  {
    if i == |outs| then LoopEnd(latest, true, failCount, i, [])
    else
      match outs[i]
      case Grabbed(f) => Drive(outs, i + 1, Some(f), 0, callback)
      case NoFrame =>
        if failCount + 1 >= FailureThreshold then
          LoopEnd(latest, false, failCount + 1, i + 1, Reported(callback, StreamErrorMessage))
        else Drive(outs, i + 1, latest, failCount + 1, callback)
      case ReadRaised(m) =>
        LoopEnd(latest, false, failCount, i + 1, Reported(callback, StreamExceptionMessage(m)))
  }

  /** The number of failed reads immediately before position `n`. */
  function Streak(outs: seq<ReadOutcome>, n: nat): nat
    requires n <= |outs|
  {
    if n == 0 then 0
    else if outs[n - 1].NoFrame? then Streak(outs, n - 1) + 1
    else 0
  }

  /** Read number `k` (1-based) is one after which the loop stops. */
  predicate StopsAfter(outs: seq<ReadOutcome>, k: nat)
    requires 0 < k <= |outs|
  {
    outs[k - 1].ReadRaised? || Streak(outs, k) >= FailureThreshold
  }

  /** The report for a loop that stopped after read `k`: the exception's, or the stream error. */
  function StopMessage(outs: seq<ReadOutcome>, k: nat): string
    requires 0 < k <= |outs|
  {
    if outs[k - 1].ReadRaised? then StreamExceptionMessage(outs[k - 1].message) else StreamErrorMessage
  }

  /** The most recent frame grabbed among reads `i` to `n - 1`, or `before` if there is none. */
  function LastGrabbed(outs: seq<ReadOutcome>, i: nat, n: nat, before: Option<Image>): Option<Image>
    requires i <= n <= |outs|
    decreases n - i
  {
    if n == i then before
    else if outs[n - 1].Grabbed? then Some(outs[n - 1].frame)
    else LastGrabbed(outs, i, n - 1, before)
  }

  /** Taking read `i` into the starting value instead of the range gives the same last frame. */
  lemma {:induction false} LastGrabbedShift(outs: seq<ReadOutcome>, i: nat, n: nat, before: Option<Image>)
    requires i < n <= |outs|
    ensures LastGrabbed(outs, i, n, before)
         == LastGrabbed(outs, i + 1, n, if outs[i].Grabbed? then Some(outs[i].frame) else before)
    decreases n - i
  {
    if n > i + 1 && !outs[n - 1].Grabbed? {
      LastGrabbedShift(outs, i, n - 1, before);
    }
  }

  /**
   * The loop's whole behaviour: it makes reads until the first read after
   * which it stops (an exception, or the 30th failure in a row) or until the
   * reads run out; it reports once exactly when it stops and a callback was
   * given; and it leaves the most recent grabbed frame in `latest_frame`.
   */
  lemma DriveCharacterized(outs: seq<ReadOutcome>, i: nat, latest: Option<Image>, callback: bool)
    requires i <= |outs| && Streak(outs, i) < FailureThreshold
    ensures var e := Drive(outs, i, latest, Streak(outs, i), callback);
      && i <= e.consumed <= |outs|
      && (forall k :: i < k < e.consumed ==> !StopsAfter(outs, k))
      && e.latest == LastGrabbed(outs, i, e.consumed, latest)
      && (e.running ==>
            && e.consumed == |outs| && e.reported == [] && e.failCount == Streak(outs, |outs|)
            && (i < |outs| ==> !StopsAfter(outs, |outs|)))
      && (!e.running ==>
            && i < e.consumed && StopsAfter(outs, e.consumed)
            && e.reported == Reported(callback, StopMessage(outs, e.consumed)))
  {
    DriveStops(outs, i, latest, callback);
    DriveKeepsLastFrame(outs, i, latest, callback);
  }

  /** Where the loop stops, and what it reports. */
  lemma DriveStops(outs: seq<ReadOutcome>, i: nat, latest: Option<Image>, callback: bool)
    requires i <= |outs| && Streak(outs, i) < FailureThreshold
    ensures var e := Drive(outs, i, latest, Streak(outs, i), callback);
      && i <= e.consumed <= |outs|
      && (forall k :: i < k < e.consumed ==> !StopsAfter(outs, k))
      && (e.running ==>
            && e.consumed == |outs| && e.reported == [] && e.failCount == Streak(outs, |outs|)
            && (i < |outs| ==> !StopsAfter(outs, |outs|)))
      && (!e.running ==>
            && i < e.consumed && StopsAfter(outs, e.consumed)
            && e.reported == Reported(callback, StopMessage(outs, e.consumed)))
  {
    DriveStopsWhere(outs, i, latest, callback);
    DriveReports(outs, i, latest, callback);
  }

  /** The loop stops after the first read that calls for it, and otherwise reads everything. */
  lemma {:induction false} DriveStopsWhere(outs: seq<ReadOutcome>, i: nat, latest: Option<Image>, callback: bool)
    requires i <= |outs| && Streak(outs, i) < FailureThreshold
    ensures var e := Drive(outs, i, latest, Streak(outs, i), callback);
      && i <= e.consumed <= |outs|
      && (forall k :: i < k < e.consumed ==> !StopsAfter(outs, k))
      && (e.running ==>
            && e.consumed == |outs| && e.failCount == Streak(outs, |outs|)
            && (i < |outs| ==> !StopsAfter(outs, |outs|)))
      && (!e.running ==> i < e.consumed && StopsAfter(outs, e.consumed))
    decreases |outs| - i
  {
    if i < |outs| {
      var e := Drive(outs, i, latest, Streak(outs, i), callback);
      match outs[i]
      case Grabbed(f) =>
        assert Streak(outs, i + 1) == 0;
        assert !StopsAfter(outs, i + 1);
        assert e == Drive(outs, i + 1, Some(f), Streak(outs, i + 1), callback);
        DriveStopsWhere(outs, i + 1, Some(f), callback);
      case NoFrame =>
        assert Streak(outs, i + 1) == Streak(outs, i) + 1;
        if Streak(outs, i) + 1 < FailureThreshold {
          assert !StopsAfter(outs, i + 1);
          assert e == Drive(outs, i + 1, latest, Streak(outs, i + 1), callback);
          DriveStopsWhere(outs, i + 1, latest, callback);
        } else {
          assert e.consumed == i + 1 && !e.running;
        }
      case ReadRaised(m) =>
        assert e.consumed == i + 1 && !e.running;
    }
  }

  /** A loop that stops reports once, with the message of the read it stopped on; a running one reports nothing. */
  lemma {:induction false} DriveReports(outs: seq<ReadOutcome>, i: nat, latest: Option<Image>, callback: bool)
    requires i <= |outs| && Streak(outs, i) < FailureThreshold
    ensures var e := Drive(outs, i, latest, Streak(outs, i), callback);
      && (!e.running ==> i < e.consumed <= |outs|)
      && (e.running ==> e.reported == [])
      && (!e.running ==>
            e.reported == Reported(callback, StopMessage(outs, e.consumed)))
    decreases |outs| - i
  {
    if i < |outs| {
      var e := Drive(outs, i, latest, Streak(outs, i), callback);
      match outs[i]
      case Grabbed(f) =>
        assert Streak(outs, i + 1) == 0;
        assert e == Drive(outs, i + 1, Some(f), Streak(outs, i + 1), callback);
        DriveReports(outs, i + 1, Some(f), callback);
      case NoFrame =>
        assert Streak(outs, i + 1) == Streak(outs, i) + 1;
        if Streak(outs, i) + 1 < FailureThreshold {
          assert e == Drive(outs, i + 1, latest, Streak(outs, i + 1), callback);
          DriveReports(outs, i + 1, latest, callback);
        } else {
          assert e == LoopEnd(latest, false, Streak(outs, i + 1), i + 1, Reported(callback, StreamErrorMessage));
        }
      case ReadRaised(m) =>
        assert e == LoopEnd(latest, false, Streak(outs, i), i + 1, Reported(callback, StreamExceptionMessage(m)));
    }
  }

  /** The loop leaves the most recent grabbed frame in `latest_frame`. */
  lemma {:induction false} DriveKeepsLastFrame(outs: seq<ReadOutcome>, i: nat, latest: Option<Image>, callback: bool)
    requires i <= |outs| && Streak(outs, i) < FailureThreshold
    ensures var e := Drive(outs, i, latest, Streak(outs, i), callback);
      i <= e.consumed <= |outs| && e.latest == LastGrabbed(outs, i, e.consumed, latest)
    decreases |outs| - i
  {
    if i < |outs| {
      var e := Drive(outs, i, latest, Streak(outs, i), callback);
      match outs[i]
      case Grabbed(f) =>
        assert Streak(outs, i + 1) == 0;
        DriveKeepsLastFrame(outs, i + 1, Some(f), callback);
        LastGrabbedShift(outs, i, e.consumed, latest);
      case NoFrame =>
        assert Streak(outs, i + 1) == Streak(outs, i) + 1;
        if Streak(outs, i) + 1 < FailureThreshold {
          DriveKeepsLastFrame(outs, i + 1, latest, callback);
          LastGrabbedShift(outs, i, e.consumed, latest);
        }
      case ReadRaised(_) =>
    }
  }

  /** A loop that stops reports exactly once if a callback was given, and never more than once. */
  lemma ReportsAtMostOnce(outs: seq<ReadOutcome>, latest: Option<Image>, callback: bool)
    ensures var e := Drive(outs, 0, latest, 0, callback);
      |e.reported| <= 1 && (e.reported != [] <==> callback && !e.running)
  {
    DriveCharacterized(outs, 0, latest, callback);
  }



  /** Thirty failed reads in a row from the start stop the loop after the 30th, not before. */
  lemma StopsOnThirtiethFailure(outs: seq<ReadOutcome>, latest: Option<Image>, callback: bool)
    requires |outs| >= FailureThreshold
    requires forall m :: 0 <= m < FailureThreshold ==> outs[m] == NoFrame
    ensures Drive(outs, 0, latest, 0, callback)
         == LoopEnd(latest, false, FailureThreshold, FailureThreshold, Reported(callback, StreamErrorMessage))
  {
    FailuresCount(outs, 0, FailureThreshold - 1, 0, latest, callback);
  }



  /** Failed reads below the threshold only advance the count. */
  lemma {:induction false} FailuresCount(outs: seq<ReadOutcome>, i: nat, k: nat, count: nat,
                                        latest: Option<Image>, callback: bool)
    requires i <= k <= |outs| && count + (k - i) < FailureThreshold
    requires forall m :: i <= m < k ==> outs[m] == NoFrame
    ensures Drive(outs, i, latest, count, callback) == Drive(outs, k, latest, count + (k - i), callback)
    decreases k - i
  {
    if i < k {
      FailuresCount(outs, i + 1, k, count + 1, latest, callback);
    }
  }

  /** 29 failures, one success, then 29 failures never stop the loop. */
  lemma SuccessRestartsTheCount(f: Image, latest: Option<Image>, callback: bool)
    ensures var outs := seq(29, _ => NoFrame) + [Grabbed(f)] + seq(29, _ => NoFrame);
      Drive(outs, 0, latest, 0, callback) == LoopEnd(Some(f), true, 29, 59, [])
  {
    var outs := seq(29, _ => NoFrame) + [Grabbed(f)] + seq(29, _ => NoFrame);
    assert forall m :: 0 <= m < 29 ==> outs[m] == NoFrame;
    assert outs[29] == Grabbed(f);
    assert forall m :: 30 <= m < 59 ==> outs[m] == NoFrame;
    FailuresCount(outs, 0, 29, 0, latest, callback);
    FailuresCount(outs, 30, 59, 0, Some(f), callback);
  }


  /** A read that raises stops the loop at once with one "Stream exception" report. */
  lemma ExceptionStopsAtOnce(outs: seq<ReadOutcome>, latest: Option<Image>, failCount: nat, callback: bool)
    requires |outs| > 0 && outs[0].ReadRaised?
    ensures Drive(outs, 0, latest, failCount, callback)
         == LoopEnd(latest, false, failCount, 1, Reported(callback, StreamExceptionMessage(outs[0].message)))
  {
  }

  /** `FrameReceiver`: owns the capture and the latest frame. */
  class FrameReceiver {
    const streamUrl: string
    var latestFrame: Option<Image>
    var running: bool
    var capture: Option<Capture>
    var hasOnError: bool          // whether `on_error` was given to `start`
    var errorLog: seq<string>     // the messages `on_error` has been called with, in order

    constructor (streamUrl: string)
      ensures this.streamUrl == streamUrl
      ensures latestFrame.None? && !running && capture.None? && !hasOnError && errorLog == []
    {
      this.streamUrl := streamUrl;
      latestFrame := None;
      running := false;
      capture := None;
      hasOnError := false;
      errorLog := [];
    }

    /**
     * `start`: opens the source; `sourceOpens` is what `isOpened()` answers.
     * On failure it reports to `on_error`, raises, and starts nothing.
     */
    method Start(sourceOpens: bool, withCallback: bool) returns (r: Outcome<Exc>)
      modifies this`capture, this`hasOnError, this`running, this`errorLog
      ensures capture == Some(Capture(streamUrl, sourceOpens)) && hasOnError == withCallback
      ensures !sourceOpens ==>
        && r == Fail(Exc(RuntimeError, OpenFailureMessage(streamUrl)))
        && running == old(running)
        && errorLog == old(errorLog) + Reported(withCallback, OpenFailureNotice)
      ensures sourceOpens ==> r == Pass && running && errorLog == old(errorLog)
    {
      capture := Some(Capture(streamUrl, sourceOpens));
      hasOnError := withCallback;
      if !sourceOpens {
        if hasOnError {
          errorLog := errorLog + [OpenFailureNotice];
        }
        return Fail(Exc(RuntimeError, OpenFailureMessage(streamUrl)));
      }
      running := true;
      r := Pass;
    }

    /** `_update_loop`, fed with the outcomes of successive `capture.read()` calls. */
    method UpdateLoop(outs: seq<ReadOutcome>) returns (consumed: nat)
      modifies this`latestFrame, this`running, this`errorLog
      ensures var e := Drive(outs, 0, old(latestFrame), 0, hasOnError);
        old(running) ==>
          consumed == e.consumed && latestFrame == e.latest && running == e.running
          && errorLog == old(errorLog) + e.reported
      ensures !old(running) ==>
        consumed == 0 && latestFrame == old(latestFrame) && !running && errorLog == old(errorLog)
    {
      ghost var e := Drive(outs, 0, latestFrame, 0, hasOnError);
      var failCount: nat := 0;
      var i := 0;
      while running && i < |outs|
        invariant i <= |outs|
        invariant old(running) && running ==>
          Drive(outs, i, latestFrame, failCount, hasOnError) == e && errorLog == old(errorLog)
        invariant old(running) && !running ==>
          i == e.consumed && latestFrame == e.latest && !e.running && errorLog == old(errorLog) + e.reported
        invariant !old(running) ==> i == 0 && !running && latestFrame == old(latestFrame) && errorLog == old(errorLog)
        decreases |outs| - i
      {
        match outs[i] {
          case Grabbed(f) =>
            latestFrame := Some(f);
            failCount := 0;
          case NoFrame =>
            failCount := failCount + 1;
            if failCount >= FailureThreshold {
              running := false;
              if hasOnError {
                errorLog := errorLog + [StreamErrorMessage];
              }
            }
          case ReadRaised(m) =>
            running := false;
            if hasOnError {
              errorLog := errorLog + [StreamExceptionMessage(m)];
            }
        }
        i := i + 1;
      }
      consumed := i;
    }

    /** `get_latest_frame`: reads the slot and changes nothing. */
    method GetLatestFrame() returns (f: Option<Image>)
      ensures f == latestFrame
    {
      f := latestFrame;
    }

    /** `stop`: idempotent; releases and drops the capture. */
    method Stop()
      modifies this`running, this`capture
      ensures !running && capture.None?
    {
      running := false;
      capture := None;
    }
  }
}
