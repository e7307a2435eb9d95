/**
 * The DSI camera's frame and exposure handling: the frame request is
 * snapped to what the sensor reads out, and an exposure runs on one or
 * two timers, the first of which (for exposures over four seconds) fires
 * four seconds before readout and stops temperature checks for the
 * readout. Whether the camera accepted the exposure, and whether each
 * readout poll found the data ready, are inputs.
 */
module DsiCamera {
  import opened Bus

  // ---------------------------------------------------------------- frame

  /** The binned size below which a frame dimension is raised. */
  const MinBinnedSize := 64

  /** A frame request after snapping: width and height values and targets, and bits per pixel. */
  datatype Frame = Frame(width: int, widthTarget: int, height: int, heightTarget: int, bpp: int)

  /**
   * The frame request: width rounded down to a multiple of 8 and height
   * to a multiple of 2 (value and target); then a dimension whose binned
   * size is under 64 pixels has its value raised to 64 binned pixels; bit
   * depths under 12 become 8 and all others 16.
   */
  function SnapFrame(width: nat, height: nat, binX: nat, binY: nat, bpp: int): (f: Frame)
    requires binX >= 1 && binY >= 1
    ensures f.widthTarget % 8 == 0 && f.widthTarget <= width < f.widthTarget + 8
    ensures f.heightTarget % 2 == 0 && f.heightTarget <= height < f.heightTarget + 2
    ensures f.width == (if f.widthTarget < MinBinnedSize * binX then MinBinnedSize * binX else f.widthTarget)
    ensures f.height == (if f.heightTarget < MinBinnedSize * binY then MinBinnedSize * binY else f.heightTarget)
    ensures f.width >= MinBinnedSize * binX && f.height >= MinBinnedSize * binY
    ensures f.bpp == (if bpp < 12 then 8 else 16)
  {
    var w := width - width % 8;
    var h := height - height % 2;
    RoundDown(width, 8);
    RoundDown(height, 2);
    Frame(if w < MinBinnedSize * binX then MinBinnedSize * binX else w, w,
          if h < MinBinnedSize * binY then MinBinnedSize * binY else h, h,
          if bpp < 12 then 8 else 16)
  }

  /** x rounded down to a multiple of m (2 or 8) is the multiple of m just at or below x. */
  lemma RoundDown(x: nat, m: nat)
    requires m == 2 || m == 8
    ensures (x - x % m) % m == 0 && x - x % m <= x < x - x % m + m
  {
    var q := x / m;
    assert x == m * q + x % m;
    if m == 2 {
      assert x - x % 2 == 2 * q;
    } else {
      assert x - x % 8 == 8 * q;
    }
  }

  /** Snapping is idempotent on the values: a snapped frame sent again comes back unchanged. */
  lemma SnapFrameIdempotent(width: nat, height: nat, binX: nat, binY: nat, bpp: int)
    requires binX >= 1 && binY >= 1
    ensures var f := SnapFrame(width, height, binX, binY, bpp);
            var g := SnapFrame(f.width, f.height, binX, binY, f.bpp);
            g.width == f.width && g.height == f.height && g.bpp == f.bpp
            && g.widthTarget == f.width && g.heightTarget == f.height
  {
    var f := SnapFrame(width, height, binX, binY, bpp);
    var qw: nat := if f.width == f.widthTarget then width / 8 else 8 * binX;
    var qh: nat := if f.height == f.heightTarget then height / 2 else 32 * binY;
    assert f.width == 8 * qw && f.height == 2 * qh;
    assert (8 * qw) / 8 == qw;
    assert (2 * qh) / 2 == qh;
  }

  // ---------------------------------------------------------------- readout

  /** The number of readout polls before the readout gives up. */
  const WaitCycles := 4000

  /**
   * The readout's wait for the camera's data-ready status, as written:
   * the status test that ends the wait is commented out, so the loop
   * always counts its cycles down to zero, whatever the camera reports.
   */
  method WaitForDataAsWritten(ready: seq<bool>) returns (cycles: int)
    ensures cycles == 0
  {
    cycles := WaitCycles;
    while cycles != 0
      invariant 0 <= cycles <= WaitCycles
      decreases cycles
    {
      cycles := cycles - 1;
    }
  }

  /**
   * The wait with its status test in place: poll k reads ready[k] (a
   * camera that stops answering is never ready); the wait ends at the
   * first ready poll, with the cycles it had left, or after every cycle
   * with none left.
   */
  method WaitForData(ready: seq<bool>) returns (cycles: int)
    ensures 0 <= cycles <= WaitCycles
    ensures cycles == 0 <==> forall k :: 0 <= k < WaitCycles && k < |ready| ==> !ready[k]
    ensures cycles > 0 ==> WaitCycles - cycles < |ready| && ready[WaitCycles - cycles]
                           && forall k :: 0 <= k < WaitCycles - cycles ==> !ready[k]
  {
    cycles := WaitCycles;
    while cycles != 0
      invariant 0 <= cycles <= WaitCycles
      invariant forall k :: 0 <= k < WaitCycles - cycles && k < |ready| ==> !ready[k]
      decreases cycles
    {
      var poll := WaitCycles - cycles;
      if poll < |ready| && ready[poll] {
        break;
      }
      cycles := cycles - 1;
    }
  }

  /** The readout as written fails for every exposure: its wait always ends with no cycles left. */
  method ReadPixelsAsWritten(ready: seq<bool>, rowsRead: bool) returns (ok: bool)
    ensures !ok
  {
    var cycles := WaitForDataAsWritten(ready);
    if cycles == 0 {
      return false;
    }
    ok := rowsRead;
  }

  /**
   * The readout as intended: it succeeds exactly when the camera reports
   * its data ready within the wait and every row is read.
   */
  method ReadPixels(ready: seq<bool>, rowsRead: bool) returns (ok: bool)
    ensures ok <==> rowsRead && exists k :: 0 <= k < WaitCycles && k < |ready| && ready[k]
  {
    var cycles := WaitForData(ready);
    if cycles == 0 {
      return false;
    }
    ok := rowsRead;
  }

  /** A camera that is ready at its first poll and reads every row: the written readout fails, the intended one succeeds. */
  method ReadyAtOnce() returns (asWritten: bool, intended: bool)
    ensures !asWritten && intended
  {
    asWritten := ReadPixelsAsWritten([true], true);
    intended := ReadPixels([true], true);
    assert [true][0];
  }

  // ---------------------------------------------------------------- exposure

  /** The exposure timer in flight: none, the early one (fires four seconds before readout), or the readout one. */
  datatype Timer = NoTimer | ClearRegister(delay: int) | Readout(delay: int)

  /** Exposures longer than this many seconds get the early timer. */
  const ReadoutLead := 4

  /**
   * The timer an accepted exposure of the given length starts, and
   * whether temperature checks stay enabled until readout: a long
   * exposure arms the early timer and keeps checking; a short one arms
   * the readout timer and stops checking at once.
   */
  function ExposureTimer(duration: int): (t: Timer)
    ensures duration > ReadoutLead <==> t.ClearRegister?
    ensures t.ClearRegister? ==> t.delay == duration - ReadoutLead && t.delay > 0
    ensures t.Readout? ==> t.delay == duration
  {
    if duration > ReadoutLead then ClearRegister(duration - ReadoutLead) else Readout(duration)
  }

  class Camera {
    var connected: bool
    var exposureState: State
    var exposureValue: int
    var exposureTarget: int
    var timer: Timer
    var canCheckTemperature: bool
    var abortFlag: bool
    var uploadLocal: bool
    var imageState: State
    var imageFileState: State
    var frameState: State
    var frame: Frame

    constructor ()
      ensures !connected && timer == NoTimer && exposureState == Idle
    {
      connected := false;
      exposureState := Idle;
      exposureValue := 0;
      exposureTarget := 0;
      timer := NoTimer;
      canCheckTemperature := false;
      abortFlag := false;
      uploadLocal := false;
      imageState := Idle;
      imageFileState := Idle;
      frameState := Idle;
      frame := Frame(0, 0, 0, 0, 16);
    }

    method ChangeFrame(width: nat, height: nat, binX: nat, binY: nat, bpp: int)
      requires binX >= 1 && binY >= 1
      modifies this`frame, this`frameState
      ensures frame == SnapFrame(width, height, binX, binY, bpp) && frameState == Ok
    {
      var w := 8 * (width / 8);
      var h := 2 * (height / 2);
      var fw := w;
      var fh := h;
      if fw < MinBinnedSize * binX {
        fw := MinBinnedSize * binX;
      }
      if fh < MinBinnedSize * binY {
        fh := MinBinnedSize * binY;
      }
      var b := if bpp < 12 then 8 else 16;
      frame := Frame(fw, w, fh, h, b);
      frameState := Ok;
    }

    /**
     * An exposure request. While an exposure is in progress the request is
     * ignored. Otherwise the length is taken; a connected camera that
     * accepts it goes Busy with its image property and the timer the
     * length calls for, and one that refuses it goes Alert.
     */
    method ChangeExposure(duration: int, accepted: bool)
      modifies this`exposureValue, this`exposureTarget, this`exposureState, this`timer,
               this`canCheckTemperature, this`abortFlag, this`imageState, this`imageFileState
      ensures old(exposureState) == Busy ==>
                exposureState == Busy && exposureValue == old(exposureValue) && exposureTarget == old(exposureTarget)
                && timer == old(timer) && canCheckTemperature == old(canCheckTemperature)
                && abortFlag == old(abortFlag) && imageState == old(imageState) && imageFileState == old(imageFileState)
      ensures old(exposureState) != Busy ==> exposureValue == duration && exposureTarget == duration
      ensures old(exposureState) != Busy && !connected ==>
                exposureState == old(exposureState) && timer == old(timer)
                && canCheckTemperature == old(canCheckTemperature) && abortFlag == old(abortFlag)
                && imageState == old(imageState) && imageFileState == old(imageFileState)
      ensures old(exposureState) != Busy && connected && !accepted ==>
                exposureState == Alert && timer == old(timer) && !abortFlag
                && canCheckTemperature == old(canCheckTemperature)
                && imageState == old(imageState) && imageFileState == old(imageFileState)
      ensures old(exposureState) != Busy && connected && accepted ==>
                exposureState == Busy && timer == ExposureTimer(duration) && !abortFlag
                && (uploadLocal ==> imageFileState == Busy && imageState == old(imageState))
                && (!uploadLocal ==> imageState == Busy && imageFileState == old(imageFileState))
                && (canCheckTemperature <==> (old(canCheckTemperature) && duration > ReadoutLead))
    {
      if exposureState == Busy {
        return;
      }
      exposureValue := duration;
      exposureTarget := duration;
      if connected {
        abortFlag := false;
        if accepted {
          if uploadLocal {
            imageFileState := Busy;
          } else {
            imageState := Busy;
          }
          exposureState := Busy;
          if exposureTarget > ReadoutLead {
            timer := ClearRegister(exposureTarget - ReadoutLead);
          } else {
            canCheckTemperature := false;
            timer := Readout(exposureTarget);
          }
        } else {
          exposureState := Alert;
        }
      }
    }

    /**
     * The early timer: with the exposure still Busy it stops temperature
     * checks and chains the readout four seconds on; otherwise no timer
     * is left. A disconnected camera ignores it.
     */
    method ClearRegisterTimer()
      requires timer.ClearRegister?
      modifies this`canCheckTemperature, this`timer
      ensures !connected ==> canCheckTemperature == old(canCheckTemperature) && timer == NoTimer
      ensures connected && exposureState == Busy ==> !canCheckTemperature && timer == Readout(ReadoutLead)
      ensures connected && exposureState != Busy ==> canCheckTemperature == old(canCheckTemperature) && timer == NoTimer
    {
      if !connected {
        timer := NoTimer;
        return;
      }
      if exposureState == Busy {
        canCheckTemperature := false;
        timer := Readout(ReadoutLead);
      } else {
        timer := NoTimer;
      }
    }

    /**
     * The readout timer, with the intended readout (ReadPixels, whose wait
     * ends at the first ready poll): a connected camera with the exposure
     * Busy reads the frame out and ends Ok, or Alert when the readout
     * fails; in every connected case temperature checks resume. With the
     * readout as written (ReadPixelsAsWritten) the exposure always ends
     * Alert.
     */
    method ReadoutTimer(ready: seq<bool>, rowsRead: bool)
      requires timer.Readout?
      modifies this`timer, this`exposureValue, this`exposureState, this`canCheckTemperature
      ensures timer == NoTimer
      ensures !connected ==> exposureState == old(exposureState) && canCheckTemperature == old(canCheckTemperature)
                             && exposureValue == old(exposureValue)
      ensures connected ==> canCheckTemperature
      ensures connected && old(exposureState) == Busy ==>
                exposureValue == 0
                && (exposureState == Ok <==> rowsRead && exists k :: 0 <= k < WaitCycles && k < |ready| && ready[k])
                && (exposureState == Ok || exposureState == Alert)
      ensures connected && old(exposureState) != Busy ==>
                exposureState == old(exposureState) && exposureValue == old(exposureValue)
    {
      timer := NoTimer;
      if !connected {
        return;
      }
      if exposureState == Busy {
        exposureValue := 0;
        var ok := ReadPixels(ready, rowsRead);
        if ok {
          exposureState := Ok;
        } else {
          exposureState := Alert;
        }
      }
      canCheckTemperature := true;
    }

    /** The readout timer as written: a connected camera with the exposure Busy always ends it with Alert. */
    method ReadoutTimerAsWritten(ready: seq<bool>, rowsRead: bool)
      requires timer.Readout?
      modifies this`timer, this`exposureValue, this`exposureState, this`canCheckTemperature
      ensures timer == NoTimer
      ensures !connected ==> exposureState == old(exposureState) && canCheckTemperature == old(canCheckTemperature)
                             && exposureValue == old(exposureValue)
      ensures connected ==> canCheckTemperature
      ensures connected && old(exposureState) == Busy ==> exposureValue == 0 && exposureState == Alert
      ensures connected && old(exposureState) != Busy ==>
                exposureState == old(exposureState) && exposureValue == old(exposureValue)
    {
      timer := NoTimer;
      if !connected {
        return;
      }
      if exposureState == Busy {
        exposureValue := 0;
        var ok := ReadPixelsAsWritten(ready, rowsRead);
        exposureState := if ok then Ok else Alert;
      }
      canCheckTemperature := true;
    }

    /**
     * An abort request: with an exposure in progress the abort flag is
     * raised, and temperature checks resume in any case. Nothing reads the
     * flag: the camera's cancel call is commented out, the pending timer is
     * left in place and the exposure ends as if it had not been aborted.
     */
    method Abort()
      modifies this`canCheckTemperature, this`abortFlag
      ensures canCheckTemperature
      ensures abortFlag == (old(abortFlag) || exposureState == Busy)
    {
      if exposureState == Busy {
        canCheckTemperature := true;
        abortFlag := true;
      }
      canCheckTemperature := true;
    }

    /** An aborted exposure whose data is ready at once still completes Ok when its readout timer fires. */
    method AbortedExposureCompletes()
      requires connected && exposureState == Busy && timer.Readout?
      modifies this`canCheckTemperature, this`abortFlag, this`timer, this`exposureValue, this`exposureState
      ensures abortFlag && exposureState == Ok && exposureValue == 0
    {
      Abort();
      var ready := [true];
      ReadoutTimer(ready, true);
      assert 0 < WaitCycles && 0 < |ready| && ready[0];
    }
  }
}
