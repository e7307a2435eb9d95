/**
 * The ToupTek driver's devices: the exposure counter the SDK's pull
 * callback counts down, the temperature and guide rules, the camera
 * handle the camera and its guider share, and the hot-plug table that
 * follows the SDK's list of attached cameras. Every SDK call is an input:
 * its success, the event it delivers, the cameras it enumerates.
 */
module TouptekDevices {
  import opened Bus

  // ---------------------------------------------------------------- exposure

  /** The events the SDK's pull callback delivers. */
  datatype Event = Image | Timeout | Disconnected | Error | OtherEvent

  class Exposure {
    /** The frames still expected from the SDK. */
    var remaining: int
    var state: State
    var abortItem: bool
    var abortState: State

    ghost predicate Valid()
      reads this
    {
      0 <= remaining <= 1
    }

    constructor ()
      ensures Valid() && remaining == 0 && state == Idle
    {
      remaining := 0;
      state := Idle;
      abortItem := false;
      abortState := Idle;
    }

    /**
     * An exposure request: ignored while one is in progress; otherwise one
     * frame is expected and the exposure goes Busy.
     */
    method Start()
      requires Valid()
      modifies this`remaining, this`state
      ensures Valid()
      ensures old(state) == Busy ==> remaining == old(remaining) && state == Busy
      ensures old(state) != Busy ==> remaining == 1 && state == Busy
    {
      if state == Busy {
        return;
      }
      remaining := 1;
      state := Busy;
    }

    /**
     * The pull callback: an image that is still expected is taken (one
     * frame fewer, Ok); an image nobody waits for is dropped; a timeout,
     * a lost camera or an error fails the exposure.
     */
    method Pull(e: Event)
      requires Valid()
      modifies this`remaining, this`state
      ensures Valid()
      ensures e == Image && old(remaining) != 0 ==> remaining == old(remaining) - 1 && state == Ok
      ensures e == Image && old(remaining) == 0 ==> remaining == 0 && state == old(state)
      ensures e in {Timeout, Disconnected, Error} ==> remaining == old(remaining) && state == Alert
      ensures e == OtherEvent ==> remaining == old(remaining) && state == old(state)
    {
      match e
      case Image =>
        if remaining != 0 {
          remaining := remaining - 1;
          state := Ok;
        }
      case Timeout =>
        state := Alert;
      case Disconnected =>
        state := Alert;
      case Error =>
        state := Alert;
      case OtherEvent =>
    }

    /** An abort request: the switch is cleared, no frame is expected any more, Ok unless the SDK's stop failed. */
    method Abort(request: bool, stopOk: bool)
      requires Valid()
      modifies this`remaining, this`abortItem, this`abortState
      ensures Valid()
      ensures request ==> !abortItem && remaining == 0 && abortState == (if stopOk then Ok else Alert)
      ensures !request ==> abortItem == false && remaining == old(remaining) && abortState == old(abortState)
    {
      abortItem := request;
      if abortItem {
        abortItem := false;
        remaining := 0;
        abortState := if stopOk then Ok else Alert;
      }
    }
  }

  // ---------------------------------------------------------------- temperature and guiding

  /**
   * The temperature state the poll is meant to set from a reading: Busy
   * while the temperature is writable, more than a degree away from its
   * target and the cooler is not visibly off; Ok otherwise.
   */
  function TemperatureState(perm: Perm, value: int, target: int, coolerHidden: bool, coolerOff: bool): (s: State)
    ensures s == Busy <==> perm == ReadWrite && (value - target > 1 || target - value > 1) && !(!coolerHidden && coolerOff)
    ensures s != Busy ==> s == Ok
  {
    var away := if value >= target then value - target > 1 else target - value > 1;
    if perm == ReadWrite && away then
      (if !coolerHidden && coolerOff then Ok else Busy)
    else Ok
  }

  /**
   * The temperature poll as written: a connected camera whose
   * temperature check is enabled and whose reading succeeds takes
   * TemperatureState; in every other case the state is left as it was.
   * The check flag lives in the zero-filled private data and nothing in
   * the driver ever sets it, so the driver always passes false.
   */
  function TemperaturePoll(canCheck: bool, connected: bool, reading: Option<int>, state: State,
                           perm: Perm, target: int, coolerHidden: bool, coolerOff: bool): (s: State)
    ensures !(connected && canCheck && reading.Some?) ==> s == state
    ensures connected && canCheck && reading.Some? ==>
              s == TemperatureState(perm, reading.value, target, coolerHidden, coolerOff)
  {
    if !connected || !canCheck then state
    else match reading
      case None => state
      case Some(v) => TemperatureState(perm, v, target, coolerHidden, coolerOff)
  }

  /**
   * With the flag as the driver leaves it, a connected, cooling camera ten
   * degrees above its target stays Idle, where the intended rule makes
   * it Busy.
   */
  lemma TemperaturePollNeverUpdates()
    ensures TemperaturePoll(false, true, Some(10), Idle, ReadWrite, 0, false, false) == Idle
    ensures TemperaturePoll(true, true, Some(10), Idle, ReadWrite, 0, false, false) == Busy
  {
  }

  /** A pulse on the guide port: the direction (0 north, 1 south, 2 east, 3 west) and its length. */
  datatype Pulse = Pulse(direction: nat, duration: int)

  /**
   * The pulse a guide request sends on an axis whose directions are base
   * and base + 1: a positive first duration, else a positive second one;
   * none when neither is positive.
   */
  function GuidePulse(base: nat, first: int, second: int): (p: Option<Pulse>)
    ensures p.None? <==> first <= 0 && second <= 0
    ensures first > 0 ==> p == Some(Pulse(base, first))
    ensures first <= 0 && second > 0 ==> p == Some(Pulse(base + 1, second))
  {
    if first > 0 then Some(Pulse(base, first))
    else if second > 0 then Some(Pulse(base + 1, second))
    else None
  }

  /** The axis state after a guide request: Ok with no pulse to send, otherwise as the SDK reports. */
  function GuideState(pulse: Option<Pulse>, sent: bool): (s: State)
    ensures s == Alert <==> pulse.Some? && !sent
    ensures s != Alert ==> s == Ok
  {
    if pulse.None? || sent then Ok else Alert
  }

  /** The directions of the two axes never overlap: declination uses 0 and 1, right ascension 2 and 3. */
  lemma GuideDirections(north: int, south: int, east: int, west: int)
    ensures GuidePulse(0, north, south).Some? ==> GuidePulse(0, north, south).value.direction in {0, 1}
    ensures GuidePulse(2, east, west).Some? ==> GuidePulse(2, east, west).value.direction in {2, 3}
  {
  }

  // ---------------------------------------------------------------- the shared handle

  datatype Side = CameraSide | GuiderSide

  /**
   * The camera handle one physical camera's camera device and guider
   * device share: opened by whichever connects first, released by
   * whichever disconnects last.
   */
  class SharedCamera {
    var handleOpen: bool
    /** The camera has a guide port, and so a guider device. */
    var hasGuider: bool
    var cameraConnected: bool
    var guiderConnected: bool
    var locked: bool

    /** A connected device has the handle open, an open handle holds the lock, and a camera without guide port has no connected guider. */
    ghost predicate Valid()
      reads this
    {
      (cameraConnected || guiderConnected ==> handleOpen)
      && (handleOpen ==> locked)
      && (!hasGuider ==> !guiderConnected)
    }

    constructor (hasGuider: bool)
      ensures Valid() && this.hasGuider == hasGuider
      ensures !handleOpen && !cameraConnected && !guiderConnected && !locked
    {
      handleOpen := false;
      this.hasGuider := hasGuider;
      cameraConnected := false;
      guiderConnected := false;
      locked := false;
    }

    /**
     * A connect request from one side: the handle is opened only when it
     * is not open yet and the device lock is taken; the side is connected
     * when the handle is open and its connection goes to Alert otherwise.
     */
    method Connect(side: Side, lockOk: bool, openOk: bool) returns (alert: bool)
      requires Valid() && (side == GuiderSide ==> hasGuider)
      modifies this`handleOpen, this`cameraConnected, this`guiderConnected, this`locked
      ensures Valid()
      ensures old(handleOpen) ==> handleOpen && locked == old(locked)
      ensures !old(handleOpen) ==> handleOpen == (lockOk && openOk) && locked == (old(locked) || lockOk)
      ensures alert <==> !handleOpen
      ensures side == CameraSide ==> cameraConnected == handleOpen && guiderConnected == old(guiderConnected)
      ensures side == GuiderSide ==> guiderConnected == handleOpen && cameraConnected == old(cameraConnected)
    {
      if !handleOpen {
        if lockOk {
          locked := true;
          handleOpen := openOk;
        }
      }
      if side == CameraSide {
        cameraConnected := handleOpen;
      } else {
        guiderConnected := handleOpen;
      }
      alert := !handleOpen;
    }

    /**
     * A disconnect request from one side: the side is disconnected, and
     * the handle is closed and the lock released only when the other side
     * is absent or not connected.
     */
    method Disconnect(side: Side)
      requires Valid()
      modifies this`handleOpen, this`cameraConnected, this`guiderConnected, this`locked
      ensures Valid()
      ensures side == CameraSide ==> !cameraConnected && guiderConnected == old(guiderConnected)
      ensures side == GuiderSide ==> !guiderConnected && cameraConnected == old(cameraConnected)
      ensures var siblingConnected := if side == CameraSide then old(guiderConnected) else old(cameraConnected);
              (siblingConnected ==> handleOpen == old(handleOpen) && locked == old(locked))
              && (!siblingConnected ==> !handleOpen && !locked)
    {
      var siblingConnected := if side == CameraSide then guiderConnected else cameraConnected;
      if !siblingConnected {
        handleOpen := false;
        locked := false;
      }
      if side == CameraSide {
        cameraConnected := false;
      } else {
        guiderConnected := false;
      }
    }
  }

  // ---------------------------------------------------------------- hot plug

  /** The size of the device table, the most cameras the SDK enumerates. */
  const MaxCameras := 16

  /** A camera as the SDK enumerates it: its identifier and whether it has a guide port. */
  datatype Cam = Cam(id: string, st4: bool)

  /** A table entry: the camera's identifier, whether a guider device came with it, and whether the last scan saw it. */
  datatype Entry = Entry(id: string, guider: bool, present: bool)

  predicate Held(s: seq<Option<Entry>>, id: string)
  {
    exists k :: 0 <= k < |s| && s[k].Some? && s[k].value.id == id
  }

  predicate Enumerated(cams: seq<Cam>, id: string)
  {
    exists j :: 0 <= j < |cams| && cams[j].id == id
  }

  /** No identifier is held by two slots. */
  predicate Distinct(s: seq<Option<Entry>>)
  {
    forall a, b :: 0 <= a < b < |s| && s[a].Some? && s[b].Some? ==> s[a].value.id != s[b].value.id
  }

  class CameraTable {
    var devices: array<Option<Entry>>

    ghost predicate Valid()
      reads this, devices
    {
      devices.Length == MaxCameras && Distinct(devices[..])
    }

    constructor ()
      ensures Valid() && fresh(devices)
      ensures forall k :: 0 <= k < MaxCameras ==> devices[k].None?
    {
      devices := new Option<Entry>[MaxCameras](_ => None);
    }

    /** The scan's first step: every entry is marked unseen. */
    method MarkAllAbsent()
      requires Valid()
      modifies devices
      ensures Valid()
      ensures forall k :: 0 <= k < MaxCameras ==>
                devices[k] == (if old(devices[k]).Some? then Some(old(devices[k]).value.(present := false)) else None)
    {
      for i := 0 to MaxCameras
        invariant forall k :: 0 <= k < MaxCameras ==>
                    devices[k] == (if k < i && old(devices[k]).Some? then Some(old(devices[k]).value.(present := false))
                                   else old(devices[k]))
      {
        if devices[i].Some? {
          devices[i] := Some(devices[i].value.(present := false));
        }
      }
    }

    /** The slot holding the identifier, or -1. */
    method FindCamera(id: string) returns (slot: int)
      requires Valid()
      ensures -1 <= slot < MaxCameras
      ensures slot == -1 <==> !Held(devices[..], id)
      ensures slot >= 0 ==> devices[slot].Some? && devices[slot].value.id == id
    {
      for i := 0 to MaxCameras
        invariant forall k :: 0 <= k < i ==> devices[k].None? || devices[k].value.id != id
      {
        if devices[i].Some? && devices[i].value.id == id {
          return i;
        }
      }
      slot := -1;
    }

    /** The lowest empty slot, or -1. */
    method FindFree() returns (slot: int)
      requires Valid()
      ensures -1 <= slot < MaxCameras
      ensures slot == -1 <==> forall k :: 0 <= k < MaxCameras ==> devices[k].Some?
      ensures slot >= 0 ==> devices[slot].None? && forall k :: 0 <= k < slot ==> devices[k].Some?
    {
      for i := 0 to MaxCameras
        invariant forall k :: 0 <= k < i ==> devices[k].Some?
      {
        if devices[i].None? {
          return i;
        }
      }
      slot := -1;
    }

    /**
     * One enumerated camera: a camera already in the table is marked
     * seen; a new one is added, with its guider when it has a guide port,
     * in the lowest free slot if there is one.
     */
    method Discover(cam: Cam) returns (added: int)
      requires Valid()
      modifies devices
      ensures Valid()
      ensures -1 <= added < MaxCameras
      ensures Held(old(devices[..]), cam.id) ==>
                added == -1
                && forall k :: 0 <= k < MaxCameras ==>
                  devices[k] == (if old(devices[k]).Some? && old(devices[k]).value.id == cam.id
                                 then Some(old(devices[k]).value.(present := true)) else old(devices[k]))
      ensures !Held(old(devices[..]), cam.id) && added == -1 ==>
                (forall k :: 0 <= k < MaxCameras ==> old(devices[k]).Some?) && devices[..] == old(devices[..])
      ensures !Held(old(devices[..]), cam.id) && added >= 0 ==>
                old(devices[added]).None? && (forall k :: 0 <= k < added ==> old(devices[k]).Some?)
                && devices[..] == old(devices[..])[added := Some(Entry(cam.id, cam.st4, true))]
    {
      added := -1;
      var slot := FindCamera(cam.id);
      if slot >= 0 {
        devices[slot] := Some(devices[slot].value.(present := true));
        return;
      }
      var free := FindFree();
      if free >= 0 {
        devices[free] := Some(Entry(cam.id, cam.st4, true));
        added := free;
      }
    }

    /** The scan's last step: every entry the scan did not see is detached, its slot emptied. */
    method RemoveAbsent()
      requires Valid()
      modifies devices
      ensures Valid()
      ensures forall k :: 0 <= k < MaxCameras ==>
                devices[k] == (if old(devices[k]).Some? && !old(devices[k]).value.present then None else old(devices[k]))
    {
      for i := 0 to MaxCameras
        invariant Distinct(devices[..])
        invariant forall k :: 0 <= k < MaxCameras ==>
                    devices[k] == (if k < i && old(devices[k]).Some? && !old(devices[k]).value.present then None
                                   else old(devices[k]))
      {
        if devices[i].Some? && !devices[i].value.present {
          devices[i] := None;
        }
      }
    }

    /**
     * The hot-plug callback. Afterwards the table holds only enumerated
     * cameras; every camera it held that is still enumerated keeps its
     * slot (now seen); every one no longer enumerated is gone; new
     * entries are enumerated cameras the table did not hold, placed in
     * slots that were free; and a camera is left out only when every
     * slot that was free got a camera.
     */
    method Hotplug(cams: seq<Cam>)
      requires Valid()
      modifies devices
      ensures Valid()
      ensures forall k :: 0 <= k < MaxCameras && devices[k].Some? ==>
                devices[k].value.present && Enumerated(cams, devices[k].value.id)
      ensures forall k :: 0 <= k < MaxCameras && old(devices[k]).Some? ==>
                devices[k] == (if Enumerated(cams, old(devices[k]).value.id)
                               then Some(old(devices[k]).value.(present := true)) else None)
      ensures forall k :: 0 <= k < MaxCameras && old(devices[k]).None? && devices[k].Some? ==>
                !Held(old(devices[..]), devices[k].value.id)
                && exists j :: 0 <= j < |cams| && devices[k].value == Entry(cams[j].id, cams[j].st4, true)
      ensures (exists j :: 0 <= j < |cams| && !Held(devices[..], cams[j].id)) ==>
                forall k :: 0 <= k < MaxCameras && old(devices[k]).None? ==> devices[k].Some?
    {
      ghost var before := devices[..];
      MarkAllAbsent();
      // src[k] is the enumerated camera a newly filled slot k took
      ghost var src: seq<nat> := seq(MaxCameras, _ => 0);
      ScanStart(before, devices[..], cams, src);
      for j := 0 to |cams|
        invariant devices.Length == MaxCameras
        invariant Scanned(before, devices[..], cams, j, src)
      {
        ghost var cur := devices[..];
        var added := Discover(cams[j]);
        ScanStep(before, cur, devices[..], cams, j, src, added);
        if added >= 0 {
          src := src[added := j];
        }
      }
      ghost var mid := devices[..];
      RemoveAbsent();
      ScanResult(before, mid, devices[..], cams, src);
    }
  }

  /**
   * The table part way through a scan that has looked at the first j
   * enumerated cameras: entries held before are kept, marked present
   * exactly when one of those cameras has their identifier; a slot that
   * was free and is now filled holds one of those cameras (src names
   * which), one the table did not hold before; and each of those cameras
   * is held unless every slot that was free has been filled.
   */
  ghost predicate Scanned(before: seq<Option<Entry>>, cur: seq<Option<Entry>>, cams: seq<Cam>, j: nat, src: seq<nat>)
  {
    |before| == |cur| == |src| == MaxCameras && j <= |cams| && Distinct(cur)
    && (forall k :: 0 <= k < MaxCameras && before[k].Some? ==>
          cur[k] == Some(before[k].value.(present := Enumerated(cams[..j], before[k].value.id))))
    && (forall k :: 0 <= k < MaxCameras && before[k].None? && cur[k].Some? ==>
          src[k] < j && cur[k].value == Entry(cams[src[k]].id, cams[src[k]].st4, true)
          && !Held(before, cur[k].value.id))
    && (forall i :: 0 <= i < j ==>
          Held(cur, cams[i].id) || forall k :: 0 <= k < MaxCameras && before[k].None? ==> cur[k].Some?)
  }

  lemma ScanStart(before: seq<Option<Entry>>, cur: seq<Option<Entry>>, cams: seq<Cam>, src: seq<nat>)
    requires |before| == |cur| == |src| == MaxCameras && Distinct(cur)
    requires forall k :: 0 <= k < MaxCameras ==>
               cur[k] == (if before[k].Some? then Some(before[k].value.(present := false)) else None)
    ensures Scanned(before, cur, cams, 0, src)
  {
  }

  lemma EnumeratedSnoc(cams: seq<Cam>, j: nat)
    requires j < |cams|
    ensures forall id :: Enumerated(cams[..j + 1], id) <==> Enumerated(cams[..j], id) || cams[j].id == id
  {
    assert cams[..j + 1][j] == cams[j];
    assert forall i :: 0 <= i < j ==> cams[..j + 1][i] == cams[..j][i];
  }

  /** One enumerated camera, looked at as Discover does, extends the scan by one. */
  lemma ScanStep(before: seq<Option<Entry>>, cur: seq<Option<Entry>>, next: seq<Option<Entry>>,
                 cams: seq<Cam>, j: nat, src: seq<nat>, added: int)
    requires Scanned(before, cur, cams, j, src) && j < |cams|
    requires |next| == MaxCameras && Distinct(next) && -1 <= added < MaxCameras
    requires Held(cur, cams[j].id) ==>
               added == -1
               && forall k :: 0 <= k < MaxCameras ==>
                 next[k] == (if cur[k].Some? && cur[k].value.id == cams[j].id
                             then Some(cur[k].value.(present := true)) else cur[k])
    requires !Held(cur, cams[j].id) && added == -1 ==>
               (forall k :: 0 <= k < MaxCameras ==> cur[k].Some?) && next == cur
    requires !Held(cur, cams[j].id) && added >= 0 ==>
               cur[added].None? && next == cur[added := Some(Entry(cams[j].id, cams[j].st4, true))]
    ensures Scanned(before, next, cams, j + 1, if added >= 0 then src[added := j] else src)
  {
    EnumeratedSnoc(cams, j);
    if Held(cur, cams[j].id) {
      StepHeld(before, cur, next, cams, j, src);
    } else if added == -1 {
      StepFull(before, cur, cams, j, src);
    } else {
      StepAdded(before, cur, next, cams, j, src, added);
    }
  }

  lemma StepHeld(before: seq<Option<Entry>>, cur: seq<Option<Entry>>, next: seq<Option<Entry>>,
                 cams: seq<Cam>, j: nat, src: seq<nat>)
    requires Scanned(before, cur, cams, j, src) && j < |cams| && Held(cur, cams[j].id)
    requires |next| == MaxCameras && Distinct(next)
    requires forall k :: 0 <= k < MaxCameras ==>
               next[k] == (if cur[k].Some? && cur[k].value.id == cams[j].id
                           then Some(cur[k].value.(present := true)) else cur[k])
    requires forall id :: Enumerated(cams[..j + 1], id) <==> Enumerated(cams[..j], id) || cams[j].id == id
    ensures Scanned(before, next, cams, j + 1, src)
  {
    var w :| 0 <= w < |cur| && cur[w].Some? && cur[w].value.id == cams[j].id;
    assert next[w].Some? && next[w].value.id == cams[j].id;
    forall i | 0 <= i < j + 1
      ensures Held(next, cams[i].id) || forall k :: 0 <= k < MaxCameras && before[k].None? ==> next[k].Some?
    {
      if i < j && Held(cur, cams[i].id) {
        var v :| 0 <= v < |cur| && cur[v].Some? && cur[v].value.id == cams[i].id;
        assert next[v].Some? && next[v].value.id == cams[i].id;
      }
    }
  }

  lemma StepFull(before: seq<Option<Entry>>, cur: seq<Option<Entry>>, cams: seq<Cam>, j: nat, src: seq<nat>)
    requires Scanned(before, cur, cams, j, src) && j < |cams| && !Held(cur, cams[j].id)
    requires forall k :: 0 <= k < MaxCameras ==> cur[k].Some?
    requires forall id :: Enumerated(cams[..j + 1], id) <==> Enumerated(cams[..j], id) || cams[j].id == id
    ensures Scanned(before, cur, cams, j + 1, src)
  {
    forall k | 0 <= k < MaxCameras && before[k].Some?
      ensures cams[j].id != before[k].value.id
    {
      assert cur[k].value.id == before[k].value.id;
    }
  }

  lemma StepAdded(before: seq<Option<Entry>>, cur: seq<Option<Entry>>, next: seq<Option<Entry>>,
                  cams: seq<Cam>, j: nat, src: seq<nat>, added: nat)
    requires Scanned(before, cur, cams, j, src) && j < |cams| && !Held(cur, cams[j].id)
    requires added < MaxCameras && cur[added].None? && Distinct(next)
    requires next == cur[added := Some(Entry(cams[j].id, cams[j].st4, true))]
    requires forall id :: Enumerated(cams[..j + 1], id) <==> Enumerated(cams[..j], id) || cams[j].id == id
    ensures Scanned(before, next, cams, j + 1, src[added := j])
  {
    NotHeldBefore(before, cur, cams[j].id);
    assert before[added].None?;
    forall k | 0 <= k < MaxCameras && before[k].Some?
      ensures cams[j].id != before[k].value.id
    {
      assert cur[k].value.id == before[k].value.id;
    }
    forall i | 0 <= i < j + 1
      ensures Held(next, cams[i].id) || forall k :: 0 <= k < MaxCameras && before[k].None? ==> next[k].Some?
    {
      if i == j {
        assert next[added].Some? && next[added].value.id == cams[j].id;
      } else if Held(cur, cams[i].id) {
        var v :| 0 <= v < |cur| && cur[v].Some? && cur[v].value.id == cams[i].id;
        assert next[v].Some? && next[v].value.id == cams[i].id;
      }
    }
  }

  /** An identifier the table does not hold was not held before, when every earlier entry kept its identifier. */
  lemma NotHeldBefore(before: seq<Option<Entry>>, cur: seq<Option<Entry>>, id: string)
    requires |before| == |cur|
    requires forall k :: 0 <= k < |before| && before[k].Some? ==> cur[k].Some? && cur[k].value.id == before[k].value.id
    requires !Held(cur, id)
    ensures !Held(before, id)
  {
  }

  /** Removing the entries the finished scan did not see leaves what the hot-plug callback promises. */
  lemma ScanResult(before: seq<Option<Entry>>, mid: seq<Option<Entry>>, after: seq<Option<Entry>>,
                   cams: seq<Cam>, src: seq<nat>)
    requires Scanned(before, mid, cams, |cams|, src) && |after| == MaxCameras
    requires forall k :: 0 <= k < MaxCameras ==>
               after[k] == (if mid[k].Some? && !mid[k].value.present then None else mid[k])
    ensures forall k :: 0 <= k < MaxCameras && after[k].Some? ==>
              after[k].value.present && Enumerated(cams, after[k].value.id)
    ensures forall k :: 0 <= k < MaxCameras && before[k].Some? ==>
              after[k] == (if Enumerated(cams, before[k].value.id)
                           then Some(before[k].value.(present := true)) else None)
    ensures forall k :: 0 <= k < MaxCameras && before[k].None? && after[k].Some? ==>
              !Held(before, after[k].value.id)
              && exists j :: 0 <= j < |cams| && after[k].value == Entry(cams[j].id, cams[j].st4, true)
    ensures (exists j :: 0 <= j < |cams| && !Held(after, cams[j].id)) ==>
              forall k :: 0 <= k < MaxCameras && before[k].None? ==> after[k].Some?
  {
    assert cams[..|cams|] == cams;
    forall k | 0 <= k < MaxCameras && before[k].None? && after[k].Some?
      ensures Enumerated(cams, after[k].value.id)
    {
      assert cams[src[k]].id == after[k].value.id;
    }
    forall i | 0 <= i < |cams| && Held(mid, cams[i].id)
      ensures Held(after, cams[i].id)
    {
      var v :| 0 <= v < |mid| && mid[v].Some? && mid[v].value.id == cams[i].id;
      if before[v].Some? {
        assert Enumerated(cams, before[v].value.id) by { assert cams[i].id == before[v].value.id; }
      }
      assert after[v].Some? && after[v].value.id == cams[i].id;
    }
  }

  // ---------------------------------------------------------------- the code as written

  /** The byte the identifier compare reads at offset k: the identifier is a NUL-padded character array. */
  function IdByte(id: string, k: nat): char
  {
    if k < |id| then id[k] else 0 as char
  }

  /**
   * The hot-plug identifier compare as written: the length passed is the
   * size of an int, so only the first four bytes of the identifiers are
   * compared.
   */
  predicate SameIdAsWritten(a: string, b: string): (r: bool)
    ensures a == b ==> r
    ensures |a| >= 4 && |b| >= 4 ==> (r <==> a[..4] == b[..4])
  {
    FirstFourBytes(a, b);
    forall k :: 0 <= k < 4 ==> IdByte(a, k) == IdByte(b, k)
  }

  /** On identifiers of at least four characters, the four compared bytes are the first four characters. */
  lemma FirstFourBytes(a: string, b: string)
    ensures |a| >= 4 && |b| >= 4 ==>
              ((forall k :: 0 <= k < 4 ==> IdByte(a, k) == IdByte(b, k)) <==> a[..4] == b[..4])
  {
    if |a| >= 4 && |b| >= 4 {
      if a[..4] == b[..4] {
        forall k | 0 <= k < 4
          ensures IdByte(a, k) == IdByte(b, k)
        {
          assert a[k] == a[..4][k] && b[k] == b[..4][k];
        }
      } else {
        var k :| 0 <= k < 4 && a[..4][k] != b[..4][k];
        assert IdByte(a, k) != IdByte(b, k);
      }
    }
  }

  /** Two cameras whose identifiers share their first four characters are taken for one. */
  lemma SameIdAsWrittenConfuses()
    ensures SameIdAsWritten("abcd1", "abcd2") && "abcd1" != "abcd2"
  {
    assert "abcd1"[4] != "abcd2"[4];
  }

  /** The same compare over the whole identifier never confuses two cameras. */
  lemma FullCompareDistinguishes(a: string, b: string)
    ensures (|a| == |b| && forall k :: 0 <= k < |a| ==> IdByte(a, k) == IdByte(b, k)) <==> a == b
  {
    if |a| == |b| && forall k :: 0 <= k < |a| ==> IdByte(a, k) == IdByte(b, k) {
      assert forall k :: 0 <= k < |a| ==> a[k] == IdByte(a, k) && b[k] == IdByte(b, k);
    }
  }

  /**
   * The free-slot probe as written: every round of the loop looks at the
   * slot numbered like the enumerated camera, not at the loop's own slot.
   */
  function FreeSlotAsWritten(s: seq<Option<Entry>>, j: nat): (slot: int)
    ensures slot == -1 || (slot == j && j < |s| && s[j].None?)
  {
    if j < |s| && s[j].None? then j else -1
  }

  /** The first camera enumerated finds no slot when slot 0 is taken, although fifteen are free. */
  lemma FreeSlotAsWrittenMisses(a: Entry)
    ensures var s := [Some(a)] + seq(MaxCameras - 1, _ => None);
            FreeSlotAsWritten(s, 0) == -1 && s[1].None?
  {
  }

  /** What a disconnect as written does to the shared handle. */
  datatype Release = Release(closeCalled: bool, cleared: bool, unlocked: bool)

  /**
   * The disconnect as written. The test that the sibling's handle is
   * closed reads the shared private data, so it is this very handle: the
   * SDK's close is only reached with no handle open. The camera side
   * looks for a sibling guider only, so a camera without guide port never
   * clears its handle; the guider side unlocks only under the same
   * vacuous test.
   */
  function DisconnectAsWritten(side: Side, handleOpen: bool, hasGuider: bool, siblingConnected: bool): (r: Release)
    ensures r.closeCalled ==> !handleOpen
    ensures side == CameraSide && !hasGuider ==> !r.cleared && !r.unlocked
    ensures side == GuiderSide && handleOpen ==> !r.unlocked
  {
    match side
    case CameraSide =>
      if hasGuider && !siblingConnected then Release(!handleOpen, true, true) else Release(false, false, false)
    case GuiderSide =>
      if !siblingConnected then Release(!handleOpen, true, !handleOpen) else Release(false, false, false)
  }
}
