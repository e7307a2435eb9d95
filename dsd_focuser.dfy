/**
 * The Deep Sky Dad focuser device: absolute and relative moves, abort,
 * the motion poll and the step-mode and coils-mode switches, as the
 * change-property handler and the focuser timer update them. Every
 * exchange with the device is an input: a getter's outcome (the value it
 * decoded, or None), a setter's reply, whether a command without reply
 * went out. The commands issued are recorded in order.
 *
 * Each handler is specified by a function from the motion state before
 * it to the motion state after it and the commands it issues; the class
 * methods carry out the same steps on the device's fields.
 */
module DsdFocuser {
  import opened Bus
  import opened DsdCodec
  import opened Decimal

  /** The position limits the device attach sets. */
  const PositionMin := 0
  const PositionMax := 1000000

  /**
   * The motion-related state of a focuser: the position the device last
   * reported, the target of the move in progress, the position item's
   * displayed value, the states of the position, steps and abort
   * properties, and whether the motion poll is pending.
   */
  datatype Motion = Motion(
    current: int, target: int, value: int,
    positionState: State, stepsState: State, abortState: State,
    timer: bool)

  /** A handler's effect: the new motion state and the commands issued, in order. */
  datatype Effect = Effect(motion: Motion, commands: seq<Command>)

  predicate InLimits(p: int) { PositionMin <= p <= PositionMax }

  /** No goto in the commands aims outside the position limits. */
  predicate SafeCommands(cs: seq<Command>)
  {
    forall k :: 0 <= k < |cs| && cs[k].GotoTarget? ==> InLimits(cs[k].pos)
  }

  /** The commands a goto issues: the target, then the start of motion unless the target was refused. */
  function GotoCommands(target: uint32, targetReply: Reply): (cmds: seq<Command>)
    ensures 1 <= |cmds| <= 2 && cmds[0] == GotoTarget(target)
    ensures |cmds| == 2 <==> targetReply.Answered? && targetReply.text != MoveFailed
  {
    [GotoTarget(target)]
      + (if targetReply.Answered? && targetReply.text != MoveFailed then [StartMove] else [])
  }

  /** The position after a position query: the value read, or the old one when the query failed. */
  function Reread(old_: int, read: Option<uint32>): (p: int)
    ensures read.Some? ==> p == read.value
    ensures read.None? ==> p == old_
  {
    if read.Some? then read.value else old_
  }

  /**
   * A request for an absolute position. A target outside the limits is
   * refused with an alert and nothing moves; a target equal to the
   * current position is done at once; otherwise the target is recorded
   * and the focuser either moves there (goto, Busy, poll started) or its
   * position counter is set to it (sync, Ok), as gotoOnSet says. A goto
   * alerts when the target is refused or the move command could not be
   * written (moveSent false).
   */
  function AbsoluteMove(m: Motion, request: int, gotoOnSet: bool,
                        targetReply: Reply, moveSent: bool, syncReply: Reply, read: Option<uint32>): (e: Effect)
    ensures !InLimits(request) ==>
              e == Effect(m.(positionState := Alert, value := request), [])
    ensures InLimits(request) && request == m.current ==>
              e == Effect(m.(positionState := Ok, value := request), [])
    ensures InLimits(request) && request != m.current ==>
              e.motion.target == request && e.motion.stepsState == m.stepsState && e.motion.abortState == m.abortState
    ensures InLimits(request) && request != m.current && gotoOnSet ==>
              e.motion.current == m.current && e.motion.value == m.current && e.motion.timer
              && e.commands == GotoCommands(request, targetReply)
              && (e.motion.positionState == Busy <==> GotoSucceeded(targetReply, moveSent))
              && (e.motion.positionState == Alert <==> !GotoSucceeded(targetReply, moveSent))
    ensures InLimits(request) && request != m.current && !gotoOnSet ==>
              e.motion.current == e.motion.value == Reread(m.current, read) && e.motion.timer == m.timer
              && e.commands == [Assign(Position, request), Query(Position)]
              && (e.motion.positionState == Ok <==> SetSucceeded(true, syncReply) && read.Some?)
              && (e.motion.positionState == Alert <==> !(SetSucceeded(true, syncReply) && read.Some?))
    ensures InLimits(m.target) ==> InLimits(e.motion.target)
    ensures SafeCommands(e.commands)
  {
    if !InLimits(request) then
      Effect(m.(positionState := Alert, value := request), [])
    else if request == m.current then
      Effect(m.(positionState := Ok, value := request), [])
    else if gotoOnSet then
      Effect(m.(target := request, value := m.current, timer := true,
                positionState := if GotoSucceeded(targetReply, moveSent) then Busy else Alert),
             GotoCommands(request, targetReply))
    else
      var current := Reread(m.current, read);
      Effect(m.(target := request, current := current, value := current,
                positionState := if SetSucceeded(true, syncReply) && read.Some? then Ok else Alert),
             [Assign(Position, request), Query(Position)])
  }

  /**
   * A relative move of the given number of steps. A count outside
   * [0, max] is refused with an alert; otherwise the position is re-read
   * and a goto is issued to the position moved inward or outward by the
   * count, clamped into the limits, with the poll started; the goto
   * alerts when the target is refused or the move command could not be
   * written.
   */
  function RelativeMove(m: Motion, steps: int, stepsMax: int, inward: bool,
                        read: Option<uint32>, targetReply: Reply, moveSent: bool): (e: Effect)
    ensures steps < 0 || steps > stepsMax ==> e == Effect(m.(stepsState := Alert), [])
    ensures 0 <= steps <= stepsMax ==>
              var current := Reread(m.current, read);
              var wanted := if inward then current - steps else current + steps;
              e.motion.current == current && e.motion.value == current
              && InLimits(e.motion.target)
              && (InLimits(wanted) ==> e.motion.target == wanted)
              && (wanted > PositionMax ==> e.motion.target == PositionMax)
              && (wanted < PositionMin ==> e.motion.target == PositionMin)
              && e.motion.timer
              && e.commands == [Query(Position)] + GotoCommands(e.motion.target, targetReply)
              && (e.motion.stepsState == Busy <==> GotoSucceeded(targetReply, moveSent))
              && (e.motion.stepsState == Alert <==> !GotoSucceeded(targetReply, moveSent))
              && e.motion.positionState == m.positionState && e.motion.abortState == m.abortState
    ensures InLimits(m.target) ==> InLimits(e.motion.target)
    ensures SafeCommands(e.commands)
  {
    if steps < 0 || steps > stepsMax then
      Effect(m.(stepsState := Alert), [])
    else
      var current := Reread(m.current, read);
      var target := RelativeTarget(current, steps, inward, PositionMin, PositionMax);
      Effect(m.(current := current, target := target, value := current, timer := true,
                stepsState := if GotoSucceeded(targetReply, moveSent) then Busy else Alert),
             [Query(Position)] + GotoCommands(target, targetReply))
  }

  /**
   * Abort: position and steps report Ok, the poll is cancelled, the
   * device is told to stop and its position re-read; the abort property
   * alerts when the stop or the read failed.
   */
  function AbortMotion(m: Motion, stopSent: bool, read: Option<uint32>): (e: Effect)
    ensures e.motion.positionState == Ok && e.motion.stepsState == Ok && !e.motion.timer
    ensures e.motion.abortState == Ok <==> stopSent && read.Some?
    ensures e.motion.abortState == Alert <==> !(stopSent && read.Some?)
    ensures e.motion.current == e.motion.value == Reread(m.current, read)
    ensures e.motion.target == m.target
    ensures e.commands == [StopMotion, Query(Position)]
  {
    var current := Reread(m.current, read);
    Effect(Motion(current, m.target, current, Ok, Ok, if stopSent && read.Some? then Ok else Alert, false),
           [StopMotion, Query(Position)])
  }

  /**
   * The motion poll. The move is finished (position and steps Ok, no
   * further poll) when the focuser is not moving or has reached the
   * target; otherwise the poll is rescheduled, and a failed query
   * alerts both properties. A failed moving query leaves the flag
   * unassigned: whatever it held is unsetMoving.
   */
  function Poll(m: Motion, readMoving: Option<uint32>, read: Option<uint32>, unsetMoving: bool): (e: Effect)
    ensures var moving := if readMoving.Some? then readMoving.value != 0 else unsetMoving;
            var current := Reread(m.current, read);
            e.motion.current == current && e.motion.value == current && e.motion.target == m.target
            && (!moving || current == m.target <==> !e.motion.timer)
            && (!moving || current == m.target ==> e.motion.positionState == Ok && e.motion.stepsState == Ok)
            && (moving && current != m.target && (readMoving.None? || read.None?) ==>
                  e.motion.positionState == Alert && e.motion.stepsState == Alert)
            && (moving && current != m.target && readMoving.Some? && read.Some? ==>
                  e.motion.positionState == m.positionState && e.motion.stepsState == m.stepsState)
    ensures e.motion.abortState == m.abortState
    ensures e.commands == [Query(Moving), Query(Position)]
  {
    var moving := if readMoving.Some? then readMoving.value != 0 else unsetMoving;
    var current := Reread(m.current, read);
    var failed := readMoving.None? || read.None?;
    if !moving || current == m.target then
      Effect(m.(current := current, value := current, positionState := Ok, stepsState := Ok, timer := false),
             [Query(Moving), Query(Position)])
    else
      Effect(m.(current := current, value := current, timer := true,
                positionState := if failed then Alert else m.positionState,
                stepsState := if failed then Alert else m.stepsState),
             [Query(Moving), Query(Position)])
  }

  /** The new switch values, state and commands of a mode request. */
  datatype ModeEffect = ModeEffect(switches: seq<bool>, state: State, commands: seq<Command>)

  /**
   * A step-mode request: the first selected item's mode is sent (when
   * none is selected, whatever the unassigned mode variable held), a
   * refused set alerts, and the switch is refreshed from the device.
   */
  function StepModeRequest(request: seq<bool>, unsetMode: uint32, setReply: Reply, readMode: Option<uint32>): (e: ModeEffect)
    requires |request| == |StepItems|
    ensures var mode: uint32 := if FirstSelected(request).Some? then StepModeOfItem(FirstSelected(request).value) else unsetMode;
            e.commands == [Assign(StepMode, mode), Query(StepMode)]
    ensures e.state == Ok <==> SetSucceeded(true, setReply)
    ensures e.state == Alert <==> !SetSucceeded(true, setReply)
    ensures e.switches == RefreshSwitch(request, readMode, StepItemOfMode)
  {
    var selected := FirstSelected(request);
    var mode: uint32 := if selected.Some? then StepModeOfItem(selected.value) else unsetMode;
    ModeEffect(RefreshSwitch(request, readMode, StepItemOfMode),
               if SetSucceeded(true, setReply) then Ok else Alert,
               [Assign(StepMode, mode), Query(StepMode)])
  }

  /**
   * A coils-mode request: as for the step mode, except that the setter's
   * guard refuses a mode above 2, which then is not sent and alerts.
   */
  function CoilsModeRequest(request: seq<bool>, unsetMode: uint32, setReply: Reply, readMode: Option<uint32>): (e: ModeEffect)
    requires |request| == |CoilsItems|
    ensures var mode: uint32 := if FirstSelected(request).Some? then CoilsModeOfItem(FirstSelected(request).value) else unsetMode;
            e.commands == (if Refused(CoilsMode, mode) then [] else [Assign(CoilsMode, mode)]) + [Query(CoilsMode)]
            && (e.state == Ok <==> !Refused(CoilsMode, mode) && SetSucceeded(true, setReply))
            && (e.state == Alert <==> !(!Refused(CoilsMode, mode) && SetSucceeded(true, setReply)))
    ensures FirstSelected(request).Some? ==> e.commands[0].Assign?
    ensures e.switches == RefreshSwitch(request, readMode, CoilsItemOfMode)
  {
    var selected := FirstSelected(request);
    var mode: uint32 := if selected.Some? then CoilsModeOfItem(selected.value) else unsetMode;
    var accepted := !Refused(CoilsMode, mode);
    ModeEffect(RefreshSwitch(request, readMode, CoilsItemOfMode),
               if SetSucceeded(accepted, setReply) then Ok else Alert,
               (if accepted then [Assign(CoilsMode, mode)] else []) + [Query(CoilsMode)])
  }

  /** A selected step-mode item is sent as its mode and, read back, selects the same item alone. */
  lemma StepModeRequestRoundTrip(request: seq<bool>)
    requires |request| == |StepItems| && FirstSelected(request).Some?
    ensures var i := FirstSelected(request).value;
            RefreshSwitch(request, Some(StepModeOfItem(i) as uint32), StepItemOfMode) == SelectOnly(|request|, i)
  {
    StepModeRoundTrip(FirstSelected(request).value);
  }

  /** Likewise for a selected coils-mode item. */
  lemma CoilsModeRequestRoundTrip(request: seq<bool>)
    requires |request| == |CoilsItems| && FirstSelected(request).Some?
    ensures var i := FirstSelected(request).value;
            RefreshSwitch(request, Some(CoilsModeOfItem(i) as uint32), CoilsItemOfMode) == SelectOnly(|request|, i)
  {
    CoilsModeRoundTrip(FirstSelected(request).value);
  }

  lemma SafeAppend(a: seq<Command>, b: seq<Command>)
    requires SafeCommands(a) && SafeCommands(b)
    ensures SafeCommands(a + b)
  {
    forall k | 0 <= k < |a + b| && (a + b)[k].GotoTarget?
      ensures InLimits((a + b)[k].pos)
    {
      if k >= |a| {
        assert (a + b)[k] == b[k - |a|];
      }
    }
  }

  /** The text contains t, as strstr finds it. */
  predicate Mentions(text: string, t: string)
    decreases |text|
  {
    if |text| < |t| then false else text[..|t|] == t || Mentions(text[1..], t)
  }

  /**
   * The board version after the firmware query: a board that names AF1,
   * AF2 or AF3 (looked for in that order) sets it; a failed query, or a
   * board naming none, leaves it as it was.
   */
  function BoardVersion(board: Option<string>, version: int): (v: int)
    ensures v == version || 1 <= v <= 3
    ensures board.None? ==> v == version
    ensures board.Some? && Mentions(board.value, "AF1") ==> v == 1
    ensures board.Some? && !Mentions(board.value, "AF1") && Mentions(board.value, "AF2") ==> v == 2
    ensures board.Some? && !Mentions(board.value, "AF1") && !Mentions(board.value, "AF2") && Mentions(board.value, "AF3")
            ==> v == 3
    ensures board.Some? && !Mentions(board.value, "AF1") && !Mentions(board.value, "AF2") && !Mentions(board.value, "AF3")
            ==> v == version
  {
    match board
    case None => version
    case Some(b) =>
      if Mentions(b, "AF1") then 1
      else if Mentions(b, "AF2") then 2
      else if Mentions(b, "AF3") then 3
      else version
  }

  /** An AF3 board is recognised as version 3, so its temperature is read. */
  lemma Af3Board()
    ensures BoardVersion(Some("DSD AF3"), 0) == 3
  {
    var b := "DSD AF3";
    assert b[1..] == "SD AF3" && b[..3] == "DSD";
    assert b[1..][1..] == "D AF3" && b[1..][..3] == "SD ";
    assert b[2..][1..] == " AF3" && b[2..][..3] == "D A";
    assert b[3..][1..] == "AF3" && b[3..][..3] == " AF";
    assert b[4..][1..] == "F3" && b[4..][..3] == "AF3";
    assert !Mentions(b, "AF1") && !Mentions(b, "AF2") && Mentions(b, "AF3");
  }

  /**
   * The commands of a connect that got past the position query: the
   * first query, the firmware query, the second position query, the
   * limits and speed, the maximum move, the reverse switch, both mode
   * switches, the currents and timings, and the temperature for boards
   * of version 2 and above.
   */
  function ConnectCommands(version: int, reverse: bool): (cmds: seq<Command>)
    ensures |cmds| == if version > 1 then 14 else 13
    ensures cmds[0] == Query(Position) && cmds[1] == GetInfo && cmds[2] == Query(Position)
    ensures cmds[6] == SetReverse(reverse) && cmds[7] == Query(StepMode) && cmds[8] == Query(CoilsMode)
    ensures cmds[|cmds| - 1] == GetTemperature <==> version > 1
    ensures forall k :: 0 <= k < |cmds| ==> Sendable(cmds[k])
    ensures SafeCommands(cmds)
  {
    [Query(Position)] + [GetInfo] + [Query(Position)]
    + [Query(MaxPosition), Query(Speed), Assign(MaxMove, PositionMax), SetReverse(reverse)]
    + [Query(StepMode)] + [Query(CoilsMode)]
    + [Query(MoveCurrent), Query(HoldCurrent), Query(SettleBuffer), Query(CoilsTimeout)]
    + (if version > 1 then [GetTemperature] else [])
  }

  class Focuser {
    var currentPosition: int
    var targetPosition: int
    /** The position item's value and requested target. */
    var positionValue: int
    var positionTarget: int
    var positionState: State
    /** The steps item's value and its largest accepted count. */
    var stepsValue: int
    var stepsMax: int
    var stepsState: State
    var abortItem: bool
    var abortState: State
    /** The on-position-set switch: goto (true) or sync (false). */
    var gotoOnSet: bool
    /** The direction switch: move inward (true) or outward. */
    var inward: bool
    var connected: bool
    /** The state of the connection property. */
    var connectionState: State
    /** The board version the firmware query last named (0 until one does). */
    var version: int
    /** The temperature timer is pending. */
    var temperatureTimer: bool
    /** The focuser timer is pending. */
    var timerPending: bool
    var stepMode: seq<bool>
    var stepModeState: State
    var coilsMode: seq<bool>
    var coilsModeState: State

    ghost function MotionState(): Motion
      reads this
    {
      Motion(currentPosition, targetPosition, positionValue, positionState, stepsState, abortState, timerPending)
    }

    /** The mode switches have their item counts and no move aims outside the limits. */
    ghost predicate Valid()
      reads this
    {
      |stepMode| == |StepItems| && |coilsMode| == |CoilsItems| && InLimits(targetPosition)
    }

    /** The device attach: limits set, switches clear, nothing moving. */
    constructor (stepsMax: nat)
      ensures Valid()
      ensures this.stepsMax == stepsMax && !connected && !timerPending && !temperatureTimer && version == 0
      ensures positionState == Ok && stepsState == Ok && abortState == Ok
      ensures stepMode == [false, false, false, false] && coilsMode == [false, false, false]
    {
      currentPosition := 0;
      targetPosition := 0;
      positionValue := 0;
      positionTarget := 0;
      positionState := Ok;
      stepsValue := 0;
      this.stepsMax := stepsMax;
      stepsState := Ok;
      abortItem := false;
      abortState := Ok;
      gotoOnSet := true;
      inward := true;
      connected := false;
      connectionState := Idle;
      version := 0;
      temperatureTimer := false;
      timerPending := false;
      stepMode := [false, false, false, false];
      stepModeState := Ok;
      coilsMode := [false, false, false];
      coilsModeState := Ok;
    }

    /**
     * A connect request. An already connected focuser ignores it. Without
     * the global lock, or with a port that does not open, the connection
     * alerts and nothing is sent. A focuser that does not answer the
     * position query stays disconnected with an alert. Otherwise the
     * firmware is queried for the board version, the position is read a
     * second time for display, the limits, speed, reverse switch, mode
     * switches, currents and timings are exchanged, the motion poll starts
     * and, for a board of version 2 or above, the temperature is read and
     * its timer starts.
     */
    method Connect(locked: bool, portOpen: bool, readPosition: Option<uint32>, board: Option<string>,
                   reread: Option<uint32>, reverse: bool, readStep: Option<uint32>, readCoils: Option<uint32>)
      returns (commands: seq<Command>)
      requires Valid()
      modifies this`connected, this`connectionState, this`timerPending, this`temperatureTimer, this`version,
               this`positionValue, this`stepMode, this`coilsMode
      ensures Valid()
      ensures old(connected) ==>
                connected && commands == [] && connectionState == old(connectionState)
                && timerPending == old(timerPending) && temperatureTimer == old(temperatureTimer)
                && version == old(version) && positionValue == old(positionValue)
                && stepMode == old(stepMode) && coilsMode == old(coilsMode)
      ensures !old(connected) && !(locked && portOpen && readPosition.Some?) ==>
                connectionState == Alert && !connected
                && commands == (if locked && portOpen then [Query(Position)] else [])
                && timerPending == old(timerPending) && temperatureTimer == old(temperatureTimer)
                && version == old(version) && positionValue == old(positionValue)
                && stepMode == old(stepMode) && coilsMode == old(coilsMode)
      ensures !old(connected) && locked && portOpen && readPosition.Some? ==>
                connectionState == Ok && connected && timerPending
                && version == BoardVersion(board, old(version))
                && commands == ConnectCommands(version, reverse)
                && positionValue == AsInt32(Reread(readPosition.value, reread))
                && stepMode == RefreshSwitch(old(stepMode), readStep, StepItemOfMode)
                && coilsMode == RefreshSwitch(old(coilsMode), readCoils, CoilsItemOfMode)
                && temperatureTimer == (version > 1 || old(temperatureTimer))
    {
      commands := [];
      if connected {
        return;
      }
      if !locked || !portOpen {
        connectionState := Alert;
        return;
      }
      commands := [Query(Position)];
      if readPosition.None? {
        connectionState := Alert;
        return;
      }
      Configure(readPosition.value, board, reread, readStep, readCoils);
      commands := ConnectCommands(version, reverse);
    }

    /**
     * What a connect records once the focuser answered the position query
     * with first: the board version, the displayed position, both mode
     * switches, the connection and the timers.
     */
    method Configure(first: uint32, board: Option<string>, reread: Option<uint32>,
                     readStep: Option<uint32>, readCoils: Option<uint32>)
      requires Valid()
      modifies this`connected, this`connectionState, this`timerPending, this`temperatureTimer, this`version,
               this`positionValue, this`stepMode, this`coilsMode
      ensures Valid()
      ensures connectionState == Ok && connected && timerPending
      ensures version == BoardVersion(board, old(version))
      ensures positionValue == AsInt32(Reread(first, reread))
      ensures stepMode == RefreshSwitch(old(stepMode), readStep, StepItemOfMode)
      ensures coilsMode == RefreshSwitch(old(coilsMode), readCoils, CoilsItemOfMode)
      ensures temperatureTimer == (version > 1 || old(temperatureTimer))
    {
      positionValue := AsInt32(Reread(first, reread));
      RefreshModes(readStep, readCoils);
      connectionState := Ok;
      connected := true;
      timerPending := true;
      RecordVersion(board);
    }

    /** Both mode switches refreshed from the device's replies to the mode queries. */
    method RefreshModes(readStep: Option<uint32>, readCoils: Option<uint32>)
      requires Valid()
      modifies this`stepMode, this`coilsMode
      ensures Valid()
      ensures stepMode == RefreshSwitch(old(stepMode), readStep, StepItemOfMode)
      ensures coilsMode == RefreshSwitch(old(coilsMode), readCoils, CoilsItemOfMode)
    {
      stepMode := RefreshSwitch(stepMode, readStep, StepItemOfMode);
      coilsMode := RefreshSwitch(coilsMode, readCoils, CoilsItemOfMode);
    }

    /**
     * The firmware query's outcome: the board text, when it came, updates
     * the version, and a board of version 2 or above starts the
     * temperature timer.
     */
    method RecordVersion(board: Option<string>)
      modifies this`version, this`temperatureTimer
      ensures version == BoardVersion(board, old(version))
      ensures temperatureTimer == (version > 1 || old(temperatureTimer))
    {
      version := BoardVersion(board, version);
      if version > 1 {
        temperatureTimer := true;
      }
    }

    /** Disconnecting a connected focuser cancels the motion poll and, for a version 2 board, the temperature timer. */
    method Disconnect()
      modifies this`connected, this`timerPending, this`temperatureTimer, this`connectionState
      ensures !connected
      ensures old(connected) ==>
                !timerPending && connectionState == Ok && temperatureTimer == (old(temperatureTimer) && version <= 1)
      ensures !old(connected) ==>
                timerPending == old(timerPending) && temperatureTimer == old(temperatureTimer)
                && connectionState == old(connectionState)
    {
      if connected {
        timerPending := false;
        if version > 1 {
          temperatureTimer := false;
        }
        connected := false;
        connectionState := Ok;
      }
    }

    method ChangePosition(target: int, targetReply: Reply, moveSent: bool, syncReply: Reply, read: Option<uint32>)
      returns (commands: seq<Command>)
      requires Valid()
      modifies this`positionTarget, this`positionValue, this`positionState, this`targetPosition,
               this`currentPosition, this`timerPending
      ensures Valid()
      ensures var e := AbsoluteMove(old(MotionState()), target, gotoOnSet, targetReply, moveSent, syncReply, read);
              MotionState() == e.motion && commands == e.commands
      ensures positionTarget == target
    {
      positionTarget := target;
      positionValue := target;
      commands := [];
      if target < PositionMin || target > PositionMax {
        positionState := Alert;
      } else if target == currentPosition {
        positionState := Ok;
      } else {
        positionState := Busy;
        targetPosition := target;
        positionValue := currentPosition;
        if gotoOnSet {
          commands := StartGoto(target, targetReply, moveSent);
        } else {
          commands := SyncTo(target, syncReply, read);
        }
      }
    }

    /** The goto of an absolute move: Busy with the poll started, or Alert when the goto failed. */
    method StartGoto(target: int, targetReply: Reply, moveSent: bool) returns (commands: seq<Command>)
      requires InLimits(target)
      modifies this`positionState, this`timerPending
      ensures commands == GotoCommands(target, targetReply) && timerPending
      ensures positionState == (if GotoSucceeded(targetReply, moveSent) then Busy else Alert)
    {
      positionState := Busy;
      commands := GotoCommands(target, targetReply);
      if !GotoSucceeded(targetReply, moveSent) {
        positionState := Alert;
      }
      timerPending := true;
    }

    /** The sync of an absolute move: the counter is set to the target and the position re-read. */
    method SyncTo(target: int, syncReply: Reply, read: Option<uint32>) returns (commands: seq<Command>)
      requires InLimits(target)
      modifies this`positionState, this`currentPosition, this`positionValue
      ensures commands == [Assign(Position, target), Query(Position)]
      ensures currentPosition == Reread(old(currentPosition), read)
      ensures positionValue == (if read.Some? then currentPosition else old(positionValue))
      ensures positionState == (if SetSucceeded(true, syncReply) && read.Some? then Ok else Alert)
    {
      positionState := Ok;
      commands := [Assign(Position, target)];
      if !SetSucceeded(true, syncReply) {
        positionState := Alert;
      }
      commands := commands + [Query(Position)];
      if read.None? {
        positionState := Alert;
      } else {
        currentPosition := read.value;
        positionValue := currentPosition;
      }
    }

    method ChangeSteps(steps: int, read: Option<uint32>, targetReply: Reply, moveSent: bool) returns (commands: seq<Command>)
      requires Valid()
      modifies this`stepsValue, this`stepsState, this`currentPosition, this`targetPosition,
               this`positionValue, this`timerPending
      ensures Valid()
      ensures var e := RelativeMove(old(MotionState()), steps, stepsMax, inward, read, targetReply, moveSent);
              MotionState() == e.motion && commands == e.commands
      ensures stepsValue == steps
    {
      stepsValue := steps;
      commands := [];
      if steps < 0 || steps > stepsMax {
        stepsState := Alert;
      } else {
        commands := StepGoto(steps, read, targetReply, moveSent);
      }
    }

    /**
     * An accepted relative move: the position is re-read, the goto aims
     * at the clamped target and the poll starts; the steps are Busy, or
     * Alert when the goto failed.
     */
    method StepGoto(steps: int, read: Option<uint32>, targetReply: Reply, moveSent: bool) returns (commands: seq<Command>)
      modifies this`stepsState, this`currentPosition, this`targetPosition, this`positionValue, this`timerPending
      ensures currentPosition == Reread(old(currentPosition), read) && positionValue == currentPosition
      ensures targetPosition == RelativeTarget(currentPosition, steps, inward, PositionMin, PositionMax)
      ensures InLimits(targetPosition) && timerPending
      ensures commands == [Query(Position)] + GotoCommands(targetPosition, targetReply)
      ensures stepsState == (if GotoSucceeded(targetReply, moveSent) then Busy else Alert)
    {
      stepsState := Busy;
      commands := [Query(Position)];
      if read.Some? {
        currentPosition := read.value;
      }
      targetPosition := RelativeTarget(currentPosition, steps, inward, PositionMin, PositionMax);
      positionValue := currentPosition;
      commands := commands + GotoCommands(targetPosition, targetReply);
      if !GotoSucceeded(targetReply, moveSent) {
        stepsState := Alert;
      }
      timerPending := true;
    }

    method Abort(stopSent: bool, read: Option<uint32>) returns (commands: seq<Command>)
      requires Valid()
      modifies this`stepsState, this`positionState, this`abortState, this`timerPending,
               this`currentPosition, this`positionValue, this`abortItem
      ensures Valid()
      ensures var e := AbortMotion(old(MotionState()), stopSent, read);
              MotionState() == e.motion && commands == e.commands
      ensures !abortItem
    {
      stepsState := Ok;
      positionState := Ok;
      abortState := Ok;
      timerPending := false;
      commands := [StopMotion];
      if !stopSent {
        abortState := Alert;
      }
      commands := commands + [Query(Position)];
      if read.None? {
        abortState := Alert;
      } else {
        currentPosition := read.value;
      }
      positionValue := currentPosition;
      abortItem := false;
    }

    method TimerTick(readMoving: Option<uint32>, read: Option<uint32>, unsetMoving: bool) returns (commands: seq<Command>)
      requires Valid()
      modifies this`positionState, this`stepsState, this`currentPosition, this`positionValue, this`timerPending
      ensures Valid()
      ensures var e := Poll(old(MotionState()), readMoving, read, unsetMoving);
              MotionState() == e.motion && commands == e.commands
    {
      commands := [Query(Moving)];
      var moving := unsetMoving;
      if readMoving.None? {
        positionState := Alert;
        stepsState := Alert;
      } else {
        moving := readMoving.value != 0;
      }
      commands := commands + [Query(Position)];
      if read.None? {
        positionState := Alert;
        stepsState := Alert;
      } else {
        currentPosition := read.value;
      }
      positionValue := currentPosition;
      if !moving || currentPosition == targetPosition {
        positionState := Ok;
        stepsState := Ok;
        timerPending := false;
      } else {
        timerPending := true;
      }
    }

    /** A step-mode request, acted on only while connected. */
    method ChangeStepMode(request: seq<bool>, unsetMode: uint32, setReply: Reply, readMode: Option<uint32>)
      returns (commands: seq<Command>)
      requires Valid() && |request| == |StepItems|
      modifies this`stepMode, this`stepModeState
      ensures Valid()
      ensures !connected ==> stepMode == old(stepMode) && stepModeState == old(stepModeState) && commands == []
      ensures connected ==>
                var e := StepModeRequest(request, unsetMode, setReply, readMode);
                stepMode == e.switches && stepModeState == e.state && commands == e.commands
    {
      commands := [];
      if !connected {
        return;
      }
      stepMode := request;
      stepModeState := Ok;
      var selected := FirstSelected(stepMode);
      var mode: uint32 := if selected.Some? then StepModeOfItem(selected.value) else unsetMode;
      commands := [Assign(StepMode, mode)];
      if !SetSucceeded(true, setReply) {
        stepModeState := Alert;
      }
      commands := commands + [Query(StepMode)];
      stepMode := RefreshSwitch(stepMode, readMode, StepItemOfMode);
    }

    /** A coils-mode request, acted on only while connected. */
    method ChangeCoilsMode(request: seq<bool>, unsetMode: uint32, setReply: Reply, readMode: Option<uint32>)
      returns (commands: seq<Command>)
      requires Valid() && |request| == |CoilsItems|
      modifies this`coilsMode, this`coilsModeState
      ensures Valid()
      ensures !connected ==> coilsMode == old(coilsMode) && coilsModeState == old(coilsModeState) && commands == []
      ensures connected ==>
                var e := CoilsModeRequest(request, unsetMode, setReply, readMode);
                coilsMode == e.switches && coilsModeState == e.state && commands == e.commands
    {
      commands := [];
      if !connected {
        return;
      }
      coilsMode := request;
      coilsModeState := Ok;
      var selected := FirstSelected(coilsMode);
      var mode: uint32 := if selected.Some? then CoilsModeOfItem(selected.value) else unsetMode;
      var accepted := !Refused(CoilsMode, mode);
      if accepted {
        commands := [Assign(CoilsMode, mode)];
      }
      if !SetSucceeded(accepted, setReply) {
        coilsModeState := Alert;
      }
      commands := commands + [Query(CoilsMode)];
      coilsMode := RefreshSwitch(coilsMode, readMode, CoilsItemOfMode);
    }
  }
}
