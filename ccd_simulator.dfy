/**
 * The simulator driver's filter wheel, cooled camera and guider. The
 * handlers and timer callbacks update the private data (current and
 * target slot, current and target temperature, the guider timer) and
 * the properties' states and values step by step; a timer is a pending
 * flag, and a callback runs when its flag is set. Temperatures, slots and
 * guide durations are whole numbers here.
 */
module CcdSimulator {
  import opened Bus

  // ---------------------------------------------------------------- filter wheel

  /** The number of slots the wheel attach gives the wheel. */
  const FilterCount := 5

  /** One wheel tick: the slot after c, wrapping from the last slot to the first. */
  function NextSlot(c: int, max: int): (n: int)
    requires 1 <= c <= max
    ensures 1 <= n <= max
    ensures c < max ==> n == c + 1
    ensures c == max ==> n == 1
  {
    c % max + 1
  }

  /** The slot reached after k ticks from c. */
  function Advance(c: int, max: int, k: nat): (n: int)
    requires 1 <= c <= max
    ensures 1 <= n <= max
  {
    if k == 0 then c else NextSlot(Advance(c, max, k - 1), max)
  }

  /** Within one turn, k ticks from c move k slots on, wrapping past the last slot once. */
  lemma {:induction false} AdvanceWithinTurn(c: int, max: int, k: nat)
    requires 1 <= c <= max && k <= max
    ensures Advance(c, max, k) == (if c + k <= max then c + k else c + k - max)
  {
    if k > 0 {
      AdvanceWithinTurn(c, max, k - 1);
    }
  }

  /** The number of ticks from slot c to slot t: a whole turn when they are equal. */
  function Distance(c: int, t: int, max: int): (k: nat)
    requires 1 <= c <= max && 1 <= t <= max
    ensures 1 <= k <= max
    ensures k == max <==> c == t
  {
    if t > c then t - c else t - c + max
  }

  /**
   * The cyclic step reaches every slot within one turn: after
   * Distance(c, t, max) ticks the wheel is at t, and at no tick before.
   * Since the tick callback reports Ok on the first tick that lands on the
   * target, a move from c to t ends after exactly that many ticks.
   */
  lemma ReachesTarget(c: int, t: int, max: int)
    requires 1 <= c <= max && 1 <= t <= max
    ensures Advance(c, max, Distance(c, t, max)) == t
    ensures forall j: nat :: 0 < j < Distance(c, t, max) ==> Advance(c, max, j) != t
  {
    AdvanceWithinTurn(c, max, Distance(c, t, max));
    forall j: nat | 0 < j < Distance(c, t, max)
      ensures Advance(c, max, j) != t
    {
      AdvanceWithinTurn(c, max, j);
    }
  }

  /** The outcome of a slot request: the property state, the displayed value, the target and whether the tick timer starts. */
  datatype SlotMove = SlotMove(state: State, value: int, target: int, timer: bool)

  /**
   * A request for a slot. A slot outside [1, max] is refused with an alert
   * and nothing moves; the current slot is done at once; any other slot
   * becomes the target, the wheel goes Busy, the displayed value goes back
   * to the current slot and the tick timer starts.
   */
  function SlotRequest(current: int, target: int, max: int, request: int): (r: SlotMove)
    ensures (request < 1 || request > max) ==> r == SlotMove(Alert, request, target, false)
    ensures 1 <= request <= max && request == current ==> r == SlotMove(Ok, request, target, false)
    ensures 1 <= request <= max && request != current ==> r == SlotMove(Busy, current, request, true)
    ensures r.timer <==> r.state == Busy
  {
    if request < 1 || request > max then SlotMove(Alert, request, target, false)
    else if request == current then SlotMove(Ok, request, target, false)
    else SlotMove(Busy, current, request, true)
  }

  class Wheel {
    var currentSlot: int
    var targetSlot: int
    /** The slot item's displayed value and its maximum. */
    var slotValue: int
    var slotMax: int
    var slotState: State
    var timerPending: bool

    /** The slot and target stay on the wheel; a move in progress has its tick pending. */
    ghost predicate Valid()
      reads this
    {
      1 <= slotMax && 1 <= currentSlot <= slotMax && 1 <= targetSlot <= slotMax
      && (slotState == Busy ==> timerPending)
    }

    /** The wheel attach: five slots, the first one current and targeted. */
    constructor ()
      ensures Valid()
      ensures slotMax == FilterCount && currentSlot == 1 && targetSlot == 1 && slotValue == 1
      ensures !timerPending
    {
      slotMax := FilterCount;
      currentSlot := 1;
      targetSlot := 1;
      slotValue := 1;
      slotState := Ok;
      timerPending := false;
    }

    method ChangeSlot(request: int)
      requires Valid()
      modifies this`slotValue, this`slotState, this`targetSlot, this`timerPending
      ensures Valid()
      ensures var r := SlotRequest(currentSlot, old(targetSlot), slotMax, request);
              slotState == r.state && slotValue == r.value && targetSlot == r.target
              && timerPending == (old(timerPending) || r.timer)
    {
      slotValue := request;
      if slotValue < 1 || slotValue > slotMax {
        slotState := Alert;
      } else if slotValue == currentSlot {
        slotState := Ok;
      } else {
        slotState := Busy;
        targetSlot := slotValue;
        slotValue := currentSlot;
        timerPending := true;
      }
    }

    /**
     * The tick callback: one slot on; Ok when the target is reached,
     * otherwise another tick is scheduled.
     */
    method Tick()
      requires Valid() && timerPending
      modifies this`currentSlot, this`slotValue, this`slotState, this`timerPending
      ensures Valid()
      ensures currentSlot == NextSlot(old(currentSlot), slotMax) && slotValue == currentSlot
      ensures !timerPending <==> currentSlot == targetSlot
      ensures currentSlot == targetSlot ==> slotState == Ok
      ensures currentSlot != targetSlot ==> slotState == old(slotState)
    {
      currentSlot := NextSlot(currentSlot, slotMax);
      slotValue := currentSlot;
      timerPending := false;
      if currentSlot == targetSlot {
        slotState := Ok;
      } else {
        timerPending := true;
      }
    }
  }

  // ---------------------------------------------------------------- cooled camera

  /** The temperature both attach and switching the cooler off set. */
  const Ambient := 25

  /** The temperature-related part of the camera: its readings, cooler switch and property state. */
  datatype Thermal = Thermal(
    current: int, target: int,
    displayed: int, power: int, coolerOn: bool, state: State)

  /**
   * One temperature tick. The current temperature moves one degree toward
   * the target, and the displayed value follows it; while it moves the
   * property is Busy with the cooler on and Idle with it off; once there
   * it is Ok (cooler on) or Idle. Cooling more than ten degrees above the
   * target runs the cooler at 100, more than five at 50; below the target
   * the power drops to 0.
   */
  function TemperatureTick(t: Thermal): (n: Thermal)
    ensures n.target == t.target && n.coolerOn == t.coolerOn
    ensures t.current > t.target ==> n.current == t.current - 1 && n.displayed == n.current
    ensures t.current < t.target ==> n.current == t.current + 1 && n.displayed == n.current
    ensures t.current == t.target ==> n.current == t.current && n.displayed == t.displayed
    ensures t.current != t.target ==> n.state == (if t.coolerOn then Busy else Idle)
    ensures t.current == t.target ==> n.state == (if t.coolerOn then Ok else Idle)
    ensures t.coolerOn && t.current - t.target > 10 ==> n.power == 100
    ensures t.coolerOn && 5 < t.current - t.target <= 10 ==> n.power == 50
    ensures t.current < t.target ==> n.power == (if t.power > 0 then 0 else t.power)
    ensures (!t.coolerOn && t.current >= t.target) || 0 <= t.current - t.target <= 5 ==> n.power == t.power
  {
    var diff := t.current - t.target;
    if diff > 0 then
      var power :=
        if diff > 10 && t.coolerOn then 100
        else if 5 < diff <= 10 && t.coolerOn then 50
        else t.power;
      t.(current := t.current - 1, displayed := t.current - 1, power := power,
         state := if t.coolerOn then Busy else Idle)
    else if diff < 0 then
      t.(current := t.current + 1, displayed := t.current + 1, power := if t.power > 0 then 0 else t.power,
         state := if t.coolerOn then Busy else Idle)
    else
      t.(state := if t.coolerOn then Ok else Idle)
  }

  /** The thermal state after k ticks. */
  function Ticks(t: Thermal, k: nat): Thermal
    decreases k
  {
    if k == 0 then t else Ticks(TemperatureTick(t), k - 1)
  }

  function Gap(t: Thermal): nat
  {
    if t.current >= t.target then t.current - t.target else t.target - t.current
  }

  /**
   * The temperature settles: after as many ticks as it is degrees away
   * from the target, the current temperature equals the target, and after
   * one tick more the property is Ok with the cooler on.
   */
  lemma {:induction false} TemperatureSettles(t: Thermal)
    ensures Ticks(t, Gap(t)).current == t.target
    ensures Ticks(t, Gap(t)).target == t.target && Ticks(t, Gap(t)).coolerOn == t.coolerOn
    ensures TemperatureTick(Ticks(t, Gap(t))).state == (if t.coolerOn then Ok else Idle)
    decreases Gap(t)
  {
    if Gap(t) > 0 {
      var n := TemperatureTick(t);
      assert Gap(n) == Gap(t) - 1;
      TemperatureSettles(n);
      assert Ticks(t, Gap(t)) == Ticks(n, Gap(n));
    }
  }

  /** A cooler switch request's effect on the temperature property. */
  datatype CoolerEffect = CoolerEffect(perm: Perm, state: State, power: int, target: int, displayed: int)

  /**
   * Switching the cooler on makes the temperature writable and Busy and
   * targets the displayed temperature; switching it off makes it
   * read-only and Idle, stops the cooler and sets both the target and the
   * displayed value to the ambient temperature.
   */
  function CoolerSwitch(on: bool, power: int, displayed: int): (e: CoolerEffect)
    ensures on ==> e == CoolerEffect(ReadWrite, Busy, power, displayed, displayed)
    ensures !on ==> e == CoolerEffect(ReadOnly, Idle, 0, Ambient, Ambient)
  {
    if on then CoolerEffect(ReadWrite, Busy, power, displayed, displayed)
    else CoolerEffect(ReadOnly, Idle, 0, Ambient, Ambient)
  }

  class Camera {
    var connected: bool
    var temperatureTimer: bool
    var currentTemperature: int
    var targetTemperature: int
    /** The temperature item's displayed value, its permission and state. */
    var temperatureValue: int
    var temperaturePerm: Perm
    var temperatureState: State
    var coolerOn: bool
    var coolerPower: int
    var exposureValue: int
    var exposureTime: int
    var exposureState: State
    var exposureTimer: bool
    /** The abort property's own state, which no handler of this driver changes. */
    var abortState: State
    /** The upload-mode switch: local (image file property) or to the client (image property). */
    var uploadLocal: bool
    var imageState: State
    var imageFileState: State

    ghost function ThermalState(): Thermal
      reads this
    {
      Thermal(currentTemperature, targetTemperature, temperatureValue, coolerPower, coolerOn, temperatureState)
    }

    /** The camera attach: cooler off, everything at the ambient temperature, read-only. */
    constructor ()
      ensures !coolerOn && coolerPower == 0 && temperaturePerm == ReadOnly
      ensures currentTemperature == Ambient && targetTemperature == Ambient && temperatureValue == Ambient
      ensures !connected && !temperatureTimer && !exposureTimer
      ensures abortState == Idle
    {
      connected := false;
      temperatureTimer := false;
      currentTemperature := Ambient;
      targetTemperature := Ambient;
      temperatureValue := Ambient;
      temperaturePerm := ReadOnly;
      temperatureState := Idle;
      coolerOn := false;
      coolerPower := 0;
      exposureValue := 0;
      exposureTime := 0;
      exposureState := Idle;
      exposureTimer := false;
      abortState := Idle;
      uploadLocal := false;
      imageState := Idle;
      imageFileState := Idle;
    }

    /** Connecting starts the temperature timer, disconnecting cancels it. */
    method ChangeConnection(connect: bool)
      modifies this`connected, this`temperatureTimer
      ensures connected == connect && temperatureTimer == connect
    {
      connected := connect;
      temperatureTimer := connected;
    }

    /** The temperature callback: one tick, then the timer is set again. */
    method TemperatureTimer()
      requires temperatureTimer
      modifies this`currentTemperature, this`temperatureValue, this`coolerPower, this`temperatureState
      ensures ThermalState() == TemperatureTick(old(ThermalState()))
      ensures temperatureTimer
    {
      var diff := currentTemperature - targetTemperature;
      if diff > 0 {
        if diff > 10 {
          if coolerOn && coolerPower != 100 {
            coolerPower := 100;
          }
        } else if diff > 5 {
          if coolerOn && coolerPower != 50 {
            coolerPower := 50;
          }
        }
        temperatureState := if coolerOn then Busy else Idle;
        currentTemperature := currentTemperature - 1;
        temperatureValue := currentTemperature;
      } else if diff < 0 {
        if coolerPower > 0 {
          coolerPower := 0;
        }
        temperatureState := if coolerOn then Busy else Idle;
        currentTemperature := currentTemperature + 1;
        temperatureValue := currentTemperature;
      } else {
        temperatureState := if coolerOn then Ok else Idle;
      }
    }

    method ChangeCooler(on: bool)
      modifies this`coolerOn, this`temperaturePerm, this`temperatureState, this`coolerPower,
               this`targetTemperature, this`temperatureValue
      ensures coolerOn == on
      ensures CoolerSwitch(on, old(coolerPower), old(temperatureValue))
              == CoolerEffect(temperaturePerm, temperatureState, coolerPower, targetTemperature, temperatureValue)
    {
      coolerOn := on;
      if coolerOn {
        temperaturePerm := ReadWrite;
        temperatureState := Busy;
        targetTemperature := temperatureValue;
      } else {
        temperaturePerm := ReadOnly;
        temperatureState := Idle;
        coolerPower := 0;
        temperatureValue := Ambient;
        targetTemperature := Ambient;
      }
    }

    /** A new target temperature: recorded, the display shows the current temperature, Busy. */
    method ChangeTemperature(request: int)
      modifies this`targetTemperature, this`temperatureValue, this`temperatureState
      ensures targetTemperature == request && temperatureValue == currentTemperature && temperatureState == Busy
    {
      temperatureValue := request;
      targetTemperature := temperatureValue;
      temperatureValue := currentTemperature;
      temperatureState := Busy;
    }

    /** An exposure request: Busy, the image (or image file) property Busy, the exposure timer set. */
    method StartExposure(duration: int)
      modifies this`exposureValue, this`exposureTime, this`exposureState, this`imageState,
               this`imageFileState, this`exposureTimer
      ensures exposureTime == duration && exposureValue == duration
      ensures exposureState == Busy && exposureTimer
      ensures uploadLocal ==> imageFileState == Busy && imageState == old(imageState)
      ensures !uploadLocal ==> imageState == Busy && imageFileState == old(imageFileState)
    {
      exposureValue := duration;
      exposureTime := exposureValue;
      exposureState := Busy;
      if uploadLocal {
        imageFileState := Busy;
      } else {
        imageState := Busy;
      }
      exposureTimer := true;
    }

    /** The exposure callback: a Busy exposure is done (Ok, remaining time 0); otherwise nothing changes. */
    method ExposureTimer()
      requires exposureTimer
      modifies this`exposureState, this`exposureValue, this`exposureTimer
      ensures !exposureTimer
      ensures old(exposureState) == Busy ==> exposureState == Ok && exposureValue == 0
      ensures old(exposureState) != Busy ==> exposureState == old(exposureState) && exposureValue == old(exposureValue)
    {
      exposureTimer := false;
      if exposureState == Busy {
        exposureState := Ok;
        exposureValue := 0;
      }
    }

    /** An abort request cancels the exposure timer of an exposure in progress. */
    method AbortExposure()
      modifies this`exposureTimer
      ensures exposureTimer == (old(exposureTimer) && exposureState != Busy)
    {
      if exposureState == Busy {
        exposureTimer := false;
      }
    }

    /**
     * The abort request as written: it tests the abort property's own
     * state instead of the exposure's, so the timer is cancelled only
     * when the abort property is Busy.
     */
    method AbortExposureAsWritten()
      modifies this`exposureTimer
      ensures exposureTimer == (old(exposureTimer) && abortState != Busy)
    {
      if abortState == Busy {
        exposureTimer := false;
      }
    }
  }

  /**
   * A camera just attached that starts an exposure and is asked to abort
   * it: as written the exposure timer stays pending, as intended it is
   * cancelled.
   */
  method AbortLeavesExposureRunning() returns (pendingAsWritten: bool, pendingIntended: bool)
    ensures pendingAsWritten && !pendingIntended
  {
    var c := new Camera();
    c.StartExposure(5);
    c.AbortExposureAsWritten();
    pendingAsWritten := c.exposureTimer;
    var d := new Camera();
    d.StartExposure(5);
    d.AbortExposure();
    pendingIntended := d.exposureTimer;
  }

  // ---------------------------------------------------------------- guider

  /**
   * The state a guide request leaves on its axis, and whether it sets the
   * guide timer: a positive first duration (north or east), else a
   * positive second one (south or west), makes the axis Busy with the
   * timer pending; otherwise the axis is Ok at once.
   */
  function GuideState(first: int, second: int): (s: State)
    ensures s == Busy <==> first > 0 || second > 0
    ensures s != Busy ==> s == Ok
  {
    if first > 0 then Busy else if second > 0 then Busy else Ok
  }

  /** The pulse length the timer is set for, when it is set. */
  function PulseLength(first: int, second: int): (d: Option<int>)
    ensures d.Some? <==> GuideState(first, second) == Busy
    ensures d.Some? ==> d.value > 0 && (d.value == first || d.value == second)
    ensures first > 0 ==> d == Some(first)
  {
    if first > 0 then Some(first) else if second > 0 then Some(second) else None
  }

  class Guider {
    var north: int
    var south: int
    var east: int
    var west: int
    var decState: State
    var raState: State
    /** The one guide timer both axes share. */
    var timerPending: bool
    var pulse: int

    constructor ()
      ensures north == 0 && south == 0 && east == 0 && west == 0 && !timerPending
    {
      north := 0;
      south := 0;
      east := 0;
      west := 0;
      decState := Idle;
      raState := Idle;
      timerPending := false;
      pulse := 0;
    }

    /** A declination guide request: any pending pulse is cancelled first, whichever axis it was on. */
    method GuideDec(n: int, s: int)
      modifies this`north, this`south, this`decState, this`timerPending, this`pulse
      ensures north == n && south == s
      ensures decState == GuideState(n, s)
      ensures timerPending <==> PulseLength(n, s).Some?
      ensures timerPending ==> pulse == PulseLength(n, s).value
    {
      timerPending := false;
      north := n;
      south := s;
      decState := Ok;
      var duration := north;
      if duration > 0 {
        decState := Busy;
        pulse := duration;
        timerPending := true;
      } else {
        duration := south;
        if duration > 0 {
          decState := Busy;
          pulse := duration;
          timerPending := true;
        }
      }
    }

    /** A right-ascension guide request, the same over east and west. */
    method GuideRa(e: int, w: int)
      modifies this`east, this`west, this`raState, this`timerPending, this`pulse
      ensures east == e && west == w
      ensures raState == GuideState(e, w)
      ensures timerPending <==> PulseLength(e, w).Some?
      ensures timerPending ==> pulse == PulseLength(e, w).value
    {
      timerPending := false;
      east := e;
      west := w;
      raState := Ok;
      var duration := east;
      if duration > 0 {
        raState := Busy;
        pulse := duration;
        timerPending := true;
      } else {
        duration := west;
        if duration > 0 {
          raState := Busy;
          pulse := duration;
          timerPending := true;
        }
      }
    }

    /** The guide timer: every axis with a non-zero duration is zeroed and set Ok. */
    method Timer()
      requires timerPending
      modifies this`north, this`south, this`east, this`west, this`decState, this`raState, this`timerPending
      ensures !timerPending
      ensures north == 0 && south == 0 && east == 0 && west == 0
      ensures (old(north) != 0 || old(south) != 0) ==> decState == Ok
      ensures (old(north) == 0 && old(south) == 0) ==> decState == old(decState)
      ensures (old(east) != 0 || old(west) != 0) ==> raState == Ok
      ensures (old(east) == 0 && old(west) == 0) ==> raState == old(raState)
    {
      timerPending := false;
      if north != 0 || south != 0 {
        north := 0;
        south := 0;
        decState := Ok;
      }
      if east != 0 || west != 0 {
        east := 0;
        west := 0;
        raState := Ok;
      }
    }
  }
}
