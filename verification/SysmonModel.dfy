/** The arming and failsafe logic of the system monitor: one turn of sysmon_task's endless loop is a
    sequence of steps, one for each numbered section of the loop and one for each RPC command. */
module SysmonModel {

  datatype Option<+T> = None | Some(value: T)

  datatype Arm = Disarmed | Armed
  datatype Mode = Manual | Stabilize | AltHold | Loiter | Rth | Land | Acro | Mission
  datatype Failsafe = Fine | RcLost | BatteryLow | BatteryCritical | SensorFailure | GcsLost

  /** The tunable parameters that the section reads; times in milliseconds. */
  datatype Params = Params(
    battLow: real, battCrit: real, sensorTimeout: real, armThreshold: real, collArmMax: real, gcsTimeout: real)

  /** A sample of the RC topic: channels 2 (collective), 4 (mode switch) and 5 (arm switch). */
  datatype Rc = Rc(time: nat, count: nat, collective: real, modeSwitch: real, armSwitch: real)

  /** SetParams gives the parameters after a PARAM_SET. */
  datatype Command =
    | ArmCommand(arm: bool) | DisarmCommand | SetMode(mode: nat) | SetParams(params: Params) | OtherCommand

  /** What one turn reads: the time in microseconds, the battery voltage, the timestamps of new sensor
      samples, a new RC sample, whether a new actuator sample says the vehicle has landed, and the
      queued commands. */
  datatype Input = Input(now: nat, battery: real, imu: Option<nat>, baro: Option<nat>, gps: Option<nat>, rc: Option<Rc>,
                         landed: bool, commands: seq<Command>)

  /** The health flags of a turn, with the sensor timeout they were computed from. */
  datatype Health = Health(imu: bool, baro: bool, gps: bool, rc: bool, timeout: nat)

  /** What the first sections of a turn find out. */
  datatype Sensors = Sensors(
    battery: real, batteryFirst: bool, low: bool, critical: bool,
    imuTime: nat, baroTime: nat, gpsTime: nat, rcTime: nat, rc: Rc, ok: Health)

  const NOTHING_SENSED :=
    Sensors(0.0, true, false, false, 0, 0, 0, 0, Rc(0, 0, 0.0, 0.0, 0.0), Health(false, false, false, false, 0))

  /** The variables of the loop.  `connected` is whether there is an RPC context. */
  datatype State = State(
    arm: Arm, mode: Mode, failsafe: Failsafe, sense: Sensors,
    gcsTime: nat, rcArmPrev: bool, prevBaro: bool, landStart: nat, params: Params, connected: bool)

  const RC_TIMEOUT_US := 1000000
  const CONFIRM_MS := 3000

  // ----- machine arithmetic

  /** uint64_t and uint32_t subtraction. */
  function Sub64(a: nat, b: nat): nat {
    (a - b) % 0x1_0000_0000_0000_0000
  }

  function Sub32(a: nat, b: nat): nat {
    (a - b) % 0x1_0000_0000
  }

  /** A timeout parameter as a count of microseconds. */
  function Micros(ms: real): nat {
    if ms <= 0.0 then 0 else (ms * 1000.0).Floor
  }

  /** The time in milliseconds, and as the 32-bit counter holds it. */
  function Ms(us: nat): nat {
    us / 1000
  }

  function Ms32(us: nat): nat {
    Ms(us) % 0x1_0000_0000
  }

  predicate Fresh(now: nat, time: nat, timeout: nat) {
    time > 0 && Sub64(now, time) < timeout
  }

  // ----- the steps

  function Filtered(s: State, v: real): real {
    if v <= 1.0 then s.sense.battery
    else if s.sense.batteryFirst then v
    else s.sense.battery + 0.05 * (v - s.sense.battery)
  }

  function Newer(sample: Option<nat>, last: nat): nat {
    if sample.Some? then sample.value else last
  }

  /** Sections 1 and 2: battery, sensor timestamps, health flags. */
  function Sense(s: State, i: Input): State {
    var b := Filtered(s, i.battery);
    var imu, baro, gps := Newer(i.imu, s.sense.imuTime), Newer(i.baro, s.sense.baroTime), Newer(i.gps, s.sense.gpsTime);
    var rcTime := if i.rc.Some? then i.rc.value.time else s.sense.rcTime;
    var timeout := Micros(s.params.sensorTimeout);
    s.(sense := Sensors(
         b, s.sense.batteryFirst && i.battery <= 1.0, 1.0 < b < s.params.battLow, 1.0 < b < s.params.battCrit,
         imu, baro, gps, rcTime, if i.rc.Some? then i.rc.value else s.sense.rc,
         Health(Fresh(i.now, imu, timeout), Fresh(i.now, baro, timeout), Fresh(i.now, gps, timeout),
                Fresh(i.now, rcTime, RC_TIMEOUT_US), timeout)))
  }

  /** Section 3: the later tests override the earlier ones. */
  function Detect(s: State): State {
    var f0 := if s.sense.low then BatteryLow else Fine;
    var f1 := if !s.sense.ok.rc && s.arm == Armed then RcLost else f0;
    var f2 := if s.sense.critical then BatteryCritical else f1;
    s.(failsafe := if !s.sense.ok.imu then SensorFailure else f2)
  }

  /** Section 4: what an armed vehicle does about it. */
  function React(s: State): State {
    if s.arm == Disarmed then s
    else
      match s.failsafe
      case RcLost =>
        if s.mode == Rth || s.mode == Land then s else s.(mode := if s.sense.ok.gps then Rth else Land)
      case BatteryCritical => s.(mode := Land)
      case SensorFailure => s.(mode := Land)
      case _ => s
  }

  /** Section 4b: mode fallback when the barometer or GPS is lost. */
  function Fallback(s: State): State {
    var m0 := if s.prevBaro && !s.sense.ok.baro && (s.mode == AltHold || s.mode == Loiter) then Stabilize else s.mode;
    var m1 := if !s.sense.ok.gps && m0 == Loiter then if s.sense.ok.baro then AltHold else Stabilize else m0;
    s.(mode := if s.arm == Armed then m1 else s.mode, prevBaro := s.sense.ok.baro)
  }

  /** Section 4c: disarm when landed for long enough; 0 means that no landing is being timed. */
  function AutoDisarm(s: State, i: Input): State {
    if s.arm == Disarmed || !i.landed then s.(landStart := 0)
    else
      var start := if s.landStart == 0 then Ms32(i.now) else s.landStart;
      if Sub32(Ms32(i.now), start) > CONFIRM_MS then s.(arm := Disarmed, landStart := 0) else s.(landStart := start)
  }

  function Collective(s: State): real {
    s.sense.rc.collective * 2.0 - 1.0
  }

  /** The checks that both ways of arming share. */
  predicate MayArm(s: State) {
    && s.sense.ok.imu && (s.failsafe == Fine || s.failsafe == BatteryLow)
    && Collective(s) <= s.params.collArmMax
  }

  function SwitchMode(s: State): Mode {
    if s.sense.rc.modeSwitch < -0.3 then Stabilize else if s.sense.rc.modeSwitch > 0.3 then AltHold else Loiter
  }

  /** Section 4d: the arm switch acts on its edges, the mode switch on its level. */
  function RcSwitches(s: State): State {
    if !s.sense.ok.rc || s.sense.rc.count < 6 then s
    else
      var up := s.sense.rc.armSwitch > s.params.armThreshold;
      var arm :=
        if up && !s.rcArmPrev && s.arm == Disarmed then if MayArm(s) then Armed else Disarmed
        else if !up && s.rcArmPrev then Disarmed
        else s.arm;
      var follow := (s.failsafe == Fine || s.failsafe == BatteryLow) && (SwitchMode(s) != Loiter || s.sense.ok.gps);
      s.(arm := arm, rcArmPrev := up, mode := if follow then SwitchMode(s) else s.mode)
  }

  /** Section 6b. */
  function GcsLink(s: State, i: Input): State {
    if s.connected && s.gcsTime > 0 && Sub64(i.now, s.gcsTime) >= Micros(s.params.gcsTimeout) && s.arm == Armed
    then s.(failsafe := GcsLost) else s
  }

  function ModeOf(n: nat): Mode
    requires n < 8
  {
    match n
    case 0 => Manual
    case 1 => Stabilize
    case 2 => AltHold
    case 3 => Loiter
    case 4 => Rth
    case 5 => Land
    case 6 => Acro
    case _ => Mission
  }

  /** Section 7: one command. */
  function Handle(s: State, c: Command, i: Input): State {
    var t := s.(gcsTime := i.now);
    match c
    case ArmCommand(arm) => if arm && s.sense.ok.rc && MayArm(s) then t.(arm := Armed) else t
    case DisarmCommand => t.(arm := Disarmed)
    case SetMode(mode) => if mode < 8 then t.(mode := ModeOf(mode)) else t
    case SetParams(params) => t.(params := params)
    case OtherCommand => t
  }

  // ----- a turn

  datatype Step =
    | SenseStep | DetectStep | ReactStep | FallbackStep | LandStep | RcStep | GcsStep
    | CommandStep(command: Command)

  function Do(d: Step, s: State, i: Input): State {
    match d
    case SenseStep => Sense(s, i)
    case DetectStep => Detect(s)
    case ReactStep => React(s)
    case FallbackStep => Fallback(s)
    case LandStep => AutoDisarm(s, i)
    case RcStep => RcSwitches(s)
    case GcsStep => GcsLink(s, i)
    case CommandStep(c) => Handle(s, c, i)
  }

  /** The sections in the order of the loop. */
  const SECTIONS: seq<Step> := [SenseStep, DetectStep, ReactStep, FallbackStep, LandStep, RcStep, GcsStep]

  function Steps(connected: bool, i: Input): seq<Step> {
    if !connected then SECTIONS
    else SECTIONS + seq(|i.commands|, k requires 0 <= k < |i.commands| => CommandStep(i.commands[k]))
  }

  function DoAll(steps: seq<Step>, s: State, i: Input): State
    decreases |steps|
  {
    if steps == [] then s
    else Do(steps[|steps| - 1], DoAll(steps[..|steps| - 1], s, i), i)
  }

  /** One turn of the loop.  Its result is what the vehicle status message publishes. */
  function Turn(s: State, i: Input): State {
    DoAll(Steps(s.connected, i), s, i)
  }

  function Run(s: State, inputs: seq<Input>): State
    decreases |inputs|
  {
    if inputs == [] then s else Turn(Run(s, inputs[..|inputs| - 1]), inputs[|inputs| - 1])
  }

  function Init(params: Params, connected: bool): State {
    State(Disarmed, Stabilize, Fine, NOTHING_SENSED, 0, false, false, 0, params, connected)
  }
}
