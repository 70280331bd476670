/** What commands, switches and lost sensors bring about: that what should happen does happen. */
module SysmonEffects {
  import opened SysmonModel
  import opened SysmonProofs

  // ----- commands

  /** The command steps follow the numbered sections. */
  lemma CommandAt(s: State, i: Input, k: nat)
    requires s.connected && k < |i.commands|
    ensures |Steps(s.connected, i)| == 7 + |i.commands|
    ensures Within(s, i, 8 + k) == Handle(Within(s, i, 7 + k), i.commands[k], i)
  {
    WithinNext(s, i, 7 + k);
    hide Within, Handle;
  }

  lemma CommandKeeps(u: State, c: Command, i: Input)
    ensures var v := Handle(u, c, i);
            && v.sense == u.sense && v.failsafe == u.failsafe && v.gcsTime == i.now
            && (c != ArmCommand(true) && u.arm == Disarmed ==> v.arm == Disarmed)
            && (c != DisarmCommand && u.arm == Armed ==> v.arm == Armed)
            && (!(c.SetMode? && c.mode < 8) ==> v.mode == u.mode)
            && (!c.SetParams? ==> v.params == u.params)
  {
    hide MayArm;
  }

  /** No arm request among the commands from k on. */
  predicate NoArm(cs: seq<Command>, k: nat) {
    forall j :: k <= j < |cs| ==> cs[j] != ArmCommand(true)
  }

  predicate NoDisarm(cs: seq<Command>, k: nat) {
    forall j :: k <= j < |cs| ==> cs[j] != DisarmCommand
  }

  /** No accepted mode request among them. */
  predicate NoMode(cs: seq<Command>, k: nat) {
    forall j :: k <= j < |cs| ==> !(cs[j].SetMode? && cs[j].mode < 8)
  }

  lemma {:induction false} ArmKept(s: State, i: Input, k: nat, m: nat)
    requires s.connected && k <= m <= |i.commands|
    ensures |Steps(s.connected, i)| == 7 + |i.commands|
    ensures NoArm(i.commands, k) && Within(s, i, 7 + k).arm == Disarmed ==> Within(s, i, 7 + m).arm == Disarmed
    ensures NoDisarm(i.commands, k) && Within(s, i, 7 + k).arm == Armed ==> Within(s, i, 7 + m).arm == Armed
    ensures NoMode(i.commands, k) ==> Within(s, i, 7 + m).mode == Within(s, i, 7 + k).mode
    decreases m
  {
    hide Within, Handle;
    if k < m {
      ArmKept(s, i, k, m - 1);
      CommandAt(s, i, m - 1);
      CommandKeeps(Within(s, i, 7 + (m - 1)), i.commands[m - 1], i);
    }
  }

  /** A disarm command that no later arm command follows leaves the vehicle disarmed, whatever else the
      turn brings. */
  lemma DisarmTakesEffect(s: State, i: Input, k: nat)
    requires s.connected && k < |i.commands| && i.commands[k] == DisarmCommand && NoArm(i.commands, k + 1)
    ensures Turn(s, i).arm == Disarmed
  {
    CommandAt(s, i, k);
    ArmKept(s, i, k + 1, |i.commands|);
    WithinAll(s, i);
    hide Within;
  }

  /** An arm command given with fresh IMU and RC samples, no serious failsafe and the collective within the
      limit arms, and the vehicle stays armed unless a later command disarms it. */
  lemma ArmTakesEffect(s: State, i: Input, k: nat)
    requires s.connected && k < |i.commands| && i.commands[k] == ArmCommand(true) && NoDisarm(i.commands, k + 1)
    requires |Steps(s.connected, i)| == 7 + |i.commands|
    requires var u := Within(s, i, 7 + k);
             && u.sense.ok.imu && u.sense.ok.rc && (u.failsafe == Fine || u.failsafe == BatteryLow)
             && u.sense.rc.collective * 2.0 - 1.0 <= u.params.collArmMax
    ensures Turn(s, i).arm == Armed
  {
    CommandAt(s, i, k);
    ArmKept(s, i, k + 1, |i.commands|);
    WithinAll(s, i);
    hide Within;
  }

  /** The numbers of the flight modes in commands and messages. */
  function ModeNumber(m: Mode): (n: nat)
    ensures n < 8
  {
    match m
    case Manual => 0
    case Stabilize => 1
    case AltHold => 2
    case Loiter => 3
    case Rth => 4
    case Land => 5
    case Acro => 6
    case Mission => 7
  }

  /** The last mode command with a valid number decides the published mode; an invalid one changes nothing. */
  lemma LastModeDecides(s: State, i: Input, k: nat)
    requires s.connected && k < |i.commands| && i.commands[k].SetMode? && i.commands[k].mode < 8
    requires NoMode(i.commands, k + 1)
    ensures ModeNumber(Turn(s, i).mode) == i.commands[k].mode
  {
    CommandAt(s, i, k);
    ArmKept(s, i, k + 1, |i.commands|);
    WithinAll(s, i);
    hide Within;
  }

  /** A turn without commands leaves the link timer and the parameters; with commands the timer shows the turn. */
  lemma {:induction false} LinkTimer(s: State, i: Input, m: nat)
    requires s.connected && m <= |i.commands|
    ensures |Steps(s.connected, i)| == 7 + |i.commands|
    ensures Within(s, i, 7 + m).gcsTime == if m == 0 then s.gcsTime else i.now
  {
    hide Within, Handle;
    LinkWithin(s, i, 7);
    if m > 0 {
      CommandAt(s, i, m - 1);
      CommandKeeps(Within(s, i, 7 + (m - 1)), i.commands[m - 1], i);
    }
  }

  /** Every command, refused ones included, restarts the ground-link timer. */
  lemma CommandsRestartLink(s: State, i: Input)
    ensures Turn(s, i).gcsTime == if s.connected && i.commands != [] then i.now else s.gcsTime
  {
    hide Within, Handle;
    WithinAll(s, i);
    if s.connected {
      LinkTimer(s, i, |i.commands|);
    } else {
      LinkWithin(s, i, 7);
    }
  }

  // ----- the switches

  /** Up to the RC section nothing touches the memory of the arm switch. */
  lemma MemoryKept(s: State, i: Input, d: Step)
    requires d != RcStep
    ensures Do(d, s, i).rcArmPrev == s.rcArmPrev
  {
    hide MayArm, SwitchMode, Micros, Sub64, Sub32, Ms32, Fresh, Filtered;
  }

  lemma {:induction false} MemoryWithin(s: State, i: Input, k: nat)
    requires k <= |Steps(s.connected, i)|
    ensures Within(s, i, k).rcArmPrev == if k <= 5 then s.rcArmPrev else Within(s, i, 6).rcArmPrev
  {
    if k == 0 {
      WithinNone(s, i);
    } else if k != 6 {
      MemoryWithin(s, i, k - 1);
      WithinNext(s, i, k - 1);
      MemoryKept(Within(s, i, k - 1), i, Steps(s.connected, i)[k - 1]);
    }
  }

  /** The RC section acts on this turn's sample, the parameters and the switch memory the turn began with. */
  lemma RcSection(s: State, i: Input)
    ensures var u := Within(s, i, 5);
            && Within(s, i, 6) == RcSwitches(u)
            && u.rcArmPrev == s.rcArmPrev && u.params == s.params && Turn(s, i).rcArmPrev == RcSwitches(u).rcArmPrev
  {
    MemoryWithin(s, i, 5);
    MemoryWithin(s, i, |Steps(s.connected, i)|);
    LinkWithin(s, i, 5);
    WithinNext(s, i, 5);
    WithinAll(s, i);
    hide Within, RcSwitches;
  }

  /** From the RC section on only a command changes the arm state. */
  lemma {:induction false} ArmAfterSwitches(s: State, i: Input, k: nat)
    requires 6 <= k <= |Steps(s.connected, i)|
    ensures s.connected ==> |Steps(s.connected, i)| == 7 + |i.commands|
    ensures k <= 7 ==> Within(s, i, k).arm == Within(s, i, 6).arm
    ensures !s.connected || NoArm(i.commands, 0) ==> Within(s, i, 6).arm == Disarmed ==> Within(s, i, k).arm == Disarmed
    ensures !s.connected || NoDisarm(i.commands, 0) ==> Within(s, i, 6).arm == Armed ==> Within(s, i, k).arm == Armed
  {
    hide Within, Handle;
    if k > 6 {
      WithinNext(s, i, 6);
      if k > 7 {
        ArmKept(s, i, 0, k - 7);
      }
    }
  }

  /** Turning the arm switch off, on a fresh sample with at least six channels, disarms, and unless a command
      arms again the turn publishes that. */
  lemma SwitchOffDisarms(s: State, i: Input)
    requires var u := Within(s, i, 5);
             && u.sense.ok.rc && u.sense.rc.count >= 6
             && s.rcArmPrev && u.sense.rc.armSwitch <= s.params.armThreshold
    ensures Within(s, i, 6).arm == Disarmed
    ensures !s.connected || NoArm(i.commands, 0) ==> Turn(s, i).arm == Disarmed
  {
    RcSection(s, i);
    ArmAfterSwitches(s, i, |Steps(s.connected, i)|);
    WithinAll(s, i);
    hide Within, SwitchMode, MayArm;
  }

  /** Turning it on, with a fresh IMU sample, no serious failsafe and the collective within the limit, arms. */
  lemma SwitchOnArms(s: State, i: Input)
    requires var u := Within(s, i, 5);
             && u.sense.ok.rc && u.sense.rc.count >= 6
             && !s.rcArmPrev && u.sense.rc.armSwitch > s.params.armThreshold
             && u.sense.ok.imu && (u.failsafe == Fine || u.failsafe == BatteryLow)
             && u.sense.rc.collective * 2.0 - 1.0 <= s.params.collArmMax
    ensures Within(s, i, 6).arm == Armed
    ensures !s.connected || NoDisarm(i.commands, 0) ==> Turn(s, i).arm == Armed
  {
    RcSection(s, i);
    ArmAfterSwitches(s, i, |Steps(s.connected, i)|);
    WithinAll(s, i);
    hide Within, SwitchMode;
  }

  /** What the next turn compares the switch with: its last position on a fresh sample. */
  lemma SwitchRemembered(s: State, i: Input)
    ensures var u := Within(s, i, 5).sense;
            Turn(s, i).rcArmPrev
            == if u.ok.rc && u.rc.count >= 6 then u.rc.armSwitch > s.params.armThreshold else s.rcArmPrev
  {
    RcSection(s, i);
    hide Within, SwitchMode, MayArm;
  }

  /** The three positions of the mode switch, followed while the RC sample is fresh and nothing worse than a low
      battery is the matter: STABILIZE, LOITER if there is GPS, ALT_HOLD. */
  lemma SwitchPositions(s: State, i: Input)
    requires !SetsMode(i)
    requires var u := Within(s, i, 5);
             u.sense.ok.rc && u.sense.rc.count >= 6 && (u.failsafe == Fine || u.failsafe == BatteryLow)
    ensures var u, published := Within(s, i, 5), Turn(s, i).mode;
            var position := u.sense.rc.modeSwitch;
            && (position < -0.3 ==> published == Stabilize)
            && (position > 0.3 ==> published == AltHold)
            && (-0.3 <= position <= 0.3 && u.sense.ok.gps ==> published == Loiter)
            && (-0.3 <= position <= 0.3 && !u.sense.ok.gps ==> published == u.mode)
  {
    WithinNext(s, i, 5);
    ModeWithin(s, i, |Steps(s.connected, i)|);
    WithinAll(s, i);
    hide Within, MayArm;
  }

  // ----- lost sensors

  /** The mode that the loss of barometer or GPS leaves an armed vehicle in. */
  predicate FallsTo(mode: Mode, baroLost: bool, baro: bool, gps: bool, to: Mode) {
    && (mode == AltHold && baroLost ==> to == Stabilize)
    && (mode == AltHold && !baroLost ==> to == AltHold)
    && (mode == Loiter && baroLost ==> to == Stabilize)
    && (mode == Loiter && !baroLost && gps ==> to == Loiter)
    && (mode == Loiter && !baroLost && !gps && baro ==> to == AltHold)
    && (mode == Loiter && !gps && !baro ==> to == Stabilize)
    && (mode != AltHold && mode != Loiter ==> to == mode)
  }

  /** The fallback section: an armed vehicle that has just lost its barometer, or holds its position without
      GPS, drops to the best mode left; a disarmed one keeps its mode. */
  lemma FallbackOutcome(s: State)
    ensures var t, lost := Fallback(s), s.prevBaro && !s.sense.ok.baro;
            && t.prevBaro == s.sense.ok.baro
            && (s.arm == Disarmed ==> t.mode == s.mode)
            && (s.arm == Armed ==> FallsTo(s.mode, lost, s.sense.ok.baro, s.sense.ok.gps, t.mode))
  {
  }

  /** The reaction, an outcome for every failsafe: nothing milder than a lost RC link changes the mode. */
  lemma ReactOutcome(s: State)
    ensures var t := React(s);
            && t == s.(mode := t.mode)
            && (s.arm == Disarmed || s.failsafe == Fine || s.failsafe == BatteryLow || s.failsafe == GcsLost ==> t == s)
            && (s.arm == Armed && (s.failsafe == BatteryCritical || s.failsafe == SensorFailure) ==> t.mode == Land)
            && (s.arm == Armed && s.failsafe == RcLost ==>
                  t.mode == if s.mode == Rth || s.mode == Land then s.mode else if s.sense.ok.gps then Rth else Land)
  {
  }

  lemma EarlyBaro(s: State, i: Input)
    ensures Detect(Sense(s, i)).prevBaro == s.prevBaro
  {
    hide Micros, Fresh, Filtered;
  }

  lemma SwitchRefused(s: State)
    requires s.sense.ok.rc ==> s.sense.rc.count < 6 || (SwitchMode(s) == Loiter && !s.sense.ok.gps)
    ensures RcSwitches(s).mode == s.mode
  {
    hide MayArm;
  }

  /** An armed vehicle with nothing worse than a low battery, whose mode switch says nothing or asks for LOITER
      without GPS, publishes the mode that its lost sensors leave it. */
  lemma FallbackPublished(s: State, i: Input)
    requires s.arm == Armed && !SetsMode(i)
    requires var u := Within(s, i, 2);
             && (u.failsafe == Fine || u.failsafe == BatteryLow)
             && (u.sense.rc.count < 6 || (SwitchMode(u) == Loiter && !u.sense.ok.gps))
    ensures var u := Within(s, i, 2).sense.ok;
            FallsTo(s.mode, s.prevBaro && !u.baro, u.baro, u.gps, Turn(s, i).mode)
  {
    var u := Within(s, i, 2);
    FirstTwoSteps(s, i);
    ReactOutcome(u);
    FallbackOutcome(u);
    WithinNone(s, i);
    WithinNext(s, i, 0);
    WithinNext(s, i, 1);
    EarlyBaro(s, i);
    WithinNext(s, i, 4);
    WithinNext(s, i, 5);
    LandKeepsMode(Fallback(u), i);
    SwitchRefused(AutoDisarm(Fallback(u), i));
    ModeWithin(s, i, |Steps(s.connected, i)|);
    WithinAll(s, i);
    hide Within, React, Fallback, AutoDisarm, RcSwitches, FallsTo, Sense, Detect;
  }

  lemma LandKeepsMode(s: State, i: Input)
    ensures var t := AutoDisarm(s, i); t.mode == s.mode && t.sense == s.sense && SwitchMode(t) == SwitchMode(s)
    ensures Fallback(s).sense == s.sense && SwitchMode(Fallback(s)) == SwitchMode(s)
  {
  }

  // ----- what is sensed

  /** The flags of a turn whose samples are not from the future: the newest sample of each kind is younger than
      its timeout, one second for RC and the parameter, in milliseconds, for the sensors; time 0 is no sample. */
  lemma FlagsMean(s: State, i: Input)
    requires i.now < 0x1_0000_0000_0000_0000 && s.params.sensorTimeout > 0.0
    requires var t := Sense(s, i).sense;
             t.imuTime <= i.now && t.baroTime <= i.now && t.gpsTime <= i.now && t.rcTime <= i.now
    ensures var t, ms := Sense(s, i).sense, s.params.sensorTimeout;
            && t.imuTime == (if i.imu.Some? then i.imu.value else s.sense.imuTime)
            && t.baroTime == (if i.baro.Some? then i.baro.value else s.sense.baroTime)
            && t.gpsTime == (if i.gps.Some? then i.gps.value else s.sense.gpsTime)
            && t.rcTime == (if i.rc.Some? then i.rc.value.time else s.sense.rcTime)
            && (t.ok.imu <==> t.imuTime > 0 && i.now - t.imuTime < (ms * 1000.0).Floor)
            && (t.ok.baro <==> t.baroTime > 0 && i.now - t.baroTime < (ms * 1000.0).Floor)
            && (t.ok.gps <==> t.gpsTime > 0 && i.now - t.gpsTime < (ms * 1000.0).Floor)
            && (t.ok.rc <==> t.rcTime > 0 && i.now - t.rcTime < 1000000)
  {
    hide Filtered;
  }

  /** The battery filter: the first reading is taken as it is, every later one moves the estimate a twentieth of
      the way, and readings of at most 1 V are no readings. */
  lemma BatteryFiltered(s: State, i: Input)
    ensures var b, t := s.sense, Sense(s, i).sense;
            && (i.battery <= 1.0 ==> t.battery == b.battery && t.batteryFirst == b.batteryFirst)
            && (i.battery > 1.0 ==> !t.batteryFirst)
            && (i.battery > 1.0 && b.batteryFirst ==> t.battery == i.battery)
            && (i.battery > 1.0 && !b.batteryFirst ==> t.battery - i.battery == 0.95 * (b.battery - i.battery))
            && (t.low <==> 1.0 < t.battery < s.params.battLow)
            && (t.critical <==> 1.0 < t.battery < s.params.battCrit)
  {
    hide Fresh, Micros;
  }
}
