/** What the arming and failsafe logic guarantees in every run. */
module SysmonProofs {
  import opened SysmonModel

  /** The state within a turn that starts from s, after the first k steps. */
  function Within(s: State, i: Input, k: nat): State
    requires k <= |Steps(s.connected, i)|
  {
    DoAll(Steps(s.connected, i)[..k], s, i)
  }

  lemma WithinNext(s: State, i: Input, k: nat)
    requires k < |Steps(s.connected, i)|
    ensures Within(s, i, k + 1) == Do(Steps(s.connected, i)[k], Within(s, i, k), i)
  {
    var steps := Steps(s.connected, i);
    assert steps[..k + 1][..k] == steps[..k];
  }

  lemma WithinAll(s: State, i: Input)
    ensures Within(s, i, |Steps(s.connected, i)|) == Turn(s, i)
  {
    var steps := Steps(s.connected, i);
    assert steps[..|steps|] == steps;
  }

  predicate MildFailsafe(f: Failsafe) {
    f == Fine || f == BatteryLow
  }

  // ----- the health flags mean what they say

  /** After the first section of a turn: the flags are those of the turn's time and of the sensor
      timeout in force when it began. */
  predicate Sensed(s: State, i: Input, timeout: nat) {
    && s.sense.ok == Health(Fresh(i.now, s.sense.imuTime, timeout), Fresh(i.now, s.sense.baroTime, timeout),
                      Fresh(i.now, s.sense.gpsTime, timeout),
                      Fresh(i.now, s.sense.rcTime, RC_TIMEOUT_US), timeout)
    && s.sense.rc.time == s.sense.rcTime
  }

  /** After the second: a mild failsafe means that neither the IMU nor the battery is failing, and that
      the RC link is there if the vehicle was armed. */
  predicate Detected(s: State) {
    MildFailsafe(s.failsafe) ==> s.sense.ok.imu && !s.sense.critical
  }

  /** After the third: what an armed vehicle does. */
  predicate Reacted(s: State) {
    && (s.arm == Armed && (!s.sense.ok.imu || s.sense.critical) ==> s.mode == Land)
    && (s.arm == Armed && !s.sense.ok.rc ==> s.mode == Land || s.mode == Rth)
  }

  predicate RcMatches(s: State) {
    s.sense.rc.time == s.sense.rcTime
  }

  /** Section 3 as a priority: sensor failure, then critical battery, then a lost RC link of an armed
      vehicle, then low battery. */
  predicate BySeverity(s: State) {
    s.failsafe ==
    (if !s.sense.ok.imu then SensorFailure
     else if s.sense.critical then BatteryCritical
     else if !s.sense.ok.rc && s.arm == Armed then RcLost
     else if s.sense.low then BatteryLow
     else Fine)
  }

  /** What holds after k steps.  `modeSet` is whether some command of the turn sets the mode. */
  predicate Midway(s: State, i: Input, k: nat, timeout: nat, modeSet: bool) {
    && RcMatches(s)
    && (k >= 1 ==> Sensed(s, i, timeout))
    && (k >= 2 ==> Detected(s))
    && (k == 2 ==> BySeverity(s))
    && (k >= 3 && !modeSet ==> Reacted(s))
  }

  lemma SenseStarts(s: State, i: Input)
    requires RcMatches(s)
    ensures Sensed(Sense(s, i), i, Micros(s.params.sensorTimeout))
  {
  }

  /** After the first section nothing touches the samples and the flags. */
  lemma SamplesKept(s: State, i: Input, d: Step)
    requires d != SenseStep
    ensures Do(d, s, i).sense == s.sense
  {
    hide MayArm, SwitchMode, Micros, Sub64, Sub32, Ms32;
  }

  lemma DetectStarts(s: State)
    ensures Detected(Detect(s)) && BySeverity(Detect(s))
  {
  }

  lemma DetectedKept(s: State, i: Input, d: Step)
    requires d != SenseStep && d != DetectStep && Detected(s)
    ensures Detected(Do(d, s, i))
  {
    SamplesKept(s, i, d);
    hide MayArm, SwitchMode, Micros, Sub64, Sub32, Ms32;
  }

  lemma ReactStarts(s: State)
    requires BySeverity(s)
    ensures Reacted(React(s))
  {
  }

  lemma ReactedKept(s: State, i: Input, d: Step)
    requires d != SenseStep && d != DetectStep && d != ReactStep && !(d.CommandStep? && d.command.SetMode?)
    requires Reacted(s) && Detected(s)
    ensures Reacted(Do(d, s, i))
  {
    SamplesKept(s, i, d);
    hide Collective, Micros, Sub64, Sub32, Ms32;
  }

  lemma StepMidway(s: State, i: Input, d: Step, k: nat, timeout: nat, modeSet: bool)
    requires Midway(s, i, k, timeout, modeSet)
    requires k < |SECTIONS| ==> d == SECTIONS[k]
    requires k >= |SECTIONS| ==> d.CommandStep? && (!modeSet ==> !d.command.SetMode?)
    requires k == 0 ==> timeout == Micros(s.params.sensorTimeout)
    ensures Midway(Do(d, s, i), i, k + 1, timeout, modeSet)
  {
    hide Sense, Detect, React, Fallback, AutoDisarm, RcSwitches, GcsLink, Handle, Detected, Reacted, BySeverity, Fresh;
    if k == 0 {
      SenseStarts(s, i);
    } else {
      SamplesKept(s, i, d);
      if k == 1 { DetectStarts(s); } else { DetectedKept(s, i, d); }
      if k == 2 { ReactStarts(s); }
      if k > 2 && !modeSet { ReactedKept(s, i, d); }
    }
  }

  predicate SetsMode(i: Input) {
    exists k :: 0 <= k < |i.commands| && i.commands[k].SetMode?
  }

  lemma {:induction false} TurnMidway(s: State, i: Input, k: nat)
    requires RcMatches(s) && k <= |Steps(s.connected, i)|
    ensures Midway(Within(s, i, k), i, k, Micros(s.params.sensorTimeout), SetsMode(i))
  {
    if k > 0 {
      TurnMidway(s, i, k - 1);
      WithinNext(s, i, k - 1);
      if k == 1 { assert Within(s, i, 0) == s; }
      var d := Steps(s.connected, i)[k - 1];
      StepMidway(Within(s, i, k - 1), i, d, k - 1, Micros(s.params.sensorTimeout), SetsMode(i));
    }
  }

  lemma {:induction false} RunMatches(params: Params, connected: bool, inputs: seq<Input>)
    ensures RcMatches(Run(Init(params, connected), inputs))
    decreases |inputs|
  {
    if inputs != [] {
      var last := |inputs| - 1;
      RunMatches(params, connected, inputs[..last]);
      var s := Run(Init(params, connected), inputs[..last]);
      TurnMidway(s, inputs[last], |Steps(s.connected, inputs[last])|);
      WithinAll(s, inputs[last]);
    }
  }

  // ----- arming

  /** The only steps that arm, and what they check. */
  lemma ArmingStep(u: State, i: Input, d: Step, k: nat)
    requires k < |SECTIONS| ==> d == SECTIONS[k]
    requires k >= |SECTIONS| ==> d.CommandStep?
    requires u.arm == Disarmed && Do(d, u, i).arm == Armed
    ensures k >= 2 && u.sense.ok.rc && MayArm(u)
    ensures d == CommandStep(ArmCommand(true))
            || (d == RcStep && !u.rcArmPrev && u.sense.rc.armSwitch > u.params.armThreshold && u.sense.rc.count >= 6)
  {
    hide MayArm, SwitchMode, Micros, Sub64, Sub32, Ms32, Fresh, Filtered;
  }

  /** In every run, whatever step of a turn takes the vehicle from disarmed to armed, it is the rising
      edge of the arm switch or an arm command, and at that moment the IMU and RC samples are fresh,
      that RC sample's collective is within the limit then in force, the failsafe is none or
      battery-low, and the battery is not critical. */
  lemma ArmingIsSafe(params: Params, connected: bool, inputs: seq<Input>, i: Input, k: nat)
    requires var s := Run(Init(params, connected), inputs);
             && k < |Steps(s.connected, i)|
             && Within(s, i, k).arm == Disarmed && Within(s, i, k + 1).arm == Armed
    ensures var s := Run(Init(params, connected), inputs);
            var u := Within(s, i, k);
            var d := Steps(s.connected, i)[k];
            && (d == CommandStep(ArmCommand(true))
                || (d == RcStep && !u.rcArmPrev && u.sense.rc.armSwitch > u.params.armThreshold
                    && u.sense.rc.count >= 6))
            && Fresh(i.now, u.sense.imuTime, Micros(s.params.sensorTimeout))
            && Fresh(i.now, u.sense.rc.time, RC_TIMEOUT_US)
            && Collective(u) <= u.params.collArmMax
            && MildFailsafe(u.failsafe) && !u.sense.critical
  {
    var s := Run(Init(params, connected), inputs);
    RunMatches(params, connected, inputs);
    TurnMidway(s, i, k);
    WithinNext(s, i, k);
    ArmingStep(Within(s, i, k), i, Steps(s.connected, i)[k], k);
  }

  // ----- landing and returning

  /** A turn that ends armed with a stale IMU or a critical battery, and in which no command set the
      mode, publishes LAND. */
  lemma FailingMeansLand(params: Params, connected: bool, inputs: seq<Input>, i: Input)
    requires !SetsMode(i)
    ensures var s := Run(Init(params, connected), inputs);
            var u := Turn(s, i);
            var imuOk := Fresh(i.now, u.sense.imuTime, Micros(s.params.sensorTimeout));
            && (u.arm == Armed && (!imuOk || u.sense.critical) ==> u.mode == Land)
            && (u.arm == Armed && !Fresh(i.now, u.sense.rcTime, RC_TIMEOUT_US) ==> u.mode == Land || u.mode == Rth)
  {
    var s := Run(Init(params, connected), inputs);
    RunMatches(params, connected, inputs);
    TurnMidway(s, i, |Steps(s.connected, i)|);
    WithinAll(s, i);
  }

  // ----- disarming

  /** The only steps that disarm: a disarm command, the falling edge of the arm switch on a fresh RC
      sample, and a landing that has been timed for long enough.  No failsafe disarms. */
  lemma DisarmingStep(u: State, i: Input, d: Step)
    requires u.arm == Armed && Do(d, u, i).arm == Disarmed
    ensures || d == CommandStep(DisarmCommand)
            || (d == RcStep && u.sense.ok.rc && u.sense.rc.count >= 6
                && u.rcArmPrev && u.sense.rc.armSwitch <= u.params.armThreshold)
            || (d == LandStep && i.landed && u.landStart != 0 && Sub32(Ms32(i.now), u.landStart) > CONFIRM_MS)
  {
    hide MayArm, SwitchMode, Micros, Sub64, Ms32, Fresh, Filtered;
  }

  /** Only the landing section touches the landing timer. */
  lemma TimerKept(s: State, i: Input, d: Step)
    requires d != LandStep
    ensures Do(d, s, i).landStart == s.landStart
  {
    hide MayArm, SwitchMode, Micros, Sub64, Sub32, Ms32, Fresh, Filtered;
  }

  lemma {:induction false} TimerWithin(s: State, i: Input, k: nat)
    requires k <= |Steps(s.connected, i)|
    ensures Within(s, i, k).landStart == if k <= 4 then s.landStart else Within(s, i, 5).landStart
  {
    if k == 0 {
      assert Within(s, i, 0) == s;
    } else if k != 5 {
      TimerWithin(s, i, k - 1);
      WithinNext(s, i, k - 1);
      TimerKept(Within(s, i, k - 1), i, Steps(s.connected, i)[k - 1]);
    }
  }

  /** A turn's landing section works on the timer the turn began with, and what it leaves stays. */
  lemma TimerOfTurn(s: State, i: Input)
    ensures Turn(s, i).landStart == AutoDisarm(Within(s, i, 4), i).landStart
    ensures Within(s, i, 5) == AutoDisarm(Within(s, i, 4), i) && Within(s, i, 4).landStart == s.landStart
  {
    TimerWithin(s, i, |Steps(s.connected, i)|);
    TimerWithin(s, i, 4);
    WithinAll(s, i);
    WithinNext(s, i, 4);
  }

  predicate LandedFrom(inputs: seq<Input>, j: nat) {
    forall m :: j <= m < |inputs| ==> inputs[m].landed
  }

  predicate Ordered(inputs: seq<Input>) {
    forall a, b :: 0 <= a < b < |inputs| ==> inputs[a].now <= inputs[b].now
  }

  /** A timer that runs after the landing section was running before or has just been started. */
  lemma TimerAfter(s: State, i: Input)
    requires AutoDisarm(s, i).landStart != 0
    ensures i.landed && AutoDisarm(s, i).landStart == if s.landStart == 0 then Ms32(i.now) else s.landStart
  {
  }

  lemma RunNothing(s: State)
    ensures Run(s, []) == s
  {
  }

  /** A running landing timer was started by some turn, and all turns since have seen the vehicle
      landed. */
  lemma {:induction false} TimerSince(s: State, inputs: seq<Input>) returns (j: nat)
    requires s.landStart == 0 && Run(s, inputs).landStart != 0
    ensures j < |inputs| && LandedFrom(inputs, j)
    ensures Run(s, inputs).landStart == Ms32(inputs[j].now)
    decreases |inputs|
  {
    hide Ms32, Run, Turn, Within, AutoDisarm;
    RunNothing(s);
    var last := |inputs| - 1;
    var before := Run(s, inputs[..last]);
    LastTurn(s, inputs);
    TimerOfTurn(before, inputs[last]);
    TimerAfter(Within(before, inputs[last], 4), inputs[last]);
    if before.landStart == 0 {
      j := last;
    } else {
      j := TimerSince(s, inputs[..last]);
    }
  }

  /** The milliseconds from t0 to now, wrapped to 32 bits. */
  function ByClock(now: nat, t0: nat): nat {
    (Ms(now) - Ms(t0)) % 0x1_0000_0000
  }

  /** That is what the 32-bit clock measures. */
  lemma Elapsed(now: nat, t0: nat)
    ensures Sub32(Ms32(now), Ms32(t0)) == ByClock(now, t0)
    ensures t0 <= now ==> Sub32(Ms32(now), Ms32(t0)) <= Ms(now) - Ms(t0)
    ensures 0 <= Ms(now) - Ms(t0) < 0x1_0000_0000 ==> ByClock(now, t0) == Ms(now) - Ms(t0)
  {
    Wrap(Ms(now), Ms(t0));
  }

  lemma Wrap(a: nat, b: nat)
    ensures (a % 0x1_0000_0000 - b % 0x1_0000_0000) % 0x1_0000_0000 == (a - b) % 0x1_0000_0000
    ensures b <= a ==> (a - b) % 0x1_0000_0000 <= a - b
  {
  }

  /** In every run, with the 32-bit millisecond clock wrapping as it may, the landing section disarms
      only if the vehicle was landed in every turn since one more than 3000 ms ago. */
  lemma AutoDisarmConfirmed(params: Params, connected: bool, inputs: seq<Input>, i: Input) returns (j: nat)
    requires Ordered(inputs + [i])
    requires var s := Run(Init(params, connected), inputs);
             Within(s, i, 4).arm == Armed && Within(s, i, 5).arm == Disarmed
    ensures j < |inputs| && LandedFrom(inputs, j) && i.landed
    ensures Ms(i.now) - Ms(inputs[j].now) > CONFIRM_MS
  {
    var s := Run(Init(params, connected), inputs);
    TimerOfTurn(s, i);
    DisarmingStep(Within(s, i, 4), i, LandStep);
    j := TimerSince(Init(params, connected), inputs);
    assert (inputs + [i])[j] == inputs[j] && (inputs + [i])[|inputs|] == i;
    Elapsed(i.now, inputs[j].now);
  }

  /** What the landing section does to an armed, landed vehicle whose timer is not running, or has been
      running since t0.  A timer started when the 32-bit clock reads 0 is not running. */
  lemma LandingSection(s: State, i: Input, t0: nat)
    requires s.arm == Armed && i.landed
    ensures s.landStart == 0 ==> AutoDisarm(s, i) == s.(landStart := Ms32(i.now))
    ensures s.landStart == Ms32(t0) != 0 ==>
      (AutoDisarm(s, i).arm == Disarmed <==> ByClock(i.now, t0) > CONFIRM_MS)
      && (AutoDisarm(s, i).arm == Armed ==> AutoDisarm(s, i) == s)
  {
    Elapsed(i.now, t0);
    hide Ms32;
  }

  /** A timer that is not running disarms nobody. */
  lemma Untimed(s: State, i: Input)
    requires i.landed
    ensures s.arm == Armed && s.landStart == 0 ==> AutoDisarm(s, i).arm == Armed
  {
  }

  /** Armed after the landing section in all turns from j on. */
  predicate StillArmed(s: State, inputs: seq<Input>, j: nat) {
    forall m :: j <= m < |inputs| ==> Within(Run(s, inputs[..m]), inputs[m], 5).arm == Armed
  }

  lemma StillArmedBefore(s: State, inputs: seq<Input>, j: nat)
    requires j < |inputs| && StillArmed(s, inputs, j)
    ensures StillArmed(s, inputs[..|inputs| - 1], j)
  {
    hide Run, Within;
    var before := inputs[..|inputs| - 1];
    forall m | j <= m < |before|
      ensures Within(Run(s, before[..m]), before[m], 5).arm == Armed
    {
      assert before[..m] == inputs[..m];
    }
  }

  lemma LastTurn(s: State, inputs: seq<Input>)
    requires inputs != []
    ensures var last := |inputs| - 1;
            Run(s, inputs) == Turn(Run(s, inputs[..last]), inputs[last])
  {
  }

  /** The first turn from j on in which the 32-bit clock does not read 0, or the number of turns. */
  function FirstTimed(inputs: seq<Input>, j: nat): (f: nat)
    requires j <= |inputs|
    ensures j <= f <= |inputs| && (f < |inputs| ==> Ms32(inputs[f].now) != 0)
    ensures forall m :: j <= m < f ==> Ms32(inputs[m].now) == 0
    decreases |inputs| - j
  {
    if j == |inputs| || Ms32(inputs[j].now) != 0 then j else FirstTimed(inputs, j + 1)
  }

  lemma {:induction false} FirstTimedIs(inputs: seq<Input>, j: nat, f: nat)
    requires j <= f <= |inputs| && (f < |inputs| ==> Ms32(inputs[f].now) != 0)
    requires forall m :: j <= m < f ==> Ms32(inputs[m].now) == 0
    ensures FirstTimed(inputs, j) == f
    decreases f - j
  {
    hide Ms32;
    if j < f {
      FirstTimedIs(inputs, j + 1, f);
    }
  }

  lemma FirstTimedBefore(inputs: seq<Input>, j: nat)
    requires j < |inputs|
    ensures var last := |inputs| - 1;
            var f := FirstTimed(inputs[..last], j);
            FirstTimed(inputs, j) == if f < last || Ms32(inputs[last].now) != 0 then f else |inputs|
  {
    hide Ms32;
    var last := |inputs| - 1;
    var before := inputs[..last];
    var f := FirstTimed(before, j);
    hide FirstTimed;
    forall m | j <= m < f
      ensures Ms32(inputs[m].now) == 0
    {
      assert before[m] == inputs[m];
    }
    if f < last {
      assert before[f] == inputs[f];
      FirstTimedIs(inputs, j, f);
    } else if Ms32(inputs[last].now) != 0 {
      FirstTimedIs(inputs, j, last);
    } else {
      FirstTimedIs(inputs, j, |inputs|);
    }
  }

  /** The timer of a vehicle that has been landed and armed since turn j, and whose timer was not running
      before: it shows the first of these turns in which the clock did not read 0. */
  lemma {:induction false} TimerKeepsStart(s: State, inputs: seq<Input>, j: nat)
    requires j <= |inputs| && LandedFrom(inputs, j) && StillArmed(s, inputs, j)
    requires Run(s, inputs[..j]).landStart == 0
    ensures var f := FirstTimed(inputs, j);
            Run(s, inputs).landStart == if f < |inputs| then Ms32(inputs[f].now) else 0
    decreases |inputs|
  {
    hide Ms32, Within, Run, Turn;
    if j == |inputs| {
      assert inputs[..j] == inputs;
    } else {
      var last := |inputs| - 1;
      var before := inputs[..last];
      LastTurn(s, inputs);
      TimerOfTurn(Run(s, before), inputs[last]);
      assert Within(Run(s, before), inputs[last], 5).arm == Armed;
      assert before[..j] == inputs[..j];
      StillArmedBefore(s, inputs, j);
      FirstTimedBefore(inputs, j);
      TimerKeepsStart(s, before, j);
    }
  }

  /** A vehicle that has been landed and armed since turn j, with the timer not running before: the landing
      section disarms it exactly when more than 3000 ms, by the wrapping clock, have passed since the
      first of these turns in which that clock did not read 0. */
  lemma LandingDisarms(s: State, inputs: seq<Input>, j: nat, i: Input)
    requires j <= |inputs| && LandedFrom(inputs, j) && StillArmed(s, inputs, j)
    requires Run(s, inputs[..j]).landStart == 0
    requires i.landed && Within(Run(s, inputs), i, 4).arm == Armed
    ensures var f := FirstTimed(inputs, j);
            Within(Run(s, inputs), i, 5).arm == Disarmed
            <==> f < |inputs| && ByClock(i.now, inputs[f].now) > CONFIRM_MS
    ensures var f := FirstTimed(inputs, j);
            f < |inputs| && 0 <= Ms(i.now) - Ms(inputs[f].now) < 0x1_0000_0000 ==>
              (Within(Run(s, inputs), i, 5).arm == Disarmed <==> Ms(i.now) - Ms(inputs[f].now) > CONFIRM_MS)
  {
    TimerKeepsStart(s, inputs, j);
    TimerOfTurn(Run(s, inputs), i);
    var f := FirstTimed(inputs, j);
    hide Ms, Ms32, ByClock, Within, Run, Turn, AutoDisarm, StillArmed, LandedFrom, FirstTimed;
    if f < |inputs| {
      LandingSection(Within(Run(s, inputs), i, 4), i, inputs[f].now);
      Elapsed(i.now, inputs[f].now);
    }
    Untimed(Within(Run(s, inputs), i, 4), i);
  }

  // ----- what is published

  /** From section 3 to the RC switches nothing changes the failsafe. */
  lemma FailsafeKept(s: State, i: Input, d: Step)
    requires d != DetectStep && d != GcsStep
    ensures Do(d, s, i).failsafe == s.failsafe
  {
    hide MayArm, SwitchMode, Micros, Sub64, Sub32, Ms32, Fresh, Filtered;
  }

  /** The ground-station timer and the parameters change only with commands. */
  lemma LinkKept(s: State, i: Input, d: Step)
    requires !d.CommandStep?
    ensures Do(d, s, i).gcsTime == s.gcsTime && Do(d, s, i).params == s.params && Do(d, s, i).connected == s.connected
  {
    hide MayArm, SwitchMode, Micros, Sub64, Sub32, Ms32, Fresh, Filtered;
  }

  lemma {:induction false} LinkWithin(s: State, i: Input, k: nat)
    requires k <= |SECTIONS|
    ensures var u := Within(s, i, k); u.gcsTime == s.gcsTime && u.params == s.params && u.connected == s.connected
  {
    if k == 0 {
      assert Within(s, i, 0) == s;
    } else {
      LinkWithin(s, i, k - 1);
      WithinNext(s, i, k - 1);
      LinkKept(Within(s, i, k - 1), i, Steps(s.connected, i)[k - 1]);
    }
  }

  lemma {:induction false} FailsafeWithin(s: State, i: Input, k: nat)
    requires 2 <= k <= |Steps(s.connected, i)|
    ensures Within(s, i, k).failsafe == Within(s, i, if k <= 6 then 2 else 7).failsafe
  {
    if k > 2 && k != 7 {
      FailsafeWithin(s, i, k - 1);
      WithinNext(s, i, k - 1);
      FailsafeKept(Within(s, i, k - 1), i, Steps(s.connected, i)[k - 1]);
    }
  }

  /** The published failsafe is the most severe one that section 3 finds, except that for a vehicle
      still armed a lost ground-station link hides it, whatever it is. */
  lemma PublishedFailsafe(s: State, i: Input)
    requires RcMatches(s)
    ensures BySeverity(Within(s, i, 2))
    ensures var hidden := s.connected && s.gcsTime > 0 && Sub64(i.now, s.gcsTime) >= Micros(s.params.gcsTimeout)
                          && Within(s, i, 6).arm == Armed;
            Turn(s, i).failsafe == if hidden then GcsLost else Within(s, i, 2).failsafe
  {
    TurnMidway(s, i, 2);
    FailsafeWithin(s, i, |Steps(s.connected, i)|);
    FailsafeWithin(s, i, 6);
    LinkWithin(s, i, 6);
    WithinNext(s, i, 6);
    WithinAll(s, i);
    hide Within, Micros, Sub64;
  }

  lemma ModeKept(s: State, i: Input, d: Step)
    requires d == GcsStep || (d.CommandStep? && !d.command.SetMode?)
    ensures Do(d, s, i).mode == s.mode
  {
    hide MayArm;
  }

  lemma {:induction false} ModeWithin(s: State, i: Input, k: nat)
    requires 6 <= k <= |Steps(s.connected, i)| && !SetsMode(i)
    ensures Within(s, i, k).mode == Within(s, i, 6).mode
  {
    if k > 6 {
      ModeWithin(s, i, k - 1);
      WithinNext(s, i, k - 1);
      ModeKept(Within(s, i, k - 1), i, Steps(s.connected, i)[k - 1]);
    }
  }

  /** While the RC link is fresh and no serious failsafe is active the mode switch rules: whatever mode
      was in force, and whoever set it, a turn without a mode command publishes the switch's mode,
      unless that is LOITER and GPS is stale. */
  lemma SwitchRules(s: State, i: Input)
    requires !SetsMode(i)
    requires var u := Within(s, i, 5);
             && u.sense.ok.rc && u.sense.rc.count >= 6 && MildFailsafe(u.failsafe)
             && (SwitchMode(u) == Loiter ==> u.sense.ok.gps)
    ensures Turn(s, i).mode == SwitchMode(Within(s, i, 5))
  {
    WithinNext(s, i, 5);
    ModeWithin(s, i, |Steps(s.connected, i)|);
    WithinAll(s, i);
    hide Within, SwitchMode, MayArm;
  }

  // ----- modes that need what is lost

  /** Up to the reaction nothing touches arm state and mode. */
  lemma EarlySteps(s: State, i: Input)
    ensures var u := Detect(Sense(s, i)); u.arm == s.arm && u.mode == s.mode
  {
    hide Micros, Fresh, Filtered;
  }

  lemma FirstTwoSteps(s: State, i: Input)
    ensures var u := Within(s, i, 2);
            && u.arm == s.arm && u.mode == s.mode
            && Within(s, i, 3) == React(u) && Within(s, i, 4) == Fallback(React(u))
  {
    EarlySteps(s, i);
    WithinNone(s, i);
    hide Within, Sense, Detect, React, Fallback;
    WithinNext(s, i, 0);
    WithinNext(s, i, 1);
    WithinNext(s, i, 2);
    WithinNext(s, i, 3);
  }

  lemma WithinNone(s: State, i: Input)
    ensures Within(s, i, 0) == s
  {
  }

  predicate LoiterHasGps(s: State) {
    s.mode == Loiter ==> s.sense.ok.gps
  }

  lemma LoiterKept(s: State, i: Input, d: Step)
    requires d == LandStep || d == RcStep || d == GcsStep || (d.CommandStep? && !d.command.SetMode?)
    requires LoiterHasGps(s)
    ensures LoiterHasGps(Do(d, s, i))
  {
    SamplesKept(s, i, d);
    hide MayArm, Micros, Sub64, Sub32, Ms32;
  }

  lemma {:induction false} LoiterWithin(s: State, i: Input, k: nat)
    requires 4 <= k <= |Steps(s.connected, i)| && !SetsMode(i) && s.arm == Armed
    ensures LoiterHasGps(Within(s, i, k))
  {
    if k == 4 {
      FirstTwoSteps(s, i);
    } else {
      LoiterWithin(s, i, k - 1);
      WithinNext(s, i, k - 1);
      LoiterKept(Within(s, i, k - 1), i, Steps(s.connected, i)[k - 1]);
    }
  }

  /** A turn that begins armed and in which no command sets the mode never publishes LOITER with a stale
      GPS. */
  lemma LoiterNeedsGps(s: State, i: Input)
    requires s.arm == Armed && !SetsMode(i)
    ensures Turn(s, i).mode == Loiter ==> Turn(s, i).sense.ok.gps
  {
    LoiterWithin(s, i, |Steps(s.connected, i)|);
    WithinAll(s, i);
  }

  lemma QuietMode(s: State, i: Input, d: Step)
    requires d == LandStep || d == RcStep || d == GcsStep || (d.CommandStep? && !d.command.SetMode?)
    requires !s.sense.ok.rc
    ensures Do(d, s, i).mode == s.mode && !Do(d, s, i).sense.ok.rc
  {
    SamplesKept(s, i, d);
    hide MayArm, Micros, Sub64, Sub32, Ms32;
  }

  lemma {:induction false} QuietModeWithin(s: State, i: Input, k: nat)
    requires 4 <= k <= |Steps(s.connected, i)| && !SetsMode(i) && !Within(s, i, 4).sense.ok.rc
    ensures Within(s, i, k).mode == Within(s, i, 4).mode && !Within(s, i, k).sense.ok.rc
  {
    if k > 4 {
      QuietModeWithin(s, i, k - 1);
      WithinNext(s, i, k - 1);
      QuietMode(Within(s, i, k - 1), i, Steps(s.connected, i)[k - 1]);
    }
  }

  /** An armed vehicle that loses its RC link, and nothing worse, publishes RTH if GPS is fresh and LAND if
      it is not, unless it was returning or landing already or a command sets the mode. */
  lemma RcLossReturnsOrLands(s: State, i: Input)
    requires RcMatches(s) && s.arm == Armed && s.mode != Rth && s.mode != Land && !SetsMode(i)
    requires var u := Within(s, i, 2).sense; u.ok.imu && !u.critical && !u.ok.rc
    ensures Turn(s, i).mode == if Within(s, i, 2).sense.ok.gps then Rth else Land
  {
    FirstTwoSteps(s, i);
    TurnMidway(s, i, 2);
    QuietModeWithin(s, i, |Steps(s.connected, i)|);
    WithinAll(s, i);
    hide Within;
  }

  // ----- two runs

  /** The numbered sections, one after another. */
  function AllSections(s: State, i: Input): State {
    GcsLink(RcSwitches(AutoDisarm(Fallback(React(Detect(Sense(s, i)))), i)), i)
  }

  lemma SectionsAre(s: State, i: Input)
    ensures Within(s, i, 7) == AllSections(s, i)
  {
    WithinNone(s, i);
    hide Within, Sense, Detect, React, Fallback, AutoDisarm, RcSwitches, GcsLink;
    WithinNext(s, i, 0);
    WithinNext(s, i, 1);
    WithinNext(s, i, 2);
    WithinNext(s, i, 3);
    WithinNext(s, i, 4);
    WithinNext(s, i, 5);
    WithinNext(s, i, 6);
  }

  lemma TurnWithout(s: State, i: Input)
    requires i.commands == []
    ensures Turn(s, i) == AllSections(s, i)
  {
    SectionsAre(s, i);
    WithinAll(s, i);
    hide Within, Turn, AllSections;
  }

  lemma TurnWithOne(s: State, i: Input, c: Command)
    requires s.connected && i.commands == [c]
    ensures Turn(s, i) == Handle(AllSections(s, i), c, i)
  {
    SectionsAre(s, i);
    WithinAll(s, i);
    WithinNext(s, i, 7);
    hide Within, Turn, AllSections, Handle;
  }

  lemma RunTwo(s: State, a: Input, b: Input)
    ensures Run(s, [a]) == Turn(s, a) && Run(s, [a, b]) == Turn(Turn(s, a), b)
  {
    hide Turn;
    assert [a][..0] == [] && [a, b][..1] == [a];
  }

  const PARAMS := Params(14.0, 13.0, 1000.0, 0.5, 0.0, 5000.0)

  /** At one second: fresh IMU and RC samples, the collective down and the arm switch just turned on. */
  function SwitchOn(commands: seq<Command>): Input {
    Input(1000000, 0.0, Some(1000000), None, None, Some(Rc(1000000, 8, 0.0, -1.0, 1.0)), false, commands)
  }

  /** No sample and no command, at the given time. */
  function Quiet(now: nat, landed: bool): Input {
    Input(now, 0.0, None, None, None, None, landed, [])
  }

  /** What the switch does to a vehicle that has just started. */
  lemma SwitchArms(connected: bool, commands: seq<Command>)
    ensures var s := AllSections(Init(PARAMS, connected), SwitchOn(commands));
            && s.arm == Armed && s.landStart == 0 && s.params == PARAMS && s.connected == connected
            && s.sense.imuTime == 1000000 && s.sense.rcTime == 1000000 && s.gcsTime == 0
  {
    assert Micros(1000.0) == 1000000;
  }

  /** A turn long after the last samples. */
  lemma QuietSections(s: State, now: nat, landed: bool)
    requires s.arm == Armed && s.params == PARAMS && s.sense.imuTime == s.sense.rcTime == 1000000
    requires 2000000 <= now < 0x1_0000_0000_0000_0000
    ensures var u := AllSections(s, Quiet(now, landed));
            && !u.sense.ok.imu && u.sense.imuTime == u.sense.rcTime == 1000000 && u.params == PARAMS
            && u.mode == Land
    ensures var u, a := AllSections(s, Quiet(now, landed)), AutoDisarm(s, Quiet(now, landed));
            u.landStart == a.landStart && u.arm == a.arm
    ensures var u := AllSections(s, Quiet(now, landed));
            s.connected && 0 < s.gcsTime && s.gcsTime + 5000000 <= now && u.arm == Armed ==> u.failsafe == GcsLost
  {
    assert Micros(1000.0) == 1000000 && Micros(5000.0) == 5000000;
  }

  /** A landing first seen when the 32-bit clock reads 0 is not timed from that turn: this vehicle is armed by
      the switch, landed 2^32 ms after start, still landed 3001 ms later, and still armed then. */
  lemma LandingAtClockZero()
    ensures var inputs := [SwitchOn([]), Quiet(0x1_0000_0000 * 1000, true)];
            var i := Quiet((0x1_0000_0000 + CONFIRM_MS + 1) * 1000, true);
            && Run(Init(PARAMS, false), inputs).arm == Armed && LandedFrom(inputs, 1) && i.landed
            && Ms(i.now) - Ms(inputs[1].now) > CONFIRM_MS
            && Turn(Run(Init(PARAMS, false), inputs), i).arm == Armed
  {
    var s := Init(PARAMS, false);
    var a, b := SwitchOn([]), Quiet(0x1_0000_0000 * 1000, true);
    var c := Quiet((0x1_0000_0000 + CONFIRM_MS + 1) * 1000, true);
    SwitchArms(false, []);
    var s1 := AllSections(s, a);
    QuietSections(s1, b.now, true);
    LandingSection(s1, b, 0);
    ClockReads();
    var s2 := AllSections(s1, b);
    QuietSections(s2, c.now, true);
    LandingSection(s2, c, 0);
    hide AllSections, AutoDisarm, Ms32, Turn, Run, Init, SwitchOn;
    TurnWithout(s, a);
    RunTwo(s, a, b);
    TurnWithout(s1, b);
    TurnWithout(s2, c);
  }

  lemma ClockReads()
    ensures Ms32(0x1_0000_0000 * 1000) == 0
  {
  }

  /** A serious failsafe can be hidden: this vehicle, connected, is armed by the switch and hears one command;
      six seconds later, with no IMU sample since, it publishes a lost ground link instead. */
  lemma LostLinkHidesSensorFailure()
    ensures var s := Run(Init(PARAMS, true), [SwitchOn([OtherCommand]), Quiet(7000000, false)]);
            s.arm == Armed && !s.sense.ok.imu && s.mode == Land && s.failsafe == GcsLost
  {
    var s := Init(PARAMS, true);
    var a, b := SwitchOn([OtherCommand]), Quiet(7000000, false);
    SwitchArms(true, [OtherCommand]);
    var s1 := Handle(AllSections(s, a), OtherCommand, a);
    QuietSections(s1, b.now, false);
    hide AllSections, Turn, Run, Init;
    TurnWithOne(s, a, OtherCommand);
    RunTwo(s, a, b);
    TurnWithout(s1, b);
  }
}
