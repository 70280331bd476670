/** The monitor's loop body in imperative form: each section updates the variables in place and does what
    its step of the model does. */
module SysmonObjects {
  import opened SysmonModel

  class Monitor {
    var arm: Arm
    var mode: Mode
    var failsafe: Failsafe
    var sense: Sensors
    var gcsTime: nat
    var rcArmPrev: bool
    var prevBaro: bool
    var landStart: nat
    var params: Params
    const connected: bool

    function View(): State
      reads this
    {
      State(arm, mode, failsafe, sense, gcsTime, rcArmPrev, prevBaro, landStart, params, connected)
    }

    constructor (p: Params, hasRpc: bool)
      ensures View() == Init(p, hasRpc)
    {
      arm, mode, failsafe := Disarmed, Stabilize, Fine;
      sense := NOTHING_SENSED;
      gcsTime, rcArmPrev, prevBaro, landStart := 0, false, false, 0;
      params, connected := p, hasRpc;
    }

    method FilterBattery(v: real) returns (b: real, first: bool)
      ensures b == Filtered(View(), v) && first == (sense.batteryFirst && v <= 1.0)
    {
      b, first := sense.battery, sense.batteryFirst;
      if first && v > 1.0 {
        b, first := v, false;
      } else if v > 1.0 {
        b := b + 0.05 * (v - b);
      }
    }

    method SenseAll(i: Input)
      modifies this
      ensures View() == Do(SenseStep, old(View()), i)
    {
      hide Fresh, Micros, Filtered;
      var b, first := FilterBattery(i.battery);
      var low := b < params.battLow && b > 1.0;
      var critical := b < params.battCrit && b > 1.0;
      var imu, baro, gps, rcTime, rc := sense.imuTime, sense.baroTime, sense.gpsTime, sense.rcTime, sense.rc;
      if i.imu.Some? { imu := i.imu.value; }
      if i.baro.Some? { baro := i.baro.value; }
      if i.gps.Some? { gps := i.gps.value; }
      if i.rc.Some? { rcTime, rc := i.rc.value.time, i.rc.value; }
      var timeout := Micros(params.sensorTimeout);
      var ok := Health(Fresh(i.now, imu, timeout), Fresh(i.now, baro, timeout), Fresh(i.now, gps, timeout),
                       Fresh(i.now, rcTime, RC_TIMEOUT_US), timeout);
      sense := Sensors(b, first, low, critical, imu, baro, gps, rcTime, rc, ok);
    }

    method DetectFailsafe(i: Input)
      modifies this
      ensures View() == Do(DetectStep, old(View()), i)
    {
      failsafe := Fine;
      if sense.low {
        failsafe := BatteryLow;
      }
      if !sense.ok.rc && arm == Armed {
        failsafe := RcLost;
      }
      if sense.critical {
        failsafe := BatteryCritical;
      }
      if !sense.ok.imu {
        failsafe := SensorFailure;
      }
    }

    method ReactToFailsafe(i: Input)
      modifies this
      ensures View() == Do(ReactStep, old(View()), i)
    {
      if arm == Armed {
        match failsafe {
          case RcLost =>
            if mode != Rth && mode != Land {
              if sense.ok.gps {
                mode := Rth;
              } else {
                mode := Land;
              }
            }
          case BatteryCritical =>
            if mode != Land { mode := Land; }
          case SensorFailure =>
            if mode != Land { mode := Land; }
          case _ =>
        }
      }
    }

    method FallBack(i: Input)
      modifies this
      ensures View() == Do(FallbackStep, old(View()), i)
    {
      if arm == Armed {
        if prevBaro && !sense.ok.baro {
          if mode == AltHold || mode == Loiter {
            mode := Stabilize;
          }
        }
        if !sense.ok.gps && mode == Loiter {
          mode := if sense.ok.baro then AltHold else Stabilize;
        }
      }
      prevBaro := sense.ok.baro;
    }

    method TimeLanding(i: Input)
      modifies this
      ensures View() == Do(LandStep, old(View()), i)
    {
      var now := Ms32(i.now);
      if arm == Armed {
        if i.landed {
          if landStart == 0 {
            landStart := now;
          }
          if Sub32(now, landStart) > CONFIRM_MS {
            arm := Disarmed;
            landStart := 0;
          }
        } else {
          landStart := 0;
        }
      } else {
        landStart := 0;
      }
    }

    method ReadSwitches(i: Input)
      modifies this
      ensures View() == Do(RcStep, old(View()), i)
    {
      var rc := sense.rc;
      if sense.ok.rc && rc.count >= 6 {
        var up := rc.armSwitch > params.armThreshold;
        if up && !rcArmPrev && arm == Disarmed {
          if !sense.ok.imu {
          } else if failsafe != Fine && failsafe != BatteryLow {
          } else if rc.collective * 2.0 - 1.0 > params.collArmMax {
          } else {
            arm := Armed;
          }
        } else if !up && rcArmPrev && arm == Armed {
          arm := Disarmed;
        }
        rcArmPrev := up;
        var wanted := Loiter;
        if rc.modeSwitch < -0.3 {
          wanted := Stabilize;
        } else if rc.modeSwitch > 0.3 {
          wanted := AltHold;
        }
        if failsafe == Fine || failsafe == BatteryLow {
          if wanted != mode {
            if wanted == Loiter && !sense.ok.gps {
            } else {
              mode := wanted;
            }
          }
        }
      }
    }

    method CheckLink(i: Input)
      modifies this
      ensures View() == Do(GcsStep, old(View()), i)
    {
      if connected && gcsTime > 0 {
        var lost := Sub64(i.now, gcsTime) >= Micros(params.gcsTimeout);
        if lost && failsafe != GcsLost && arm == Armed {
          failsafe := GcsLost;
        }
      }
    }

    method HandleCommand(c: Command, i: Input)
      modifies this
      ensures View() == Do(CommandStep(c), old(View()), i)
    {
      gcsTime := i.now;
      match c {
        case ArmCommand(wanted) =>
          if wanted {
            if !sense.ok.imu {
            } else if !sense.ok.rc {
            } else if failsafe != Fine && failsafe != BatteryLow {
            } else if sense.rc.collective * 2.0 - 1.0 > params.collArmMax {
            } else {
              arm := Armed;
            }
          }
        case DisarmCommand =>
          arm := Disarmed;
        case SetMode(n) =>
          if n < 8 {
            mode := ModeOf(n);
          }
        case SetParams(p) =>
          params := p;
        case OtherCommand =>
      }
    }

    /** One turn of the loop. */
    method OneTurn(i: Input)
      modifies this
      ensures View() == Turn(old(View()), i)
    {
      ghost var s := View();
      ghost var steps := Steps(connected, i);
      FirstSteps(connected, i);
      hide Do, DoAll, Steps;
      DoStart(steps, s, i);
      SenseAll(i);
      DoNext(steps, s, i, 0);
      DetectFailsafe(i);
      DoNext(steps, s, i, 1);
      ReactToFailsafe(i);
      DoNext(steps, s, i, 2);
      FallBack(i);
      DoNext(steps, s, i, 3);
      TimeLanding(i);
      DoNext(steps, s, i, 4);
      ReadSwitches(i);
      DoNext(steps, s, i, 5);
      CheckLink(i);
      DoNext(steps, s, i, 6);
      if connected {
        HandleQueue(i, s, steps);
      }
      assert steps[..|steps|] == steps;
    }

    /** The command loop, until the queue is empty. */
    method HandleQueue(i: Input, ghost s: State, ghost steps: seq<Step>)
      requires connected && steps == Steps(true, i) && View() == DoAll(steps[..7], s, i)
      modifies this
      ensures View() == DoAll(steps, s, i)
    {
      var k := 0;
      while k < |i.commands|
        invariant 0 <= k <= |i.commands| && View() == DoAll(steps[..7 + k], s, i)
      {
        HandleCommand(i.commands[k], i);
        DoNext(steps, s, i, 7 + k);
        k := k + 1;
      }
      assert steps[..|steps|] == steps;
    }
  }

  lemma FirstSteps(connected: bool, i: Input)
    ensures var steps := Steps(connected, i);
            && |steps| >= 7 && (!connected ==> |steps| == 7)
            && steps[0] == SenseStep && steps[1] == DetectStep && steps[2] == ReactStep && steps[3] == FallbackStep
            && steps[4] == LandStep && steps[5] == RcStep && steps[6] == GcsStep
  {
  }

  lemma DoStart(steps: seq<Step>, s: State, i: Input)
    ensures DoAll(steps[..0], s, i) == s
  {
  }

  lemma DoNext(steps: seq<Step>, s: State, i: Input, k: nat)
    requires k < |steps|
    ensures DoAll(steps[..k + 1], s, i) == Do(steps[k], DoAll(steps[..k], s, i), i)
  {
    assert steps[..k + 1][..k] == steps[..k];
  }
}
