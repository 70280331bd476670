/** The four calls of rpc_core.c in imperative form, and their agreement with the state machine: a
    call that nothing interleaves with does to the queue what its method does. */
module RpcObjects {
  import opened Rpc

  datatype Option<+T> = None | Some(value: T)

  /** A telemetry send always leaves its message last, at the price of the oldest if need be. */
  function AfterTelemetry(queue: seq<Msg>, m: Msg): seq<Msg> {
    (if |queue| < Depth(Telemetry) || queue == [] then queue else queue[1..]) + [m]
  }

  function AfterCommand(queue: seq<Msg>, m: Msg): seq<Msg> {
    if |queue| < Depth(Command) then queue + [m] else queue
  }

  /** rpc_context_t; a queue whose creation failed is absent. */
  class Context {
    var telemetry: Option<seq<Msg>>
    var commands: Option<seq<Msg>>

    ghost predicate Valid()
      reads this
    {
      && (telemetry.Some? ==> |telemetry.value| <= Depth(Telemetry))
      && (commands.Some? ==> |commands.value| <= Depth(Command))
    }

    /** A context before rpc_init: static storage, both handles NULL. */
    constructor ()
      ensures Valid() && telemetry == None && commands == None
    {
      telemetry, commands := None, None;
    }

    /** rpc_init, told which of the two queues can be created.  When the telemetry queue cannot be, the
        command queue is left as it was. */
    method Initialise(telemetryOk: bool, commandsOk: bool)
      requires Valid()
      modifies this
      ensures Valid()
      ensures telemetry == if telemetryOk && commandsOk then Some([]) else None
      ensures commands == if !telemetryOk then old(commands) else if commandsOk then Some([]) else None
    {
      telemetry := if telemetryOk then Some([]) else None;
      if telemetry == None {
        return;
      }
      commands := if commandsOk then Some([]) else None;
      if commands == None {
        telemetry := None;
      }
    }

    method SendTelemetry(m: Msg) returns (ok: bool)
      requires Valid()
      modifies this`telemetry
      ensures Valid() && ok == telemetry.Some? == old(telemetry.Some?)
      ensures ok ==> telemetry.value == AfterTelemetry(old(telemetry.value), m)
    {
      if telemetry == None {
        return false;
      }
      ok := TrySend(m);
      if !ok {
        var discarded := ReceiveTelemetry();
        ok := TrySend(m);
      }
    }

    method TrySend(m: Msg) returns (ok: bool)
      requires Valid() && telemetry.Some?
      modifies this`telemetry
      ensures Valid() && telemetry.Some? && ok == (|old(telemetry.value)| < Depth(Telemetry))
      ensures telemetry.value == if ok then old(telemetry.value) + [m] else old(telemetry.value)
    {
      ok := |telemetry.value| < Depth(Telemetry);
      if ok {
        telemetry := Some(telemetry.value + [m]);
      }
    }

    method ReceiveTelemetry() returns (r: Option<Msg>)
      requires Valid()
      modifies this`telemetry
      ensures Valid() && telemetry.Some? == old(telemetry.Some?)
      ensures r == None ==> telemetry == old(telemetry) && (telemetry.Some? ==> telemetry.value == [])
      ensures r != None ==> telemetry.Some? && old(telemetry.value) == [r.value] + telemetry.value
    {
      if telemetry == None || telemetry.value == [] {
        return None;
      }
      r := Some(telemetry.value[0]);
      telemetry := Some(telemetry.value[1..]);
    }

    method SendCommand(m: Msg) returns (ok: bool)
      requires Valid()
      modifies this`commands
      ensures Valid() && commands.Some? == old(commands.Some?)
      ensures ok <==> old(commands.Some? && |commands.value| < Depth(Command))
      ensures commands.Some? ==> commands.value == AfterCommand(old(commands.value), m)
    {
      if commands == None || |commands.value| >= Depth(Command) {
        return false;
      }
      commands := Some(commands.value + [m]);
      return true;
    }

    method ReceiveCommand() returns (r: Option<Msg>)
      requires Valid()
      modifies this`commands
      ensures Valid() && commands.Some? == old(commands.Some?)
      ensures r == None ==> commands == old(commands) && (commands.Some? ==> commands.value == [])
      ensures r != None ==> commands.Some? && old(commands.value) == [r.value] + commands.value
    {
      if commands == None || commands.value == [] {
        return None;
      }
      r := Some(commands.value[0]);
      commands := Some(commands.value[1..]);
    }
  }

  // ----- calls that run alone

  /** A telemetry send with nothing in between: its wait expires exactly when the queue is full. */
  function TelemetryAlone(s: State, t: nat, m: Msg): State {
    var begun := Apply(s, Begin(t, m));
    if |s.queue| < Depth(Telemetry) then Apply(begun, Proceed(t))
    else Apply(Apply(Apply(begun, Timeout(t)), Proceed(t)), Proceed(t))
  }

  lemma TelemetryAgrees(s: State, t: nat, m: Msg)
    requires s.kind == Telemetry && t < |s.pcs| && s.pcs[t] == Idle && |s.queue| <= Depth(Telemetry)
    ensures var u := TelemetryAlone(s, t, m);
            && u.queue == AfterTelemetry(s.queue, m) && u.pcs == s.pcs
            && u.outcomes == s.outcomes + [Sent(m)]
  {
    assert TelemetryAlone(s, t, m).pcs == s.pcs;
  }

  function CommandAlone(s: State, t: nat, m: Msg): State {
    var begun := Apply(s, Begin(t, m));
    if |s.queue| < Depth(Command) then Apply(begun, Proceed(t)) else Apply(begun, Timeout(t))
  }

  lemma CommandAgrees(s: State, t: nat, m: Msg)
    requires s.kind == Command && t < |s.pcs| && s.pcs[t] == Idle && |s.queue| <= Depth(Command)
    ensures var u := CommandAlone(s, t, m);
            && u.queue == AfterCommand(s.queue, m) && u.pcs == s.pcs
            && u.outcomes == s.outcomes + [if |s.queue| < Depth(Command) then Sent(m) else Dropped(m)]
  {
    assert CommandAlone(s, t, m).pcs == s.pcs;
  }
}
