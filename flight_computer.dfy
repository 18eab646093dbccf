/**
 * The flight computer's decision path, updated in place: the state-machine
 * globals with the altitude ring buffer, the command processor that arms and
 * disarms the pyro charges, and the callback's decision of which charge to
 * fire for the current state.
 */
module FlightComputer {
  import opened CInts
  import opened FlightDefs
  import opened RingBuffer
  import opened FlightStep

  /** What the flight-state callback does on one pass of its loop. */
  datatype Action = NoAction | DeployDrogue | DeployMain

  /**
   * The switch of flightStateCallback over the stored state byte: the drogue
   * charge fires in DROGUE_DEPLOY and the main charge in MAIN_DEPLOY, each
   * only in ARMED_MODE; every other state, including an out-of-range byte
   * that reaches the default case, does nothing.
   */
  function CallbackAction(state: uint8, mode: uint8): (act: Action)
    ensures act == DeployDrogue <==> state == Code(DrogueDeploy) && mode == ArmedMode
    ensures act == DeployMain <==> state == Code(MainDeploy) && mode == ArmedMode
    ensures mode != ArmedMode ==> act == NoAction
  {
    match FromCode(state)
    case Some(DrogueDeploy) => if mode == ArmedMode then DeployDrogue else NoAction
    case Some(MainDeploy) => if mode == ArmedMode then DeployMain else NoAction
    case _ => NoAction
  }

  /**
   * A callback that reads current_state only between evaluations never fires
   * the drogue charge: DROGUE_DEPLOY is overwritten within the evaluation that
   * assigns it, so it is visible only to a reader running concurrently with it.
   */
  lemma DrogueInvisibleBetweenEvaluations(v: FlightVars, a: real, mode: uint8)
    requires Valid(v) && v.state != DrogueDeploy
    ensures CallbackAction(Code(Evaluate(v, a).vars.state), mode) != DeployDrogue
  {
    TransientStates(v, a);
  }

  /**
   * A callback reading current_state after a run that started before apogee
   * fires the main charge only in ARMED_MODE and only if the run assigned
   * MAIN_DEPLOY, which it does only after assigning APOGEE.
   */
  lemma MainFiresOnlyAfterApogee(v: FlightVars, alts: seq<real>, mode: uint8)
    requires Valid(v) && !v.apogeeFlag && v.state != MainDeploy
    ensures var e := Run(v, alts);
      CallbackAction(Code(e.vars.state), mode) == DeployMain ==>
        mode == ArmedMode && MainDeploy in e.trace && Apogee in e.trace
  {
    var e := Run(v, alts);
    if CallbackAction(Code(e.vars.state), mode) == DeployMain {
      assert e.vars.state == MainDeploy;
      RunFinalState(v, alts);
      MainDeployAfterApogee(v, alts);
      var i :| 0 <= i < |e.trace| && e.trace[i] == MainDeploy;
      assert Apogee in e.trace[..i];
    }
  }

  /** The state after a run is its initial state or one the run assigned. */
  lemma {:induction false} RunFinalState(v: FlightVars, alts: seq<real>)
    requires Valid(v)
    ensures var e := Run(v, alts);
      e.vars.state == v.state || e.vars.state in e.trace
    decreases |alts|
  {
    if alts != [] {
      var prior := Run(v, alts[..|alts| - 1]);
      RunFinalState(v, alts[..|alts| - 1]);
      var last := Evaluate(prior.vars, alts[|alts| - 1]);
      assert Run(v, alts) == Evaluation(last.vars, prior.trace + last.trace);
      if last.trace != [] {
        assert last.trace[|last.trace| - 1] in prior.trace + last.trace;
      } else {
        assert last.vars.state == prior.vars.state;
      }
    }
  }

  // ---------------------------------------------------------------------
  // Commands from the base station
  // ---------------------------------------------------------------------

  const CommandTopic := "n4/commands"

  /** operation_mode and the remote-switch pin level (true is HIGH). */
  datatype Arming = Arming(operationMode: uint8, remoteSwitchHigh: bool)

  /**
   * The effect of one command.  The source compares `const char*` arguments
   * with string literals by `==`, which compares addresses, not characters;
   * the model compares the characters, which is what the code means.
   */
  function CommandEffect(s: Arming, topic: string, command: string): (s': Arming)
    ensures topic == CommandTopic && command == "ARM" ==> s' == Arming(ArmedMode, true)
    ensures topic == CommandTopic && command == "DISARM" ==> s' == Arming(SafeMode, false)
    ensures !(topic == CommandTopic && (command == "ARM" || command == "DISARM")) ==> s' == s
  {
    if topic == CommandTopic then
      if command == "ARM" then Arming(1, true)
      else if command == "DISARM" then Arming(0, false)
      else s
    else s
  }

  /** Repeating a command changes nothing more. */
  lemma CommandIdempotent(s: Arming, topic: string, command: string)
    ensures CommandEffect(CommandEffect(s, topic, command), topic, command) == CommandEffect(s, topic, command)
  {
  }

  /** The effect of a sequence of commands, in order. */
  function Commands(s: Arming, cmds: seq<(string, string)>): Arming
    decreases |cmds|
  {
    if cmds == [] then s
    else CommandEffect(Commands(s, cmds[..|cmds| - 1]), cmds[|cmds| - 1].0, cmds[|cmds| - 1].1)
  }

  predicate IsArmCommand(c: (string, string)) {
    c.0 == CommandTopic && c.1 == "ARM"
  }

  predicate IsModeCommand(c: (string, string)) {
    c.0 == CommandTopic && (c.1 == "ARM" || c.1 == "DISARM")
  }

  /**
   * After a sequence of commands, the mode and the switch level are those set
   * by the last ARM or DISARM on the command topic; RESET, other commands and
   * other topics in between change nothing.
   */
  lemma {:induction false} LastModeCommandWins(s: Arming, cmds: seq<(string, string)>, i: nat)
    requires i < |cmds| && IsModeCommand(cmds[i])
    requires forall j :: i < j < |cmds| ==> !IsModeCommand(cmds[j])
    ensures Commands(s, cmds) == (if IsArmCommand(cmds[i]) then Arming(ArmedMode, true) else Arming(SafeMode, false))
    decreases |cmds|
  {
    if i < |cmds| - 1 {
      LastModeCommandWins(s, cmds[..|cmds| - 1], i);
    }
  }

  /** Without an ARM or DISARM on the command topic, the arming state is kept. */
  lemma {:induction false} NoModeCommandKeepsState(s: Arming, cmds: seq<(string, string)>)
    requires forall j :: 0 <= j < |cmds| ==> !IsModeCommand(cmds[j])
    ensures Commands(s, cmds) == s
    decreases |cmds|
  {
    if cmds != [] {
      NoModeCommandKeepsState(s, cmds[..|cmds| - 1]);
    }
  }

  // ---------------------------------------------------------------------
  // The flight computer's globals
  // ---------------------------------------------------------------------

  class FlightComputer {
    var currentState: FlightState
    var apogeeFlag: bool
    var apogeeVal: int
    var mainEjectFlag: bool
    var oldestVal: real
    const altitudeRing: RingBuffer
    var operationMode: uint8
    var remoteSwitchHigh: bool

    ghost predicate Valid()
      reads this, altitudeRing
    {
      altitudeRing.Valid()
    }

    /** The state-machine variables read by checkFlightState. */
    function Vars(): (v: FlightVars)
      reads this, altitudeRing, altitudeRing.buffer
      ensures Valid() ==> FlightStep.Valid(v)
    {
      FlightVars(currentState, apogeeFlag, apogeeVal, mainEjectFlag, oldestVal, altitudeRing.State())
    }

    function ArmingState(): Arming
      reads this
    {
      Arming(operationMode, remoteSwitchHigh)
    }

    /**
     * The globals after static initialisation and ring_buffer_init in setup.
     * The switch pin is taken as LOW before the first command.
     */
    constructor ()
      ensures Valid() && fresh(altitudeRing) && fresh(altitudeRing.buffer)
      ensures Vars() == Boot()
      ensures ArmingState() == Arming(SafeMode, false)
    {
      currentState := PreFlightGround;
      apogeeFlag, apogeeVal, mainEjectFlag, oldestVal := false, 0, false, 0.0;
      operationMode, remoteSwitchHigh := 0, false;
      var ring := new RingBuffer();
      altitudeRing := ring;
      new;
      altitudeRing.Init();
    }

    /** digitalWrite(REMOTE_SWITCH, HIGH) */
    method ArmPyros()
      modifies this
      ensures remoteSwitchHigh
      ensures operationMode == old(operationMode) && Vars() == old(Vars())
    {
      remoteSwitchHigh := true;
    }

    /** digitalWrite(REMOTE_SWITCH, LOW) */
    method DisarmPyros()
      modifies this
      ensures !remoteSwitchHigh
      ensures operationMode == old(operationMode) && Vars() == old(Vars())
    {
      remoteSwitchHigh := false;
    }

    /** mqtt_command_processor: ARM, DISARM and RESET on the command topic. */
    method MqttCommandProcessor(topic: string, command: string)
      modifies this
      ensures ArmingState() == CommandEffect(old(ArmingState()), topic, command)
      ensures Vars() == old(Vars())
    {
      if topic == CommandTopic {
        if command == "ARM" {
          ArmPyros();
          operationMode := 1;
        } else if command == "DISARM" {
          DisarmPyros();
          operationMode := 0;
        } else if command == "RESET" {
          // the reset is only announced on the debug console
        }
      }
    }

    /**
     * One pass of the checkFlightState loop body for the received relative
     * altitude a; returns the states assigned, in order.
     */
    method CheckFlightState(a: real) returns (trace: seq<FlightState>)
      requires Valid()
      modifies this, altitudeRing, altitudeRing.buffer
      ensures Valid()
      ensures Vars() == Evaluate(old(Vars()), a).vars
      ensures trace == Evaluate(old(Vars()), a).trace
      ensures ArmingState() == old(ArmingState())
    {
      if !apogeeFlag {
        trace := CheckBeforeApogee(a);
      } else {
        trace := CheckAfterApogee(a);
      }
    }

    /** The phase rule, the window update and the apogee trigger. */
    method CheckBeforeApogee(a: real) returns (trace: seq<FlightState>)
      requires Valid() && !apogeeFlag
      modifies this, altitudeRing, altitudeRing.buffer
      ensures Valid()
      ensures Vars() == PreApogee(old(Vars()), a).vars
      ensures trace == PreApogee(old(Vars()), a).trace
      ensures ArmingState() == old(ArmingState())
    {
      ghost var v0 := Vars();
      ghost var w := UpdateWindow(v0, a);
      trace := [];
      if a < LaunchDetectionThreshold as real {
        currentState := PreFlightGround;
        trace := trace + [currentState];
      } else if ChainedLess(LaunchDetectionThreshold, a, LaunchDetectionThreshold + LaunchDetectionAltitudeWindow) {
        currentState := PoweredFlight;
        trace := trace + [currentState];
      }
      ghost var phase := trace;
      UpdateApogeeWindow(a);
      ghost var kept := v0.(state := FinalState(v0.state, phase), oldestVal := w.oldest, ring := w.ring);
      assert Vars() == kept;
      if oldestVal - a >= ApogeeDetectionThreshold as real {
        if !apogeeFlag {
          apogeeVal := Trunc((oldestVal - a) / 2.0 + oldestVal);
          currentState := Apogee;
          trace := trace + [currentState];
          currentState := DrogueDeploy;
          trace := trace + [currentState];
          currentState := DrogueDescent;
          trace := trace + [currentState];
          apogeeFlag := true;
        }
      }
    }

    /** Push the altitude and, once the buffer is full, pop the oldest value. */
    method UpdateApogeeWindow(a: real)
      requires Valid()
      modifies this, altitudeRing, altitudeRing.buffer
      ensures Valid()
      ensures altitudeRing.State() == UpdateWindow(old(Vars()), a).ring
      ensures oldestVal == UpdateWindow(old(Vars()), a).oldest
      ensures currentState == old(currentState) && apogeeFlag == old(apogeeFlag)
      ensures apogeeVal == old(apogeeVal) && mainEjectFlag == old(mainEjectFlag)
      ensures ArmingState() == old(ArmingState())
    {
      altitudeRing.Put(a);
      var full := altitudeRing.Full();
      if full {
        oldestVal := altitudeRing.Get();
      }
    }

    /** The main-deploy gate and the landing check. */
    method CheckAfterApogee(a: real) returns (trace: seq<FlightState>)
      requires Valid() && apogeeFlag
      modifies this
      ensures Valid()
      ensures Vars() == PostApogee(old(Vars()), a).vars
      ensures trace == PostApogee(old(Vars()), a).trace
      ensures ArmingState() == old(ArmingState())
    {
      trace := [];
      if ChainedLessEq(LaunchDetectionThreshold, a, apogeeVal) {
        if !mainEjectFlag {
          currentState := MainDeploy;
          trace := trace + [currentState];
          mainEjectFlag := true;
        } else {
          currentState := MainDescent;
          trace := trace + [currentState];
        }
      }
      if a < LaunchDetectionThreshold as real {
        currentState := PostFlightGround;
        trace := trace + [currentState];
      }
    }

    /** The action flightStateCallback takes for the current globals. */
    method FlightStateCallback() returns (act: Action)
      ensures act == CallbackAction(Code(currentState), operationMode)
    {
      match currentState
      case DrogueDeploy =>
        act := if operationMode == ArmedMode then DeployDrogue else NoAction;
      case MainDeploy =>
        act := if operationMode == ArmedMode then DeployMain else NoAction;
      case _ =>
        act := NoAction;
    }
  }
}
