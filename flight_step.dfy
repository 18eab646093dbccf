/**
 * One evaluation of the flight computer's state check, as a function of the
 * state-machine variables and the relative altitude received, together with
 * the properties of single evaluations and of runs of evaluations.
 *
 * An evaluation returns every state it assigns, in order: APOGEE and
 * DROGUE_DEPLOY are assigned and overwritten inside one evaluation, so they
 * are visible only to a reader of the state that runs concurrently.
 *
 * The two chained comparisons of the source are modelled as C++ evaluates
 * them: `10 < a < 30` is `(10 < a) < 30` and `10 <= a <= apogee_val` is
 * `(10 <= a) <= apogee_val`, the inner comparison promoted to 0 or 1.
 */
module FlightStep {
  import opened CInts
  import opened FlightDefs
  import opened RingBuffer

  /**
   * The state-machine variables: current_state, apogee_flag, apogee_val,
   * main_eject_flag, oldest_val and the altitude ring buffer.  The two flags
   * are bytes in the source that only ever hold 0 or 1; here they are bools.
   */
  datatype FlightVars = FlightVars(
    state: FlightState,
    apogeeFlag: bool,
    apogeeVal: int,
    mainEjectFlag: bool,
    oldestVal: real,
    ring: Ring)

  predicate Valid(v: FlightVars) {
    WellFormed(v.ring)
  }

  /** The variables at boot: zero-initialised globals, then ring_buffer_init. */
  function Boot(): (v: FlightVars)
    ensures Valid(v) && Aligned(v.ring) && Contents(v.ring) == []
    ensures v.state == PreFlightGround && !v.apogeeFlag && !v.mainEjectFlag && v.oldestVal == 0.0
  {
    FlightVars(PreFlightGround, false, 0, false, 0.0, RingInit(Ring(ZeroSlots(), 0, 0, 0)))
  }

  /** `lo < x < hi` as C++ parses it: `(lo < x) < hi`. */
  function ChainedLess(lo: int, x: real, hi: int): bool {
    (if lo as real < x then 1 else 0) < hi
  }

  /** `lo <= x <= hi` as C++ parses it: `(lo <= x) <= hi`. */
  function ChainedLessEq(lo: int, x: real, hi: int): bool {
    (if lo as real <= x then 1 else 0) <= hi
  }

  /** The state left after assigning `trace` in order, starting from `start`. */
  function FinalState(start: FlightState, trace: seq<FlightState>): FlightState {
    if trace == [] then start else trace[|trace| - 1]
  }

  datatype Evaluation = Evaluation(vars: FlightVars, trace: seq<FlightState>)

  /** The ring and oldest_val after the window update: push, then pop once full. */
  datatype Window = Window(ring: Ring, oldest: real)

  function UpdateWindow(v: FlightVars, a: real): (w: Window)
    requires Valid(v)
    ensures WellFormed(w.ring)
  {
    var pushed := RingPut(v.ring, a);
    if pushed.bufferLength == SizeOfBuffer then
      var g := RingGet(pushed);
      Window(g.ring, g.value)
    else
      Window(pushed, v.oldestVal)
  }

  /** The evaluation while apogee_flag is not set. */
  function PreApogee(v: FlightVars, a: real): (e: Evaluation)
    requires Valid(v)
  {
    var phase :=
      if a < LaunchDetectionThreshold as real then [PreFlightGround]
      else if ChainedLess(LaunchDetectionThreshold, a, LaunchDetectionThreshold + LaunchDetectionAltitudeWindow)
      then [PoweredFlight]
      else [];
    var w := UpdateWindow(v, a);
    if w.oldest - a >= ApogeeDetectionThreshold as real && !v.apogeeFlag then
      var trace := phase + [Apogee, DrogueDeploy, DrogueDescent];
      Evaluation(
        v.(state := DrogueDescent, apogeeFlag := true,
           apogeeVal := Trunc((w.oldest - a) / 2.0 + w.oldest),
           oldestVal := w.oldest, ring := w.ring),
        trace)
    else
      Evaluation(v.(state := FinalState(v.state, phase), oldestVal := w.oldest, ring := w.ring), phase)
  }

  /** The evaluation once apogee_flag is set. */
  function PostApogee(v: FlightVars, a: real): (e: Evaluation) {
    var gate := ChainedLessEq(LaunchDetectionThreshold, a, v.apogeeVal);
    var main := if !gate then [] else if !v.mainEjectFlag then [MainDeploy] else [MainDescent];
    var landed := if a < LaunchDetectionThreshold as real then [PostFlightGround] else [];
    var trace := main + landed;
    Evaluation(
      v.(state := FinalState(v.state, trace), mainEjectFlag := v.mainEjectFlag || gate),
      trace)
  }

  /** One pass of the checkFlightState loop body for the received altitude a. */
  function Evaluate(v: FlightVars, a: real): (e: Evaluation)
    requires Valid(v)
    ensures Valid(e.vars)
    ensures e.vars.state == FinalState(v.state, e.trace)
    ensures v.apogeeFlag ==> e.vars.apogeeFlag && e.vars.apogeeVal == v.apogeeVal
    ensures v.mainEjectFlag ==> e.vars.mainEjectFlag
    ensures !v.apogeeFlag ==>
      |e.trace| == (if e.vars.apogeeFlag then 4 else 1) &&
      (e.trace[0] == PreFlightGround || e.trace[0] == PoweredFlight) &&
      (e.vars.apogeeFlag ==> e.trace[1..] == [Apogee, DrogueDeploy, DrogueDescent]) &&
      e.vars.mainEjectFlag == v.mainEjectFlag
    ensures v.apogeeFlag ==>
      |e.trace| <= 2 &&
      (forall i :: 0 <= i < |e.trace| ==>
        e.trace[i] == MainDeploy || e.trace[i] == MainDescent || e.trace[i] == PostFlightGround) &&
      (|e.trace| == 2 ==> e.trace[0] != PostFlightGround && e.trace[1] == PostFlightGround) &&
      (|e.trace| >= 1 && e.trace[0] == MainDeploy <==> !v.mainEjectFlag && e.vars.mainEjectFlag)
  {
    if !v.apogeeFlag then PreApogee(v, a) else PostApogee(v, a)
  }

  // ---------------------------------------------------------------------
  // Single evaluations
  // ---------------------------------------------------------------------

  /** `10 < a < 30` holds of every altitude: the 20 m launch window never bounds anything. */
  lemma LaunchWindowNeverBounds(a: real)
    ensures ChainedLess(LaunchDetectionThreshold, a, LaunchDetectionThreshold + LaunchDetectionAltitudeWindow)
    ensures a == 1000.0 ==> !(10.0 < a < 30.0)
  {
  }

  /**
   * Before apogee the first state assigned is PRE_FLIGHT_GROUND below 10 m
   * and POWERED_FLIGHT from 10 m up, whatever the altitude; when the
   * trigger does not fire it is also the final state.
   */
  lemma PrePhaseRule(v: FlightVars, a: real)
    requires Valid(v) && !v.apogeeFlag
    ensures var e := Evaluate(v, a);
      |e.trace| >= 1 &&
      e.trace[0] == (if a < 10.0 then PreFlightGround else PoweredFlight) &&
      (!e.vars.apogeeFlag ==> e.trace == [e.trace[0]] && e.vars.state == e.trace[0])
  {
    LaunchWindowNeverBounds(a);
  }

  /**
   * The apogee trigger fires exactly when apogee_flag is clear and the
   * window's oldest value, after this evaluation's update, exceeds a by at
   * least 5.  On firing, apogee_val is the truncation of
   * oldest + (oldest - a) / 2 and APOGEE, DROGUE_DEPLOY, DROGUE_DESCENT are
   * assigned in that order, last.
   */
  lemma ApogeeTrigger(v: FlightVars, a: real)
    requires Valid(v)
    ensures var e := Evaluate(v, a);
      var oldest := UpdateWindow(v, a).oldest;
      var fired := !v.apogeeFlag && oldest - a >= 5.0;
      (fired <==> !v.apogeeFlag && e.vars.apogeeFlag) &&
      (fired <==> Apogee in e.trace) &&
      (fired ==> e.vars.apogeeVal == Trunc(oldest + (oldest - a) / 2.0) &&
                 |e.trace| == 4 &&
                 e.trace[1..] == [Apogee, DrogueDeploy, DrogueDescent]) &&
      (!v.apogeeFlag ==> e.vars.oldestVal == oldest)
  {
    LaunchWindowNeverBounds(a);
  }

  /**
   * After apogee, the gate `(10 <= a) <= apogee_val` decides the main-deploy
   * branch: the first evaluation through it assigns MAIN_DEPLOY and sets
   * main_eject_flag, later ones assign MAIN_DESCENT.
   */
  lemma MainDeployGate(v: FlightVars, a: real)
    requires Valid(v) && v.apogeeFlag
    ensures var e := Evaluate(v, a);
      var gate := (if 10.0 <= a then 1 else 0) <= v.apogeeVal;
      (MainDeploy in e.trace <==> gate && !v.mainEjectFlag) &&
      (MainDescent in e.trace <==> gate && v.mainEjectFlag) &&
      e.vars.mainEjectFlag == (v.mainEjectFlag || gate) &&
      Apogee !in e.trace && DrogueDeploy !in e.trace && DrogueDescent !in e.trace
  {
  }

  /** With an apogee estimate of at least 1 m the gate holds at every altitude. */
  lemma MainGateOpenForPositiveApogee(apogeeVal: int, a: real)
    requires apogeeVal >= 1
    ensures ChainedLessEq(LaunchDetectionThreshold, a, apogeeVal)
  {
  }

  /** After apogee, an altitude below 10 m always ends the evaluation on the ground. */
  lemma LandingDetected(v: FlightVars, a: real)
    requires Valid(v) && v.apogeeFlag && a < 10.0
    ensures Evaluate(v, a).vars.state == PostFlightGround
  {
  }

  /**
   * No evaluation assigns COASTING, and none ends in APOGEE or DROGUE_DEPLOY:
   * those two exist only inside the evaluation that detects apogee.
   */
  lemma TransientStates(v: FlightVars, a: real)
    requires Valid(v)
    ensures var e := Evaluate(v, a);
      Coasting !in e.trace &&
      (e.vars.state == Apogee || e.vars.state == DrogueDeploy ==> e.trace == [] && e.vars.state == v.state)
  {
    LaunchWindowNeverBounds(a);
  }

  // ---------------------------------------------------------------------
  // Runs of evaluations
  // ---------------------------------------------------------------------

  /** The evaluations of a sequence of altitudes, in order, with every state they assign. */
  function Run(v: FlightVars, alts: seq<real>): (e: Evaluation)
    requires Valid(v)
    ensures Valid(e.vars)
    decreases |alts|
  {
    if alts == [] then Evaluation(v, [])
    else
      var prior := Run(v, alts[..|alts| - 1]);
      var last := Evaluate(prior.vars, alts[|alts| - 1]);
      Evaluation(last.vars, prior.trace + last.trace)
  }

  function Count(s: seq<FlightState>, x: FlightState): nat {
    multiset(s)[x]
  }

  /**
   * Apogee fires at most once in any run, never once apogee_flag is set, and
   * exactly when the run sets the flag; the flag is never cleared.
   */
  lemma {:induction false} ApogeeAtMostOnce(v: FlightVars, alts: seq<real>)
    requires Valid(v)
    ensures var e := Run(v, alts);
      (v.apogeeFlag ==> e.vars.apogeeFlag) &&
      Count(e.trace, Apogee) == (if e.vars.apogeeFlag && !v.apogeeFlag then 1 else 0)
    decreases |alts|
  {
    if alts != [] {
      var prior := Run(v, alts[..|alts| - 1]);
      ApogeeAtMostOnce(v, alts[..|alts| - 1]);
      ApogeeTrigger(prior.vars, alts[|alts| - 1]);
      var last := Evaluate(prior.vars, alts[|alts| - 1]);
      assert Count(last.trace, Apogee) == (if last.vars.apogeeFlag && !prior.vars.apogeeFlag then 1 else 0) by {
        if Apogee in last.trace {
          assert last.trace == [last.trace[0]] + [Apogee, DrogueDeploy, DrogueDescent];
          assert last.trace[0] != Apogee by { LaunchWindowNeverBounds(alts[|alts| - 1]); }
        }
      }
      assert Run(v, alts).trace == prior.trace + last.trace;
    }
  }

  /** main_eject_flag is only ever set after apogee_flag. */
  predicate Ordered(v: FlightVars) {
    v.mainEjectFlag ==> v.apogeeFlag
  }

  /**
   * MAIN_DEPLOY is assigned at most once in any run, and never once
   * main_eject_flag is set; main_eject_flag is set only after apogee_flag.
   */
  lemma {:induction false} MainDeployAtMostOnce(v: FlightVars, alts: seq<real>)
    requires Valid(v) && Ordered(v)
    ensures var e := Run(v, alts);
      Ordered(e.vars) && (v.mainEjectFlag ==> e.vars.mainEjectFlag) &&
      Count(e.trace, MainDeploy) == (if e.vars.mainEjectFlag && !v.mainEjectFlag then 1 else 0)
    decreases |alts|
  {
    if alts != [] {
      var prior := Run(v, alts[..|alts| - 1]);
      MainDeployAtMostOnce(v, alts[..|alts| - 1]);
      var last := Evaluate(prior.vars, alts[|alts| - 1]);
      MainDeployStepCount(prior.vars, alts[|alts| - 1]);
      var e := Run(v, alts);
      assert e == Evaluation(last.vars, prior.trace + last.trace);
      assert multiset(e.trace) == multiset(prior.trace) + multiset(last.trace);
      assert Count(e.trace, MainDeploy) == Count(prior.trace, MainDeploy) + Count(last.trace, MainDeploy);
    }
  }

  lemma MainDeployStepCount(v: FlightVars, a: real)
    requires Valid(v) && Ordered(v)
    ensures var e := Evaluate(v, a);
      Ordered(e.vars) &&
      Count(e.trace, MainDeploy) == (if e.vars.mainEjectFlag && !v.mainEjectFlag then 1 else 0)
  {
    if !v.apogeeFlag {
      PreApogeeNoMain(v, a);
    } else {
      PostApogeeMainCount(v, a);
    }
  }

  lemma PreApogeeNoMain(v: FlightVars, a: real)
    requires Valid(v) && !v.apogeeFlag
    ensures var e := PreApogee(v, a);
      Count(e.trace, MainDeploy) == 0 && e.vars.mainEjectFlag == v.mainEjectFlag
  {
    var phase :=
      if a < LaunchDetectionThreshold as real then [PreFlightGround]
      else if ChainedLess(LaunchDetectionThreshold, a, LaunchDetectionThreshold + LaunchDetectionAltitudeWindow)
      then [PoweredFlight]
      else [];
    var e := PreApogee(v, a);
    assert e.trace == phase || e.trace == phase + [Apogee, DrogueDeploy, DrogueDescent];
    assert MainDeploy !in e.trace;
  }

  lemma PostApogeeMainCount(v: FlightVars, a: real)
    ensures var e := PostApogee(v, a);
      Count(e.trace, MainDeploy) == (if e.vars.mainEjectFlag && !v.mainEjectFlag then 1 else 0)
  {
    var gate := ChainedLessEq(LaunchDetectionThreshold, a, v.apogeeVal);
    var main := if !gate then [] else if !v.mainEjectFlag then [MainDeploy] else [MainDescent];
    var landed := if a < LaunchDetectionThreshold as real then [PostFlightGround] else [];
    assert PostApogee(v, a).trace == main + landed;
    assert multiset(main + landed) == multiset(main) + multiset(landed);
  }

  /** Every MAIN_DEPLOY in t is preceded by an APOGEE. */
  predicate MainAfterApogee(t: seq<FlightState>) {
    forall i :: 0 <= i < |t| && t[i] == MainDeploy ==> Apogee in t[..i]
  }

  lemma MainAfterApogeeAppend(t: seq<FlightState>, u: seq<FlightState>)
    requires MainAfterApogee(t) && (MainDeploy in u ==> Apogee in t)
    ensures MainAfterApogee(t + u)
  {
    var all := t + u;
    forall i | 0 <= i < |all| && all[i] == MainDeploy
      ensures Apogee in all[..i]
    {
      if i >= |t| {
        assert all[i] == u[i - |t|];
        assert t <= all[..i];
      } else {
        assert all[..i] == t[..i];
      }
    }
  }

  /** In a run that starts before apogee, every MAIN_DEPLOY is preceded by APOGEE. */
  lemma {:induction false} MainDeployAfterApogee(v: FlightVars, alts: seq<real>)
    requires Valid(v) && !v.apogeeFlag
    ensures var e := Run(v, alts);
      (e.vars.apogeeFlag <==> Apogee in e.trace) && MainAfterApogee(e.trace)
    decreases |alts|
  {
    if alts != [] {
      var prior := Run(v, alts[..|alts| - 1]);
      MainDeployAfterApogee(v, alts[..|alts| - 1]);
      var last := Evaluate(prior.vars, alts[|alts| - 1]);
      assert Run(v, alts) == Evaluation(last.vars, prior.trace + last.trace);
      ApogeeTrigger(prior.vars, alts[|alts| - 1]);
      if !prior.vars.apogeeFlag {
        PreApogeeNoMain(prior.vars, alts[|alts| - 1]);
        assert multiset(last.trace)[MainDeploy] == 0;
      }
      MainAfterApogeeAppend(prior.trace, last.trace);
    }
  }

  /** No run ever assigns COASTING. */
  lemma {:induction false} NeverCoasting(v: FlightVars, alts: seq<real>)
    requires Valid(v)
    ensures Coasting !in Run(v, alts).trace
    decreases |alts|
  {
    if alts != [] {
      var prior := Run(v, alts[..|alts| - 1]);
      NeverCoasting(v, alts[..|alts| - 1]);
      TransientStates(prior.vars, alts[|alts| - 1]);
    }
  }

  // ---------------------------------------------------------------------
  // The apogee window
  // ---------------------------------------------------------------------

  function Min(x: int, y: int): int {
    if x <= y then x else y
  }

  /**
   * What the ring and oldest_val hold after the pre-apogee evaluations of
   * alts: the last min(n, 4) altitudes in order, and the altitude of
   * evaluation n - 4 once there have been five.
   */
  predicate WindowHolds(v: FlightVars, alts: seq<real>) {
    var n := |alts|;
    Aligned(v.ring) && v.ring.bufferLength == Min(n, 4) &&
    Contents(v.ring) == alts[n - Min(n, 4)..] &&
    v.oldestVal == (if n >= 5 then alts[n - 5] else 0.0)
  }

  lemma WindowStep(v: FlightVars, alts: seq<real>, a: real)
    requires Valid(v) && !v.apogeeFlag && WindowHolds(v, alts)
    ensures WindowHolds(Evaluate(v, a).vars, alts + [a])
  {
    var n := |alts|;
    var all := alts + [a];
    var pushed := RingPut(v.ring, a);
    PutAppends(v.ring, a);
    assert Contents(pushed) == alts[n - Min(n, 4)..] + [a];
    var w := UpdateWindow(v, a);
    assert Evaluate(v, a).vars.ring == w.ring && Evaluate(v, a).vars.oldestVal == w.oldest;
    if n >= 4 {
      GetPopsHead(pushed);
      assert w.oldest == Contents(pushed)[0] == alts[n - 4];
      assert Contents(w.ring) == Contents(pushed)[1..];
      assert Contents(w.ring) == all[n + 1 - 4..];
    } else {
      assert all[n + 1 - Min(n + 1, 4)..] == all;
      assert alts[n - Min(n, 4)..] == alts;
    }
  }

  /** WindowStep, with the window's sequence given as the prefix of the next one. */
  lemma WindowStepAt(v: FlightVars, alts: seq<real>)
    requires |alts| >= 1 && Valid(v) && !v.apogeeFlag && WindowHolds(v, alts[..|alts| - 1])
    ensures WindowHolds(Evaluate(v, alts[|alts| - 1]).vars, alts)
  {
    WindowStep(v, alts[..|alts| - 1], alts[|alts| - 1]);
    assert alts[..|alts| - 1] + [alts[|alts| - 1]] == alts;
  }

  lemma {:induction false} WindowInvariant(v: FlightVars, alts: seq<real>)
    requires Valid(v) && WindowHolds(v, []) && !Run(v, alts).vars.apogeeFlag
    ensures WindowHolds(Run(v, alts).vars, alts)
    decreases |alts|
  {
    if alts != [] {
      var prior := Run(v, alts[..|alts| - 1]);
      WindowInvariant(v, alts[..|alts| - 1]);
      WindowStepAt(prior.vars, alts);
    }
  }

  /**
   * From the fifth evaluation before apogee on, oldest_val is the altitude
   * received four evaluations earlier; before that it keeps its initial 0.
   * This holds for the evaluation that detects apogee as well.
   */
  lemma ApogeeWindow(v: FlightVars, alts: seq<real>)
    requires Valid(v) && WindowHolds(v, [])
    requires |alts| >= 1 && !Run(v, alts[..|alts| - 1]).vars.apogeeFlag
    ensures var n := |alts|;
      Run(v, alts).vars.oldestVal == (if n >= 5 then alts[n - 5] else 0.0)
  {
    var prior := Run(v, alts[..|alts| - 1]);
    WindowInvariant(v, alts[..|alts| - 1]);
    WindowStepAt(prior.vars, alts);
  }

  /**
   * No false apogee: if the first four altitudes are above -5 m (they are
   * compared with the initial oldest_val of 0) and no later altitude is 5 m
   * or more below the one received four evaluations earlier, apogee is
   * never detected.
   */
  lemma {:induction false} NoFalseApogee(v: FlightVars, alts: seq<real>)
    requires Valid(v) && WindowHolds(v, []) && !v.apogeeFlag
    requires forall i :: 0 <= i < |alts| && i < 4 ==> alts[i] > -5.0
    requires forall i :: 4 <= i < |alts| ==> alts[i - 4] - alts[i] < 5.0
    ensures !Run(v, alts).vars.apogeeFlag
    decreases |alts|
  {
    if alts != [] {
      var n := |alts|;
      var prefix := alts[..n - 1];
      NoFalseApogee(v, prefix);
      var prior := Run(v, prefix);
      ApogeeWindow(v, alts);
      ApogeeTrigger(prior.vars, alts[n - 1]);
    }
  }

  /**
   * The altitude sequence 0, 5, 20, 200, 199, 150, 5 from boot: apogee is
   * detected on the seventh sample (20 - 5 >= 5), apogee_val is 27 and the
   * run ends in DROGUE_DESCENT without reaching MAIN_DEPLOY.
   */
  lemma DescentScenario()
    ensures var e := Run(Boot(), [0.0, 5.0, 20.0, 200.0, 199.0, 150.0, 5.0]);
      e.vars.state == DrogueDescent && e.vars.apogeeFlag && e.vars.apogeeVal == 27 &&
      e.trace == [PreFlightGround, PreFlightGround, PoweredFlight, PoweredFlight, PoweredFlight,
                     PoweredFlight, PreFlightGround, Apogee, DrogueDeploy, DrogueDescent]
  {
    var alts := [0.0, 5.0, 20.0, 200.0, 199.0, 150.0, 5.0];
    var prefix := [0.0, 5.0, 20.0, 200.0, 199.0, 150.0];
    assert alts[..6] == prefix;
    ScenarioClimb(prefix);
    ApogeeWindow(Boot(), alts);
    var prior := Run(Boot(), prefix);
    var last := Evaluate(prior.vars, 5.0);
    assert Run(Boot(), alts) == Evaluation(last.vars, prior.trace + last.trace);
    ApogeeTrigger(prior.vars, 5.0);
    PrePhaseRule(prior.vars, 5.0);
    assert last.trace == [PreFlightGround, Apogee, DrogueDeploy, DrogueDescent];
    assert Trunc(20.0 + (20.0 - 5.0) / 2.0) == 27;
  }

  /** The first six samples of the scenario: no apogee, and the phase states only. */
  lemma ScenarioClimb(prefix: seq<real>)
    requires prefix == [0.0, 5.0, 20.0, 200.0, 199.0, 150.0]
    ensures var prior := Run(Boot(), prefix);
      !prior.vars.apogeeFlag &&
      prior.trace == [PreFlightGround, PreFlightGround, PoweredFlight, PoweredFlight, PoweredFlight, PoweredFlight]
  {
    assert WindowHolds(Boot(), []);
    forall i | 0 <= i < |prefix|
      ensures prefix[i] > -5.0
    {
    }
    forall i | 4 <= i < |prefix|
      ensures prefix[i - 4] - prefix[i] < 5.0
    {
    }
    NoFalseApogee(Boot(), prefix);
    RunPhases(Boot(), prefix);
    var t := Run(Boot(), prefix).trace;
    assert |t| == 6;
    assert t[0] == PreFlightGround && t[1] == PreFlightGround;
    assert t[2] == PoweredFlight && t[3] == PoweredFlight && t[4] == PoweredFlight && t[5] == PoweredFlight;
  }

  /**
   * Before apogee every evaluation assigns exactly its phase state, so a run
   * that has not detected apogee assigns one phase state per altitude.
   */
  lemma {:induction false} RunPhases(v: FlightVars, alts: seq<real>)
    requires Valid(v) && !Run(v, alts).vars.apogeeFlag
    ensures var e := Run(v, alts);
      |e.trace| == |alts| &&
      forall i :: 0 <= i < |alts| ==> e.trace[i] == (if alts[i] < 10.0 then PreFlightGround else PoweredFlight)
    decreases |alts|
  {
    if alts != [] {
      var n := |alts|;
      var prior := Run(v, alts[..n - 1]);
      assert !prior.vars.apogeeFlag;
      RunPhases(v, alts[..n - 1]);
      PrePhaseRule(prior.vars, alts[n - 1]);
    }
  }
}
