/**
 * The flight computer's state enumeration and the flight-data constants it
 * compares altitudes against.
 */
module FlightDefs {
  import opened CInts
  import opened Wrappers

  /** ARMED_FLIGHT_STATE, in declaration order: PRE_FLIGHT_GROUND is 0, POST_FLIGHT_GROUND is 8. */
  datatype FlightState =
    | PreFlightGround
    | PoweredFlight
    | Coasting
    | Apogee
    | DrogueDeploy
    | DrogueDescent
    | MainDeploy
    | MainDescent
    | PostFlightGround

  /** The byte the flight computer stores for a state. */
  function Code(s: FlightState): (c: uint8)
    ensures c < 9
  {
    match s
    case PreFlightGround => 0
    case PoweredFlight => 1
    case Coasting => 2
    case Apogee => 3
    case DrogueDeploy => 4
    case DrogueDescent => 5
    case MainDeploy => 6
    case MainDescent => 7
    case PostFlightGround => 8
  }

  /** The state a stored byte names, if any. */
  function FromCode(c: uint8): (s: Option<FlightState>)
    ensures s.Some? <==> c < 9
  {
    if c == 0 then Some(PreFlightGround)
    else if c == 1 then Some(PoweredFlight)
    else if c == 2 then Some(Coasting)
    else if c == 3 then Some(Apogee)
    else if c == 4 then Some(DrogueDeploy)
    else if c == 5 then Some(DrogueDescent)
    else if c == 6 then Some(MainDeploy)
    else if c == 7 then Some(MainDescent)
    else if c == 8 then Some(PostFlightGround)
    else None
  }

  /** Every state has its own code, and decoding a code gives the state back. */
  lemma CodeRoundTrip(s: FlightState, c: uint8)
    ensures FromCode(Code(s)) == Some(s)
    ensures FromCode(c).Some? ==> Code(FromCode(c).value) == c
  {
  }

  /** include/defs.h: metres above which launch is registered. */
  const LaunchDetectionThreshold: int := 10
  /** include/defs.h: metres of the launch window. */
  const LaunchDetectionAltitudeWindow: int := 20
  /** include/defs.h: metres of descent across the window that register apogee. */
  const ApogeeDetectionThreshold: int := 5

  /** OPERATION_MODE: SAFE_MODE is 0, ARMED_MODE is 1. */
  const SafeMode: uint8 := 0
  const ArmedMode: uint8 := 1
}
