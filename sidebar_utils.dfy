/**
 * The base station's sidebar helpers: the antenna band for an altitude and
 * the status text and colour for a flight-state code received in telemetry.
 * JavaScript numbers are reals; a NaN altitude is None.
 */
module SidebarUtils {
  import opened Wrappers
  import opened FlightDefs

  /**
   * determineAntenna: A-1 below 1000 m, A-2 up to 2000 m, A-3 above.  All
   * three comparisons are false for NaN, so the function then falls off its
   * end and returns undefined, modelled as None.
   */
  function Antenna(altitude: Option<real>): (band: Option<string>)
    ensures altitude.None? <==> band.None?
  {
    match altitude
    case None => None
    case Some(a) =>
      if a < 1000.0 then Some("A-1")
      else if a >= 1000.0 && a < 2000.0 then Some("A-2")
      else if a >= 2000.0 then Some("A-3")
      else None
  }

  /** The position of a band in the order A-1, A-2, A-3; 0 for undefined. */
  function BandRank(band: Option<string>): nat {
    if band == Some("A-1") then 1 else if band == Some("A-2") then 2 else if band == Some("A-3") then 3 else 0
  }

  /** Each altitude falls in exactly one band, by the thresholds 1000 and 2000. */
  lemma AntennaBands(a: real)
    ensures Antenna(Some(a)) == Some("A-1") <==> a < 1000.0
    ensures Antenna(Some(a)) == Some("A-2") <==> 1000.0 <= a < 2000.0
    ensures Antenna(Some(a)) == Some("A-3") <==> 2000.0 <= a
    ensures 1 <= BandRank(Antenna(Some(a))) <= 3
  {
  }

  /** A higher altitude never gets a lower band. */
  lemma AntennaMonotone(a: real, b: real)
    requires a <= b
    ensures BandRank(Antenna(Some(a))) <= BandRank(Antenna(Some(b)))
  {
  }

  datatype Status = Status(status: string, color: string)

  const DefaultStatus := Status("Pre Flight", "text-blue-500")

  /**
   * getRocketStatusAndColor: `switch` compares with ===, so only the
   * numbers 0 to 6 select a case; every other value takes the default.
   */
  function StatusOf(state: real): (s: Status)
    ensures s.color != ""
  {
    if state == 0.0 then Status("Pre Flight", "text-gray-500")
    else if state == 1.0 then Status("Powered Flight", "text-purple-500")
    else if state == 2.0 then Status("Apogee", "text-red-500")
    else if state == 3.0 then Status("Drogue Deployed", "text-orange-500")
    else if state == 4.0 then Status("Main Deployed", "text-yellow-500")
    else if state == 5.0 then Status("Rocket Descent", "text-blue-500")
    else if state == 6.0 then Status("Post Flight", "text-green-500")
    else DefaultStatus
  }

  /** The case labels of the switch. */
  predicate IsCaseLabel(state: real) {
    state == 0.0 || state == 1.0 || state == 2.0 || state == 3.0 || state == 4.0 || state == 5.0 || state == 6.0
  }

  const StatusNames: seq<string> := ["Pre Flight", "Powered Flight", "Apogee", "Drogue Deployed",
    "Main Deployed", "Rocket Descent", "Post Flight"]

  /** Codes 0 to 6 name the seven statuses in order, all different. */
  lemma StatusesInOrder()
    ensures forall k :: 0 <= k < 7 ==> StatusOf(k as real).status == StatusNames[k]
    ensures forall i, j :: 0 <= i < j < |StatusNames| ==> StatusNames[i] != StatusNames[j]
  {
  }

  /**
   * Any other value shows as "Pre Flight", like code 0, and only the colour
   * tells them apart.
   */
  lemma DefaultStatusRule(state: real)
    ensures !IsCaseLabel(state) <==> StatusOf(state) == DefaultStatus
    ensures !IsCaseLabel(state) ==>
      StatusOf(state).status == StatusOf(0.0).status && StatusOf(state).color != StatusOf(0.0).color
  {
  }

  /**
   * The status each of the flight computer's state codes shows: the first
   * two codes show their own state, COASTING shows "Apogee", APOGEE
   * "Drogue Deployed", DROGUE_DEPLOY "Main Deployed", DROGUE_DESCENT
   * "Rocket Descent", MAIN_DEPLOY "Post Flight", and MAIN_DESCENT and
   * POST_FLIGHT_GROUND the default status.
   */
  lemma FlightCodesAsShown()
    ensures StatusOf(Code(PreFlightGround) as real).status == "Pre Flight"
    ensures StatusOf(Code(PoweredFlight) as real).status == "Powered Flight"
    ensures StatusOf(Code(Coasting) as real).status == "Apogee"
    ensures StatusOf(Code(Apogee) as real).status == "Drogue Deployed"
    ensures StatusOf(Code(DrogueDeploy) as real).status == "Main Deployed"
    ensures StatusOf(Code(DrogueDescent) as real).status == "Rocket Descent"
    ensures StatusOf(Code(MainDeploy) as real).status == "Post Flight"
    ensures StatusOf(Code(MainDescent) as real) == DefaultStatus
    ensures StatusOf(Code(PostFlightGround) as real) == DefaultStatus
  {
  }
}
