/** The classroom ventilation check: the breathing-zone outdoor airflow of
    the Ventilation Rate Procedure, section 6.2 of ANSI/ASHRAE Standard
    62.1-2022, compared with the supplied airflow. */
module Compliance {

  /** People outdoor air rate for classrooms, cfm per person. */
  const Rp: real := 10.0
  /** Area outdoor air rate for classrooms, cfm per square foot. */
  const Ra: real := 0.12
  /** Square feet per square metre. */
  const SqFtPerSqM: real := 10.7639

  const Standard: string := "62.1-2022"
  const Notes: string := "Assumes classroom category; Ez~1.0 for ceiling supply/return (cooling)."

  /** The record `vrp_classroom` returns (values before rounding). */
  datatype Report = Report(
    std: string, pass: bool, pzPeople: int, azM2: real,
    vbzCfm: real, suppliedCfm: real, notes: string)

  /** Breathing-zone outdoor airflow `Vbz = Rp * Pz + Ra * Az`, with the
      floor area converted from square metres to square feet. */
  function Vbz(pzPeople: int, areaM2: real): real
  {
    Rp * pzPeople as real + Ra * (areaM2 * SqFtPerSqM)
  }

  /** `vrp_classroom(Pz_people, area_m2, supply_cfm)`. */
  function VrpClassroom(pzPeople: int, areaM2: real, supplyCfm: real): (r: Report)
    ensures r.std == Standard && r.pzPeople == pzPeople
    ensures r.azM2 == areaM2 && r.suppliedCfm == supplyCfm
    ensures r.vbzCfm == 10.0 * pzPeople as real + 1.291668 * areaM2
    ensures r.pass <==> supplyCfm >= r.vbzCfm
  {
    var vbz := Vbz(pzPeople, areaM2);
    Report(Standard, supplyCfm >= vbz, pzPeople, areaM2, vbz, supplyCfm, Notes)
  }

  /** Supplying exactly `Vbz` passes; a supply below it fails. */
  lemma PassBoundary(pzPeople: int, areaM2: real, supplyCfm: real)
    ensures VrpClassroom(pzPeople, areaM2, Vbz(pzPeople, areaM2)).pass
    ensures supplyCfm < Vbz(pzPeople, areaM2) ==> !VrpClassroom(pzPeople, areaM2, supplyCfm).pass
  {
  }

  /** More supply never turns a pass into a fail. */
  lemma PassMonotoneInSupply(pzPeople: int, areaM2: real, s: real, s': real)
    requires s <= s'
    ensures VrpClassroom(pzPeople, areaM2, s).pass ==> VrpClassroom(pzPeople, areaM2, s').pass
  {
  }

  /** With occupants and a non-negative area the requirement is positive. */
  lemma VbzPositive(pzPeople: int, areaM2: real)
    requires pzPeople > 0 && areaM2 >= 0.0
    ensures Vbz(pzPeople, areaM2) >= 10.0
  {
  }

  /** More people or more floor area never lowers the requirement, and
      hence never turns a fail into a pass. */
  lemma VbzMonotone(p: int, p': int, a: real, a': real, supplyCfm: real)
    requires p <= p' && a <= a'
    ensures Vbz(p, a) <= Vbz(p', a')
    ensures VrpClassroom(p', a', supplyCfm).pass ==> VrpClassroom(p, a, supplyCfm).pass
  {
  }
}
