/**
 * The integer part of the synthetic signal generator: the oxygen reading is
 * 97 plus a random offset, clamped into [90, 100]. The offset is drawn from
 * [-2, 2] by the generator; here it is a parameter.
 */
module Generator {
  import opened Vitals

  const BaseOxygen: int := 97
  const MinOxygen: int := 90
  const MaxOxygen: int := 100

  /** max(90, min(100, 97 + offset)): the clamp holds for every offset. */
  function OxygenReading(offset: int): (oxy: int)
    ensures MinOxygen <= oxy <= MaxOxygen
    ensures MinOxygen < oxy < MaxOxygen ==> oxy == BaseOxygen + offset
    ensures oxy == MinOxygen <==> offset <= MinOxygen - BaseOxygen
    ensures oxy == MaxOxygen <==> offset >= MaxOxygen - BaseOxygen
  {
    var raw := BaseOxygen + offset;
    var capped := if raw < MaxOxygen then raw else MaxOxygen;
    if capped > MinOxygen then capped else MinOxygen
  }

  /** With the offsets the generator actually draws, the clamp never bites. */
  lemma OxygenInDrawnRange(offset: int)
    requires -2 <= offset <= 2
    ensures OxygenReading(offset) == BaseOxygen + offset
    ensures 95 <= OxygenReading(offset) <= 99
  {
  }

  /** The classifier's "oxygen critical" branch cannot be reached through the generator. */
  lemma GeneratedOxygenNeverCritical(offset: int)
    ensures OxygenStatus(OxygenReading(offset)) != Critical
  {
  }

  /** With the offsets actually drawn, generated oxygen is always normal. */
  lemma DrawnOxygenAlwaysNormal(offset: int)
    requires -2 <= offset <= 2
    ensures OxygenStatus(OxygenReading(offset)) == Normal
  {
  }
}
