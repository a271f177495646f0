/**
  The values the edit form is reset to when it receives a record to edit: a
  copy of the record in which each of the three numeric fields becomes
  Number(x) when x is truthy and undefined otherwise.
 */
module EditPatch {
  import opened Js
  import opened FormRecord

  const HourlyRateKey := "hourly_rate"
  const ServiceRatingKey := "service_rating"
  const YearsOfExperienceKey := "years_of_experience"

  predicate IsNumericField(k: string)
  {
    k == HourlyRateKey || k == ServiceRatingKey || k == YearsOfExperienceKey
  }

  /**
    `x ? Number(x) : undefined`. String-to-number conversion is floating-point
    parsing, which this model does not reproduce: `toNumber` supplies it.
   */
  function CoerceNumeric(x: Value, toNumber: Value -> Number): Value
  {
    if Truthy(x) then Num(toNumber(x)) else Undefined
  }

  /**
    `{...initialData, hourly_rate: …, service_rating: …, years_of_experience: …}`:
    the spread copies every property in order, then each of the three
    assignments overwrites its key in place, or adds it at the end when the
    record lacks it.
   */
  function PatchNumericFields(initial: Record, toNumber: Value -> Number): (patched: Record)
    ensures forall k :: !IsNumericField(k) ==> Get(patched, k) == Get(initial, k)
    ensures forall k :: IsNumericField(k) ==> Get(patched, k) == CoerceNumeric(Get(initial, k), toNumber)
    ensures |Keys(patched)| >= |Keys(initial)| && Keys(patched)[..|initial|] == Keys(initial)
    ensures forall k :: k in Keys(patched) ==> k in Keys(initial) || IsNumericField(k)
  {
    var hourly := CoerceNumeric(Get(initial, HourlyRateKey), toNumber);
    var rating := CoerceNumeric(Get(initial, ServiceRatingKey), toNumber);
    var years := CoerceNumeric(Get(initial, YearsOfExperienceKey), toNumber);
    var r1 := Set(initial, HourlyRateKey, hourly);
    var r2 := Set(r1, ServiceRatingKey, rating);
    Set(r2, YearsOfExperienceKey, years)
  }

  /** The patched record is still a well-formed object. */
  lemma PatchWellFormed(initial: Record, toNumber: Value -> Number)
    requires WellFormed(initial)
    ensures WellFormed(PatchNumericFields(initial, toNumber))
  {
    PlainNumericKeys();
    SetThreeWellFormed(initial, HourlyRateKey, CoerceNumeric(Get(initial, HourlyRateKey), toNumber),
                       ServiceRatingKey, CoerceNumeric(Get(initial, ServiceRatingKey), toNumber),
                       YearsOfExperienceKey, CoerceNumeric(Get(initial, YearsOfExperienceKey), toNumber));
  }

  lemma PlainNumericKeys()
    ensures IsPlainKey(HourlyRateKey) && IsPlainKey(ServiceRatingKey) && IsPlainKey(YearsOfExperienceKey)
  {
  }

  lemma SetThreeWellFormed(r: Record, k1: string, v1: Value, k2: string, v2: Value, k3: string, v3: Value)
    requires WellFormed(r) && IsPlainKey(k1) && IsPlainKey(k2) && IsPlainKey(k3)
    ensures WellFormed(Set(Set(Set(r, k1, v1), k2, v2), k3, v3))
  {
    SetWellFormed(r, k1, v1);
    SetWellFormed(Set(r, k1, v1), k2, v2);
    SetWellFormed(Set(Set(r, k1, v1), k2, v2), k3, v3);
  }

  /** A numeric field holding 0 or the empty string ends up undefined, not Number(0). */
  lemma FalsyNumericBecomesUndefined(initial: Record, k: string, toNumber: Value -> Number)
    requires IsNumericField(k)
    requires Get(initial, k) in {Num(Finite(0.0)), Num(NaN), Str(""), Null, Undefined}
    ensures Get(PatchNumericFields(initial, toNumber), k) == Undefined
  {
    var x := Get(initial, k);
    assert !Truthy(x);
    assert CoerceNumeric(x, toNumber) == Undefined;
  }
}
