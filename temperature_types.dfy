/** The brew temperature enumeration and its conversions to and from configuration strings. */
module TemperatureTypes {

  datatype TemperatureType = Medium | Low | High {

    /** The enumeration's numeric value, which the brew command encodes. */
    function Value(): (v: nat)
      ensures v <= 2
      ensures v == 0 <==> this == Medium
    {
      match this
      case Medium => 0
      case Low => 1
      case High => 2
    }
  }

  lemma ValueInjective(a: TemperatureType, b: TemperatureType)
    ensures a.Value() == b.Value() ==> a == b
  {
  }

  /** `TemperatureUtils.ofString`: `Low` and `High` by name, every other string is Medium. */
  function OfString(value: string): (t: TemperatureType)
    ensures t == Low <==> value == "Low"
    ensures t == High <==> value == "High"
    ensures t == Medium <==> value != "Low" && value != "High"
  {
    if value == "Low" then Low
    else if value == "High" then High
    else Medium
  }

  /** `TemperatureUtils.toString`. */
  function ToString(t: TemperatureType): (s: string)
    ensures s == "Low" || s == "Medium" || s == "High"
  {
    match t
    case Low => "Low"
    case High => "High"
    case Medium => "Medium"
  }

  lemma OfStringToString(t: TemperatureType)
    ensures OfString(ToString(t)) == t
  {
  }

  /** Only the three names survive a round trip through the enumeration. */
  lemma ToStringOfString(s: string)
    ensures ToString(OfString(s)) == s <==> s == "Low" || s == "Medium" || s == "High"
  {
  }
}
