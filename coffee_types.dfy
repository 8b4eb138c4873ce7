/** The beverage enumeration and the hexadecimal brew command built from it. */
module CoffeeTypes {
  import opened Strings
  import opened Hex
  import opened TemperatureTypes

  datatype CoffeeType = Ristretto | Espresso | Lungo | Water | Americano {

    /** The enumeration's numeric value. */
    function Value(): (v: nat)
      ensures v <= 5 && v != 3
    {
      match this
      case Ristretto => 0
      case Espresso => 1
      case Lungo => 2
      case Water => 4
      case Americano => 5
    }
  }

  lemma ValueInjective(a: CoffeeType, b: CoffeeType)
    ensures a.Value() == b.Value() ==> a == b
  {
  }

  /** The fixed opcode part of every brew command. */
  const CommandPrefix: string := "0305070400000000"

  /** `String(num).padStart(2, '0')`. */
  function ZeroPad(n: nat): (s: string)
    ensures n < 10 ==> s == ['0', DigitChar(n)]
  {
    PadStart(NatToString(n), 2, '0')
  }

  /**
   * `CoffeeTypeUtils.command`: the prefix, then the temperature, then the
   * beverage, each as two decimal digits.
   */
  function Command(coffee: CoffeeType, temperature: TemperatureType): (s: string)
    ensures |s| == 20
    ensures s[..16] == CommandPrefix
    ensures s[16..18] == ['0', DigitChar(temperature.Value())]
    ensures s[18..] == ['0', DigitChar(coffee.Value())]
  {
    CommandPrefix + ZeroPad(temperature.Value()) + ZeroPad(coffee.Value())
  }

  /** Different (beverage, temperature) pairs give different commands. */
  lemma CommandInjective(c1: CoffeeType, t1: TemperatureType, c2: CoffeeType, t2: TemperatureType)
    ensures Command(c1, t1) == Command(c2, t2) ==> c1 == c2 && t1 == t2
  {
    if Command(c1, t1) == Command(c2, t2) {
      assert DigitChar(t1.Value()) == Command(c1, t1)[17] == DigitChar(t2.Value());
      assert DigitChar(c1.Value()) == Command(c1, t1)[19] == DigitChar(c2.Value());
      assert DigitValue(DigitChar(t1.Value())) == t1.Value();
      assert DigitValue(DigitChar(c1.Value())) == c1.Value();
      assert DigitValue(DigitChar(t2.Value())) == t2.Value();
      assert DigitValue(DigitChar(c2.Value())) == c2.Value();
      TemperatureTypes.ValueInjective(t1, t2);
      ValueInjective(c1, c2);
    }
  }

  /** Every command is an even number of hexadecimal digits. */
  lemma CommandIsHex(coffee: CoffeeType, temperature: TemperatureType)
    ensures |Command(coffee, temperature)| % 2 == 0
    ensures forall i :: 0 <= i < |Command(coffee, temperature)| ==> IsHexDigit(Command(coffee, temperature)[i])
  {
    var s := Command(coffee, temperature);
    forall i | 0 <= i < |s|
      ensures IsHexDigit(s[i])
    {
      if i < 16 {
        assert s[i] == s[..16][i];
      } else if i < 18 {
        assert s[i] == s[16..18][i - 16];
      } else {
        assert s[i] == s[18..][i - 18];
      }
    }
  }

  lemma CommandExample()
    ensures Command(Espresso, High) == "03050704000000000201"
    ensures Command(Americano, Medium) == "03050704000000000005"
  {
  }

  /** `CoffeeTypeUtils.toUDID`: the beverage's name, used as a service sub-type. */
  function ToUdid(coffee: CoffeeType): (s: string)
    ensures |s| > 0
  {
    match coffee
    case Ristretto => "Ristretto"
    case Espresso => "Espresso"
    case Lungo => "Lungo"
    case Americano => "Americano"
    case Water => "Water"
  }

  /** `CoffeeTypeUtils.humanReadable`: the beverage's display name. */
  function HumanReadable(coffee: CoffeeType): (s: string)
    ensures |s| > 0
  {
    match coffee
    case Ristretto => "Ristretto"
    case Espresso => "Espresso"
    case Lungo => "Lungo"
    case Americano => "Americano"
    case Water => "Water"
  }

  /** Both switches give the same name, and no two beverages share one. */
  lemma NamesAgreeAndDiffer(a: CoffeeType, b: CoffeeType)
    ensures ToUdid(a) == HumanReadable(a)
    ensures HumanReadable(a) == HumanReadable(b) ==> a == b
  {
  }
}
