/** Sub-identifiers for the services of one accessory, derived from the accessory's UUID. */
module AccessoryUtils {

  function Min(a: nat, b: nat): nat {
    if a <= b then a else b
  }

  /**
   * `AccessoryUtils.toUDID`: `uuid.slice(0, suffix.length) + suffix`; the
   * slice stops at the end of a UUID shorter than the suffix.
   */
  function ToUdid(uuid: string, suffix: string): (r: string)
    ensures |r| == Min(|uuid|, |suffix|) + |suffix|
    ensures r[|r| - |suffix|..] == suffix
    ensures r[..Min(|uuid|, |suffix|)] == uuid[..Min(|uuid|, |suffix|)]
    ensures suffix == "" ==> r == ""
  {
    uuid[..Min(|uuid|, |suffix|)] + suffix
  }

  /** For a UUID at least as long as both suffixes, different suffixes give different identifiers. */
  lemma ToUdidInjective(uuid: string, s1: string, s2: string)
    requires |uuid| >= |s1| && |uuid| >= |s2|
    ensures ToUdid(uuid, s1) == ToUdid(uuid, s2) ==> s1 == s2
  {
    if ToUdid(uuid, s1) == ToUdid(uuid, s2) {
      var r := ToUdid(uuid, s1);
      assert |r| == 2 * |s1| == 2 * |s2|;
      assert s1 == r[|r| - |s1|..] == s2;
    }
  }

  lemma ToUdidExample()
    ensures ToUdid("0123456789abcdef", "slider") == "012345slider"
    ensures ToUdid("abc", "battery") == "abcbattery"
  {
  }
}
