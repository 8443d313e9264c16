/** The sensor's value filter over the cached value of its protocol. */
module Sensor {
  import opened Errors
  import opened Catalog
  import opened Values
  import opened Coordinator

  /** The values a sensor shows as unknown. */
  predicate Hidden(v: Val) {
    v == Null || v == Str("not set") || v == Dict([])
  }

  /** The sensor's native value for cached value `v`: Null (Python's None)
      for a hidden value, the value itself otherwise. */
  function NativeValue(v: Val): (r: Val)
    ensures r == Null <==> Hidden(v)
    ensures r != Null ==> r == v
  {
    if v == Null || v == Str("not set") then Null
    else if v.Dict? && v.entries == [] then Null
    else v
  }

  /** Falsy values other than the hidden ones are shown as they are. */
  lemma FalsyValuesShown(p: Protocol, x: Val)
    ensures NativeValue(Int(0)) == Int(0)
    ensures NativeValue(Bool(false)) == Bool(false)
    ensures NativeValue(Str("")) == Str("")
    ensures NativeValue(List([])) == List([])
    ensures NativeValue(Dict([(p, x)])) == Dict([(p, x)])
  {
    assert Str("") != Str("not set") by { assert |""| != |"not set"|; }
  }

  /** The empty dict a failed transport call yields is cached unchanged by
      the normalisation, and shows as unknown, for every protocol but
      SOUND_SET during the initial load, whose coercion turns it into
      false. */
  lemma FailedCallDisplay(p: Protocol, coerce: bool)
    ensures Normalize(Dict([]), p) == Dict([])
    ensures var a := Answer(p, Ask(coerce), (q: Protocol) => Returned(Dict([])));
            a.Some? && NativeValue(a.value) == (if coerce then Bool(false) else Null)
  {
    assert !HasKey([], p);
  }
}
