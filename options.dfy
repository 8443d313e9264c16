/** The option tables of the select entities and the forward/reverse
    option map with its "Custom (...)" fallback encoding. Every table maps
    a device value string to the option shown for it. */
module Options {
  import opened Errors
  import opened Text
  import opened Values

  type Table = seq<(string, string)>

  const ModeOptions: Table := [("wash", "wash"), ("wash_and_dry", "wash_and_dry"), ("dry", "dry")]

  const ProgramOptions: Table := [
    ("standard", "standard"), ("quick", "quick"), ("sanitize", "sanitize"), ("wool", "wool"),
    ("air_refresh", "air_refresh"), ("custom", "custom"), ("bedding", "bedding"),
    ("down", "down"), ("silk", "silk"), ("rinse_and_spin", "rinse_and_spin"),
    ("spin", "spin"), ("down_clean", "down_clean"), ("baby_care", "baby_care"),
    ("anti_allergen", "anti_allergen"), ("sportswear", "sportswear"), ("night", "night"),
    ("new_clothes", "new_clothes"), ("shirts", "shirts"), ("synthetics", "synthetics"),
    ("underwear", "underwear"), ("gentle", "gentle"), ("intensive", "intensive"),
    ("cotton_linen", "cotton_linen"), ("season", "season"), ("warming", "warming"),
    ("bra", "bra"), ("panties", "panties"), ("boiling_wash", "boiling_wash"),
    ("socks", "socks"), ("towels", "towels"), ("anti_mite", "anti_mite"),
    ("exo_40_60", "exo_40_60"), ("twenty_c", "twenty_c"), ("t_shirts", "t_shirts"),
    ("stain_removal", "stain_removal")]

  const DetergentTypeOptions: Table :=
    [("empty", "empty"), ("low", "low"), ("medium", "medium"), ("high", "high")]

  const TempOptions: Table := [
    ("normal", "normal"), ("low", "low"), ("medium", "medium"), ("high", "high"),
    ("max", "max"), ("twenty_c", "20\U{00B0}C")]

  const SpinLevelOptions: Table := [
    ("none", "none"), ("very_low", "very_low"), ("low", "low"), ("mid", "mid"),
    ("high", "high"), ("very_high", "very_high"), ("max", "max")]

  const RinseTimesOptions: Table := [
    ("none", "none"), ("min", "min"), ("low", "low"), ("mid", "mid"), ("high", "high"),
    ("max", "max")]

  const DryingModeOptions: Table :=
    [("none", "none"), ("quick", "quick"), ("iron", "iron"), ("store", "store")]

  predicate IsKey(t: Table, k: string) {
    exists i :: 0 <= i < |t| && t[i].0 == k
  }

  predicate IsOption(t: Table, o: string) {
    exists i :: 0 <= i < |t| && t[i].1 == o
  }

  predicate KeysDistinct(t: Table) {
    forall i, j :: 0 <= i < j < |t| ==> t[i].0 != t[j].0
  }

  predicate OptionsDistinct(t: Table) {
    forall i, j :: 0 <= i < j < |t| ==> t[i].1 != t[j].1
  }

  /** The dict a table literal denotes, read at key `k`: the option of the
      last pair with that key. */
  function TableGet(t: Table, k: string): (r: Option<string>)
    ensures r.Some? <==> IsKey(t, k)
    ensures r.Some? ==> exists i :: 0 <= i < |t| && t[i] == (k, r.value)
    decreases |t|
  {
    if t == [] then None
    else if t[|t| - 1].0 == k then Some(t[|t| - 1].1)
    else
      var r := TableGet(t[..|t| - 1], k);
      assert forall i :: 0 <= i < |t| - 1 ==> t[..|t| - 1][i] == t[i];
      r
  }

  /** The reverse dict, option to key; a later pair overwrites an earlier
      one with the same option. */
  function Reverse(t: Table): (r: map<string, string>)
    ensures forall o :: o in r <==> IsOption(t, o)
    ensures forall o :: o in r ==> exists i :: 0 <= i < |t| && t[i] == (r[o], o)
    decreases |t|
  {
    if t == [] then map[]
    else
      var r := Reverse(t[..|t| - 1]);
      assert forall i :: 0 <= i < |t| - 1 ==> t[..|t| - 1][i] == t[i];
      r[t[|t| - 1].1 := t[|t| - 1].0]
  }

  datatype EnhancedOptionsMap = EnhancedOptionsMap(base: Table, reverse: map<string, string>)

  function NewOptionsMap(t: Table): (m: EnhancedOptionsMap)
    ensures m.base == t
    ensures forall o :: o in m.reverse <==> IsOption(t, o)
  {
    EnhancedOptionsMap(t, Reverse(t))
  }

  const CustomPrefix: string := "Custom ("

  function Custom(s: string): string {
    CustomPrefix + s + ")"
  }

  /** Python's `option[8:-1]`, with its clamping of short strings. */
  function CustomInner(option: string): (r: string)
    ensures |option| >= 9 ==> r == option[8..|option| - 1]
  {
    if |option| >= 9 then option[8..|option| - 1] else ""
  }

  /** The option shown for a device value: its table entry, else the entry
      of its string form, else the "Custom (...)" encoding of that string.
      An unhashable value raises TypeError at the dict lookup. */
  function GetOption(m: EnhancedOptionsMap, value: Val): (r: Result<string>)
    ensures r.Err? <==> !Hashable(value)
    ensures r.Ok? ==> IsOption(m.base, r.value) || r.value == Custom(PyStr(value))
    ensures r.Ok? && !IsKey(m.base, PyStr(value)) ==> r.value == Custom(PyStr(value))
  {
    if !Hashable(value) then Err(TypeError)
    else if value.Str? && TableGet(m.base, value.s).Some? then Ok(TableGet(m.base, value.s).value)
    else if TableGet(m.base, PyStr(value)).Some? then Ok(TableGet(m.base, PyStr(value)).value)
    else Ok(Custom(PyStr(value)))
  }

  /** The device value of an option: its reverse entry, else the integer
      or the string inside a "Custom (...)" option; anything else raises
      ValueError. */
  function GetValue(m: EnhancedOptionsMap, option: string): (r: Result<Val>)
    ensures r.Err? <==> option !in m.reverse &&
                        !(StartsWith(option, CustomPrefix) && EndsWith(option, ")"))
    ensures r.Err? ==> r.error == ValueError("Invalid option: " + option)
    ensures option in m.reverse ==> r == Ok(Str(m.reverse[option]))
    ensures r.Ok? && option !in m.reverse ==>
              (r.value.Int? <==> ParseInt(CustomInner(option)).Some?) &&
              (r.value.Int? ==> r.value.i == ParseInt(CustomInner(option)).value) &&
              (!r.value.Int? ==> r.value == Str(CustomInner(option)))
  {
    if option in m.reverse then Ok(Str(m.reverse[option]))
    else if StartsWith(option, CustomPrefix) && EndsWith(option, ")") then
      var inner := CustomInner(option);
      match ParseInt(inner)
      case Some(n) => Ok(Int(n))
      case None => Ok(Str(inner))
    else Err(ValueError("Invalid option: " + option))
  }

  /** The options of a map, in the table's order. */
  function GetAllOptions(m: EnhancedOptionsMap): (r: seq<string>)
    ensures |r| == |m.base|
    ensures forall i :: 0 <= i < |r| ==> r[i] == m.base[i].1
  {
    seq(|m.base|, i requires 0 <= i < |m.base| => m.base[i].1)
  }

  // ---------------------------------------------------------------------
  // Round trips

  /** With distinct keys a table reads back each of its pairs. */
  lemma {:induction false} TableGetPair(t: Table, i: nat)
    requires KeysDistinct(t) && i < |t|
    ensures TableGet(t, t[i].0) == Some(t[i].1)
    decreases |t|
  {
    if i < |t| - 1 {
      var init := t[..|t| - 1];
      assert init[i] == t[i];
      TableGetPair(init, i);
    }
  }

  /** With distinct options the reverse dict inverts each pair. */
  lemma {:induction false} ReversePair(t: Table, i: nat)
    requires OptionsDistinct(t) && i < |t|
    ensures Reverse(t)[t[i].1] == t[i].0
    decreases |t|
  {
    if i < |t| - 1 {
      var init := t[..|t| - 1];
      assert init[i] == t[i];
      ReversePair(init, i);
    }
  }

  /** Every pair of the table is what its dict and its reverse dict read
      at its key and its option. */
  predicate ReadsBack(t: Table) {
    forall i :: 0 <= i < |t| ==>
      TableGet(t, t[i].0) == Some(t[i].1) && t[i].1 in Reverse(t) && Reverse(t)[t[i].1] == t[i].0
  }

  /** A table with distinct keys and distinct options reads back. */
  lemma DistinctReadsBack(t: Table)
    requires KeysDistinct(t) && OptionsDistinct(t)
    ensures ReadsBack(t)
  {
    forall i | 0 <= i < |t|
      ensures TableGet(t, t[i].0) == Some(t[i].1) && t[i].1 in Reverse(t) && Reverse(t)[t[i].1] == t[i].0
    {
      TableGetPair(t, i);
      ReversePair(t, i);
    }
  }

  /** A table mapping each key to itself reads back, repeated keys or not. */
  lemma IdentityReadsBack(t: Table)
    requires forall i :: 0 <= i < |t| ==> t[i].1 == t[i].0
    ensures ReadsBack(t)
  {
    forall i | 0 <= i < |t|
      ensures TableGet(t, t[i].0) == Some(t[i].1) && t[i].1 in Reverse(t) && Reverse(t)[t[i].1] == t[i].0
    {
      assert IsKey(t, t[i].0) && IsOption(t, t[i].1);
    }
  }

  /** Every device value of a table survives the trip to its option and
      back. */
  lemma KeyRoundTrip(t: Table, i: nat)
    requires ReadsBack(t) && i < |t|
    ensures var m := NewOptionsMap(t);
            GetOption(m, Str(t[i].0)) == Ok(t[i].1) &&
            GetValue(m, t[i].1) == Ok(Str(t[i].0))
  {
  }

  /** Every option a map lists decodes to a device value that encodes back
      to that option. */
  lemma AllOptionsRoundTrip(t: Table)
    requires ReadsBack(t)
    ensures var m := NewOptionsMap(t);
            forall o :: o in GetAllOptions(m) ==>
              GetValue(m, o).Ok? && GetOption(m, GetValue(m, o).value) == Ok(o)
  {
    var m := NewOptionsMap(t);
    forall o | o in GetAllOptions(m)
      ensures GetValue(m, o).Ok? && GetOption(m, GetValue(m, o).value) == Ok(o)
    {
      var i :| 0 <= i < |GetAllOptions(m)| && GetAllOptions(m)[i] == o;
      KeyRoundTrip(t, i);
    }
  }

  lemma CustomShape(s: string)
    ensures StartsWith(Custom(s), CustomPrefix) && EndsWith(Custom(s), ")")
    ensures CustomInner(Custom(s)) == s
  {
    var c := Custom(s);
    assert c[..8] == CustomPrefix;
    assert c[8..|c| - 1] == s;
  }

  /** An integer without a table entry survives the trip through its
      "Custom (n)" option. */
  lemma CustomIntRoundTrip(t: Table, n: int)
    requires !IsKey(t, IntToString(n)) && !IsOption(t, Custom(IntToString(n)))
    ensures var m := NewOptionsMap(t);
            GetOption(m, Int(n)) == Ok(Custom(IntToString(n))) &&
            GetValue(m, Custom(IntToString(n))) == Ok(Int(n))
  {
    CustomShape(IntToString(n));
    IntRoundTrip(n);
  }

  /** A non-numeric string without a table entry survives the trip through
      its "Custom (s)" option. */
  lemma CustomStrRoundTrip(t: Table, s: string)
    requires !IsKey(t, s) && !IsOption(t, Custom(s)) && ParseInt(s).None?
    ensures var m := NewOptionsMap(t);
            GetOption(m, Str(s)) == Ok(Custom(s)) && GetValue(m, Custom(s)) == Ok(Str(s))
  {
    CustomShape(s);
  }

  /** The value of a custom option that is not one of the table's options:
      `int()` of its inner text when that parses, else the text itself. */
  lemma CustomValue(t: Table, s: string)
    requires !IsOption(t, Custom(s))
    ensures GetValue(NewOptionsMap(t), Custom(s)) ==
            (if ParseInt(s).Some? then Ok(Int(ParseInt(s).value)) else Ok(Str(s)))
  {
    CustomShape(s);
  }

  /** Numeric strings outside the canonical form still read as integers. */
  lemma CustomValueExamples(t: Table)
    requires !IsOption(t, Custom("007")) && !IsOption(t, Custom("+5")) && !IsOption(t, Custom("-0"))
    ensures GetValue(NewOptionsMap(t), Custom("007")) == Ok(Int(7))
    ensures GetValue(NewOptionsMap(t), Custom("+5")) == Ok(Int(5))
    ensures GetValue(NewOptionsMap(t), Custom("-0")) == Ok(Int(0))
  {
    assert ParseInt("007") == Some(7) by {
      assert "007"[..2] == "00" && "00"[..1] == "0" && "0"[..0] == "";
    }
    assert ParseInt("+5") == Some(5) by {
      assert "+5"[1..] == "5" && "5"[..0] == "";
    }
    assert ParseInt("-0") == Some(0) by {
      assert "-0"[1..] == "0" && "0"[..0] == "";
    }
    CustomValue(t, "007");
    CustomValue(t, "+5");
    CustomValue(t, "-0");
  }

  /** A numeric string without a table entry comes back from its custom
      option as the integer `int()` reads in it, not as the string. */
  lemma CustomNumericString(t: Table, s: string)
    requires !IsKey(t, s) && !IsOption(t, Custom(s)) && ParseInt(s).Some?
    ensures var m := NewOptionsMap(t);
            GetOption(m, Str(s)) == Ok(Custom(s)) &&
            GetValue(m, GetOption(m, Str(s)).value) == Ok(Int(ParseInt(s).value))
  {
    CustomValue(t, s);
  }

  // ---------------------------------------------------------------------
  // The module's tables

  /** A table whose round trips hold: it reads back, every key starts with
      a lower-case letter (so none reads as an integer), and no option
      starts with 'C' (so none is in the "Custom (...)" form). */
  predicate Qualifies(t: Table) {
    && ReadsBack(t)
    && (forall i :: 0 <= i < |t| ==> |t[i].0| > 0 && 'a' <= t[i].0[0] <= 'z')
    && (forall i :: 0 <= i < |t| ==> |t[i].1| > 0 && t[i].1[0] != 'C')
  }

  /** On a qualifying table every integer survives the trip through its
      option. */
  lemma IntegersRoundTrip(t: Table, n: int)
    requires Qualifies(t)
    ensures var m := NewOptionsMap(t);
            GetValue(m, GetOption(m, Int(n)).value) == Ok(Int(n))
  {
    IntRoundTrip(n);
    NatToStringDigits(if n < 0 then -n else n);
    CustomShape(IntToString(n));
    CustomIntRoundTrip(t, n);
  }

  /** A key that starts with a lower-case letter and is its own option. */
  predicate IdentityRow(row: (string, string)) {
    |row.0| > 0 && 'a' <= row.0[0] <= 'z' && row.1 == row.0
  }

  /** Every row is an identity row. */
  predicate IdentityShape(t: Table) {
    forall i :: 0 <= i < |t| ==> IdentityRow(t[i])
  }

  /** Rows `lo` to `hi` of the program table are identity rows. */
  lemma ProgramRows(lo: nat, hi: nat)
    requires lo <= hi <= |ProgramOptions| && hi - lo <= 12
    ensures forall k :: lo <= k < hi ==> IdentityRow(ProgramOptions[k])
  {
  }

  lemma IdentityQualifies(t: Table)
    requires IdentityShape(t)
    ensures Qualifies(t)
  {
    IdentityReadsBack(t);
  }

  lemma ModeQualifies()
    ensures Qualifies(ModeOptions)
  {
    assert IdentityShape(ModeOptions);
    IdentityQualifies(ModeOptions);
  }

  lemma ProgramQualifies()
    ensures Qualifies(ProgramOptions)
  {
    ProgramRows(0, 12);
    ProgramRows(12, 24);
    ProgramRows(24, 35);
    IdentityQualifies(ProgramOptions);
  }

  lemma DetergentTypeQualifies()
    ensures Qualifies(DetergentTypeOptions)
  {
    assert IdentityShape(DetergentTypeOptions);
    IdentityQualifies(DetergentTypeOptions);
  }

  lemma SpinLevelQualifies()
    ensures Qualifies(SpinLevelOptions)
  {
    assert IdentityShape(SpinLevelOptions);
    IdentityQualifies(SpinLevelOptions);
  }

  lemma RinseTimesQualifies()
    ensures Qualifies(RinseTimesOptions)
  {
    assert IdentityShape(RinseTimesOptions);
    IdentityQualifies(RinseTimesOptions);
  }

  lemma DryingModeQualifies()
    ensures Qualifies(DryingModeOptions)
  {
    assert IdentityShape(DryingModeOptions);
    IdentityQualifies(DryingModeOptions);
  }

  lemma TempDistinct()
    ensures KeysDistinct(TempOptions) && OptionsDistinct(TempOptions)
  {
  }

  lemma TempShape()
    ensures forall i :: 0 <= i < |TempOptions| ==>
              |TempOptions[i].0| > 0 && 'a' <= TempOptions[i].0[0] <= 'z'
    ensures forall i :: 0 <= i < |TempOptions| ==>
              |TempOptions[i].1| > 0 && TempOptions[i].1[0] != 'C'
  {
  }

  lemma TempQualifies()
    ensures Qualifies(TempOptions)
  {
    TempDistinct();
    DistinctReadsBack(TempOptions);
    TempShape();
  }
}
