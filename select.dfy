/** The select entities: one per option table, showing the option for the
    cached device value and writing the device code of a chosen option. */
module Select {
  import opened Errors
  import opened Text
  import opened Catalog
  import opened Values
  import opened Coordinator
  import opened Entity
  import opened Options

  datatype SelectDescription = SelectDescription(key: string, dataProtocol: string, optionsMap: Table)

  const SelectTypes: seq<SelectDescription> := [
    SelectDescription("mode", "MODE", ModeOptions),
    SelectDescription("program", "PROGRAM", ProgramOptions),
    SelectDescription("detergent_type", "DETERGENT_TYPE", DetergentTypeOptions),
    SelectDescription("temperature", "TEMP", TempOptions),
    SelectDescription("spin_level", "SPIN_LEVEL", SpinLevelOptions),
    SelectDescription("rinse_times", "RINSE_TIMES", RinseTimesOptions),
    SelectDescription("drying_mode", "DRYING_MODE", DryingModeOptions)]

  /** The keys whose current option is looked up in their table. */
  const MappedKeys: seq<string> :=
    ["mode", "program", "detergent_type", "temperature", "spin_level", "rinse_times", "drying_mode"]

  /** The protocol an entity writes to: its data protocol, else its key. */
  function EntityProtocol(d: SelectDescription): string {
    if d.dataProtocol != "" then d.dataProtocol else d.key
  }

  /** The name an entity re-queries after a write. */
  function RefreshName(d: SelectDescription): string {
    if d.dataProtocol != "" then Lower(d.dataProtocol) else d.key
  }

  /** The options an entity offers: its table's options, in order. */
  function OptionsOf(d: SelectDescription): (r: seq<string>)
    ensures |r| == |d.optionsMap|
    ensures forall i :: 0 <= i < |r| ==> r[i] == d.optionsMap[i].1
    ensures forall o :: o in r <==> IsOption(d.optionsMap, o)
  {
    var r := GetAllOptions(NewOptionsMap(d.optionsMap));
    assert forall i :: 0 <= i < |r| ==> r[i] == d.optionsMap[i].1;
    r
  }

  /** Hidden current values: none shown for them. */
  predicate Unset(v: Val) {
    v == Null || v == Str("not set")
  }

  /** `current_option` as written: the dict lookup raises TypeError on an
      unhashable cached value. */
  function CurrentOptionAsWritten(d: SelectDescription, value: Val): (r: Result<Option<string>>)
    ensures r.Err? <==> d.key != "operation" && !Unset(value) && d.key in MappedKeys && !Hashable(value)
    ensures r.Err? ==> r.error == TypeError
  {
    if d.key == "operation" then Ok(None)
    else if Unset(value) then Ok(None)
    else if d.key in MappedKeys then
      if !Hashable(value) then Err(TypeError)
      else if value.Str? && TableGet(d.optionsMap, value.s).Some? then
        Ok(Some(TableGet(d.optionsMap, value.s).value))
      else if TableGet(d.optionsMap, PyStr(value)).Some? then
        Ok(Some(TableGet(d.optionsMap, PyStr(value)).value))
      else Ok(None)
    else Ok(Some(PyStr(value)))
  }

  /** `current_option` with an unhashable value treated as having no
      mapping. A mapped entity only ever shows one of its options. */
  function CurrentOption(d: SelectDescription, value: Val): (r: Option<string>)
    ensures d.key == "operation" || Unset(value) ==> r == None
    ensures d.key in MappedKeys && r.Some? ==> IsOption(d.optionsMap, r.value)
    ensures d.key in MappedKeys && !Unset(value) && !IsKey(d.optionsMap, PyStr(value)) ==> r == None
    ensures d.key != "operation" && !Unset(value) && d.key !in MappedKeys ==> r == Some(PyStr(value))
  {
    if d.key == "operation" then None
    else if Unset(value) then None
    else if d.key in MappedKeys then
      if !Hashable(value) then None
      else if value.Str? && TableGet(d.optionsMap, value.s).Some? then
        Some(TableGet(d.optionsMap, value.s).value)
      else if TableGet(d.optionsMap, PyStr(value)).Some? then
        Some(TableGet(d.optionsMap, PyStr(value)).value)
      else None
    else Some(PyStr(value))
  }

  /** The corrected `current_option` differs from the written one only
      where the written one raises. */
  lemma CurrentOptionCorrection(d: SelectDescription, value: Val)
    ensures CurrentOptionAsWritten(d, value).Ok? ==>
              CurrentOptionAsWritten(d, value) == Ok(CurrentOption(d, value))
    ensures CurrentOptionAsWritten(d, value).Err? ==> CurrentOption(d, value) == None
  {
  }

  /** A failed transport call during the initial load caches `{}` for MODE,
      and the mode select then raises instead of showing no option. */
  lemma UnhashableCachedValue()
    ensures Answer(MODE, InitialStep(MODE), (q: Protocol) => Returned(Dict([]))) == Some(Dict([]))
    ensures CurrentOptionAsWritten(SelectTypes[0], Dict([])) == Err(TypeError)
    ensures CurrentOption(SelectTypes[0], Dict([])) == None
  {
    assert !HasKey([], MODE);
    assert Dict([]) != Str("not set");
  }

  /** Each device value of a table shows as its option. */
  lemma CurrentOptionShowsTable(d: SelectDescription, i: nat)
    requires d.key in MappedKeys && ReadsBack(d.optionsMap) && i < |d.optionsMap|
    requires d.optionsMap[i].0 != "not set"
    ensures CurrentOption(d, Str(d.optionsMap[i].0)) == Some(d.optionsMap[i].1)
  {
  }

  // ---------------------------------------------------------------------
  // Choosing an option

  /** The library's device enumerations, member name to code. */
  datatype DeviceEnums = DeviceEnums(
    mode: map<string, int>, program: map<string, int>, temperature: map<string, int>,
    spin: map<string, int>, rinse: map<string, int>, drying: map<string, int>)

  /** The enumeration a key's option is looked up in, with the member used
      when the option is not one of its names. */
  function EnumFor(key: string, enums: DeviceEnums): (r: Option<(map<string, int>, string)>)
    ensures r.None? <==> key !in ["mode", "program", "temperature", "spin_level", "rinse_times", "drying_mode"]
  {
    if key == "mode" then Some((enums.mode, "wash"))
    else if key == "program" then Some((enums.program, "standard"))
    else if key == "temperature" then Some((enums.temperature, "normal"))
    else if key == "spin_level" then Some((enums.spin, "mid"))
    else if key == "rinse_times" then Some((enums.rinse, "mid"))
    else if key == "drying_mode" then Some((enums.drying, "none"))
    else None
  }

  /** The code `async_select_option` writes for an option as written: the
      option's member if it names one, else the default member; nothing for
      a key without an enumeration. A missing default member raises. */
  function ChosenCodeAsWritten(key: string, option: string, enums: DeviceEnums): (r: Result<Option<int>>)
    ensures r == Ok(None) <==> EnumFor(key, enums).None?
    ensures r.Ok? && r.value.Some? ==> r.value.value in EnumFor(key, enums).value.0.Values
    ensures EnumFor(key, enums).Some? && option in EnumFor(key, enums).value.0 ==>
              r == Ok(Some(EnumFor(key, enums).value.0[option]))
    ensures EnumFor(key, enums).Some? && option !in EnumFor(key, enums).value.0 ==>
              var (e, fallback) := EnumFor(key, enums).value;
              r == if fallback in e then Ok(Some(e[fallback])) else Err(AttributeError(fallback))
  {
    match EnumFor(key, enums)
    case None => Ok(None)
    case Some((e, fallback)) =>
      if option in e then Ok(Some(e[option]))
      else if fallback in e then Ok(Some(e[fallback]))
      else Err(AttributeError(fallback))
  }

  /** The fallback members, and the keys that write nothing. */
  lemma Fallbacks(enums: DeviceEnums)
    ensures EnumFor("mode", enums) == Some((enums.mode, "wash"))
    ensures EnumFor("program", enums) == Some((enums.program, "standard"))
    ensures EnumFor("temperature", enums) == Some((enums.temperature, "normal"))
    ensures EnumFor("spin_level", enums) == Some((enums.spin, "mid"))
    ensures EnumFor("rinse_times", enums) == Some((enums.rinse, "mid"))
    ensures EnumFor("drying_mode", enums) == Some((enums.drying, "none"))
    ensures EnumFor("detergent_type", enums) == None
  {
  }

  /** The member name an option stands for: its table key when it is one of
      the table's options, the option itself otherwise. */
  function MemberName(d: SelectDescription, option: string): (r: string)
    ensures !IsOption(d.optionsMap, option) ==> r == option
  {
    var m := NewOptionsMap(d.optionsMap);
    if option in m.reverse then m.reverse[option] else option
  }

  /** The corrected choice: the option is translated back to its table key
      before the enumeration lookup. */
  function ChosenCode(d: SelectDescription, option: string, enums: DeviceEnums): (r: Result<Option<int>>)
    ensures r == Ok(None) <==> EnumFor(d.key, enums).None?
    ensures r.Ok? && r.value.Some? ==> r.value.value in EnumFor(d.key, enums).value.0.Values
  {
    ChosenCodeAsWritten(d.key, MemberName(d, option), enums)
  }

  /** Choosing a shown option writes the code of the member its table key
      names, when the enumeration has that member. */
  lemma ChosenOptionWritesItsMember(d: SelectDescription, i: nat, enums: DeviceEnums)
    requires ReadsBack(d.optionsMap) && i < |d.optionsMap|
    requires EnumFor(d.key, enums).Some? && d.optionsMap[i].0 in EnumFor(d.key, enums).value.0
    ensures ChosenCode(d, d.optionsMap[i].1, enums) ==
            Ok(Some(EnumFor(d.key, enums).value.0[d.optionsMap[i].0]))
  {
  }

  /** Where every option is its own key, the correction changes nothing. */
  lemma IdentityTablesUnaffected(d: SelectDescription, option: string, enums: DeviceEnums)
    requires IdentityShape(d.optionsMap)
    ensures ChosenCode(d, option, enums) == ChosenCodeAsWritten(d.key, option, enums)
  {
    if IsOption(d.optionsMap, option) {
      var m := NewOptionsMap(d.optionsMap);
      var i :| 0 <= i < |d.optionsMap| && d.optionsMap[i] == (m.reverse[option], option);
    }
  }

  /** The temperature option "20°C" is not a member name, so as written it
      falls back to "normal"; corrected it writes the twenty_c code. */
  lemma TwentyDegreesOption(enums: DeviceEnums)
    requires "20\U{00B0}C" !in enums.temperature
    requires "normal" in enums.temperature && "twenty_c" in enums.temperature
    ensures ChosenCodeAsWritten("temperature", "20\U{00B0}C", enums) ==
            Ok(Some(enums.temperature["normal"]))
    ensures ChosenCode(SelectTypes[3], "20\U{00B0}C", enums) ==
            Ok(Some(enums.temperature["twenty_c"]))
  {
    assert SelectTypes[3].optionsMap == TempOptions;
    TempQualifies();
    ChosenOptionWritesItsMember(SelectTypes[3], 5, enums);
  }

  /** Every select entity re-queries a protocol of the catalog under that
      protocol's own cache key, so the answer lands where ticks store it. */
  lemma RefreshUsesCacheKey(i: nat)
    requires i < |SelectTypes|
    ensures var d := SelectTypes[i];
            var p := Protocol(EntityProtocol(d));
            p in Manual && p !in WriteOnly && RefreshName(d) == Key(p)
  {
  }

  // ---------------------------------------------------------------------
  // The entity

  /** The effect on the coordinator of the select entity's write: the base
      write; then, if it went through, the re-query of the entity's
      protocol; then, if that succeeded, the state publication. Failures
      change nothing further and are not passed on. */
  twostate predicate SetValueEffect(c: WasherCoordinator, d: SelectDescription, protocol: string,
                                    value: Val, writeOk: bool, now: int, reply: Reply)
    reads c
  {
    var written := WriteCalls(c.members, protocol, value, writeOk);
    var name := RefreshName(d);
    var q := QueryResult(c.members, name, reply);
    && c.initialLoadComplete == old(c.initialLoadComplete)
    && c.initialLoadStarted == old(c.initialLoadStarted)
    && (WriteOutcome(c.members, protocol, value, writeOk).Failed? ==>
          c.calls == old(c.calls) + written
          && c.cache == old(c.cache) && c.lastUpdate == old(c.lastUpdate) && c.data == old(c.data))
    && (WriteOutcome(c.members, protocol, value, writeOk).Done? ==>
          c.calls == old(c.calls) + written + QueryCalls(c.members, name, reply)
                     + (if q.Ok? then [StateWritten] else [])
          && (q.Ok? ==> c.cache == old(c.cache)[name := q.value]
                        && c.lastUpdate == old(c.lastUpdate)[name := now]
                        && c.data == old(c.data)[name := q.value])
          && (q.Err? ==> c.cache == old(c.cache) && c.lastUpdate == old(c.lastUpdate)
                         && c.data == old(c.data)))
  }

  class SelectEntity {
    const api: ApiEntity
    const description: SelectDescription

    constructor(coordinator: WasherCoordinator, description: SelectDescription)
      ensures this.description == description
      ensures api.coordinator == coordinator && api.protocol == EntityProtocol(description)
    {
      this.api := new ApiEntity(coordinator, EntityProtocol(description));
      this.description := description;
    }

    /** The options the entity offers. */
    function Options(): (r: seq<string>)
      ensures |r| == |description.optionsMap|
      ensures forall i :: 0 <= i < |r| ==> r[i] == description.optionsMap[i].1
      ensures forall o :: o in r <==> IsOption(description.optionsMap, o)
    {
      OptionsOf(description)
    }

    /** The option shown for the coordinator's cached value. */
    function Current(): (r: Option<string>)
      reads api.coordinator
      ensures description.key in MappedKeys && r.Some? ==> r.value in Options()
    {
      CurrentOption(description, api.GetState())
    }

    /** Writes `value` through the base entity and, once that went
        through, re-queries the entity's protocol and publishes the state.
        Errors are logged and swallowed. */
    method SetValue(value: Val, writeOk: bool, now: int, reply: Reply)
      modifies api.coordinator
      ensures SetValueEffect(api.coordinator, description, api.protocol, value, writeOk, now, reply)
    {
      var written := api.SetValue(value, writeOk);
      if written.Failed? {
        return;
      }
      var q := api.coordinator.QueryProtocol(RefreshName(description), now, reply);
      if q.Err? {
        assert api.coordinator.calls == api.coordinator.calls + [];
        return;
      }
      api.coordinator.calls := api.coordinator.calls + [StateWritten];
    }

    /** Writes the device code of the chosen option; a key without an
        enumeration writes nothing. */
    method SelectOption(option: string, enums: DeviceEnums, writeOk: bool, now: int, reply: Reply)
      returns (r: Outcome)
      modifies api.coordinator
      ensures var c := ChosenCode(description, option, enums);
              && (c.Err? ==> r == Failed(c.error) && unchanged(api.coordinator))
              && (c == Ok(None) ==> r == Done && unchanged(api.coordinator))
              && (c.Ok? && c.value.Some? ==>
                    r == Done &&
                    SetValueEffect(api.coordinator, description, api.protocol, Int(c.value.value),
                                   writeOk, now, reply))
    {
      var code := ChosenCode(description, option, enums);
      if code.Err? {
        return Failed(code.error);
      }
      if code.value.None? {
        return Done;
      }
      SetValue(Int(code.value.value), writeOk, now, reply);
      r := Done;
    }
  }
}
