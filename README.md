# Roborock washer integration: coordinator, write path and select entities

This project models the core of the Home Assistant integration for Roborock
Zeo washing machines:

- **The coordinator.** It keeps a cache of protocol values, keyed by the
  lower-cased protocol name. It also keeps one timestamp per key and a one-way
  "initial load complete" flag.
  - Its periodic tick starts with an initial load. That load queries every
    protocol of the catalog one at a time, except the write-only commands
    START, PAUSE and SHUTDOWN.
  - Later ticks query only the frequent tier (table `Catalog.Frequent`) and
    the infrequent tier (`Catalog.Infrequent`). A protocol of a tier is
    queried once its interval has passed since its timestamp: 60 seconds for
    the frequent tier, 21600 for the infrequent one.
  - Manual protocols (`Catalog.Manual`) are never polled.
  - Each answer is normalised and stored, and SOUND_SET is coerced to a boolean
    during the initial load. An answer is normalised as follows:
    - a `{protocol: value}` dict gives that value;
    - a one-element list gives its element;
    - anything else passes through.
  - A caller can read the cache, send a command, and query one protocol on
    demand.
- **The base entity.** It reads its protocol's cached value. Its write path:
  - resolves the protocol name;
  - turns the value into an integer for the integer protocols;
  - writes it;
  - requests a refresh.
- **The sensor filter.** It shows None for a missing value, for `"not set"`
  and for an empty dict.
- **The select entities.** There are seven option tables, and the
  `EnhancedOptionsMap` gives their forward and reverse lookups with the
  `Custom (…)` fallback format.
  - Each select entity shows the table's option for the cached value. In the
    source this lookup raises TypeError when the cached value is a list or a
    dict.
  - Choosing an option looks the option up as a member name of the device
    enumeration, falls back to the enumeration's default member when it is
    not one, writes that member's code and then re-queries the protocol.
  - Both behaviours are modelled as written (`Select.CurrentOptionAsWritten`,
    `Select.ChosenCodeAsWritten`). The `SelectEntity` class uses the
    corrected versions described under "## Findings": no option for an
    unhashable value, and the option translated back to its table key before
    the enumeration lookup.

The model is split into these modules:

- `Errors` — Option, Result and the Python exceptions raised.
- `Text` — ASCII case mapping, and Python's `int()` and `str()` on integers.
- `Catalog` — the protocol enumeration and the polling tiers.
- `Values` — Python values: truthiness, hashability, `str()`, answer
  normalisation and the SOUND_SET coercion.
- `Coordinator` — the `WasherCoordinator` class.
- `Entity` — the `ApiEntity` class and the write path as functions.
- `Sensor` — the sensor's value filter.
- `Options` — the option tables and the `EnhancedOptionsMap`.
- `Select` — the select descriptions and the `SelectEntity` class.

The classes record every interaction with the outside world in the
coordinator's `calls` sequence. These are transport queries and writes,
refresh requests, listener notifications and state publications.

A tick is specified against three functions of the old state:

- `Gather` gives the values a walk collects;
- `Issued` gives the queries a walk issues;
- `Stamp` gives the timestamps a walk writes.

The lemmas beside them say which protocols are queried and what ends up in
the cache.

The transport is a parameter:

- `answer` gives the reply to each single-protocol query of a tick;
- `reply` is the reply to an on-demand query;
- `writeOk` says whether a write went through.

The clock is the `now` parameter, in seconds.

## Model

"The source" below is the integration's Python code.

| member | source | states |
|---|---|---|
| Text.LowerIdempotent | custom_components/roborock_washer/coordinator.py:298 | lower-casing an already lower-cased key changes nothing, so a key looked up twice in lower case finds the same entry |
| Text.UpperUndoesLower | custom_components/roborock_washer/coordinator.py:326 | upper-casing the cache key of a member name gives the member name back |
| Text.LowerInjective | custom_components/roborock_washer/coordinator.py:165 | two member names with the same cache key are the same name |
| Text.ParseInt | custom_components/roborock_washer/entity.py:138 | `int(s)` succeeds exactly on an optional sign followed by at least one digit |
| Text.IntRoundTrip | custom_components/roborock_washer/select.py:172 | `int(str(n)) == n` for every integer n |
| Text.NatToStringDigits | custom_components/roborock_washer/select.py:151 | the decimal string of a natural number is a non-empty digit string whose value is that number |
| Catalog.Resolve | custom_components/roborock_washer/coordinator.py:306-308 | a name resolves exactly when the enumeration has a member of that name, and resolves to that member |
| Catalog.CatalogNamesAreUpper | custom_components/roborock_washer/coordinator.py:78-117 | every catalog member name is made of upper-case letters, digits and underscores |
| Catalog.CatalogNamesDistinct | custom_components/roborock_washer/coordinator.py:78-117 | the catalog lists no member twice |
| Catalog.CatalogKeysDistinct | custom_components/roborock_washer/coordinator.py:117 | no two catalog members share a cache key |
| Catalog.PolledKeysDistinct | custom_components/roborock_washer/coordinator.py:209-252 | no two polled members share a cache key |
| Catalog.TiersDisjoint | custom_components/roborock_washer/coordinator.py:78-114 | the manual tier shares no member with a polled tier, and the two polled tiers share none |
| Catalog.CatalogNamesUpper | custom_components/roborock_washer/coordinator.py:326 | upper-casing a catalog member's cache key recovers its name |
| Values.Truthy | custom_components/roborock_washer/coordinator.py:193 | `bool(v)` is false exactly for None, False, 0, the empty string, the empty list and the empty dict |
| Values.PyStr | custom_components/roborock_washer/select.py:407 | `str(v)` of a string is the string itself, of an integer its decimal form, of None "None" and of a bool "True" or "False" |
| Values.Normalize | custom_components/roborock_washer/coordinator.py:174-179 | a dict holding the queried protocol gives a value paired with that protocol, a one-element list gives its element, and anything else passes through unchanged |
| Values.Lookup | custom_components/roborock_washer/coordinator.py:175 | a protocol's value in a dict answer is a value paired with that protocol in the dict |
| Values.ShapesAgree | custom_components/roborock_washer/coordinator.py:174-179 | a bare value, a one-element list of it and a dict of the protocol to it all normalise to that value |
| Values.BatchedAnswer | custom_components/roborock_washer/coordinator.py:174-175 | a dict answer with distinct keys normalises to the value paired with the queried protocol |
| Values.CoerceSoundSet | custom_components/roborock_washer/coordinator.py:192-193 | the coercion fails exactly for a non-numeric string, keeps None as None, turns a numeric string into `int(s) != 0` and any other value into its truthiness |
| Values.CoercionAgrees | custom_components/roborock_washer/coordinator.py:192-193 | an integer, its decimal string and the bool standing for 0 or 1 all coerce to `n != 0` |
| Values.CoercionExamples | custom_components/roborock_washer/coordinator.py:192-193 | "0" gives false, "1" and "2" give true, "abc" raises, and `{}` gives false |
| Values.CoercionIdempotent | custom_components/roborock_washer/coordinator.py:192-193 | coercing a coerced value again changes nothing |
| Coordinator.QueryResult | custom_components/roborock_washer/coordinator.py:320-350 | an unknown name raises ValueError "Unknown protocol: name", a raising transport raises, and a sound_set result is a bool or None |
| Coordinator.QueryCalls | custom_components/roborock_washer/coordinator.py:326-359 | an on-demand query issues nothing for an unknown name; otherwise its first call is the query of the resolved member, and the only other call is the listener notification, made exactly when the query succeeds |
| Coordinator.DueMonotone | custom_components/roborock_washer/coordinator.py:211-213 | a protocol that is due stays due as time passes |
| Coordinator.DueAfterStamp | custom_components/roborock_washer/coordinator.py:213 | a protocol stamped at `now` is due again exactly once its interval has passed since `now` |
| Coordinator.InitialStep | custom_components/roborock_washer/coordinator.py:161-193 | the initial load skips exactly the write-only commands, and coerces exactly SOUND_SET |
| Coordinator.SteadyStep | custom_components/roborock_washer/coordinator.py:209-252 | a frequent protocol is queried exactly when it is due at 60 seconds, an infrequent one exactly when it is due at 21600 seconds, any other never, and none is coerced |
| Coordinator.Answer | custom_components/roborock_washer/coordinator.py:166-199 | a skipped step or a raising query keeps nothing; a returned answer keeps its normalised value, passed through the SOUND_SET coercion when the step coerces |
| Coordinator.StepUnaffected | custom_components/roborock_washer/coordinator.py:210-213 | stamping other keys during a tick does not change whether a protocol is due |
| Coordinator.WalkAdvance | custom_components/roborock_washer/coordinator.py:161-200 | the next protocol of a walk has no collected key yet, so the timestamps written so far leave its step unchanged, and the walk grows by that step's value and query |
| Coordinator.OrderDistinct | custom_components/roborock_washer/coordinator.py:161 | both walk orders have distinct cache keys |
| Coordinator.GatherKeys | custom_components/roborock_washer/coordinator.py:195 | every collected key is the cache key of a protocol on the walk |
| Coordinator.GatherSpec | custom_components/roborock_washer/coordinator.py:168-200 | a walk collects a value for a protocol exactly when its step obtained one, and that value |
| Coordinator.IssuedSpec | custom_components/roborock_washer/coordinator.py:161-169 | a walk issues only queries, and queries a protocol exactly when it is on the walk and its step asks |
| Coordinator.IssuedAppend | custom_components/roborock_washer/coordinator.py:161 | the queries of a concatenated walk are those of its parts, in order |
| Coordinator.FrequentInitialQueries | custom_components/roborock_washer/coordinator.py:78-83 | the initial load queries STATE, WASHING_LEFT and COUNTDOWN, in that order |
| Coordinator.InfrequentInitialQueries | custom_components/roborock_washer/coordinator.py:86-92 | the initial load queries ERROR, TIMES_AFTER_CLEAN and DETERGENT_EMPTY, in that order |
| Coordinator.CommandInitialQueries | custom_components/roborock_washer/coordinator.py:161-164 | an initial-load walk over START, PAUSE and SHUTDOWN issues no query |
| Coordinator.SettingInitialQueries | custom_components/roborock_washer/coordinator.py:99-103 | the initial load queries MODE, PROGRAM, TEMP and RINSE_TIMES in that order |
| Coordinator.LaterSettingInitialQueries | custom_components/roborock_washer/coordinator.py:104-111 | the initial load queries SPIN_LEVEL, DRYING_MODE, DETERGENT_TYPE and SOUND_SET in that order |
| Coordinator.ManualInitialQueries | custom_components/roborock_washer/coordinator.py:95-114 | the initial load queries every manual protocol except the three commands, in order |
| Coordinator.InitialLoadOrder | custom_components/roborock_washer/coordinator.py:161-169 | the initial load issues exactly the catalog's queries, in catalog order, without the commands |
| Coordinator.InitialLoadQueries | custom_components/roborock_washer/coordinator.py:161-164 | the initial load queries a protocol exactly when it is in the catalog and is not write-only |
| Coordinator.TickStores | custom_components/roborock_washer/coordinator.py:282-287 | after a complete tick the cache holds a protocol's new value when one was obtained, and its old entry (or none) otherwise |
| Coordinator.SteadyQueriesDue | custom_components/roborock_washer/coordinator.py:209-252 | a later tick queries a protocol exactly when it is in a polled tier and that tier's interval has passed since its timestamp, or it has none |
| Coordinator.ManualNeverPolled | custom_components/roborock_washer/coordinator.py:277-278 | a later tick never queries a manual protocol |
| Coordinator.QueryMatchesInitialLoad | custom_components/roborock_washer/coordinator.py:320-354 | querying a protocol on demand by its cache key succeeds exactly when the initial load stores a value for it, and yields that value |
| Coordinator.WasherCoordinator.constructor | custom_components/roborock_washer/coordinator.py:117-125 | a new coordinator has an empty cache, no timestamps, no data, both flags clear and no calls |
| Coordinator.WasherCoordinator.GetCachedValue | custom_components/roborock_washer/coordinator.py:295-301 | the cached value under the lower-cased key, or None when there is none |
| Coordinator.WasherCoordinator.Tick | custom_components/roborock_washer/coordinator.py:142-293 | a complete tick merges the results into the cache and returns them, or the old cache when there are none; an unexpected error returns the old cache unchanged; timestamps, queries and flags follow the walk |
| Coordinator.WasherCoordinator.Update | custom_components/roborock_washer/coordinator.py:161-289 | a walk cut short by an unexpected error leaves the cache and the flag as they were and returns the cache; a complete walk ends the initial load and merges its results into the cache, returning them, or the cache when there are none |
| Coordinator.WasherCoordinator.Walk | custom_components/roborock_washer/coordinator.py:161-275 | the walk collects, stamps and queries exactly what its specification functions say, stopping at an unexpected error |
| Coordinator.WasherCoordinator.Visit | custom_components/roborock_washer/coordinator.py:166-199 | one protocol is queried exactly when its step asks; the value kept is the normalised and, if required, coerced answer, and nothing when the query or the coercion raises |
| Coordinator.WasherCoordinator.SendCommand | custom_components/roborock_washer/coordinator.py:303-316 | an unknown name raises ValueError "Unknown protocol: name" and sends nothing; otherwise the write is sent, and a refresh is requested only if it went through; the cache is untouched |
| Coordinator.WasherCoordinator.QueryProtocol | custom_components/roborock_washer/coordinator.py:320-364 | the result is the query's outcome; on success the value is cached, stamped and published under the name as given; on failure nothing but the issued query changes |
| Entity.CoerceForWrite | custom_components/roborock_washer/entity.py:126-142 | a write is refused exactly for a non-numeric string sent to an integer protocol; for an integer protocol a bool is sent as 1 or 0 and a numeric string as `int(s)`; every other value is sent unchanged |
| Entity.WritePlan | custom_components/roborock_washer/entity.py:119-142 | an unknown name raises ValueError "未知协议: name"; otherwise the write goes to that member with the coerced value, or raises the coercion's error |
| Entity.WriteCalls | custom_components/roborock_washer/entity.py:144-149 | nothing is sent exactly when the plan fails; the write comes first, and a refresh is requested exactly when it went through |
| Entity.WriteOutcome | custom_components/roborock_washer/entity.py:144-153 | a write succeeds exactly when the plan succeeds and the transport accepts it; a planning error is passed on |
| Entity.WriteCoercionAgrees | custom_components/roborock_washer/entity.py:130-142 | for an integer protocol a bool and its integer send the same, and a decimal string sends its integer |
| Entity.SoundSetWriteReadAgree | custom_components/roborock_washer/entity.py:128-142 | the sound setting write refuses exactly the values the coordinator's SOUND_SET coercion refuses, and what it sends reads back as the same boolean |
| Entity.ApiEntity.constructor | custom_components/roborock_washer/entity.py:68-78 | the entity is bound to its coordinator and protocol name |
| Entity.ApiEntity.GetState | custom_components/roborock_washer/entity.py:80-103 | the cached value under the entity's lower-cased protocol name, or None |
| Entity.ApiEntity.SetValue | custom_components/roborock_washer/entity.py:105-153 | the outcome and the calls made are those of the write plan; the cache, timestamps, data and flags are untouched |
| Sensor.NativeValue | custom_components/roborock_washer/sensor.py:236-245 | the sensor shows None exactly for None, "not set" and an empty dict, and any other value unchanged |
| Sensor.FalsyValuesShown | custom_components/roborock_washer/sensor.py:239-245 | 0, False, the empty string, the empty list and a non-empty dict are shown as they are |
| Sensor.FailedCallDisplay | custom_components/roborock_washer/sensor.py:242-243 | the `{}` a failed transport call yields is stored as is and shown as unknown, except for SOUND_SET during the initial load, which shows false |
| Options.TableGet | custom_components/roborock_washer/select.py:145-146 | a table lookup succeeds exactly for one of its keys, and returns an option paired with that key |
| Options.Reverse | custom_components/roborock_washer/select.py:133 | the reverse map's domain is the table's options, and it maps each option to a key paired with it |
| Options.NewOptionsMap | custom_components/roborock_washer/select.py:124-133 | the map keeps its base table and reverses exactly its options |
| Options.GetOption | custom_components/roborock_washer/select.py:135-151 | lookup raises TypeError exactly for an unhashable value; otherwise it yields a table option or `Custom (str(value))`, the latter whenever `str(value)` is not a key |
| Options.GetValue | custom_components/roborock_washer/select.py:153-177 | a known option yields its key; otherwise only the `Custom (…)` form is accepted, giving `int()` of its inner text when that parses and the inner text otherwise, and anything else raises ValueError "Invalid option: option" |
| Options.GetAllOptions | custom_components/roborock_washer/select.py:179-185 | the options, in table order |
| Options.TableGetPair | custom_components/roborock_washer/select.py:145-146 | in a table with distinct keys each key yields its own option |
| Options.ReversePair | custom_components/roborock_washer/select.py:133 | in a table with distinct options each option maps back to its own key |
| Options.DistinctReadsBack | custom_components/roborock_washer/select.py:133-146 | a table with distinct keys and distinct options reads back both ways |
| Options.IdentityReadsBack | custom_components/roborock_washer/select.py:133-146 | a table whose every option is its own key reads back both ways |
| Options.KeyRoundTrip | custom_components/roborock_washer/select.py:133-167 | a table key shows as its option and that option gives the key back |
| Options.AllOptionsRoundTrip | custom_components/roborock_washer/select.py:153-185 | every offered option gives a value that shows as the same option |
| Options.CustomShape | custom_components/roborock_washer/select.py:151-172 | the custom form of s starts with "Custom (" and ends with ")", and its inner part is s |
| Options.CustomIntRoundTrip | custom_components/roborock_washer/select.py:151-172 | an integer outside the table shows as its custom form, which gives the integer back |
| Options.CustomStrRoundTrip | custom_components/roborock_washer/select.py:151-175 | a non-numeric string outside the table shows as its custom form, which gives the string back |
| Options.CustomValue | custom_components/roborock_washer/select.py:166-175 | the custom form of any s that is not a table option gives back `int(s)` when s parses as a signed decimal, and the string s otherwise |
| Options.CustomValueExamples | custom_components/roborock_washer/select.py:166-175 | the custom forms of "007", "+5" and "-0" give back 7, 5 and 0 |
| Options.CustomNumericString | custom_components/roborock_washer/select.py:151-175 | any numeric string outside the table, canonical or not, shows as its custom form, which gives back the integer `int()` reads in it rather than the string |
| Options.IntegersRoundTrip | custom_components/roborock_washer/select.py:145-175 | in a table whose keys read back and cannot collide with the custom form, the option shown for any integer n gives back exactly the integer n |
| Options.IdentityQualifies | custom_components/roborock_washer/select.py:62-227 | every table whose options are its keys is a table for which the round trips hold |
| Options.ModeQualifies | custom_components/roborock_washer/select.py:62-66 | the mode table has the round trips |
| Options.ProgramQualifies | custom_components/roborock_washer/select.py:69-105 | the program table has the round trips |
| Options.DetergentTypeQualifies | custom_components/roborock_washer/select.py:108-113 | the detergent type table has the round trips |
| Options.TempDistinct | custom_components/roborock_washer/select.py:189-196 | the temperature table has distinct keys and distinct options |
| Options.TempQualifies | custom_components/roborock_washer/select.py:189-196 | the temperature table has the round trips |
| Options.SpinLevelQualifies | custom_components/roborock_washer/select.py:199-207 | the spin level table has the round trips |
| Options.RinseTimesQualifies | custom_components/roborock_washer/select.py:212-219 | the rinse times table has the round trips |
| Options.DryingModeQualifies | custom_components/roborock_washer/select.py:222-227 | the drying mode table has the round trips |
| Select.OptionsOf | custom_components/roborock_washer/select.py:376 | an entity offers its table's options, one per row, in table order |
| Select.CurrentOptionAsWritten | custom_components/roborock_washer/select.py:378-417 | the shown option raises TypeError exactly for an unhashable value of a mapped entity that is set |
| Select.CurrentOption | custom_components/roborock_washer/select.py:378-417 | nothing is shown for "operation" or an unset value; a mapped entity shows only its own options, and nothing for a value that is not a key; any other entity shows `str(value)` |
| Select.CurrentOptionCorrection | custom_components/roborock_washer/select.py:399-414 | the corrected option agrees with the written one wherever the written one does not raise |
| Select.UnhashableCachedValue | custom_components/roborock_washer/select.py:402 | a failed initial MODE query caches `{}`, on which the mode select as written raises |
| Select.CurrentOptionShowsTable | custom_components/roborock_washer/select.py:399-405 | each device value of a table shows as its option |
| Select.EnumFor | custom_components/roborock_washer/select.py:434-481 | exactly the keys mode, program, temperature, spin_level, rinse_times and drying_mode have a device enumeration |
| Select.ChosenCodeAsWritten | custom_components/roborock_washer/select.py:434-484 | an enumerated key writes its option's member code, or else the default member's code, raising AttributeError when the default is missing; other keys write nothing |
| Select.Fallbacks | custom_components/roborock_washer/select.py:434-484 | the default members are wash, standard, normal, mid, mid and none; detergent type writes nothing |
| Select.MemberName | custom_components/roborock_washer/select.py:133 | an option not in the table stands for itself |
| Select.ChosenCode | custom_components/roborock_washer/select.py:419-487 | a key without an enumeration writes nothing; otherwise the code written is one of its enumeration's codes |
| Select.ChosenOptionWritesItsMember | custom_components/roborock_washer/select.py:434-470 | choosing a shown option writes the code of the member named by its table key |
| Select.IdentityTablesUnaffected | custom_components/roborock_washer/select.py:434-481 | where every option is its own key the correction writes what the source writes |
| Select.TwentyDegreesOption | custom_components/roborock_washer/select.py:450-457 | as written, "20°C" writes the "normal" code; corrected, it writes the twenty_c code |
| Select.RefreshUsesCacheKey | custom_components/roborock_washer/select.py:509-511 | every select entity re-queries a readable manual protocol under that protocol's own cache key |
| Select.SelectEntity.constructor | custom_components/roborock_washer/select.py:349-376 | the entity writes to its data protocol, or else to its key |
| Select.SelectEntity.Options | custom_components/roborock_washer/select.py:376 | the entity offers its table's options, one per row, in table order |
| Select.SelectEntity.Current | custom_components/roborock_washer/select.py:378-417 | a mapped entity only ever shows one of the options it offers |
| Select.SelectEntity.SetValue | custom_components/roborock_washer/select.py:492-517 | the base write happens first; only if it went through comes the re-query of the protocol; only if that succeeded is the state published; errors are swallowed |
| Select.SelectEntity.SelectOption | custom_components/roborock_washer/select.py:419-490 | a missing default raises and changes nothing; a key without an enumeration changes nothing; otherwise the chosen code is written as SetValue does |

## Left out

- The Home Assistant framework is not modelled: scheduling, debouncing of refresh requests, `last_update_success`, device info and entity registration.
  - A refresh request is only recorded as a call.
  - `data` changes only where the coordinator writes it itself; after a tick the framework publishes the tick's result, and that is not modelled.
- Concurrency is not modelled. Coroutines run to completion one at a time, so an update and a query cannot interleave.
- The wall clock becomes the `now` parameter, in whole seconds. All the timestamps of one tick share one `now`, as they do in the source. An on-demand query stamps the `now` it is given.
- The transport becomes parameters: `answer` for each query of a tick, `reply` for an on-demand query, and `writeOk` for a write. What the library does with a write is not modelled.
- The outer `except Exception` of a tick is modelled by `fault`, the position in the walk before whose item an unexpected error escapes. Such an error can come from the key computation (coordinator.py:165, 210), the due check (coordinator.py:211-213) or a logging call; the model does not say which.
  - An error escaping after the initial-load flag is set (coordinator.py:202) but before the results are merged is not modelled: the model sets the flag only together with the merge.
  - An error escaping part-way through the merge and bookkeeping (coordinator.py:281-287), which would leave a partly merged cache, is not modelled.
- Aliasing is not modelled. In the source the published `data` may be the same dict object as the cache, and the model keeps them as separate values.
- The library's enumerations are not modelled. RoborockZeoProtocol is reduced to its member names, passed to the coordinator's constructor. The device enumerations ZeoMode, ZeoProgram, ZeoTemperature, ZeoSpin, ZeoRinse and ZeoDryingMode become `Select.DeviceEnums`, a map per enumeration from member name to code.
- zeo_protocol.py, config_flow.py, `__init__.py`, button.py and switch.py are not part of this model.
- Text.ParseInt: does not accept the surrounding whitespace or the digit-separating underscores that Python's `int()` allows.
- Text.Lower: maps only ASCII letters, which is all the protocol names use.
- Text.Upper: maps only ASCII letters. Python's `str.upper()` also maps letters such as 'ı' to 'I' and 'ſ' to 'S', so a non-ASCII name could resolve to a member in the source and not in the model.
- Text.ParseInt: accepts only ASCII digits. Python's `int()` also accepts the other Unicode decimal digits.
- Coordinator.WasherCoordinator.SendCommand: the `value` argument is always given; its default of None (coordinator.py:303) is the caller passing `Null`.
- Values.Val: has no floats; a float answer or write value is not modelled.
- Options.Table: a table is a sequence of pairs and may repeat a key; a lookup then takes the last pair, as a Python dict literal keeps the last value. Distinct keys are proved for the temperature table only (`Options.TempDistinct`).
- Select.SelectEntity.Current: shows the corrected option (`Select.CurrentOption`), which is none for an unhashable cached value; the source raises TypeError there (select.py:402, see "## Findings"). The behaviour as written is `Select.CurrentOptionAsWritten`.
- Select.SelectEntity.SelectOption: writes the corrected code (`Select.ChosenCode`), which translates a displayed option such as "20°C" to its table key first; the source writes the default member's code for it (select.py:450-457, see "## Findings"). The behaviour as written is `Select.ChosenCodeAsWritten`.
- Values.PyStr: `str()` of lists and dicts is approximated. A protocol key is written as its member name, and strings are quoted without escaping.
- Error messages: the text of a ValueError from `int()` and of an exception from the transport is paraphrased.
- Values.Val: `1 == True` as dict keys is not modelled. Every key the model looks up is a protocol or a string.
- Options.Qualifies: only the read-back property is proved for each table. The program table is not shown to have distinct options.

## Findings

| source | as written | input that shows it | evidently intended | confidence | as-written member | corrected member |
|---|---|---|---|---|---|---|
| custom_components/roborock_washer/select.py:402 | `value in options_map` on an unhashable cached value raises TypeError, so `current_option` fails | the initial query of MODE whose transport call fails and answers `{}`: `{}` is cached for "mode", and the mode select's `current_option` raises | show no option, as for any value without a mapping | not executed | Select.CurrentOptionAsWritten (shown by Select.UnhashableCachedValue) | Select.CurrentOption (Select.CurrentOptionCorrection) |
| custom_components/roborock_washer/select.py:450-457 | the chosen option is looked up as a ZeoTemperature member name, but the temperature entity offers display names such as "20°C" (select.py:189-196) | choosing "20°C": it is not a member name, so the `normal` code is written instead of the twenty_c code | translate the option back to its table key through the reverse map before the lookup | not executed; depends on the library's member names | Select.ChosenCodeAsWritten (shown by Select.TwentyDegreesOption) | Select.ChosenCode (Select.ChosenOptionWritesItsMember, Select.IdentityTablesUnaffected) |
