/** The protocol catalog of the coordinator: the members of the device's
    protocol enumeration that the integration uses, and their division into
    the frequent, infrequent and manual tiers. */
module Catalog {
  import opened Text
  import opened Errors

  /** A member of the protocol enumeration, identified by its member name
      (`RoborockZeoProtocol.STATE` is `Protocol("STATE")`). The numeric codes
      of the members never influence the core and are not modelled. */
  datatype Protocol = Protocol(name: string)

  const STATE: Protocol := Protocol("STATE")
  const WASHING_LEFT: Protocol := Protocol("WASHING_LEFT")
  const COUNTDOWN: Protocol := Protocol("COUNTDOWN")
  const ERROR: Protocol := Protocol("ERROR")
  const TIMES_AFTER_CLEAN: Protocol := Protocol("TIMES_AFTER_CLEAN")
  const DETERGENT_EMPTY: Protocol := Protocol("DETERGENT_EMPTY")
  const START: Protocol := Protocol("START")
  const PAUSE: Protocol := Protocol("PAUSE")
  const SHUTDOWN: Protocol := Protocol("SHUTDOWN")
  const MODE: Protocol := Protocol("MODE")
  const PROGRAM: Protocol := Protocol("PROGRAM")
  const TEMP: Protocol := Protocol("TEMP")
  const RINSE_TIMES: Protocol := Protocol("RINSE_TIMES")
  const SPIN_LEVEL: Protocol := Protocol("SPIN_LEVEL")
  const DRYING_MODE: Protocol := Protocol("DRYING_MODE")
  const DETERGENT_TYPE: Protocol := Protocol("DETERGENT_TYPE")
  const SOUND_SET: Protocol := Protocol("SOUND_SET")

  /** Polled at most once per FrequentInterval. */
  const Frequent: seq<Protocol> := [STATE, WASHING_LEFT, COUNTDOWN]

  /** Polled at most once per InfrequentInterval. */
  const Infrequent: seq<Protocol> := [ERROR, TIMES_AFTER_CLEAN, DETERGENT_EMPTY]

  /** Never polled after the initial load. */
  const Manual: seq<Protocol> :=
    [START, PAUSE, SHUTDOWN, MODE, PROGRAM, TEMP, RINSE_TIMES, SPIN_LEVEL,
     DRYING_MODE, DETERGENT_TYPE, SOUND_SET]

  /** Everything the initial load walks through, in this order. */
  const AllProtocols: seq<Protocol> := Frequent + Infrequent + Manual

  /** Commands that only accept a write; the initial load skips them. */
  const WriteOnly: seq<Protocol> := [START, PAUSE, SHUTDOWN]

  /** Coerced to a boolean during the initial load. */
  const InitialBooleans: seq<Protocol> := [SOUND_SET]

  /** Coerced to a boolean by the frequent tier: none. */
  const FrequentBooleans: seq<Protocol> := []

  /** The two tier intervals, in seconds: one minute and six hours. */
  const FrequentInterval: int := 60
  const InfrequentInterval: int := 6 * 60 * 60

  /** The cache key of a protocol: its member name in lower case. */
  function Key(p: Protocol): string {
    Lower(p.name)
  }

  /** `getattr(RoborockZeoProtocol, name, None)` over the members `members`
      of the library's enumeration. */
  function Resolve(members: set<Protocol>, name: string): (r: Option<Protocol>)
    ensures r.Some? <==> Protocol(name) in members
    ensures r.Some? ==> r.value.name == name
  {
    if Protocol(name) in members then Some(Protocol(name)) else None
  }

  predicate DistinctKeys(ps: seq<Protocol>) {
    forall i, j :: 0 <= i < j < |ps| ==> Key(ps[i]) != Key(ps[j])
  }

  lemma FrequentNamesUpper()
    ensures IsUpperName(STATE.name)
    ensures IsUpperName(WASHING_LEFT.name)
    ensures IsUpperName(COUNTDOWN.name)
  {
  }

  lemma InfrequentNamesUpper()
    ensures IsUpperName(ERROR.name)
    ensures IsUpperName(TIMES_AFTER_CLEAN.name)
    ensures IsUpperName(DETERGENT_EMPTY.name)
  {
  }

  lemma CommandNamesUpper()
    ensures IsUpperName(START.name)
    ensures IsUpperName(PAUSE.name)
    ensures IsUpperName(SHUTDOWN.name)
  {
  }

  lemma SettingNamesUpper()
    ensures IsUpperName(MODE.name)
    ensures IsUpperName(PROGRAM.name)
    ensures IsUpperName(TEMP.name)
    ensures IsUpperName(RINSE_TIMES.name)
  {
  }

  lemma LaterSettingNamesUpper()
    ensures IsUpperName(SPIN_LEVEL.name)
    ensures IsUpperName(DRYING_MODE.name)
    ensures IsUpperName(DETERGENT_TYPE.name)
    ensures IsUpperName(SOUND_SET.name)
  {
  }

  /** Every catalog name is written in the enumeration's upper-case style. */
  lemma CatalogNamesAreUpper()
    ensures forall p :: p in AllProtocols ==> IsUpperName(p.name)
  {
    FrequentNamesUpper();
    InfrequentNamesUpper();
    CommandNamesUpper();
    SettingNamesUpper();
    LaterSettingNamesUpper();
  }

  lemma CatalogNamesDistinct()
    ensures forall i, j :: 0 <= i < j < |AllProtocols| ==> AllProtocols[i].name != AllProtocols[j].name
  {
  }

  /** No two protocols of the catalog share a cache key. */
  lemma CatalogKeysDistinct()
    ensures DistinctKeys(AllProtocols)
  {
    var all := AllProtocols;
    CatalogNamesAreUpper();
    CatalogNamesDistinct();
    forall i, j | 0 <= i < j < |all|
      ensures Key(all[i]) != Key(all[j])
    {
      if Key(all[i]) == Key(all[j]) {
        LowerInjective(all[i].name, all[j].name);
      }
    }
  }

  /** The polled tiers, frequent then infrequent, share no cache key either. */
  lemma PolledKeysDistinct()
    ensures DistinctKeys(Frequent + Infrequent)
  {
    CatalogKeysDistinct();
    assert Frequent + Infrequent == AllProtocols[..6];
  }

  /** The three tiers are disjoint. */
  lemma TiersDisjoint()
    ensures forall p :: p in Manual ==> p !in Frequent && p !in Infrequent
    ensures forall p :: p in Frequent ==> p !in Infrequent
  {
    CatalogNamesDistinct();
    assert AllProtocols == (Frequent + Infrequent) + Manual;
    forall p | p in Manual
      ensures p !in Frequent + Infrequent
    {
      var k :| 0 <= k < |Manual| && Manual[k] == p;
      assert AllProtocols[6 + k] == p;
    }
    forall p | p in Frequent
      ensures p !in Infrequent
    {
      var k :| 0 <= k < 3 && Frequent[k] == p;
      assert AllProtocols[k] == p;
    }
  }

  /** Every catalog name is an upper-case name, so `upper()` of its cache key
      gives back the member name. */
  lemma CatalogNamesUpper(p: Protocol)
    requires p in AllProtocols
    ensures Upper(Key(p)) == p.name
  {
    CatalogNamesAreUpper();
    UpperUndoesLower(p.name);
  }
}
