/** The base entity bound to one protocol name: the cached read and the
    coerced write path that every writable entity shares. */
module Entity {
  import opened Errors
  import opened Text
  import opened Catalog
  import opened Values
  import opened Coordinator

  /** The protocol keys whose written value must be an integer. */
  const IntegerProtocols: seq<string> := ["sound_set", "start", "pause", "shutdown"]

  /** The message of the error raised for an unknown protocol name. */
  const UnknownProtocol: string := "\U{672A}\U{77E5}\U{534F}\U{8BAE}: "

  /** The value a write sends for protocol key `key`: for the integer
      protocols a bool becomes 1 or 0 and a string becomes its integer
      value, raising when it is not one; everything else is sent unchanged. */
  function CoerceForWrite(key: string, value: Val): (r: Result<Val>)
    ensures r.Err? <==> key in IntegerProtocols && value.Str? && ParseInt(value.s).None?
    ensures r.Ok? && r.value != value ==> key in IntegerProtocols && r.value.Int?
    ensures key in IntegerProtocols && value.Bool? ==> r == Ok(Int(if value.b then 1 else 0))
    ensures key in IntegerProtocols && value.Str? && ParseInt(value.s).Some? ==>
              r == Ok(Int(ParseInt(value.s).value))
    ensures key !in IntegerProtocols || !(value.Bool? || value.Str?) ==> r == Ok(value)
  {
    if key in IntegerProtocols then
      if value.Bool? then Ok(Int(if value.b then 1 else 0))
      else if value.Str? then
        (match ParseInt(value.s)
         case Some(n) => Ok(Int(n))
         case None => Err(ValueError("invalid literal for int() with base 10")))
      else Ok(value)
    else Ok(value)
  }

  /** What a write of `value` to `protocol` sends, or the error it raises
      before sending: an unknown name first, then a failed coercion. */
  function WritePlan(members: set<Protocol>, protocol: string, value: Val): (r: Result<(Protocol, Val)>)
    ensures Resolve(members, protocol).None? ==>
              r == Err(ValueError(UnknownProtocol + protocol))
    ensures r.Ok? <==> Resolve(members, protocol).Some? && CoerceForWrite(Lower(protocol), value).Ok?
    ensures r.Ok? ==> r.value.0 == Protocol(protocol) && r.value.0 in members
                      && r.value.1 == CoerceForWrite(Lower(protocol), value).value
  {
    match Resolve(members, protocol)
    case None => Err(ValueError(UnknownProtocol + protocol))
    case Some(p) =>
      match CoerceForWrite(Lower(protocol), value)
      case Err(e) => Err(e)
      case Ok(sent) => Ok((p, sent))
  }

  /** The calls a write makes: the write itself when planned, then the
      refresh request when the write went through. */
  function WriteCalls(members: set<Protocol>, protocol: string, value: Val, writeOk: bool): (r: seq<Call>)
    ensures r == [] <==> WritePlan(members, protocol, value).Err?
    ensures RefreshRequested in r <==> WritePlan(members, protocol, value).Ok? && writeOk
    ensures r != [] ==> r[0] == Write(WritePlan(members, protocol, value).value.0,
                                      WritePlan(members, protocol, value).value.1)
  {
    match WritePlan(members, protocol, value)
    case Err(_) => []
    case Ok((p, sent)) => [Write(p, sent)] + (if writeOk then [RefreshRequested] else [])
  }

  function WriteOutcome(members: set<Protocol>, protocol: string, value: Val, writeOk: bool): (r: Outcome)
    ensures r == Done <==> WritePlan(members, protocol, value).Ok? && writeOk
    ensures WritePlan(members, protocol, value).Err? ==>
              r == Failed(WritePlan(members, protocol, value).error)
  {
    match WritePlan(members, protocol, value)
    case Err(e) => Failed(e)
    case Ok(_) => if writeOk then Done else Failed(TransportError)
  }

  /** A bool, its integer, and the decimal string of that integer are the
      same write for an integer protocol. */
  lemma WriteCoercionAgrees(key: string, b: bool, n: int)
    requires key in IntegerProtocols
    ensures CoerceForWrite(key, Bool(b)) == CoerceForWrite(key, Int(if b then 1 else 0))
    ensures CoerceForWrite(key, Str(IntToString(n))) == Ok(Int(n))
  {
    IntRoundTrip(n);
  }

  /** Writing a sound setting and reading it back agree: the value a write
      sends means the same boolean to the coordinator's SOUND_SET coercion
      as the value the caller gave, and the write refuses exactly the
      values that coercion refuses. */
  lemma SoundSetWriteReadAgree(v: Val)
    ensures CoerceForWrite(Key(SOUND_SET), v).Err? <==> CoerceSoundSet(v).None?
    ensures CoerceForWrite(Key(SOUND_SET), v).Ok? ==>
              CoerceSoundSet(CoerceForWrite(Key(SOUND_SET), v).value) == CoerceSoundSet(v)
  {
    assert Key(SOUND_SET) == "sound_set";
  }

  /** An entity of one protocol, spelled as the library's member name. */
  class ApiEntity {
    const coordinator: WasherCoordinator
    const protocol: string

    constructor(coordinator: WasherCoordinator, protocol: string)
      ensures this.coordinator == coordinator && this.protocol == protocol
    {
      this.coordinator := coordinator;
      this.protocol := protocol;
    }

    /** The coordinator's cached value for the entity's lower-cased key. */
    function GetState(): (r: Val)
      reads coordinator
      ensures Lower(protocol) in coordinator.cache ==> r == coordinator.cache[Lower(protocol)]
      ensures Lower(protocol) !in coordinator.cache ==> r == Null
    {
      LowerIdempotent(protocol);
      coordinator.GetCachedValue(Lower(protocol))
    }

    /** Writes `value` to the entity's protocol: resolves the name, coerces
        the value, writes it, and requests a refresh when the write
        succeeded. Failures are returned to the caller. */
    method SetValue(value: Val, writeOk: bool) returns (r: Outcome)
      modifies coordinator
      ensures r == WriteOutcome(coordinator.members, protocol, value, writeOk)
      ensures coordinator.calls ==
                old(coordinator.calls) + WriteCalls(coordinator.members, protocol, value, writeOk)
      ensures coordinator.cache == old(coordinator.cache)
      ensures coordinator.lastUpdate == old(coordinator.lastUpdate)
      ensures coordinator.data == old(coordinator.data)
      ensures coordinator.initialLoadComplete == old(coordinator.initialLoadComplete)
      ensures coordinator.initialLoadStarted == old(coordinator.initialLoadStarted)
    {
      var resolved := Resolve(coordinator.members, protocol);
      if resolved.None? {
        assert coordinator.calls == coordinator.calls + [];
        return Failed(ValueError(UnknownProtocol + protocol));
      }
      var key := Lower(protocol);
      var sent := value;
      if key in IntegerProtocols {
        if value.Bool? {
          sent := Int(if value.b then 1 else 0);
        } else if value.Str? {
          var n := ParseInt(value.s);
          if n.None? {
            assert coordinator.calls == coordinator.calls + [];
            return Failed(ValueError("invalid literal for int() with base 10"));
          }
          sent := Int(n.value);
        }
      }
      coordinator.calls := coordinator.calls + [Write(resolved.value, sent)];
      if !writeOk {
        assert coordinator.calls == coordinator.calls + [];
        return Failed(TransportError);
      }
      coordinator.calls := coordinator.calls + [RefreshRequested];
      r := Done;
    }
  }
}
