/** The per-device polling coordinator: a value cache and a timestamp per
    lower-cased protocol key, a one-way "initial load complete" flag, the
    periodic tick that refreshes them, and the cached read, command send and
    on-demand query that consumers use. */
module Coordinator {
  import opened Errors
  import opened Text
  import opened Catalog
  import opened Values

  /** The interactions with the world outside the coordinator, in the order
      they happen: transport queries and writes, refresh requests to the
      update framework, notifications of its listeners, and an entity
      publishing its state. */
  datatype Call =
    | Query(p: Protocol)
    | Write(p: Protocol, v: Val)
    | RefreshRequested
    | ListenersNotified
    | StateWritten

  /** What a tick does with one protocol of its walk: nothing, or one
      single-protocol query, whose result is coerced to a boolean or not. */
  datatype Step = Skip | Ask(coerce: bool)

  /** The protocol names that `async_query_protocol` coerces to a boolean. */
  const QueryBooleans: seq<string> := ["sound_set"]

  /** A protocol is due when it has never been stamped, or when at least
      `interval` seconds have passed since its stamp. */
  predicate Due(p: Protocol, last: map<string, int>, now: int, interval: int) {
    Key(p) !in last || now - last[Key(p)] >= interval
  }

  /** Once due, a protocol stays due as time goes on. */
  lemma DueMonotone(p: Protocol, last: map<string, int>, now: int, later: int, interval: int)
    requires Due(p, last, now, interval) && now <= later
    ensures Due(p, last, later, interval)
  {
  }

  /** A protocol stamped at `now` is due again exactly `interval` seconds
      later, and not before when the interval is positive. */
  lemma DueAfterStamp(p: Protocol, last: map<string, int>, now: int, later: int, interval: int)
    ensures Due(p, last[Key(p) := now], later, interval) <==> later - now >= interval
  {
  }

  /** The initial load queries everything but the write-only commands. */
  function InitialStep(p: Protocol): (r: Step)
    ensures r == Skip <==> p in WriteOnly
    ensures r.Ask? && r.coerce <==> p == SOUND_SET
  {
    if p in WriteOnly then Skip else Ask(p in InitialBooleans)
  }

  /** Later ticks query the polled tiers' due protocols, without coercion
      in the infrequent tier. */
  function SteadyStep(p: Protocol, last: map<string, int>, now: int): (r: Step)
    ensures p in Frequent ==> (r.Ask? <==> Due(p, last, now, FrequentInterval))
    ensures p !in Frequent && p in Infrequent ==> (r.Ask? <==> Due(p, last, now, InfrequentInterval))
    ensures p !in Frequent && p !in Infrequent ==> r == Skip
    ensures r.Ask? ==> !r.coerce
  {
    if p in Frequent then
      (if Due(p, last, now, FrequentInterval) then Ask(p in FrequentBooleans) else Skip)
    else if p in Infrequent then
      (if Due(p, last, now, InfrequentInterval) then Ask(false) else Skip)
    else Skip
  }

  function StepOf(initial: bool, p: Protocol, last: map<string, int>, now: int): Step {
    if initial then InitialStep(p) else SteadyStep(p, last, now)
  }

  /** The protocols a tick walks through, in order. */
  function Order(initial: bool): seq<Protocol> {
    if initial then AllProtocols else Frequent + Infrequent
  }

  /** The value one step stores: None when the step is skipped, when the
      query raises, or when the boolean coercion raises. */
  function Answer(p: Protocol, step: Step, answer: Protocol -> Reply): (r: Option<Val>)
    ensures step.Skip? || answer(p).Raised? ==> r.None?
    ensures step.Ask? && answer(p).Returned? && !step.coerce ==>
              r == Some(Normalize(answer(p).raw, p))
    ensures step.Ask? && answer(p).Returned? && step.coerce ==>
              r == CoerceSoundSet(Normalize(answer(p).raw, p))
  {
    match step
    case Skip => None
    case Ask(coerce) =>
      match answer(p)
      case Raised => None
      case Returned(raw) =>
        var v := Normalize(raw, p);
        if coerce && v != Null then CoerceSoundSet(v) else Some(v)
  }

  /** The results `g` once one protocol's step has stored `a`, if anything. */
  function Collect(g: map<string, Val>, p: Protocol, a: Option<Val>): map<string, Val> {
    match a
    case Some(v) => g[Key(p) := v]
    case None => g
  }

  /** The results a walk over `ps` collects, by cache key. */
  function Gather(ps: seq<Protocol>, initial: bool, last: map<string, int>, now: int,
                  answer: Protocol -> Reply): map<string, Val>
    decreases |ps|
  {
    if ps == [] then map[]
    else
      var p := ps[|ps| - 1];
      Collect(Gather(ps[..|ps| - 1], initial, last, now, answer), p,
              Answer(p, StepOf(initial, p, last, now), answer))
  }

  /** The queries a walk over `ps` issues, in order. */
  function Issued(ps: seq<Protocol>, initial: bool, last: map<string, int>, now: int): seq<Call>
    decreases |ps|
  {
    if ps == [] then []
    else
      var p := ps[|ps| - 1];
      Issued(ps[..|ps| - 1], initial, last, now) +
        (if StepOf(initial, p, last, now).Ask? then [Query(p)] else [])
  }

  /** The timestamps a tick writes: `now` for every key it collected. */
  function Stamp(keys: set<string>, now: int): map<string, int> {
    map k | k in keys :: now
  }

  /** How much of a walk of length `n` runs before an unexpected error at
      position `fault`, if there is one. */
  function Processed(n: nat, fault: Option<nat>): (r: nat)
    ensures r <= n
  {
    if fault.Some? && fault.value < n then fault.value else n
  }

  /** The outcome of `async_query_protocol(name)` for a transport reply. */
  function QueryResult(members: set<Protocol>, name: string, reply: Reply): (r: Result<Val>)
    ensures Resolve(members, Upper(name)).None? ==> r == Err(ValueError("Unknown protocol: " + name))
    ensures reply.Raised? ==> r.Err?
    ensures r.Ok? && name in QueryBooleans ==> r.value.Bool? || r.value == Null
  {
    match Resolve(members, Upper(name))
    case None => Err(ValueError("Unknown protocol: " + name))
    case Some(p) =>
      match reply
      case Raised => Err(TransportError)
      case Returned(raw) =>
        var v := Normalize(raw, p);
        if name in QueryBooleans && v != Null then
          match CoerceSoundSet(v)
          case Some(b) => Ok(b)
          case None => Err(ValueError("invalid literal for int()"))
        else Ok(v)
  }

  /** The calls `async_query_protocol(name)` makes: none for an unknown
      name, else the query, followed by the listeners' notification when
      it succeeds. */
  function QueryCalls(members: set<Protocol>, name: string, reply: Reply): (r: seq<Call>)
    ensures r == [] <==> Resolve(members, Upper(name)).None?
    ensures ListenersNotified in r <==> QueryResult(members, name, reply).Ok?
    ensures Resolve(members, Upper(name)).Some? ==>
              |r| >= 1 && r[0] == Query(Resolve(members, Upper(name)).value)
    ensures |r| <= 2 && (|r| == 2 ==> r[1] == ListenersNotified)
  {
    match Resolve(members, Upper(name))
    case None => []
    case Some(p) =>
      [Query(p)] + (if QueryResult(members, name, reply).Ok? then [ListenersNotified] else [])
  }

  // ---------------------------------------------------------------------
  // Properties of a tick's walk

  lemma StepUnaffected(initial: bool, p: Protocol, last: map<string, int>,
                       keys: set<string>, now: int)
    requires Key(p) !in keys
    ensures StepOf(initial, p, last + Stamp(keys, now), now) == StepOf(initial, p, last, now)
  {
  }

  lemma OrderDistinct(initial: bool)
    ensures DistinctKeys(Order(initial))
  {
    CatalogKeysDistinct();
    PolledKeysDistinct();
  }

  lemma StampPut(last: map<string, int>, m: map<string, Val>, k: string, v: Val, now: int)
    ensures last + Stamp(m[k := v].Keys, now) == (last + Stamp(m.Keys, now))[k := now]
  {
    assert m[k := v].Keys == m.Keys + {k};
  }

  lemma StampNone(last: map<string, int>, now: int)
    ensures last + Stamp({}, now) == last
  {
  }

  /** Every key a walk collects is the key of a protocol on the walk. */
  lemma {:induction false} GatherKeys(ps: seq<Protocol>, initial: bool, last: map<string, int>,
                                      now: int, answer: Protocol -> Reply, k: string)
    requires k in Gather(ps, initial, last, now, answer)
    ensures exists j :: 0 <= j < |ps| && Key(ps[j]) == k
    decreases |ps|
  {
    var init := ps[..|ps| - 1];
    if k != Key(ps[|ps| - 1]) {
      GatherKeys(init, initial, last, now, answer, k);
      var j :| 0 <= j < |init| && Key(init[j]) == k;
      assert ps[j] == init[j];
    }
  }

  /** Visiting the next protocol of a walk with distinct keys: its key is
      not collected yet, so the timestamps written so far leave its step as
      it was, and the walk's results and queries grow by that step's. */
  lemma WalkAdvance(ps: seq<Protocol>, i: nat, initial: bool, last: map<string, int>, now: int,
                    answer: Protocol -> Reply)
    requires DistinctKeys(ps) && i < |ps|
    ensures var p := ps[i];
            var g := Gather(ps[..i], initial, last, now, answer);
            && Key(p) !in g
            && StepOf(initial, p, last + Stamp(g.Keys, now), now) == StepOf(initial, p, last, now)
            && Gather(ps[..i+1], initial, last, now, answer) ==
                 Collect(g, p, Answer(p, StepOf(initial, p, last, now), answer))
            && Issued(ps[..i+1], initial, last, now) ==
                 Issued(ps[..i], initial, last, now) +
                   (if StepOf(initial, p, last, now).Ask? then [Query(p)] else [])
  {
    var p := ps[i];
    assert ps[..i+1][..i] == ps[..i];
    if Key(p) in Gather(ps[..i], initial, last, now, answer) {
      GatherKeys(ps[..i], initial, last, now, answer, Key(p));
      assert false;
    }
    StepUnaffected(initial, p, last, Gather(ps[..i], initial, last, now, answer).Keys, now);
  }

  /** On a walk without shared keys, a protocol's key is collected exactly
      when its step stores a value, and then holds that value. */
  lemma {:induction false} GatherSpec(ps: seq<Protocol>, initial: bool, last: map<string, int>,
                                      now: int, answer: Protocol -> Reply, p: Protocol)
    requires DistinctKeys(ps) && p in ps
    ensures var a := Answer(p, StepOf(initial, p, last, now), answer);
            var g := Gather(ps, initial, last, now, answer);
            (Key(p) in g <==> a.Some?) && (a.Some? ==> g[Key(p)] == a.value)
    decreases |ps|
  {
    var init := ps[..|ps| - 1];
    var q := ps[|ps| - 1];
    if p != q {
      assert p in init by {
        var j :| 0 <= j < |ps| && ps[j] == p;
        assert j < |ps| - 1;
        assert init[j] == p;
      }
      GatherSpec(init, initial, last, now, answer, p);
      assert Key(p) != Key(q) by {
        var j :| 0 <= j < |ps| && ps[j] == p;
        assert j < |ps| - 1;
      }
    } else if Key(p) in Gather(init, initial, last, now, answer) {
      GatherKeys(init, initial, last, now, answer, Key(p));
      assert false;
    }
  }

  /** A walk issues only queries, and queries a protocol exactly when the
      protocol is on the walk and its step asks. */
  lemma {:induction false} IssuedSpec(ps: seq<Protocol>, initial: bool, last: map<string, int>,
                                      now: int)
    ensures forall c :: c in Issued(ps, initial, last, now) ==> c.Query?
    ensures forall q :: Query(q) in Issued(ps, initial, last, now) <==>
                        q in ps && StepOf(initial, q, last, now).Ask?
    decreases |ps|
  {
    if ps != [] {
      var init := ps[..|ps| - 1];
      IssuedSpec(init, initial, last, now);
      assert ps == init + [ps[|ps| - 1]];
      assert forall q :: q in ps <==> q in init || q == ps[|ps| - 1];
    }
  }

  /** The queries of a walk over `a + b` are those over `a`, then those
      over `b`. */
  lemma {:induction false} IssuedAppend(a: seq<Protocol>, b: seq<Protocol>, initial: bool,
                                        last: map<string, int>, now: int)
    ensures Issued(a + b, initial, last, now) ==
            Issued(a, initial, last, now) + Issued(b, initial, last, now)
    decreases |b|
  {
    if b == [] {
      assert a + b == a;
    } else {
      var b' := b[..|b| - 1];
      assert (a + b)[..|a + b| - 1] == a + b';
      IssuedAppend(a, b', initial, last, now);
    }
  }

  lemma IssuedOne(p: Protocol, initial: bool, last: map<string, int>, now: int)
    ensures Issued([p], initial, last, now) ==
            (if StepOf(initial, p, last, now).Ask? then [Query(p)] else [])
  {
    assert [p][..0] == [];
  }

  lemma IssuedThree(a: Protocol, b: Protocol, c: Protocol, initial: bool,
                    last: map<string, int>, now: int)
    ensures Issued([a, b, c], initial, last, now) ==
            Issued([a], initial, last, now) + Issued([b], initial, last, now) +
            Issued([c], initial, last, now)
  {
    IssuedAppend([a], [b], initial, last, now);
    IssuedAppend([a, b], [c], initial, last, now);
    assert [a] + [b] == [a, b] && [a, b] + [c] == [a, b, c];
  }

  lemma IssuedFour(a: Protocol, b: Protocol, c: Protocol, d: Protocol, initial: bool,
                   last: map<string, int>, now: int)
    ensures Issued([a, b, c, d], initial, last, now) ==
            Issued([a, b, c], initial, last, now) + Issued([d], initial, last, now)
  {
    IssuedAppend([a, b, c], [d], initial, last, now);
    assert [a, b, c] + [d] == [a, b, c, d];
  }

  lemma FrequentInitialQueries(last: map<string, int>, now: int)
    ensures Issued(Frequent, true, last, now) ==
            [Query(STATE), Query(WASHING_LEFT), Query(COUNTDOWN)]
  {
    IssuedThree(STATE, WASHING_LEFT, COUNTDOWN, true, last, now);
    IssuedOne(STATE, true, last, now);
    IssuedOne(WASHING_LEFT, true, last, now);
    IssuedOne(COUNTDOWN, true, last, now);
  }

  lemma InfrequentInitialQueries(last: map<string, int>, now: int)
    ensures Issued(Infrequent, true, last, now) ==
            [Query(ERROR), Query(TIMES_AFTER_CLEAN), Query(DETERGENT_EMPTY)]
  {
    IssuedThree(ERROR, TIMES_AFTER_CLEAN, DETERGENT_EMPTY, true, last, now);
    IssuedOne(ERROR, true, last, now);
    IssuedOne(TIMES_AFTER_CLEAN, true, last, now);
    IssuedOne(DETERGENT_EMPTY, true, last, now);
  }

  lemma CommandInitialQueries(last: map<string, int>, now: int)
    ensures Issued([START, PAUSE, SHUTDOWN], true, last, now) == []
  {
    IssuedThree(START, PAUSE, SHUTDOWN, true, last, now);
    IssuedOne(START, true, last, now);
    IssuedOne(PAUSE, true, last, now);
    IssuedOne(SHUTDOWN, true, last, now);
  }

  lemma SettingInitialQueries(last: map<string, int>, now: int)
    ensures Issued([MODE, PROGRAM, TEMP, RINSE_TIMES], true, last, now) ==
            [Query(MODE), Query(PROGRAM), Query(TEMP), Query(RINSE_TIMES)]
  {
    IssuedFour(MODE, PROGRAM, TEMP, RINSE_TIMES, true, last, now);
    IssuedThree(MODE, PROGRAM, TEMP, true, last, now);
    IssuedOne(MODE, true, last, now);
    IssuedOne(PROGRAM, true, last, now);
    IssuedOne(TEMP, true, last, now);
    IssuedOne(RINSE_TIMES, true, last, now);
  }

  lemma LaterSettingInitialQueries(last: map<string, int>, now: int)
    ensures Issued([SPIN_LEVEL, DRYING_MODE, DETERGENT_TYPE, SOUND_SET], true, last, now) ==
            [Query(SPIN_LEVEL), Query(DRYING_MODE), Query(DETERGENT_TYPE), Query(SOUND_SET)]
  {
    IssuedFour(SPIN_LEVEL, DRYING_MODE, DETERGENT_TYPE, SOUND_SET, true, last, now);
    IssuedThree(SPIN_LEVEL, DRYING_MODE, DETERGENT_TYPE, true, last, now);
    IssuedOne(SPIN_LEVEL, true, last, now);
    IssuedOne(DRYING_MODE, true, last, now);
    IssuedOne(DETERGENT_TYPE, true, last, now);
    IssuedOne(SOUND_SET, true, last, now);
  }

  lemma ManualInitialQueries(last: map<string, int>, now: int)
    ensures Issued(Manual, true, last, now) ==
      [Query(MODE), Query(PROGRAM), Query(TEMP), Query(RINSE_TIMES),
       Query(SPIN_LEVEL), Query(DRYING_MODE), Query(DETERGENT_TYPE), Query(SOUND_SET)]
  {
    var commands := [START, PAUSE, SHUTDOWN];
    var settings1 := [MODE, PROGRAM, TEMP, RINSE_TIMES];
    var settings2 := [SPIN_LEVEL, DRYING_MODE, DETERGENT_TYPE, SOUND_SET];
    assert Manual == commands + settings1 + settings2;
    IssuedAppend(commands + settings1, settings2, true, last, now);
    IssuedAppend(commands, settings1, true, last, now);
    CommandInitialQueries(last, now);
    SettingInitialQueries(last, now);
    LaterSettingInitialQueries(last, now);
  }

  /** The first tick issues one query per protocol of the catalog other
      than START, PAUSE and SHUTDOWN, in catalog order. */
  lemma InitialLoadOrder(last: map<string, int>, now: int)
    ensures Issued(AllProtocols, true, last, now) ==
      [Query(STATE), Query(WASHING_LEFT), Query(COUNTDOWN),
       Query(ERROR), Query(TIMES_AFTER_CLEAN), Query(DETERGENT_EMPTY),
       Query(MODE), Query(PROGRAM), Query(TEMP), Query(RINSE_TIMES),
       Query(SPIN_LEVEL), Query(DRYING_MODE), Query(DETERGENT_TYPE), Query(SOUND_SET)]
  {
    IssuedAppend(Frequent, Infrequent, true, last, now);
    IssuedAppend(Frequent + Infrequent, Manual, true, last, now);
    FrequentInitialQueries(last, now);
    InfrequentInitialQueries(last, now);
    ManualInitialQueries(last, now);
  }

  /** The first tick queries exactly the protocols of the catalog other
      than START, PAUSE and SHUTDOWN. */
  lemma InitialLoadQueries(last: map<string, int>, now: int)
    ensures forall q :: Query(q) in Issued(AllProtocols, true, last, now) <==>
                        q in AllProtocols && q !in WriteOnly
  {
    IssuedSpec(AllProtocols, true, last, now);
  }

  /** What a completed tick leaves in the cache for one protocol of its
      walk: the value its step obtained, or else whatever was cached. */
  lemma TickStores(cache: map<string, Val>, initial: bool, last: map<string, int>, now: int,
                   answer: Protocol -> Reply, p: Protocol)
    requires p in Order(initial)
    ensures var c := cache + Gather(Order(initial), initial, last, now, answer);
            match Answer(p, StepOf(initial, p, last, now), answer)
            case Some(v) => Key(p) in c && c[Key(p)] == v
            case None => (Key(p) in c <==> Key(p) in cache) &&
                         (Key(p) in cache ==> c[Key(p)] == cache[Key(p)])
  {
    OrderDistinct(initial);
    GatherSpec(Order(initial), initial, last, now, answer, p);
  }

  /** After the initial load a tick queries exactly the polled protocols
      that are due under their tier's interval. */
  lemma SteadyQueriesDue(last: map<string, int>, now: int)
    ensures forall q :: Query(q) in Issued(Frequent + Infrequent, false, last, now) <==>
                        (q in Frequent && Due(q, last, now, FrequentInterval)) ||
                        (q in Infrequent && Due(q, last, now, InfrequentInterval))
  {
    IssuedSpec(Frequent + Infrequent, false, last, now);
  }

  /** Commands and settings are never polled after the initial load. */
  lemma ManualNeverPolled(last: map<string, int>, now: int)
    ensures forall q :: q in Manual ==> Query(q) !in Issued(Frequent + Infrequent, false, last, now)
  {
    SteadyQueriesDue(last, now);
    TiersDisjoint();
  }

  /** Querying a protocol on demand by its cache key yields what the
      initial load stores for it, and fails exactly when the initial load
      stores nothing for it. */
  lemma QueryMatchesInitialLoad(members: set<Protocol>, p: Protocol, reply: Reply)
    requires p in AllProtocols && p !in WriteOnly && p in members
    ensures var r := QueryResult(members, Key(p), reply);
            var a := Answer(p, InitialStep(p), (q: Protocol) => reply);
            (r.Ok? <==> a.Some?) && (r.Ok? ==> r.value == a.value)
  {
    CatalogNamesUpper(p);
    CatalogKeysDistinct();
    assert Key(SOUND_SET) == "sound_set";
    assert Key(p) in QueryBooleans <==> p in InitialBooleans by {
      if Key(p) == "sound_set" {
        var i :| 0 <= i < |AllProtocols| && AllProtocols[i] == p;
        assert AllProtocols[16] == SOUND_SET;
      }
    }
  }

  // ---------------------------------------------------------------------
  // The coordinator object

  class WasherCoordinator {
    /** The protocol names the device library defines. */
    const members: set<Protocol>
    var cache: map<string, Val>
    var lastUpdate: map<string, int>
    /** The data the update framework last published to the entities. */
    var data: map<string, Val>
    var initialLoadComplete: bool
    /** Whether a tick has begun the initial load; written, never read. */
    var initialLoadStarted: bool
    var calls: seq<Call>

    constructor(members: set<Protocol>)
      ensures this.members == members
      ensures cache == map[] && lastUpdate == map[] && data == map[]
      ensures !initialLoadComplete && !initialLoadStarted && calls == []
    {
      this.members := members;
      cache := map[];
      lastUpdate := map[];
      data := map[];
      initialLoadComplete := false;
      initialLoadStarted := false;
      calls := [];
    }

    /** The cached value for a key, looked up in lower case. */
    function GetCachedValue(key: string): (r: Val)
      reads this
      ensures Lower(key) in cache ==> r == cache[Lower(key)]
      ensures Lower(key) !in cache ==> r == Null
    {
      if Lower(key) in cache then cache[Lower(key)] else Null
    }

    /** One periodic update. `answer` is the transport's reply to a single
        protocol query; `fault`, when present, is the position of the walk
        at which an unexpected error escapes the per-protocol handlers. */
    method Tick(now: int, answer: Protocol -> Reply, fault: Option<nat>)
      returns (result: map<string, Val>)
      modifies this
      ensures var initial := !old(initialLoadComplete);
              var order := Order(initial);
              var n := Processed(|order|, fault);
              var got := Gather(order[..n], initial, old(lastUpdate), now, answer);
              && calls == old(calls) + Issued(order[..n], initial, old(lastUpdate), now)
              && lastUpdate == old(lastUpdate) + Stamp(got.Keys, now)
              && initialLoadStarted == (old(initialLoadStarted) || initial)
              && data == old(data)
              && (n < |order| ==>
                    cache == old(cache) && result == old(cache)
                    && initialLoadComplete == old(initialLoadComplete))
              && (n == |order| ==>
                    cache == old(cache) + got
                    && result == (if got == map[] then old(cache) else got)
                    && initialLoadComplete)
      ensures old(initialLoadComplete) ==> initialLoadComplete
    {
      var initial := !initialLoadComplete;
      if initial {
        initialLoadStarted := true;
      }
      OrderDistinct(initial);
      result := Update(Order(initial), initial, now, answer, fault);
    }

    /** A tick once its walk order is chosen: the walk, then, unless an
        unexpected error cut it short, the end of the initial load and the
        merge of the results into the cache. The result is the new results,
        or the cache when there are none or the walk was cut short. */
    method Update(order: seq<Protocol>, initial: bool, now: int, answer: Protocol -> Reply,
                  fault: Option<nat>)
      returns (result: map<string, Val>)
      requires DistinctKeys(order) && initial == !initialLoadComplete
      modifies this`cache, this`lastUpdate, this`calls, this`initialLoadComplete
      ensures var n := Processed(|order|, fault);
              var got := Gather(order[..n], initial, old(lastUpdate), now, answer);
              && calls == old(calls) + Issued(order[..n], initial, old(lastUpdate), now)
              && lastUpdate == old(lastUpdate) + Stamp(got.Keys, now)
              && (n < |order| ==>
                    cache == old(cache) && result == old(cache)
                    && initialLoadComplete == old(initialLoadComplete))
              && (n == |order| ==>
                    cache == old(cache) + got
                    && result == (if got == map[] then old(cache) else got)
                    && initialLoadComplete)
    {
      var results := Walk(order, initial, now, answer, fault);
      if Processed(|order|, fault) < |order| {
        // the outer handler: the cached data is returned unchanged
        result := cache;
        return;
      }
      assert order[..|order|] == order;
      if initial {
        initialLoadComplete := true;
      }
      if results != map[] {
        cache := cache + results;
        result := results;
      } else {
        assert cache + results == cache;
        result := cache;
      }
    }

    /** The walk of one tick over `order`: queries each protocol whose step
        asks, and collects and stamps each value obtained, stopping early at
        an unexpected error. */
    method Walk(order: seq<Protocol>, initial: bool, now: int, answer: Protocol -> Reply,
                fault: Option<nat>)
      returns (results: map<string, Val>)
      requires DistinctKeys(order)
      modifies this`lastUpdate, this`calls
      ensures var n := Processed(|order|, fault);
              && results == Gather(order[..n], initial, old(lastUpdate), now, answer)
              && lastUpdate == old(lastUpdate) + Stamp(results.Keys, now)
              && calls == old(calls) + Issued(order[..n], initial, old(lastUpdate), now)
    {
      ghost var last0 := lastUpdate;
      results := map[];
      StampNone(last0, now);
      var i := 0;
      while i < |order| && fault != Some(i)
        invariant 0 <= i <= Processed(|order|, fault)
        invariant results == Gather(order[..i], initial, last0, now, answer)
        invariant lastUpdate == last0 + Stamp(results.Keys, now)
        invariant calls == old(calls) + Issued(order[..i], initial, last0, now)
      {
        var p := order[i];
        WalkAdvance(order, i, initial, last0, now, answer);
        var stored := Visit(p, StepOf(initial, p, lastUpdate, now), answer);
        if stored.Some? {
          StampPut(last0, results, Key(p), stored.value, now);
          lastUpdate := lastUpdate[Key(p) := now];
        }
        results := Collect(results, p, stored);
        i := i + 1;
      }
    }

    /** One protocol of a walk: the query its step asks for, if any, and
        the value that query yields once normalised and coerced; a raising
        query or coercion yields nothing. */
    method Visit(p: Protocol, step: Step, answer: Protocol -> Reply) returns (stored: Option<Val>)
      modifies this`calls
      ensures stored == Answer(p, step, answer)
      ensures calls == old(calls) + (if step.Ask? then [Query(p)] else [])
    {
      stored := None;
      if step.Ask? {
        calls := calls + [Query(p)];
        match answer(p)
        case Raised =>
        case Returned(raw) =>
          var v := Normalize(raw, p);
          stored := if step.coerce && v != Null then CoerceSoundSet(v) else Some(v);
      }
    }

    /** Sends a write for the protocol named exactly `protocol`; on success
        asks the update framework for a refresh. */
    method SendCommand(protocol: string, value: Val, writeOk: bool) returns (r: Outcome)
      modifies this
      ensures Resolve(members, protocol).None? ==>
                r == Failed(ValueError("Unknown protocol: " + protocol)) && calls == old(calls)
      ensures Resolve(members, protocol).Some? ==>
                var w := [Write(Protocol(protocol), value)];
                (writeOk ==> r == Done && calls == old(calls) + w + [RefreshRequested])
                && (!writeOk ==> r == Failed(TransportError) && calls == old(calls) + w)
      ensures cache == old(cache) && lastUpdate == old(lastUpdate) && data == old(data)
      ensures initialLoadComplete == old(initialLoadComplete)
      ensures initialLoadStarted == old(initialLoadStarted)
    {
      var p := Resolve(members, protocol);
      if p.None? {
        return Failed(ValueError("Unknown protocol: " + protocol));
      }
      calls := calls + [Write(p.value, value)];
      if !writeOk {
        return Failed(TransportError);
      }
      calls := calls + [RefreshRequested];
      r := Done;
    }

    /** Queries one protocol on demand, by any spelling of its name; on
        success caches the value under the name as given, stamps it,
        copies it into the published data and notifies the listeners. */
    method QueryProtocol(name: string, now: int, reply: Reply) returns (r: Result<Val>)
      modifies this
      ensures r == QueryResult(members, name, reply)
      ensures calls == old(calls) + QueryCalls(members, name, reply)
      ensures r.Ok? ==> cache == old(cache)[name := r.value] && lastUpdate == old(lastUpdate)[name := now]
                        && data == old(data)[name := r.value]
      ensures r.Err? ==> cache == old(cache) && lastUpdate == old(lastUpdate) && data == old(data)
      ensures initialLoadComplete == old(initialLoadComplete)
      ensures initialLoadStarted == old(initialLoadStarted)
    {
      var resolved := Resolve(members, Upper(name));
      if resolved.None? {
        return Err(ValueError("Unknown protocol: " + name));
      }
      var p := resolved.value;
      calls := calls + [Query(p)];
      if reply.Raised? {
        assert calls == calls + [];
        return Err(TransportError);
      }
      var v := Normalize(reply.raw, p);
      if name in QueryBooleans && v != Null {
        var b := CoerceSoundSet(v);
        if b.None? {
          assert calls == calls + [];
          return Err(ValueError("invalid literal for int()"));
        }
        v := b.value;
      }
      cache := cache[name := v];
      lastUpdate := lastUpdate[name := now];
      data := data[name := v];
      calls := calls + [ListenersNotified];
      r := Ok(v);
    }
  }
}
