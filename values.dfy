/** The Python values that flow through the core (transport results, cached
    values, option codes) and the conversions the core applies to them:
    truthiness, `str()`, the reduction of a raw transport result to one
    value, and the boolean coercion of SOUND_SET. */
module Values {
  import opened Errors
  import opened Text
  import opened Catalog

  /** A Python value. Dicts keep insertion order, as Python dicts do, and
      are keyed by protocol members, as the transport's dicts are. */
  datatype Val =
    | Null                                // None
    | Bool(b: bool)
    | Int(i: int)
    | Str(s: string)
    | List(items: seq<Val>)
    | Dict(entries: seq<(Protocol, Val)>)

  /** What one call of the transport's `query_values([p])` does: raise, or
      return a raw result (a scalar, a list, or a dict keyed by protocol). */
  datatype Reply = Raised | Returned(raw: Val)

  /** `bool(v)`: false exactly for None, False, 0 and the empty string,
      list and dict. */
  function Truthy(v: Val): (r: bool)
    ensures !r <==> v == Null || v == Bool(false) || v == Int(0) || v == Str("") ||
                    v == List([]) || v == Dict([])
  {
    match v
    case Null => false
    case Bool(b) => b
    case Int(i) => i != 0
    case Str(s) => |s| > 0
    case List(items) => |items| > 0
    case Dict(entries) => |entries| > 0
  }

  /** Whether `v` can be looked up in a dict: lists and dicts cannot. */
  predicate Hashable(v: Val) {
    !v.List? && !v.Dict?
  }

  function Join(parts: seq<string>): string {
    if parts == [] then ""
    else if |parts| == 1 then parts[0]
    else parts[0] + ", " + Join(parts[1..])
  }

  /** `repr(v)`. Strings are quoted without escaping and enumeration members
      are shown by name only. */
  function Repr(v: Val): string {
    match v
    case Null => "None"
    case Bool(b) => if b then "True" else "False"
    case Int(i) => IntToString(i)
    case Str(s) => "'" + s + "'"
    case List(items) =>
      "[" + Join(seq(|items|, k requires 0 <= k < |items| => Repr(items[k]))) + "]"
    case Dict(es) =>
      "{" + Join(seq(|es|, k requires 0 <= k < |es| =>
                   "<RoborockZeoProtocol." + es[k].0.name + ">: " + Repr(es[k].1))) + "}"
  }

  /** `str(v)`: a string is itself, everything else its repr. */
  function PyStr(v: Val): (r: string)
    ensures v.Str? ==> r == v.s
    ensures v.Int? ==> r == IntToString(v.i)
    ensures v == Null ==> r == "None"
    ensures v.Bool? ==> r == (if v.b then "True" else "False")
  {
    if v.Str? then v.s else Repr(v)
  }

  /** `p in d` for a dict's entries. */
  predicate HasKey(entries: seq<(Protocol, Val)>, p: Protocol) {
    exists k :: 0 <= k < |entries| && entries[k].0 == p
  }

  /** `d[p]`: the entry stored under `p`. */
  function Lookup(entries: seq<(Protocol, Val)>, p: Protocol): (v: Val)
    requires HasKey(entries, p)
    ensures exists k :: 0 <= k < |entries| && entries[k] == (p, v)
  {
    if entries[0].0 == p then entries[0].1 else Lookup(entries[1..], p)
  }

  /** The reduction of a raw result of querying protocol `p` to the value
      that is cached: a dict holding `p` gives that entry, otherwise a
      one-element list gives its element, otherwise the raw result is kept. */
  function Normalize(raw: Val, p: Protocol): (r: Val)
    ensures raw.Dict? && HasKey(raw.entries, p) ==>
              exists k :: 0 <= k < |raw.entries| && raw.entries[k] == (p, r)
    ensures raw.List? && |raw.items| == 1 ==> r == raw.items[0]
    ensures !(raw.Dict? && HasKey(raw.entries, p)) && !(raw.List? && |raw.items| == 1) ==> r == raw
  {
    match raw
    case Dict(entries) => if HasKey(entries, p) then Lookup(entries, p) else raw
    case List(items) => if |items| == 1 then items[0] else raw
    case _ => raw
  }

  /** The three shapes the transport may answer in carry the same value:
      a plain value, a one-element list of it, and a dict of it keyed by the
      queried protocol. */
  lemma ShapesAgree(v: Val, p: Protocol)
    requires Hashable(v)
    ensures Normalize(v, p) == v
    ensures Normalize(List([v]), p) == v
    ensures Normalize(Dict([(p, v)]), p) == v
  {
    assert HasKey([(p, v)], p) by { assert [(p, v)][0].0 == p; }
  }

  /** In a batched answer with distinct keys, the value stored under the
      queried protocol is the one that is cached. */
  lemma BatchedAnswer(entries: seq<(Protocol, Val)>, k: nat, p: Protocol)
    requires k < |entries| && entries[k].0 == p
    requires forall i, j :: 0 <= i < j < |entries| ==> entries[i].0 != entries[j].0
    ensures Normalize(Dict(entries), p) == entries[k].1
  {
    var v := Lookup(entries, p);
    var j :| 0 <= j < |entries| && entries[j] == (p, v);
    assert j == k;
  }

  /** The `bool(int(v))` / `bool(v)` coercion of SOUND_SET. None is kept;
      a string is parsed as an integer, and a string that is no integer
      makes `int()` raise, modelled as None; any other value becomes its
      truthiness. */
  function CoerceSoundSet(v: Val): (r: Option<Val>)
    ensures r.None? <==> v.Str? && ParseInt(v.s).None?
    ensures r.Some? ==> (r.value == Null <==> v == Null)
    ensures r.Some? && v != Null ==> r.value.Bool?
    ensures v.Str? && ParseInt(v.s).Some? ==> r == Some(Bool(ParseInt(v.s).value != 0))
    ensures v != Null && !v.Str? ==> r == Some(Bool(Truthy(v)))
  {
    if v == Null then Some(Null)
    else if v.Str? then
      match ParseInt(v.s)
      case Some(n) => Some(Bool(n != 0))
      case None => None
    else Some(Bool(Truthy(v)))
  }

  /** Wire representations of the same number coerce alike: the string
      `str(n)`, the integer n and, for 0 and 1, the boolean all give
      `n != 0`. */
  lemma CoercionAgrees(n: int)
    ensures CoerceSoundSet(Str(IntToString(n))) == Some(Bool(n != 0))
    ensures CoerceSoundSet(Int(n)) == Some(Bool(n != 0))
    ensures n == 0 || n == 1 ==> CoerceSoundSet(Bool(n == 1)) == Some(Bool(n != 0))
  {
    IntRoundTrip(n);
  }

  /** Concrete cases: "0" is false, "1" and "2" are true, "abc" raises. */
  lemma CoercionExamples()
    ensures CoerceSoundSet(Str("0")) == Some(Bool(false))
    ensures CoerceSoundSet(Str("1")) == Some(Bool(true))
    ensures CoerceSoundSet(Str("2")) == Some(Bool(true))
    ensures CoerceSoundSet(Str("abc")) == None
    ensures CoerceSoundSet(Dict([])) == Some(Bool(false))
  {
    CoercionAgrees(0);
    CoercionAgrees(1);
    CoercionAgrees(2);
    assert !IsDigit('a');
  }

  /** A coerced value is a fixed point of the coercion. */
  lemma CoercionIdempotent(v: Val)
    requires CoerceSoundSet(v).Some?
    ensures CoerceSoundSet(CoerceSoundSet(v).value) == CoerceSoundSet(v)
  {
  }
}
