/** JSON documents as Python reads them: insertion-ordered objects, and booleans,
    integers and floats kept apart. */
module Json {
  import opened Basics

  datatype Dict<+V> = Dict(keys: seq<string>, at: map<string, V>)

  datatype Json =
    | Null
    | Bool(b: bool)
    | Int(i: int)
    | Float(x: real)
    | Str(s: string)
    | Arr(items: seq<Json>)
    | Obj(fields: Dict<Json>)

  // The key order lists each key once.
  ghost predicate WellFormed<V>(d: Dict<V>) {
    Distinct(d.keys) && Elems(d.keys) == d.at.Keys
  }

  function Empty<V>(): Dict<V> {
    Dict([], map[])
  }

  // `d.get(k)`: a missing key reads as null.
  function Get(d: Dict<Json>, k: string): Json {
    if k in d.at then d.at[k] else Null
  }

  // The member `k` of `at`, null when there is none.
  function At(at: map<string, Json>, k: string): Json {
    if k in at then at[k] else Null
  }

  // `d[k] = v`: an existing key keeps its place, a new one goes last.
  function Put<V>(d: Dict<V>, k: string, v: V): Dict<V> {
    Dict(if k in d.at then d.keys else d.keys + [k], d.at[k := v])
  }

  function Other(k: string): string -> bool {
    (x: string) => x != k
  }

  // `d.pop(k, None)`
  function Pop<V>(d: Dict<V>, k: string): Dict<V> {
    if k in d.at then Dict(Filter(d.keys, Other(k)), d.at - {k}) else d
  }

  function Beyond<V>(d: Dict<V>): string -> bool {
    (k: string) => k !in d.at
  }

  // `d.update(p)`
  function Update<V>(d: Dict<V>, p: Dict<V>): Dict<V> {
    Dict(d.keys + Filter(p.keys, Beyond(d)), d.at + p.at)
  }

  function ObjectOrEmpty(j: Json): Dict<Json> {
    if j.Obj? then j.fields else Empty()
  }

  function ItemsOrNone(j: Json): seq<Json> {
    if j.Arr? then j.items else []
  }

  // Python truthiness of a JSON value.
  predicate Truthy(j: Json) {
    match j
    case Null => false
    case Bool(b) => b
    case Int(i) => i != 0
    case Float(x) => x != 0.0
    case Str(s) => s != ""
    case Arr(items) => items != []
    case Obj(d) => d.keys != []
  }

  /** Only null, false, the zeros and what is empty read as false. */
  lemma {:induction false} FalsyExactly(j: Json)
    requires j.Obj? ==> WellFormed(j.fields)
    ensures !Truthy(j) <==> j in {Null, Bool(false), Int(0), Float(0.0), Str(""), Arr([]), Obj(Empty())}
  {
    if j.Obj? && j.fields.keys == [] {
      assert j.fields.at.Keys == {};
    }
  }

  /** Popping a key leaves the other members as they were, in their order. */
  lemma {:induction false} PopExactly<V>(d: Dict<V>, before: seq<string>, k: string, after: seq<string>)
    requires WellFormed(d) && d.keys == before + [k] + after
    ensures Pop(d, k) == Dict(before + after, d.at - {k})
  {
    assert d.keys[|before|] == k;
    assert k in Elems(d.keys);
    assert forall i :: 0 <= i < |before| ==> before[i] == d.keys[i];
    assert forall i :: 0 <= i < |after| ==> after[i] == d.keys[|before| + 1 + i];
    FilterAll(before, Other(k));
    FilterAll(after, Other(k));
    FilterAppend(before + [k], after, Other(k));
    FilterLast(before, k, Other(k));
  }

  /** After an update every member of `p` has its value there and the others keep theirs;
      the old keys stay first and the new ones follow as `p` orders them. */
  lemma {:induction false} UpdateExactly<V>(d: Dict<V>, p: Dict<V>, k: string)
    requires WellFormed(d) && WellFormed(p)
    ensures Update(d, p).at.Keys == d.at.Keys + p.at.Keys
    ensures k in p.at ==> Update(d, p).at[k] == p.at[k]
    ensures k in d.at && k !in p.at ==> Update(d, p).at[k] == d.at[k]
    ensures d.keys <= Update(d, p).keys
    ensures d.at.Keys !! p.at.Keys ==> Update(d, p).keys == d.keys + p.keys
  {
    if d.at.Keys !! p.at.Keys {
      forall x | x in p.keys
        ensures x !in d.at
      {
        assert x in Elems(p.keys);
      }
      FilterAll(p.keys, Beyond(d));
    }
  }

  lemma {:induction false} PutSame<V>(d: Dict<V>, k: string, v: V)
    requires k in d.at && d.at[k] == v
    ensures Put(d, k, v) == d
  {
  }

  /** Updating twice with the same object is updating once, order included. */
  lemma {:induction false} UpdateTwice<V>(d: Dict<V>, p: Dict<V>)
    requires WellFormed(p)
    ensures Update(Update(d, p), p) == Update(d, p)
  {
    var once := Update(d, p);
    UpdateCovered(once, p);
    assert once.at + p.at == once.at;
  }

  lemma {:induction false} UpdateCovered<V>(d: Dict<V>, p: Dict<V>)
    requires WellFormed(p) && p.at.Keys <= d.at.Keys
    ensures Update(d, p) == Dict(d.keys, d.at + p.at)
  {
    forall k | k in p.keys
      ensures k in d.at
    {
      assert k in Elems(p.keys);
    }
    FilterNone(p.keys, Beyond(d));
  }

  lemma {:induction false} PutWellFormed<V>(d: Dict<V>, k: string, v: V)
    requires WellFormed(d)
    ensures WellFormed(Put(d, k, v))
  {
    assert k in d.keys <==> k in Elems(d.keys);
  }
}
