/** Parsed JSON values, as Python's json module hands them to the schema
    generator, and the insertion-ordered dict operations the generator uses. */
module JsonValues {

  datatype Option<T> = None | Some(value: T)

  /** One parsed JSON value. Booleans and floats are kept apart from integers
      because Python keeps them apart as `bool` and `float`; the generator never
      looks inside a float, so `JFloat` carries no payload. An object is its
      (key, value) pairs in insertion order, the order a Python dict iterates. */
  datatype Json =
    | JStr(s: string)
    | JInt(n: int)
    | JBool(b: bool)
    | JFloat
    | JNull
    | JList(items: seq<Json>)
    | JObj(fields: seq<(string, Json)>)

  /** The keys of an ordered dict, in iteration order. */
  function Keys<V>(d: seq<(string, V)>): seq<string> {
    seq(|d|, i requires 0 <= i < |d| => d[i].0)
  }

  /** No key appears twice: what every Python dict guarantees. */
  predicate DistinctKeys<V>(d: seq<(string, V)>) {
    forall i, j | 0 <= i < j < |d| :: d[i].0 != d[j].0
  }

  /** Every object in `v`, `v` itself included, has distinct keys. */
  predicate WellFormed(v: Json)
    decreases v
  {
    match v
    case JList(items) => forall i | 0 <= i < |items| :: WellFormed(items[i])
    case JObj(fields) => DistinctKeys(fields) && forall i | 0 <= i < |fields| :: WellFormed(fields[i].1)
    case _ => true
  }

  lemma KeysCons<V>(x: (string, V), rest: seq<(string, V)>)
    ensures Keys([x] + rest) == [x.0] + Keys(rest)
  {
  }

  /** `d.get(k)`: the value stored under `k`, if there is one. */
  function Lookup<V>(d: seq<(string, V)>, k: string): (r: Option<V>)
    ensures r.None? <==> k !in Keys(d)
    ensures r.Some? ==> (k, r.value) in d
  {
    if d == [] then None
    else
      assert d == [d[0]] + d[1..];
      KeysCons(d[0], d[1..]);
      if d[0].0 == k then Some(d[0].1) else Lookup(d[1..], k)
  }

  /** In a dict, the value found under the key at position `i` is the one stored there. */
  lemma {:induction false} LookupAt<V>(d: seq<(string, V)>, i: nat)
    requires DistinctKeys(d) && i < |d|
    ensures Lookup(d, d[i].0) == Some(d[i].1)
  {
    if i > 0 {
      assert d[0].0 != d[i].0;
      assert d[1..][i - 1] == d[i];
      LookupAt(d[1..], i - 1);
    }
  }

  /** `d[k] = v` on a Python dict. */
  function Assign<V>(d: seq<(string, V)>, k: string, v: V): seq<(string, V)> {
    if d == [] then [(k, v)]
    else if d[0].0 == k then [(k, v)] + d[1..]
    else [d[0]] + Assign(d[1..], k, v)
  }

  /** A key already present keeps its position and takes the new value, a
      new key goes at the end, and no other entry moves or changes. */
  lemma {:induction false} AssignShape<V>(d: seq<(string, V)>, k: string, v: V)
    ensures Keys(Assign(d, k, v)) == if k in Keys(d) then Keys(d) else Keys(d) + [k]
    ensures k !in Keys(d) ==> Assign(d, k, v) == d + [(k, v)]
    ensures forall i | 0 <= i < |d| && d[i].0 != k :: Assign(d, k, v)[i] == d[i]
  {
    if d != [] {
      assert d == [d[0]] + d[1..];
      KeysCons(d[0], d[1..]);
      if d[0].0 == k {
        KeysCons((k, v), d[1..]);
      } else {
        var rest := Assign(d[1..], k, v);
        AssignShape(d[1..], k, v);
        KeysCons(d[0], rest);
      }
    }
  }

  /** After `d[k] = v`, looking up `k` gives `v` and every other key gives what it gave before. */
  lemma {:induction false} AssignLookup<V>(d: seq<(string, V)>, k: string, v: V, k': string)
    ensures Lookup(Assign(d, k, v), k') == if k' == k then Some(v) else Lookup(d, k')
  {
    if d != [] && d[0].0 != k {
      var rest := Assign(d[1..], k, v);
      assert Assign(d, k, v) == [d[0]] + rest;
      assert ([d[0]] + rest)[1..] == rest;
      AssignLookup(d[1..], k, v, k');
    }
  }

  /** Assigning into a dict keeps its keys distinct. */
  lemma AssignKeepsDistinct<V>(d: seq<(string, V)>, k: string, v: V)
    requires DistinctKeys(d)
    ensures DistinctKeys(Assign(d, k, v))
  {
    AssignShape(d, k, v);
    var r := Assign(d, k, v);
    forall i, j | 0 <= i < j < |r| ensures r[i].0 != r[j].0 {
      assert Keys(r)[i] == r[i].0 && Keys(r)[j] == r[j].0;
      if k !in Keys(d) && j == |d| {
        assert Keys(d)[i] == d[i].0;
      } else {
        assert Keys(d)[i] == d[i].0 && Keys(d)[j] == d[j].0;
      }
    }
  }
}
