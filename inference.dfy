/** Schema inference over one parsed JSON object: `get_type` classifies a
    value, `generate_schema` rebuilds an object with every value replaced by a
    descriptor or, for a nested object, by that object's own schema
    (main.py, class JSONSchemaGenerator). */
module Inference {
  import opened JsonValues

  /** The labels `get_type` returns. There is no "object" label: an object
      is never classified, it is recursed into. */
  datatype Kind = String | Integer | Enum | Array | Invalid

  /** The label as it is written into the schema file. */
  function Label(k: Kind): string {
    match k
    case String => "string"
    case Integer => "integer"
    case Enum => "enum"
    case Array => "array"
    case Invalid => "invalid"
  }

  /** The five labels are distinct, so a `Kind` stands for exactly one label. */
  lemma LabelInjective(a: Kind, b: Kind)
    requires Label(a) == Label(b)
    ensures a == b
  {
  }

  // Python's isinstance tests, as the JSON values reach them.
  predicate IsStr(v: Json) { v.JStr? }
  /** `bool` is a subclass of `int` in Python, so `isinstance(True, int)` holds. */
  predicate IsInt(v: Json) { v.JInt? || v.JBool? }
  predicate IsList(v: Json) { v.JList? }
  predicate IsDict(v: Json) { v.JObj? }

  /** `get_type`: strings and integers (booleans among them) by their type;
      a list by its first element only, an empty list being an enum;
      everything else is invalid. It never fails. */
  function GetType(v: Json): (r: Kind)
    ensures r == String <==> v.JStr?
    ensures r == Integer <==> v.JInt? || v.JBool?
    ensures r == Enum <==> v.JList? && (v.items == [] || v.items[0].JStr?)
    ensures r == Array <==> v.JList? && v.items != [] && v.items[0].JObj?
    ensures r == Invalid <==>
      || v.JFloat? || v.JNull? || v.JObj?
      || (v.JList? && v.items != [] && !v.items[0].JStr? && !v.items[0].JObj?)
  {
    if IsStr(v) then String
    else if IsInt(v) then Integer
    else if IsList(v) then
      if v.items == [] then Enum
      else if IsStr(v.items[0]) then Enum
      else if IsDict(v.items[0]) then Array
      else Invalid
    else Invalid
  }

  /** Only the first element of a list decides its kind: two non-empty lists
      whose first elements are of the same JSON type get the same kind,
      whatever follows. */
  lemma FirstElementOnly(a: seq<Json>, b: seq<Json>)
    requires a != [] && b != []
    requires a[0].JStr? == b[0].JStr? && a[0].JObj? == b[0].JObj?
    ensures GetType(JList(a)) == GetType(JList(b))
  {
  }

  /** One entry of a schema: a descriptor for a value that is not an object,
      or the nested schema of an object. */
  datatype Entry =
    | Desc(kind: Kind, tag: string, description: string, required: bool)
    | Nested(fields: seq<(string, Entry)>)

  /** The descriptor `generate_schema` writes for kind `k`: an empty tag
      and description, and `required` false. */
  function EmptyDescriptor(k: Kind): Entry {
    Desc(k, "", "", false)
  }

  /** The descriptor `generate_schema` writes for a value that is not an object. */
  function Descriptor(v: Json): Entry {
    EmptyDescriptor(GetType(v))
  }

  /** What `generate_schema` stores under the key of value `v`. */
  function EntryOf(v: Json): Entry
    decreases v
  {
    if IsDict(v) then Nested(SchemaUpTo(v.fields, |v.fields|)) else Descriptor(v)
  }

  /** The dict `processed` after the loop of `generate_schema` has handled
      the first `n` pairs of `message`. */
  function SchemaUpTo(message: seq<(string, Json)>, n: nat): seq<(string, Entry)>
    requires n <= |message|
    decreases JObj(message), n
  {
    if n == 0 then []
    else Assign(SchemaUpTo(message, n - 1), message[n - 1].0, EntryOf(message[n - 1].1))
  }

  /** The value `generate_schema(message)` returns. */
  function SchemaOf(message: seq<(string, Json)>): seq<(string, Entry)> {
    SchemaUpTo(message, |message|)
  }

  /** `generate_schema`: fills an empty dict key by key, in the order of
      `message`, recursing into nested objects. */
  method GenerateSchema(message: seq<(string, Json)>) returns (processed: seq<(string, Entry)>)
    decreases JObj(message)
    ensures processed == SchemaOf(message)
  {
    processed := [];
    for i := 0 to |message|
      invariant processed == SchemaUpTo(message, i)
    {
      var key, val := message[i].0, message[i].1;
      var entry;
      if IsDict(val) {
        assert message[i] in message;
        var nested := GenerateSchema(val.fields);
        entry := Nested(nested);
      } else {
        entry := Descriptor(val);
      }
      SchemaStep(message, i);
      processed := Assign(processed, key, entry);
    }
  }

  /** One round of the loop: the pair at position `i` is assigned its entry. */
  lemma SchemaStep(message: seq<(string, Json)>, i: nat)
    requires i < |message|
    ensures SchemaUpTo(message, i + 1) == Assign(SchemaUpTo(message, i), message[i].0, EntryOf(message[i].1))
    ensures message[i].1.JObj? ==> EntryOf(message[i].1) == Nested(SchemaOf(message[i].1.fields))
    ensures !message[i].1.JObj? ==> EntryOf(message[i].1) == Descriptor(message[i].1)
  {
  }

  /** On a dict, the first `n` rounds of the loop append one entry per pair:
      position `i` of the result holds key `i` of `message` and the entry
      for its value. */
  lemma {:induction false} SchemaUpToAt(message: seq<(string, Json)>, n: nat)
    requires DistinctKeys(message) && n <= |message|
    ensures |SchemaUpTo(message, n)| == n
    ensures forall i | 0 <= i < n :: SchemaUpTo(message, n)[i] == (message[i].0, EntryOf(message[i].1))
  {
    if n > 0 {
      SchemaUpToAt(message, n - 1);
      var before := SchemaUpTo(message, n - 1);
      var key := message[n - 1].0;
      forall j | 0 <= j < n - 1 ensures Keys(before)[j] != key {
        assert Keys(before)[j] == message[j].0;
      }
      assert key !in Keys(before);
      var entry := EntryOf(message[n - 1].1);
      AssignShape(before, key, entry);
      var after := SchemaUpTo(message, n);
      assert after == before + [(key, entry)];
      forall i | 0 <= i < n ensures after[i] == (message[i].0, EntryOf(message[i].1)) {
        if i < n - 1 {
          assert after[i] == before[i];
        }
      }
    }
  }

  /** The schema has exactly the keys of `message`, in the same order. */
  lemma SchemaKeys(message: seq<(string, Json)>)
    requires DistinctKeys(message)
    ensures Keys(SchemaOf(message)) == Keys(message)
  {
    SchemaUpToAt(message, |message|);
  }

  /** Entry `i` of the schema keeps key `i` of `message`; an object value
      becomes that object's schema and never a descriptor; any other value
      becomes the descriptor with its kind, empty tag and description, and
      `required` false. */
  lemma SchemaEntryAt(message: seq<(string, Json)>, i: nat)
    requires DistinctKeys(message) && i < |message|
    ensures |SchemaOf(message)| == |message|
    ensures SchemaOf(message)[i].0 == message[i].0
    ensures message[i].1.JObj? ==> SchemaOf(message)[i].1 == Nested(SchemaOf(message[i].1.fields))
    ensures !message[i].1.JObj? ==> SchemaOf(message)[i].1 == Descriptor(message[i].1)
    ensures SchemaOf(message)[i].1.Desc? <==> !message[i].1.JObj?
  {
    SchemaUpToAt(message, |message|);
  }

  /** Looking a key up in the schema gives the entry for the value stored
      under it in `message`, and nothing for a key `message` lacks. */
  lemma SchemaLookup(message: seq<(string, Json)>, key: string)
    requires DistinctKeys(message)
    ensures Lookup(SchemaOf(message), key) ==
      match Lookup(message, key)
      case None => None
      case Some(v) => Some(EntryOf(v))
  {
    SchemaUpToAt(message, |message|);
    var schema := SchemaOf(message);
    SchemaKeys(message);
    match Lookup(message, key)
    case None =>
    case Some(v) =>
      var i :| 0 <= i < |message| && message[i] == (key, v);
      LookupAt(message, i);
      assert DistinctKeys(schema) by {
        forall p, q | 0 <= p < q < |schema| ensures schema[p].0 != schema[q].0 {
          assert Keys(schema)[p] == Keys(message)[p];
          assert Keys(schema)[q] == Keys(message)[q];
        }
      }
      LookupAt(schema, i);
  }

  /** Every dict in a schema has distinct keys, at every depth. */
  predicate EntryWellFormed(e: Entry)
    decreases e
  {
    match e
    case Desc(_, _, _, _) => true
    case Nested(fields) => DistinctKeys(fields) && forall i | 0 <= i < |fields| :: EntryWellFormed(fields[i].1)
  }

  /** A value whose objects all have distinct keys gets a schema whose dicts
      all have distinct keys. */
  lemma {:induction false} EntryOfWellFormed(v: Json)
    requires WellFormed(v)
    ensures EntryWellFormed(EntryOf(v))
    decreases v
  {
    if v.JObj? {
      var fields := v.fields;
      var schema := SchemaOf(fields);
      SchemaUpToAt(fields, |fields|);
      forall i | 0 <= i < |schema| ensures EntryWellFormed(schema[i].1) {
        assert fields[i] in fields;
        EntryOfWellFormed(fields[i].1);
      }
      assert DistinctKeys(schema);
    }
  }
}
