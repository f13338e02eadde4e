/** The pure parts of the command-line wrapper in main.py: where the input
    and output files are (`__init__`) and which part of the parsed document
    reaches `generate_schema` (`run`). */
module Cli {
  import opened JsonValues
  import opened Inference

  datatype Result<T, E> = Ok(value: T) | Err(error: E)

  /** The two AttributeErrors `run` raises on a document it cannot handle,
      before anything is written. */
  datatype RunError =
    | DocumentNotADict  // `data.get`: the parsed document is not an object
    | MessageNotADict   // `message.items()`: the "message" value is not an object

  /** Where input files are looked for when no explicit path is given. */
  const DataDir: string := "data/"
  /** The schema path replaces "data" by "schema". */
  const SchemaSegment: string := "schema"

  /** "data" occurs in `s` at position `i`. */
  predicate DataAt(s: string, i: int) {
    && 0 <= i && i + 4 <= |s|
    && s[i] == 'd' && s[i + 1] == 'a' && s[i + 2] == 't' && s[i + 3] == 'a'
  }

  /** `s.replace("data", "schema")`: Python scans left to right and replaces
      every non-overlapping occurrence. */
  function ReplaceAll(s: string): string
    decreases |s|
  {
    if |s| < 4 then s
    else if DataAt(s, 0) then SchemaSegment + ReplaceAll(s[4..])
    else [s[0]] + ReplaceAll(s[1..])
  }

  /** Replacing never shortens a string. */
  lemma {:induction false} ReplaceAllLength(s: string)
    ensures |ReplaceAll(s)| >= |s|
    decreases |s|
  {
    if |s| >= 4 {
      if DataAt(s, 0) {
        ReplaceAllLength(s[4..]);
      } else {
        ReplaceAllLength(s[1..]);
      }
    }
  }

  /** "data" occurs in `y` at `i` exactly when it occurs in `x + y` at `|x| + i`. */
  lemma DataAtShift(x: string, y: string, i: nat)
    ensures DataAt(x + y, |x| + i) <==> DataAt(y, i)
  {
  }

  /** A string that starts with "data" is rewritten to one that starts with an 's'. */
  lemma ReplacedStart(t: string)
    requires DataAt(t, 0)
    ensures |ReplaceAll(t)| > 0 && ReplaceAll(t)[0] == 's'
  {
    assert ReplaceAll(t) == SchemaSegment + ReplaceAll(t[4..]);
  }

  /** A leading part of the result that holds no 's' was copied unchanged
      from the input, since every replacement starts with an 's'. */
  lemma {:induction false} CopiedPrefix(t: string, k: nat)
    requires k <= |ReplaceAll(t)|
    requires forall j | 0 <= j < k :: ReplaceAll(t)[j] != 's'
    ensures k <= |t| && forall j | 0 <= j < k :: ReplaceAll(t)[j] == t[j]
    decreases |t|
  {
    if k > 0 && |t| >= 4 {
      var r := ReplaceAll(t);
      if DataAt(t, 0) {
        ReplacedStart(t);
      } else {
        var rest := ReplaceAll(t[1..]);
        assert r == [t[0]] + rest;
        forall j | 0 <= j < k - 1 ensures rest[j] != 's' {
          assert rest[j] == r[j + 1];
        }
        CopiedPrefix(t[1..], k - 1);
      }
    }
  }

  /** When `s` does not start with "data", neither does its rewrite: the
      first character is copied, and the three after it could only read
      "ata" if they were copied from `s` too. */
  lemma HeadCopied(s: string)
    requires |s| >= 4 && !DataAt(s, 0)
    ensures !DataAt(ReplaceAll(s), 0)
  {
    var t := s[1..];
    var rest := ReplaceAll(t);
    assert ReplaceAll(s) == [s[0]] + rest;
    if |rest| >= 3 && rest[0] == 'a' && rest[1] == 't' && rest[2] == 'a' {
      CopiedPrefix(t, 3);
    }
  }

  /** Every occurrence is replaced: the rewritten string holds no "data" at all. */
  lemma {:induction false} NoDataLeft(s: string)
    ensures forall i :: !DataAt(ReplaceAll(s), i)
    decreases |s|
  {
    var r := ReplaceAll(s);
    if |s| >= 4 {
      if DataAt(s, 0) {
        var rest := ReplaceAll(s[4..]);
        NoDataLeft(s[4..]);
        assert r == SchemaSegment + rest;
        forall i ensures !DataAt(r, i) {
          if i >= |SchemaSegment| {
            DataAtShift(SchemaSegment, rest, i - |SchemaSegment|);
          } else if 0 <= i {
            assert r[i] == SchemaSegment[i];
          }
        }
      } else {
        var rest := ReplaceAll(s[1..]);
        NoDataLeft(s[1..]);
        assert r == [s[0]] + rest;
        HeadCopied(s);
        forall i | i >= 1 ensures !DataAt(r, i) {
          DataAtShift([s[0]], rest, i - 1);
        }
      }
    }
  }

  /** A leading part without any 'd' cannot start an occurrence, so it is
      copied as it is. */
  lemma {:induction false} ReplaceAllCopiesPrefix(x: string, y: string)
    requires forall j | 0 <= j < |x| :: x[j] != 'd'
    ensures ReplaceAll(x + y) == x + ReplaceAll(y)
  {
    if x == [] {
      assert x + y == y;
    } else {
      var xy := x + y;
      if |xy| >= 4 {
        assert xy[1..] == x[1..] + y;
        ReplaceAllCopiesPrefix(x[1..], y);
        assert x == [x[0]] + x[1..];
      } else {
        assert ReplaceAll(y) == y;
      }
    }
  }

  /** Up to and including its first "data", the path is rewritten as
      Python's replace does: the text before it is kept, the occurrence
      becomes "schema", and the rest is rewritten in turn. */
  lemma {:induction false} ReplaceAllSplits(x: string, y: string)
    requires forall i :: !DataAt(x, i)
    ensures ReplaceAll(x + "data" + y) == x + "schema" + ReplaceAll(y)
    decreases |x|
  {
    var s := x + "data" + y;
    if x == [] {
      assert s == "data" + y;
      assert DataAt(s, 0) && s[4..] == y;
    } else {
      assert !DataAt(s, 0) by {
        if |x| >= 4 {
          assert !DataAt(x, 0);
        }
      }
      assert ReplaceAll(s) == [s[0]] + ReplaceAll(s[1..]);
      assert s[1..] == x[1..] + "data" + y;
      assert x == [x[0]] + x[1..];
      forall i ensures !DataAt(x[1..], i) {
        if i >= 0 {
          DataAtShift([x[0]], x[1..], i);
        }
      }
      ReplaceAllSplits(x[1..], y);
    }
  }

  /** The path is left as it is exactly when it holds no "data". */
  lemma {:induction false} ReplaceAllUnchanged(s: string)
    ensures ReplaceAll(s) == s <==> forall i :: !DataAt(s, i)
    decreases |s|
  {
    if |s| >= 4 {
      if DataAt(s, 0) {
        ReplaceAllLength(s[4..]);
        assert ReplaceAll(s) == SchemaSegment + ReplaceAll(s[4..]);
        assert |ReplaceAll(s)| > |s|;
      } else {
        ReplaceAllUnchanged(s[1..]);
        assert s == [s[0]] + s[1..];
        assert ReplaceAll(s) == [s[0]] + ReplaceAll(s[1..]);
        if forall i :: !DataAt(s[1..], i) {
          forall i | i >= 1 ensures !DataAt(s, i) {
            DataAtShift([s[0]], s[1..], i - 1);
          }
        } else {
          var i :| DataAt(s[1..], i);
          DataAtShift([s[0]], s[1..], i);
          assert ReplaceAll(s)[1..] == ReplaceAll(s[1..]);
        }
      }
    }
  }

  /** `data.get("message", {})` followed by the `message.items()` of
      `generate_schema`: the pairs of the "message" object, none when the key
      is absent, and the error each call raises on a value that is not an object. */
  function SelectMessage(data: Json): (r: Result<seq<(string, Json)>, RunError>)
    ensures !data.JObj? ==> r == Err(DocumentNotADict)
    ensures data.JObj? && "message" !in Keys(data.fields) ==> r == Ok([])
    ensures data.JObj? && Lookup(data.fields, "message").Some? ==>
      var m := Lookup(data.fields, "message").value;
      r == if m.JObj? then Ok(m.fields) else Err(MessageNotADict)
    ensures r.Ok? ==> data.JObj? && (r.value == [] || Lookup(data.fields, "message") == Some(JObj(r.value)))
  {
    if !IsDict(data) then Err(DocumentNotADict)
    else
      match Lookup(data.fields, "message")
      case None => Ok([])
      case Some(message) => if IsDict(message) then Ok(message.fields) else Err(MessageNotADict)
  }

  /** Only the "message" entry matters: two documents that agree on it give
      the same input to `generate_schema`, whatever their other keys. */
  lemma OnlyMessageMatters(a: seq<(string, Json)>, b: seq<(string, Json)>)
    requires Lookup(a, "message") == Lookup(b, "message")
    ensures SelectMessage(JObj(a)) == SelectMessage(JObj(b))
  {
  }

  /** Storing an object under "message" and selecting it again gives back
      its pairs, whatever else the document holds. */
  lemma SelectStoredMessage(d: seq<(string, Json)>, m: seq<(string, Json)>)
    ensures SelectMessage(JObj(Assign(d, "message", JObj(m)))) == Ok(m)
  {
    AssignLookup(d, "message", JObj(m), "message");
  }

  /** `JSONSchemaGenerator`: its two paths are fixed once by `__init__`. */
  class JsonSchemaGenerator {
    const filePath: string
    const schemaPath: string

    /** `__init__`: an empty `file_path` is falsy, so the path defaults to
        the file name under "data/"; the schema path replaces every "data"
        in it by "schema". */
    constructor (filePathArg: string, filename: string)
      ensures filePath == if filePathArg == "" then DataDir + filename else filePathArg
      ensures schemaPath == ReplaceAll(filePath)
      ensures forall i :: !DataAt(schemaPath, i)
    {
      var path := if filePathArg == "" then DataDir + filename else filePathArg;
      NoDataLeft(path);
      filePath := path;
      schemaPath := ReplaceAll(path);
    }

    /** `run` once the input file has been parsed into `data`: the schema of
        its "message" object and the path it is written to, or the error
        that stops the run. */
    method Run(data: Json) returns (r: Result<(string, seq<(string, Entry)>), RunError>)
      ensures r.Ok? <==> SelectMessage(data).Ok?
      ensures r.Ok? ==> r.value == (schemaPath, SchemaOf(SelectMessage(data).value))
      ensures r.Err? ==> r.error == SelectMessage(data).error
    {
      var message := SelectMessage(data);
      match message
      case Err(e) =>
        r := Err(e);
      case Ok(m) =>
        var processed := GenerateSchema(m);
        r := Ok((schemaPath, processed));
    }
  }
}
