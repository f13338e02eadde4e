# JSON schema generator — verified model

This project models the schema-inference core of a small Python command-line
tool, `JSONSchemaGenerator` in `main.py`. The tool reads a JSON document,
takes the object stored under its `"message"` key, and writes a schema. The
schema has the same keys as that object, in the same order. A nested object
is replaced by its own schema. Every other value is replaced by a descriptor
`{type, tag: "", description: "", required: False}`, where `type` is one of
the five labels `get_type` returns: `string`, `integer`, `enum`, `array`,
`invalid`.

The model works on already-parsed JSON values:

- `json_values.dfy` (module `JsonValues`): the `Json` datatype, and Python
  dicts as insertion-ordered lists of (key, value) pairs. `Lookup` models
  `d.get(k)` and `Assign` models `d[k] = v`.
- `inference.dfy` (module `Inference`): `GetType` (`get_type`), and
  `GenerateSchema` (`generate_schema`). `GenerateSchema` is a method with the
  source's loop. It fills `processed` with `Assign` and calls itself on
  nested objects. It is proved equal to the function `SchemaOf`. The lemmas
  then state what `SchemaOf` promises.
- `cli.dfy` (module `Cli`): the class `JsonSchemaGenerator`. Its constructor
  derives `file_path` and `schema_path` as `__init__` does. `Run` models
  `run` from the parsed document up to the schema and the output path.
  `ReplaceAll` models `str.replace("data", "schema")`.
- `scenarios.dfy` (module `Scenarios`): the cases pinned by
  `tests/test_main.py`, plus edge cases.

In two places the model follows Python's actual behaviour rather than what a
reader might expect:

- Python's `bool` is a subclass of `int`, so `get_type(True)` is `"integer"`,
  not `"invalid"` (main.py:123).
- `str.replace` replaces every occurrence of `"data"` in the path, not only
  the first (main.py:55).

`GetType` and `GenerateSchema` have no precondition, so both are total. The
ensures of `GenerateSchema` ties its result to the function `SchemaOf`, so
equal inputs give equal outputs. The input is an immutable value, so it
cannot be modified.

The lemmas about key order and lookups assume that the input dict has
distinct keys (`DistinctKeys`, or `WellFormed` at every depth). Every Python
dict has distinct keys. Without that assumption, `SchemaUpTo` still
follows Python's assignment semantics through `Assign`.

## Model

| member | source | states |
|---|---|---|
| `JsonValues.Lookup` | main.py:65 | `d.get(k)` is absent exactly when `k` is not a key, and a value it finds is stored under `k` |
| `JsonValues.LookupAt` | main.py:65 | in a dict with distinct keys, looking up the key at position `i` gives the value at position `i` |
| `JsonValues.Assign` | main.py:166-174 | `processed[key] = ...`; its contract is stated by the lemmas `AssignShape`, `AssignLookup` and `AssignKeepsDistinct` |
| `JsonValues.AssignShape` | main.py:166-174 | `d[k] = v` keeps the position of an existing key, appends a new key at the end, and leaves every other entry in place |
| `JsonValues.AssignLookup` | main.py:166-174 | after `d[k] = v`, looking up `k` gives `v` and every other key gives what it gave before |
| `JsonValues.AssignKeepsDistinct` | main.py:162-176 | assigning into a dict with distinct keys keeps the keys distinct |
| `Inference.LabelInjective` | main.py:120-133 | the five labels are pairwise different strings |
| `Inference.GetType` | main.py:109-134 | "string" exactly for strings; "integer" exactly for ints and bools; "enum" exactly for an empty list or a list led by a string; "array" exactly for a list led by an object; "invalid" exactly for floats, null, objects and lists led by anything else |
| `Inference.FirstElementOnly` | main.py:127-133 | two non-empty lists whose first elements have the same type get the same label, whatever the later elements are |
| `Inference.GenerateSchema` | main.py:151-176 | the loop with its recursive calls returns exactly `SchemaOf(message)` |
| `Inference.SchemaUpToAt` | main.py:162-176 | on a dict with distinct keys, after `n` rounds of the loop, entry `i` holds key `i` of the input and the entry for its value |
| `Inference.SchemaKeys` | main.py:162-176 | the schema's keys are the input's keys in the same order, with none added, dropped or renamed |
| `Inference.SchemaEntryAt` | main.py:163-174 | an object value becomes the recursive schema of that object and never a descriptor; any other value becomes `Descriptor(v)`, that is `Desc(GetType(v), "", "", false)` |
| `Inference.SchemaLookup` | main.py:163-176 | `processed[key]` is the entry for `message[key]`, and a key missing from `message` is missing from `processed` |
| `Inference.EntryOfWellFormed` | main.py:165-166 | if every input object has distinct keys, every dict in the schema has distinct keys, at every depth |
| `Cli.ReplaceAll` | main.py:55 | `file_path.replace("data", "schema")`; its contract is stated by the lemmas `ReplaceAllSplits` and `ReplaceAllUnchanged`, which together fix the result on every path, and by `NoDataLeft` and `ReplaceAllLength` |
| `Cli.ReplaceAllLength` | main.py:55 | replacing "data" by the longer "schema" never shortens the path |
| `Cli.NoDataLeft` | main.py:55 | every occurrence of "data" is replaced: the schema path contains no "data" at all |
| `Cli.ReplaceAllSplits` | main.py:55 | for a text `x` without "data", `x + "data" + y` becomes `x + "schema"` followed by the rewrite of `y`: the text before the first occurrence is kept and the occurrence becomes "schema" |
| `Cli.ReplaceAllUnchanged` | main.py:55 | the path is left unchanged exactly when it does not contain "data" |
| `Cli.ReplaceAllCopiesPrefix` | main.py:55 | a leading part with no 'd' is copied as it is |
| `Cli.SelectMessage` | main.py:62-67 | a document that is not an object fails at `data.get`; a document without "message" gives the empty message; a "message" object gives exactly its own pairs, and a "message" that is not an object fails with `MessageNotADict` |
| `Cli.SelectStoredMessage` | main.py:64-65 | a document whose "message" is set to an object selects exactly that object's pairs, whatever its other keys |
| `Cli.OnlyMessageMatters` | main.py:64-65 | two documents with the same "message" entry give the same input to `generate_schema`, whatever their other keys |
| `Cli.JsonSchemaGenerator.constructor` | main.py:54-55 | an empty `file_path` defaults to "data/" + filename; `schema_path` replaces every "data" in it by "schema" and contains no "data" |
| `Cli.JsonSchemaGenerator.Run` | main.py:57-69 | `run` fails exactly when the message cannot be selected, with the same error; otherwise it yields `schema_path` and the schema of the message |
| `Scenarios.StringScenario` | tests/test_main.py:20-45 | the "attributes" key is ignored, and `{"name": "John"}` gets one "string" descriptor |
| `Scenarios.IntegerScenario` | tests/test_main.py:47-66 | `{"time": 890}` gets one "integer" descriptor |
| `Scenarios.EnumScenario` | tests/test_main.py:68-90 | a list of strings gets an "enum" descriptor |
| `Scenarios.ArrayScenario` | tests/test_main.py:93-116 | a list led by an object gets an "array" descriptor |
| `Scenarios.NestedScenario` | main.py:165-166 | `{"a": {"b": "x"}}` becomes `{"a": {"b": string descriptor}}` |
| `Scenarios.EdgeKinds` | main.py:120-134 | `True` is "integer"; floats, null, and a list led by a number are "invalid"; `[]` is "enum" |
| `Scenarios.TestPathScenario` | tests/test_main.py:16 | "tests/test_data.json" gives the schema path "tests/test_schema.json" |
| `Scenarios.EveryOccurrenceScenario` | main.py:55 | "data/data.json" gives "schema/schema.json" |

## Left out

- Argument parsing (`_create_parser`, main.py:92-107) is left out. It reads `sys.argv` through argparse. The file name it yields is a parameter of the constructor.
- Reading and parsing the input file (`get_json_data`, main.py:136-149) is left out. It is file I/O and `json.loads`. `Run` takes the parsed document as its argument.
- Writing the schema (`write_data_to_file`, main.py:178-192) is left out. It is `json.dumps` and file I/O. `Run` returns the path and the schema that would be written.
- `fail` and `success` (main.py:72-90) are left out. `fail` prints an error through argparse and exits the process; `success` only prints. The errors `fail` reports come from `get_json_data` and `write_data_to_file`, which are left out too.
- `RunError` covers only the two AttributeErrors `run` itself raises: `data.get` on a document that is not an object (main.py:65) and `message.items()` on a "message" that is not an object (main.py:163). They propagate uncaught and never reach `fail`.
- The `__main__` entry point (main.py:198-199) is left out.
- Float values are left out. `JFloat` is an opaque leaf because the code never looks inside a float.
- JSON text with duplicate keys is left out. Deciding which value survives is the parser's job. The lemmas state their results for dicts with distinct keys.
- Python's recursion limit is left out. `generate_schema` on an object nested about a thousand levels deep raises `RecursionError`. The model's recursion has no depth bound.
