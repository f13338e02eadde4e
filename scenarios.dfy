/** The concrete cases the repository's unit tests pin, and a few more that
    show the behaviour of the code at its edges. */
module Scenarios {
  import opened JsonValues
  import opened Inference
  import opened Cli

  /** A string value; the "attributes" part of the document is never looked at. */
  lemma StringScenario()
    ensures SelectMessage(JObj([
              ("attributes", JObj([("appName", JStr("ABCDEFGHIJKLMNOPQRSTUVW"))])),
              ("message", JObj([("name", JStr("John"))]))]))
            == Ok([("name", JStr("John"))])
    ensures SchemaOf([("name", JStr("John"))]) == [("name", EmptyDescriptor(String))]
  {
    SchemaUpToAt([("name", JStr("John"))], 1);
  }

  /** An integer value. */
  lemma IntegerScenario()
    ensures SchemaOf([("time", JInt(890))]) == [("time", EmptyDescriptor(Integer))]
  {
    SchemaUpToAt([("time", JInt(890))], 1);
  }

  /** A list whose first element is a string. */
  lemma EnumScenario()
    ensures SchemaOf([("countries", JList([JStr("ABCDEFGHIJKLMNOPQRSTUVWXYZA"), JStr("ABCDEFGHIJKLMNOPQ")]))])
            == [("countries", EmptyDescriptor(Enum))]
  {
    SchemaUpToAt([("countries", JList([JStr("ABCDEFGHIJKLMNOPQRSTUVWXYZA"), JStr("ABCDEFGHIJKLMNOPQ")]))], 1);
  }

  /** A list whose first element is an object. */
  lemma ArrayScenario()
    ensures SchemaOf([("cities", JList([JObj([("town", JStr("ABCDEFGHIJKLMNOPQ"))])]))])
            == [("cities", EmptyDescriptor(Array))]
  {
    SchemaUpToAt([("cities", JList([JObj([("town", JStr("ABCDEFGHIJKLMNOPQ"))])]))], 1);
  }

  /** A nested object is replaced by its own schema, not by a descriptor. */
  lemma NestedScenario()
    ensures SchemaOf([("a", JObj([("b", JStr("x"))]))]) == [("a", Nested([("b", EmptyDescriptor(String))]))]
  {
    SchemaUpToAt([("b", JStr("x"))], 1);
    SchemaUpToAt([("a", JObj([("b", JStr("x"))]))], 1);
  }

  /** Booleans are integers to Python's isinstance, floats and null are
      invalid, and a list led by a number is invalid whatever follows. */
  lemma EdgeKinds()
    ensures GetType(JBool(true)) == Integer
    ensures GetType(JFloat) == Invalid && GetType(JNull) == Invalid
    ensures GetType(JList([JInt(1), JStr("x")])) == Invalid
    ensures GetType(JList([])) == Enum
  {
  }

  /** The output path the tests derive from their input file. */
  lemma TestPathScenario()
    ensures ReplaceAll("tests/test_data.json") == "tests/test_schema.json"
  {
    assert ReplaceAll(".json") == ".json";
    assert ReplaceAll("data.json") == "schema.json";
    ReplaceAllCopiesPrefix("tests/test_", "data.json");
    assert "tests/test_data.json" == "tests/test_" + "data.json";
    assert "tests/test_" + "schema.json" == "tests/test_schema.json";
  }

  /** The file name part of the paths below. */
  lemma FileNameRewritten()
    ensures ReplaceAll("/data.json") == "/schema.json"
  {
    assert ReplaceAll("data.json") == "schema.json" by {
      assert ReplaceAll(".json") == ".json";
    }
    ReplaceAllCopiesPrefix("/", "data.json");
    assert "/data.json" == "/" + "data.json";
    assert "/" + "schema.json" == "/schema.json";
  }

  /** A path with "data" twice: both occurrences are replaced. */
  lemma EveryOccurrenceScenario()
    ensures ReplaceAll("data/data.json") == "schema/schema.json"
  {
    var path, rest := "data/data.json", "/data.json";
    FileNameRewritten();
    assert DataAt(path, 0) && path[4..] == rest;
    assert SchemaSegment + "/schema.json" == "schema/schema.json";
  }
}
