/**
 * Concrete configurations and what each walker makes of them.
 */
module Scenarios {
  import opened Wrappers
  import opened ConfigTree
  import opened Defaults
  import opened EmptyFields

  /** `Name string` with `default:"x"` and `Enabled bool` with
      `default:"true"`, both at their zero values. */
  function Toggle(name: string, enabled: bool): Node
  {
    Node("Toggle", [
      Leaf(LeafField("Name", None, "name", Some("x"), Str(name))),
      Leaf(LeafField("Enabled", None, "enabled", Some("true"), Bool(enabled)))])
  }

  /** From the zero value, the defaults are written: `Name` becomes "x" and
      `Enabled` becomes true. */
  lemma DefaultsOnZeroToggle()
    ensures DefaultsNode(Toggle("", false)) == Defaulted(Toggle("x", true), None)
  {
  }

  /** A value already set is never overridden by its default. */
  lemma DefaultsKeepSetToggle()
    ensures DefaultsNode(Toggle("set", false)) == Defaulted(Toggle("set", true), None)
  {
  }

  /** The same struct reached through a pointer field of an outer struct
      receives its defaults exactly as at the top. */
  lemma DefaultsReachNestedToggle()
    ensures DefaultsNode(Node("Outer", [Pointer(Some(Toggle("", false)))])) ==
            Defaulted(Node("Outer", [Pointer(Some(Toggle("x", true)))]), None)
  {
    DefaultsOnZeroToggle();
    var fs := [Pointer(Some(Toggle("", false)))];
    assert DefaultField(fs[0]) == Ok(Pointer(Some(Toggle("x", true))));
  }

  /** A struct with a required `Name` (listed in the schema) tagged
      `yaml:"name"`. */
  function Named(name: string): Node
  {
    Node("Image", [Leaf(LeafField("Name", Some("name,omitempty"), "name", None, Str(name)))])
  }

  /** An empty `Name` yields exactly one record, for key "name" in "Image". */
  lemma CheckEmptyName()
    ensures var r := MissingNode(Named(""), Schema(["Name"]));
            |r| == 1 && r[0].details == ErrorDetails("name", "Image")
  {
  }

  /** A set `Name` yields no record. */
  lemma CheckSetName()
    ensures MissingNode(Named("set"), Schema(["Name"])) == []
  {
  }

  /** A slice of three elements is checked element by element: the records of
      each, in order, and of nothing else. */
  lemma CheckThreeElements(a: Node, b: Node, c: Node, schema: Schema)
    ensures MissingNode(Node("List", [Slice([Some(a), Some(b), Some(c)])]), schema) ==
            MissingNode(a, schema) + MissingNode(b, schema) + MissingNode(c, schema)
  {
    var es := [Some(a), Some(b), Some(c)];
    var fs := [Slice(es)];
    assert fs[1..] == [];
    assert MissingFields("List", fs, schema) == MissingElems(es, schema);
    assert es[1..] == [Some(b), Some(c)] && es[1..][1..] == [Some(c)] && es[1..][1..][1..] == [];
    assert MissingElems([Some(c)], schema) == MissingNode(c, schema);
    assert MissingElems(es[1..], schema) == MissingNode(b, schema) + MissingNode(c, schema);
  }
}
