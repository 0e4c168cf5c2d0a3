/**
 * `CheckEmptyFields` (internal/helper/helper.go:153-221): walk a struct
 * through a pointer and append one missing-field record to the caller's
 * validation result for every required leaf that holds its zero value.
 *
 * The records the walk produces are specified by `MissingNode`, proved equal
 * to a plain filter over the leaves of the tree (`MissingAmong`); the method
 * `CheckEmptyFields` follows the Go loops and is proved to append exactly
 * those records, in that order.
 */
module EmptyFields {
  import opened Wrappers
  import opened ConfigTree
  import Helper

  /** A gojsonschema `JsonContext`: a label and the context it is nested in. */
  datatype JsonContext = JsonContext(head: string, parent: Option<JsonContext>)

  /** The labels of a context, outermost first. */
  function ContextPath(c: JsonContext): (path: seq<string>)
    ensures |path| > 0 && path[|path| - 1] == c.head
  {
    match c.parent
    case None => [c.head]
    case Some(p) => assert c decreases to p; ContextPath(p) + [c.head]
  }

  /** The `ErrorDetails` map `CheckEmptyFields` builds: its two keys,
      `property` and `parent`, as fields. */
  datatype ErrorDetails = ErrorDetails(property: string, parent: string)

  /** A `MissingFieldError` as `newMissingFieldError` fills it in: context,
      type, value, description template and details. */
  datatype MissingFieldError = MissingFieldError(
    context: JsonContext,
    errorType: string,
    value: int,
    descriptionFormat: string,
    details: ErrorDetails)

  /** The type `newMissingFieldError` gives every record. */
  const MissingFieldErrorType := "missing_field_error"

  /** The description template `newMissingFieldError` gives every record. */
  const MissingFieldDescription :=
    "Key \"{{.property}}\" is required in struct \"{{.parent}}\", but is not in the YAML file!"

  /** `newMissingFieldError` (internal/helper/helper.go:223-232). */
  function NewMissingFieldError(context: JsonContext, value: int, details: ErrorDetails): MissingFieldError
  {
    MissingFieldError(
      context,
      MissingFieldErrorType,
      value,
      MissingFieldDescription,
      details)
  }

  /** The record `CheckEmptyFields` appends for the leaf `v`
      (internal/helper/helper.go:200-216). */
  function MissingRecord(v: Visit): MissingFieldError
  {
    var jsonContext := JsonContext("image_definition", None);
    var details := ErrorDetails(v.leaf.yamlTag, v.parent);
    NewMissingFieldError(JsonContext("missing_field", Some(jsonContext)), 52, details)
  }

  /** What the record for `v` says: the `missing_field` context nested in
      `image_definition`, type `missing_field_error`, value 52, the
      description template, and as details the leaf's `yaml` tag and the
      type name of the struct that holds it. */
  lemma MissingRecordContents(v: Visit)
    ensures ContextPath(MissingRecord(v).context) == ["image_definition", "missing_field"]
    ensures MissingRecord(v).errorType == "missing_field_error" && MissingRecord(v).value == 52
    ensures MissingRecord(v).descriptionFormat ==
              "Key \"{{.property}}\" is required in struct \"{{.parent}}\", but is not in the YAML file!"
    ensures MissingRecord(v).details == ErrorDetails(v.leaf.yamlTag, v.parent)
  {
  }

  /** Two leaves give the same record exactly when they have the same `yaml`
      tag and sit in structs of the same type: the record tells which key is
      missing where, and nothing more. */
  lemma MissingRecordIdentifiesKey(v: Visit, w: Visit)
    ensures MissingRecord(v) == MissingRecord(w) <==>
              v.leaf.yamlTag == w.leaf.yamlTag && v.parent == w.parent
  {
  }

  /** The part of the JSON schema `CheckEmptyFields` consults. */
  datatype Schema = Schema(required: seq<string>)

  /** A leaf is required when its `json` tag lacks `omitempty`, or when the
      schema lists its Go field name as required. */
  predicate IsRequired(l: LeafField, schema: Schema)
  {
    (l.jsonTag.Some? && !Helper.Contains(l.jsonTag.value, "omitempty")) || l.name in schema.required
  }

  /** A required leaf at its zero value. */
  predicate IsMissing(v: Visit, schema: Schema)
  {
    IsRequired(v.leaf, schema) && IsZero(v.leaf.value)
  }

  // ---------------------------------------------------------------------
  // The records, walk by walk.

  /** The records `CheckEmptyFields` appends for the struct `n`. */
  function MissingNode(n: Node, schema: Schema): seq<MissingFieldError>
    decreases n.fields, 2
  {
    MissingFields(n.typeName, n.fields, schema)
  }

  function MissingFields(parent: string, fs: seq<Field>, schema: Schema): seq<MissingFieldError>
    decreases fs, 1
  {
    if fs == [] then [] else MissingInField(parent, fs[0], schema) + MissingFields(parent, fs[1..], schema)
  }

  /** The records for one field of a struct of type `parent`. */
  function MissingInField(parent: string, f: Field, schema: Schema): seq<MissingFieldError>
    decreases f, 0
  {
    match f
    case Leaf(l) => if IsMissing(Visit(parent, l), schema) then [MissingRecord(Visit(parent, l))] else []
    case Pointer(None) => []
    case Pointer(Some(m)) => assert f decreases to m; MissingNode(m, schema)
    case Slice(es) => MissingElems(es, schema)
  }

  function MissingElems(es: seq<Option<Node>>, schema: Schema): seq<MissingFieldError>
    decreases es, 1
  {
    if es == [] then []
    else
      (match es[0]
       case None => []
       case Some(m) => assert es[0] decreases to m; MissingNode(m, schema))
      + MissingElems(es[1..], schema)
  }

  // ---------------------------------------------------------------------
  // The same records, as a filter over the leaves of the tree.

  /** One record per missing leaf of `vs`, in order. */
  function MissingAmong(vs: seq<Visit>, schema: Schema): (r: seq<MissingFieldError>)
    ensures |r| <= |vs|
  {
    if vs == [] then []
    else (if IsMissing(vs[0], schema) then [MissingRecord(vs[0])] else []) + MissingAmong(vs[1..], schema)
  }

  /** Every missing leaf is reported, and nothing else is. */
  lemma {:induction false} MissingAmongExactly(vs: seq<Visit>, schema: Schema)
    ensures forall v :: v in vs && IsMissing(v, schema) ==> MissingRecord(v) in MissingAmong(vs, schema)
    ensures forall e :: e in MissingAmong(vs, schema) ==>
              exists v :: v in vs && IsMissing(v, schema) && e == MissingRecord(v)
  {
    if vs != [] {
      MissingAmongExactly(vs[1..], schema);
      assert forall v :: v in vs <==> v == vs[0] || v in vs[1..];
    }
  }

  lemma MissingAmongConcat(a: seq<Visit>, b: seq<Visit>, schema: Schema)
    ensures MissingAmong(a + b, schema) == MissingAmong(a, schema) + MissingAmong(b, schema)
  {
    if a == [] {
      assert a + b == b;
    } else {
      assert (a + b)[0] == a[0] && (a + b)[1..] == a[1..] + b;
      MissingAmongConcat(a[1..], b, schema);
    }
  }

  /** The walk reports exactly the missing leaves, depth first in declared
      order: the nesting changes the order of the records, not which ones
      there are. */
  lemma {:induction false} MissingNodeIsFilter(n: Node, schema: Schema)
    ensures MissingNode(n, schema) == MissingAmong(Leaves(n), schema)
    decreases n.fields, 2
  {
    MissingFieldsIsFilter(n.typeName, n.fields, schema);
  }

  lemma {:induction false} MissingFieldsIsFilter(parent: string, fs: seq<Field>, schema: Schema)
    ensures MissingFields(parent, fs, schema) == MissingAmong(FieldLeaves(parent, fs), schema)
    decreases fs, 1
  {
    if fs != [] {
      MissingInFieldIsFilter(parent, fs[0], schema);
      MissingFieldsIsFilter(parent, fs[1..], schema);
      MissingAmongConcat(LeavesOf(parent, fs[0]), FieldLeaves(parent, fs[1..]), schema);
    }
  }

  lemma {:induction false} MissingInFieldIsFilter(parent: string, f: Field, schema: Schema)
    ensures MissingInField(parent, f, schema) == MissingAmong(LeavesOf(parent, f), schema)
    decreases f, 0
  {
    match f
    case Leaf(l) =>
      assert [Visit(parent, l)][1..] == [];
    case Pointer(None) =>
    case Pointer(Some(m)) =>
      assert f decreases to m;
      MissingNodeIsFilter(m, schema);
    case Slice(es) =>
      MissingElemsIsFilter(es, schema);
  }

  lemma {:induction false} MissingElemsIsFilter(es: seq<Option<Node>>, schema: Schema)
    ensures MissingElems(es, schema) == MissingAmong(ElemLeaves(es), schema)
    decreases es, 1
  {
    if es != [] {
      MissingElemsIsFilter(es[1..], schema);
      match es[0]
      case None =>
        assert ElemLeaves(es) == ElemLeaves(es[1..]);
      case Some(m) =>
        assert es[0] decreases to m;
        MissingNodeIsFilter(m, schema);
        MissingAmongConcat(Leaves(m), ElemLeaves(es[1..]), schema);
    }
  }

  // ---------------------------------------------------------------------
  // The Go loops.

  /** gojsonschema's `Result`, reduced to the list of errors added to it. */
  class ValidationResult {
    var errors: seq<MissingFieldError>

    constructor ()
      ensures errors == []
    {
      errors := [];
    }

    /** `Result.AddError`: the record goes at the end of the list. */
    method AddError(e: MissingFieldError)
      modifies this
      ensures errors == old(errors) + [e]
    {
      errors := errors + [e];
    }
  }

  /** `CheckEmptyFields(Interface, result, schema)`: the error returned, with
      the records appended to `result`. */
  method CheckEmptyFields(arg: Arg, result: ValidationResult, schema: Schema) returns (err: Option<Error>)
    modifies result
    ensures arg.NotAPointer? ==>
              err == Some(NotPointer("CheckEmptyFields")) && result.errors == old(result.errors)
    ensures arg.StructPointer? ==>
              err == None && result.errors == old(result.errors) + MissingNode(arg.root, schema)
  {
    if !arg.StructPointer? {
      return Some(NotPointer("CheckEmptyFields"));
    }
    CheckStruct(arg.root, result, schema);
    return None;
  }

  /** The field loop of `CheckEmptyFields` over the struct `n`. */
  method CheckStruct(n: Node, result: ValidationResult, schema: Schema)
    modifies result
    ensures result.errors == old(result.errors) + MissingNode(n, schema)
    decreases n.fields, 2
  {
    var i := 0;
    while i < |n.fields|
      invariant i <= |n.fields|
      invariant old(result.errors) + MissingNode(n, schema) ==
                  result.errors + MissingFields(n.typeName, n.fields[i..], schema)
    {
      MissingFieldsFrom(n.typeName, n.fields, i, schema);
      CheckField(n.typeName, n.fields[i], result, schema);
      i := i + 1;
    }
  }

  /** The body of the field loop for one field of a struct of type `parent`:
      recurse into a slice or a pointer to a struct, otherwise report the leaf
      if it is required and zero. */
  method CheckField(parent: string, f: Field, result: ValidationResult, schema: Schema)
    modifies result
    ensures result.errors == old(result.errors) + MissingInField(parent, f, schema)
    decreases f, 0
  {
    match f {
      case Slice(es) =>
        CheckSlice(es, result, schema);
      case Pointer(p) =>
        if p.Some? {
          assert f decreases to p.value;
          CheckStruct(p.value, result, schema);
        }
      case Leaf(l) =>
        var required := false;
        if l.jsonTag.Some? {
          if !Helper.Contains(l.jsonTag.value, "omitempty") {
            required := true;
          }
        }
        var listed := Helper.SliceHasElement(schema.required, l.name);
        if listed {
          required := true;
        }
        if required && IsZero(l.value) {
          result.AddError(MissingRecord(Visit(parent, l)));
        }
    }
  }

  /** The slice loop of `CheckEmptyFields`. */
  method CheckSlice(es: seq<Option<Node>>, result: ValidationResult, schema: Schema)
    modifies result
    ensures result.errors == old(result.errors) + MissingElems(es, schema)
    decreases es, 1
  {
    var j := 0;
    while j < |es|
      invariant j <= |es|
      invariant old(result.errors) + MissingElems(es, schema) ==
                  result.errors + MissingElems(es[j..], schema)
    {
      MissingElemsFrom(es, j, schema);
      if es[j].Some? {
        assert es[j] decreases to es[j].value;
        CheckStruct(es[j].value, result, schema);
      }
      j := j + 1;
    }
  }

  /** The field walk from field `i` on, one iteration unfolded. */
  lemma MissingFieldsFrom(parent: string, fs: seq<Field>, i: nat, schema: Schema)
    requires i < |fs|
    ensures MissingFields(parent, fs[i..], schema) ==
              MissingInField(parent, fs[i], schema) + MissingFields(parent, fs[i + 1..], schema)
  {
    assert fs[i..][0] == fs[i] && fs[i..][1..] == fs[i + 1..];
  }

  /** The slice walk from element `j` on, one iteration unfolded. */
  lemma MissingElemsFrom(es: seq<Option<Node>>, j: nat, schema: Schema)
    requires j < |es|
    ensures es[j].None? ==> MissingElems(es[j..], schema) == MissingElems(es[j + 1..], schema)
    ensures es[j].Some? ==>
              MissingElems(es[j..], schema) == MissingNode(es[j].value, schema) + MissingElems(es[j + 1..], schema)
  {
    assert es[j..][0] == es[j] && es[j..][1..] == es[j + 1..];
  }
}
