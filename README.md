# Struct walkers of ubuntu-image's `helper` package, in Dafny

`internal/helper/helper.go` holds two walkers over the image-definition
configuration. Both use Go reflection to visit the fields of a struct, go
down into nested structs through pointers, and go through the slices of
pointers to structs:

- `SetDefaults` writes the value of a field's `default` tag into every leaf
  field that still holds its zero value.
- `CheckEmptyFields` adds a `missing_field_error` record to a gojsonschema
  result for every required leaf field that holds its zero value.

The package also has two small helpers: `SliceHasElement`, a membership
test, and `SafeQuantitySubtraction`, a size subtraction that stops at zero.

Reflection is replaced by an explicit descriptor tree (`config_tree.dfy`):
- A `Node` is a struct: its type name and its fields in declared order.
- A field is one of three shapes:
  - `Leaf`: its name, `json`/`yaml`/`default` tags and current value;
  - `Pointer`: a struct, or nothing;
  - `Slice`: elements that each point to a struct or do not.
- A walker's `interface{}` argument is an `Arg`. It is either a pointer to a
  struct or a value of some other kind.

Files:
- `wrappers.dfy`: `Option` and `Result`.
- `config_tree.dfy`: the tree, zero values, and the helpers used to state
  properties:
  - `Leaves`: every leaf, depth first, in the order both walkers reach
    them;
  - `MapLeaves`: rewrite every leaf;
  - `Shape`: the tree with its values forgotten.
- `set_defaults.dfy` (module `Defaults`):
  - `DefaultsNode` and its companion functions specify the walk.
  - The methods `SetDefaults`, `SetStructDefaults`, `SetFieldDefaults` and
    `SetSliceDefaults` follow the Go loops and branches, and are proved to
    compute that walk.
  - The lemmas state what the walk guarantees.
- `empty_fields.dfy` (module `EmptyFields`):
  - `MissingNode` and its companion functions specify the records.
  - The class `ValidationResult` stands for gojsonschema's `Result`. It
    holds the list of records.
  - The methods `CheckEmptyFields`, `CheckStruct`, `CheckField` and
    `CheckSlice` follow the Go loops, and are proved to append exactly
    `MissingNode`.
  - `MissingNodeIsFilter` proves that these records are one per missing
    leaf, in depth-first order.
- `helpers.dfy` (module `Helper`): `SliceHasElement`,
  `SafeQuantitySubtraction` over a 64-bit `Size`, and `strings.Contains`.
- `slice_bounds.dfy`: the `Cap()` bound of the two slice loops (see
  Findings).
- `scenarios.dfy`: concrete configurations and what each walker makes of
  them.

What the Go code does, in the cases the model spells out:
- A nil pointer field, or a nil slice element, is skipped and never
  dereferenced: `Elem()` of a nil pointer has kind `Invalid`, not `Struct`.
  The model's `Pointer(None)` and `None` elements are skipped the same way.
- Every slice field is iterated, whatever its element type. Elements that
  are not non-nil pointers to structs are skipped.
- A leaf without a `json` tag is required only when `schema.Required` names
  it; a `json` tag makes a leaf required unless the tag contains
  `omitempty`.
- An unsupported default ends the field loop of the struct that holds the
  leaf. When that struct is nested, its error is dropped and the walk of
  the enclosing struct goes on with the next field.

## Model

| member | source | states |
|---|---|---|
| Defaults.DefaultLeaf | internal/helper/helper.go:119-141 | The leaf rule. It is an error exactly when the default applies (a `default` tag, a settable field, a zero value) to a kind other than string or bool, and the error names that kind. A leaf changes only when the default applies, and it keeps its kind. A string default is copied verbatim. A bool default is true exactly when the literal is `"true"`. |
| Defaults.ApplyDefault | internal/helper/helper.go:121-135 | Only the leaf's value can change, and only when the default applies. Where the leaf rule succeeds its value is written into the leaf, so an applicable string default takes the literal and an applicable bool default takes `literal == "true"`; where the rule fails the leaf is left as it was. |
| Defaults.DefaultField | internal/helper/helper.go:104-142 | One iteration of the field loop fails exactly when the field is a leaf of the struct itself with an unsupported default, and the error names the leaf's kind. Pointer and slice fields never fail, because nested errors are dropped (lines 111, 117). |
| Defaults.SetDefaults | internal/helper/helper.go:97-146 | A non-pointer argument is returned untouched with the error "The argument to SetDefaults must be a pointer". Otherwise the struct and the error are those of the walk `DefaultsNode`. |
| Defaults.SetStructDefaults | internal/helper/helper.go:102-145 | The field loop over one struct yields exactly `DefaultsNode`. It stops at the first unsupported default, leaving that field and the later ones as they were. |
| Defaults.SetFieldDefaults | internal/helper/helper.go:104-143 | The loop body on one field (slice, pointer or leaf branch) yields exactly `DefaultField`. |
| Defaults.SetSliceDefaults | internal/helper/helper.go:107-113 | The slice loop walks every element that points to a struct, drops its error, and keeps the other elements. |
| Defaults.DefaultsKeepShape | internal/helper/helper.go:103-118 | Type names, field names and tags, kinds, which pointers are set, and every slice's length are unchanged by the walk. |
| Defaults.DefaultsFieldsKeepShape | internal/helper/helper.go:103-118 | The same for the field loop. |
| Defaults.DefaultFieldKeepsShape | internal/helper/helper.go:104-142 | The same for one field. |
| Defaults.DefaultsElemsKeepShape | internal/helper/helper.go:107-113 | The same for a slice's elements. |
| Defaults.DefaultsIdempotent | internal/helper/helper.go:121-124 | A second run of `SetDefaults` on its own output returns the same struct and the same error. |
| Defaults.DefaultsFieldsIdempotent | internal/helper/helper.go:103-144 | The same for the field loop. |
| Defaults.DefaultFieldIdempotent | internal/helper/helper.go:104-142 | The same for one field. |
| Defaults.DefaultsElemsIdempotent | internal/helper/helper.go:107-113 | The same for a slice's elements. |
| Defaults.DefaultsAppliesRuleEverywhere | internal/helper/helper.go:103-141 | When no leaf anywhere in the tree has an unsupported default, the walk succeeds. It applies the leaf rule to every leaf at every depth, through pointers and slices alike, and changes nothing else. |
| Defaults.DefaultsFieldsApplyRule | internal/helper/helper.go:103-141 | The same for the field loop. |
| Defaults.DefaultFieldAppliesRule | internal/helper/helper.go:104-141 | The same for one field. |
| Defaults.DefaultsElemsApplyRule | internal/helper/helper.go:107-113 | The same for a slice's elements. |
| Defaults.DefaultsLeafwise | internal/helper/helper.go:119-141 | In every case, including failure, the tree lists the same leaves in the same order, each either unchanged or as the leaf rule makes it. |
| Defaults.DefaultsFieldsLeafwise | internal/helper/helper.go:119-141 | The same for the field loop. |
| Defaults.DefaultFieldLeafwise | internal/helper/helper.go:119-141 | The same for one field. |
| Defaults.DefaultsElemsLeafwise | internal/helper/helper.go:107-113 | The same for a slice's elements. |
| Defaults.DefaultsErrorIsFirstUnsupported | internal/helper/helper.go:103-139 | A struct's walk fails if and only if one of its own leaves has an unsupported default. The error names the kind of the first such leaf. The fields before it are left as a successful walk of those fields alone leaves them, and that field and every later one are left as they were. |
| Defaults.DefaultsFieldsPrefixStep | internal/helper/helper.go:103-104 | Walking the first `k + 1` fields is walking the first field and then the next `k`. |
| EmptyFields.CheckEmptyFields | internal/helper/helper.go:153-221 | A non-pointer argument yields the error "The argument to CheckEmptyFields must be a pointer" and adds nothing to the result. Otherwise it returns no error and appends exactly `MissingNode` to the result's records. |
| EmptyFields.CheckStruct | internal/helper/helper.go:159-219 | The field loop over one struct appends exactly the records of `MissingNode`, after the ones already there. |
| EmptyFields.CheckField | internal/helper/helper.go:160-218 | On a leaf, it computes "required" from the `json` tag (no `omitempty`) and from `schema.Required`. It appends the record exactly when the leaf is required and zero. Pointers and slices are walked. |
| EmptyFields.CheckSlice | internal/helper/helper.go:164-173 | The slice loop appends the records of every element that points to a struct, in index order. |
| EmptyFields.ValidationResult.AddError | internal/helper/helper.go:208-215 | The record is added at the end of the result's list, and nothing else changes. |
| EmptyFields.MissingRecordContents | internal/helper/helper.go:200-232 | The record's context is `missing_field` nested in `image_definition`. Its type is `missing_field_error`, its value 52, and it carries the description template. Its details are the leaf's `yaml` tag and the type name of the struct that holds it. |
| EmptyFields.MissingRecordIdentifiesKey | internal/helper/helper.go:203-207 | Two leaves give the same record if and only if they have the same `yaml` tag and sit in structs of the same type name. |
| EmptyFields.MissingAmongExactly | internal/helper/helper.go:186-217 | Every required zero leaf is reported, and every record reports a required zero leaf. |
| EmptyFields.MissingNodeIsFilter | internal/helper/helper.go:159-221 | The walk's records are one record per required zero leaf of the whole tree, at every depth, in depth-first declared order. No leaf stops the walk, and the same schema is used at every depth. |
| EmptyFields.MissingFieldsIsFilter | internal/helper/helper.go:159-219 | The same for the field loop. |
| EmptyFields.MissingInFieldIsFilter | internal/helper/helper.go:160-218 | The same for one field. |
| EmptyFields.MissingElemsIsFilter | internal/helper/helper.go:164-173 | The same for a slice's elements. |
| Helper.SliceHasElement | internal/helper/helper.go:241-249 | True if and only if `needle` occurs in `haystack`. |
| Helper.SafeQuantitySubtraction | internal/helper/helper.go:267-272 | The result never exceeds `orig`. It is the exact difference when `subtract <= orig`, and 0 (not a wrapped-around value) when `subtract > orig`. |
| Helper.SafeQuantitySubtractionTwice | internal/helper/helper.go:267-272 | Subtracting `a` and then `b` equals subtracting `a + b` at once, whenever that sum fits in 64 bits. |
| Helper.Contains | internal/helper/helper.go:190 | `strings.Contains(s, sub)`: true if and only if `sub` occurs in `s` at some index. |
| SliceBounds.CapLoopInRangeIff | internal/helper/helper.go:108-109 | The slice loop as written, from 0 to `Cap()`, keeps `Index(i)` in range exactly when the capacity equals the length. |
| SliceBounds.CapLoopOverruns | internal/helper/helper.go:165-166 | A slice of length 3 and capacity 4 makes the loop as written call `Index(3)`, which is out of range. |
| Scenarios.DefaultsOnZeroToggle | internal/helper/helper.go:127-135 | A zero `{Name string default "x"; Enabled bool default "true"}` becomes `{"x", true}` with no error. |
| Scenarios.DefaultsKeepSetToggle | internal/helper/helper.go:124 | A `Name` that is already set keeps its value. |
| Scenarios.DefaultsReachNestedToggle | internal/helper/helper.go:114-118 | The same struct behind a pointer field gets the same defaults. |
| Scenarios.CheckEmptyName | internal/helper/helper.go:195-216 | With `Required = ["Name"]`, an empty `Name` tagged `json:"name,omitempty"` yields exactly one record, with property "name" and parent "Image". |
| Scenarios.CheckSetName | internal/helper/helper.go:200-202 | A set `Name` yields no record. |
| Scenarios.CheckThreeElements | internal/helper/helper.go:164-173 | A slice of three struct pointers is checked element by element. The records are those of each element, in order. |

## Left out

- `CaptureStd`, `RunScript`, `Du`, `CopyBlob`, `SetCommandOutput`, `SaveCWD`:
  these are process, file and stream I/O.
- `InitCommonOpts`: a constructor over command option types that are not
  part of this model.
- Reflection itself. The tree is given explicitly. The tags are what
  `StructTag.Lookup` and `StructTag.Get` would find.
- In-place update and aliasing. `SetDefaults` writes leaves in place through
  the pointer. The model returns the updated tree as a new value, so two
  pointers sharing one struct are not modelled.
- Cycles. Nothing guards against a struct that points back to itself. The
  tree is finite by construction.
- Exported names. `CanSet` holds for exported fields. The model calls a name
  exported when it starts with an ASCII capital letter; Go's
  `unicode.IsUpper` also accepts other scripts.
- Panics:
  - An unexported pointer or slice-element field makes `Interface()` panic.
  - A pointer to a non-struct root makes `NumField` panic.
  - A nil pointer root, such as `(*T)(nil)`, passes the pointer test, but
    its `Elem()` is invalid and `NumField` panics (lines 103 and 159).
  - A slice whose capacity exceeds its length makes `Index` panic (see
    Findings).
  - A nil `schema` passed to `CheckEmptyFields` panics at the first leaf
    reached, where `schema.Required` is read (line 195). The model's
    `Schema` is a value and cannot be nil.
  - A nil `result` passed to `CheckEmptyFields` panics at the first record
    due, where `result.AddError` is called (line 208). The model's
    `ValidationResult` is a non-null reference and cannot be nil.

  An `Arg` is a non-nil pointer to a struct or not a pointer at all. The walkers'
  slice loops go up to the length.
- Defaults.SetSliceDefaults: loops up to the slice's length, where the Go
  loop runs up to its capacity. The two agree only when the capacity equals
  the length.
- EmptyFields.CheckSlice: loops up to the slice's length, where the Go loop
  runs up to its capacity, as for `SetSliceDefaults`.
- EmptyFields.CheckStruct: the Go code returns the error of a nested
  `CheckEmptyFields` call at once (lines 169-171 and 179-181). A nested call
  always receives a pointer, so it always returns nil. The model leaves out
  that unreachable return.
- `Result.AddError` internals:
  - the `context` entry it adds to the details;
  - the rendering of the description template with the details;
  - the result's score.

  A record keeps the template and the two details `property` and `parent`.
- Error values are data: `ConfigTree.Message` gives the text of each error,
  and `fmt.Errorf` itself is not modelled.

## Findings

| source | as written | input that shows it | evidently intended | confidence | as-written member | corrected member |
|---|---|---|---|---|---|---|
| internal/helper/helper.go:108-109, internal/helper/helper.go:165-166 | both slice loops run `i` up to `field.Cap()` and call `field.Index(i)`, which panics at `i >= Len()` | a slice field of length 3 and capacity 4 (as `append` can leave it): the loop reaches `Index(3)` | loop up to `field.Len()`, visiting each element once | not executed; medium (a slice decoded with equal length and capacity does not show it) | SliceBounds.CapLoopOverruns | Defaults.SetSliceDefaults, EmptyFields.CheckSlice |
