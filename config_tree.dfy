/**
 * The nested configuration structs that `SetDefaults` and `CheckEmptyFields`
 * walk (internal/helper/helper.go). Go discovers their shape at run time
 * through package reflect; the model spells it out as a descriptor tree:
 * a struct is a `Node` holding its fields in declared order, and every field
 * is one of the three shapes the walkers tell apart.
 */
module ConfigTree {
  import opened Wrappers

  /** The current value of a leaf field. `Str` and `Bool` are the two kinds
      `SetDefaults` knows how to write; every other kind (an integer, a struct
      held by value, a map, a pointer-free array, ...) is `Other`, named by the
      text reflect.Kind prints for it ("int", "struct", ...) and carrying
      whether it is its type's zero value. */
  datatype Value = Str(s: string) | Bool(b: bool) | Other(kind: string, isZero: bool)

  /** reflect.Value.IsZero on a leaf. */
  predicate IsZero(v: Value)
  {
    match v
    case Str(s) => s == ""
    case Bool(b) => !b
    case Other(_, zero) => zero
  }

  /** The zero value of the same kind as `v`. */
  function ZeroOf(v: Value): (z: Value)
    ensures IsZero(z) && SameKind(z, v)
  {
    match v
    case Str(_) => Str("")
    case Bool(_) => Bool(false)
    case Other(kind, _) => Other(kind, true)
  }

  /** Two values of the same Go kind. */
  predicate SameKind(a: Value, b: Value)
  {
    match a
    case Str(_) => b.Str?
    case Bool(_) => b.Bool?
    case Other(kind, _) => b.Other? && b.kind == kind
  }

  /** A field that is neither a pointer nor a slice. `name` is the Go field
      name; the tags are what `StructTag.Lookup` finds for `json` and
      `default`, and what `StructTag.Get` returns for `yaml` (the empty string
      when the field has no `yaml` tag). */
  datatype LeafField = LeafField(
    name: string,
    jsonTag: Option<string>,
    yamlTag: string,
    defaultTag: Option<string>,
    value: Value)

  /** One field of a struct, in the three shapes the walkers distinguish.
      `Pointer(None)` is a nil pointer or a pointer to something that is not a
      struct; in a slice, `None` is an element that is not a non-nil pointer
      to a struct. A slice is its logical sequence of elements: the walkers
      loop to `Cap()` but can only index below `Len()`, so the model stands
      for slices whose capacity equals their length. */
  datatype Field =
    | Leaf(leaf: LeafField)
    | Pointer(target: Option<Node>)
    | Slice(elems: seq<Option<Node>>)

  /** A struct value: the name of its type and its fields in declared order. */
  datatype Node = Node(typeName: string, fields: seq<Field>)

  /** The `interface{}` argument of a walker: a pointer to a struct, or a
      value of some other kind (named as reflect.Kind prints it). */
  datatype Arg = StructPointer(root: Node) | NotAPointer(kind: string)

  /** The errors the walkers return. */
  datatype Error =
    | NotPointer(caller: string)
    | UnsupportedDefault(kind: string)

  /** The text of the error, as `fmt.Errorf` formats it. */
  function Message(e: Error): string
  {
    match e
    case NotPointer(caller) => "The argument to " + caller + " must be a pointer"
    case UnsupportedDefault(kind) => "Setting default value of type " + kind + " not supported"
  }

  /** Go lets reflection set a field only when its name is exported, that is
      starts with an upper-case letter (ASCII letters only in this model). */
  predicate IsExported(name: string)
  {
    |name| > 0 && 'A' <= name[0] <= 'Z'
  }

  /** A leaf together with the type name of the struct that contains it. */
  datatype Visit = Visit(parent: string, leaf: LeafField)

  /** Every leaf of the tree, depth first, fields in declared order and slice
      elements in index order: the order in which both walkers reach them. */
  function Leaves(n: Node): seq<Visit>
    decreases n.fields, 2
  {
    FieldLeaves(n.typeName, n.fields)
  }

  function FieldLeaves(parent: string, fs: seq<Field>): seq<Visit>
    decreases fs, 1
  {
    if fs == [] then [] else LeavesOf(parent, fs[0]) + FieldLeaves(parent, fs[1..])
  }

  /** The leaves reached through one field of a struct of type `parent`. */
  function LeavesOf(parent: string, f: Field): seq<Visit>
    decreases f, 0
  {
    match f
    case Leaf(l) => [Visit(parent, l)]
    case Pointer(None) => []
    case Pointer(Some(m)) => assert f decreases to m; Leaves(m)
    case Slice(es) => ElemLeaves(es)
  }

  function ElemLeaves(es: seq<Option<Node>>): seq<Visit>
    decreases es, 1
  {
    if es == [] then []
    else
      (match es[0]
       case None => []
       case Some(m) => assert es[0] decreases to m; Leaves(m))
      + ElemLeaves(es[1..])
  }

  /** The tree with every leaf replaced by `g` of it and everything else kept. */
  function MapLeaves(n: Node, g: LeafField -> LeafField): Node
    decreases n.fields, 2
  {
    Node(n.typeName, MapFieldLeaves(n.fields, g))
  }

  function MapFieldLeaves(fs: seq<Field>, g: LeafField -> LeafField): seq<Field>
    decreases fs, 1
  {
    if fs == [] then [] else [MapFieldLeaf(fs[0], g)] + MapFieldLeaves(fs[1..], g)
  }

  function MapFieldLeaf(f: Field, g: LeafField -> LeafField): Field
    decreases f, 0
  {
    match f
    case Leaf(l) => Leaf(g(l))
    case Pointer(None) => f
    case Pointer(Some(m)) => assert f decreases to m; Pointer(Some(MapLeaves(m, g)))
    case Slice(es) => Slice(MapElemLeaves(es, g))
  }

  function MapElemLeaves(es: seq<Option<Node>>, g: LeafField -> LeafField): seq<Option<Node>>
    decreases es, 1
  {
    if es == [] then []
    else
      [match es[0]
       case None => None
       case Some(m) => assert es[0] decreases to m; Some(MapLeaves(m, g))]
      + MapElemLeaves(es[1..], g)
  }

  /** A leaf with its value reset to the zero value of its kind. */
  function Erase(l: LeafField): LeafField
  {
    l.(value := ZeroOf(l.value))
  }

  /** The shape of a tree: type names, field names and tags, value kinds, which
      pointers are set and how long every slice is, with all leaf values
      forgotten. */
  function Shape(n: Node): Node
  {
    MapLeaves(n, Erase)
  }
}
