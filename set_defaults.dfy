/**
 * `SetDefaults` (internal/helper/helper.go:97-146): walk a struct through a
 * pointer and give every zero-valued leaf that carries a `default` tag the
 * value of that tag.
 *
 * The walk is specified by `DefaultsNode`; the method `SetDefaults` follows
 * the Go loops and is proved to compute it. The lemmas say what the walk
 * guarantees: it keeps the shape of the tree, writes a leaf only as the leaf
 * rule `DefaultLeaf` allows, stops a struct at its first unsupported default,
 * and changes nothing when run a second time.
 */
module Defaults {
  import opened Wrappers
  import opened ConfigTree

  /** Whether `SetDefaults` writes the leaf: it has a `default` tag, reflection
      may set it, and it holds its zero value. */
  predicate DefaultApplies(l: LeafField)
  {
    l.defaultTag.Some? && IsExported(l.name) && IsZero(l.value)
  }

  /** The leaf rule: the value `SetDefaults` leaves in the leaf, or the error
      it returns for it. */
  function DefaultLeaf(l: LeafField): (r: Result<Value, Error>)
    // an error exactly for an applicable default on a kind other than string and bool
    ensures r.Err? <==> DefaultApplies(l) && l.value.Other?
    ensures r.Err? ==> r.error == UnsupportedDefault(l.value.kind)
    // a leaf is only ever written when the default applies, and keeps its kind
    ensures r.Ok? && r.value != l.value ==> DefaultApplies(l)
    ensures r.Ok? ==> SameKind(r.value, l.value)
    // a string default is copied verbatim
    ensures DefaultApplies(l) && l.value.Str? ==> r == Ok(Str(l.defaultTag.value))
    // a bool default is true exactly when the literal is "true"
    ensures DefaultApplies(l) && l.value.Bool? ==> r.Ok? && (r.value == Bool(true) <==> l.defaultTag.value == "true")
  {
    match l.defaultTag
    case None => Ok(l.value)
    case Some(literal) =>
      if IsExported(l.name) && IsZero(l.value) then
        match l.value
        case Str(_) => Ok(Str(literal))
        case Bool(_) => Ok(Bool(literal == "true"))
        case Other(kind, _) => Err(UnsupportedDefault(kind))
      else
        Ok(l.value)
  }

  /** The leaf after the leaf rule, or unchanged where the rule fails. */
  function ApplyDefault(l: LeafField): (r: LeafField)
    // only the value can change, and only to the default
    ensures r == l.(value := r.value)
    ensures r.value != l.value ==> DefaultApplies(l)
    ensures r.value != l.value && l.value.Str? ==> r.value == Str(l.defaultTag.value)
    ensures r.value != l.value && l.value.Bool? ==> r.value == Bool(l.defaultTag.value == "true")
    // the rule's value is written where it succeeds; the leaf stays where it fails
    ensures DefaultLeaf(l).Ok? ==> r.value == DefaultLeaf(l).value
    ensures DefaultLeaf(l).Err? ==> r == l
  {
    match DefaultLeaf(l)
    case Ok(v) => l.(value := v)
    case Err(_) => l
  }

  /** A field of the struct itself (not of a nested one) whose default
      cannot be applied. */
  predicate Unsupported(f: Field)
  {
    f.Leaf? && DefaultLeaf(f.leaf).Err?
  }

  /** The struct after `SetDefaults` and the error it returns. */
  datatype Defaulted = Defaulted(node: Node, err: Option<Error>)

  /** The fields after the field loop of `SetDefaults` and the error it returns. */
  datatype DefaultedFields = DefaultedFields(fields: seq<Field>, err: Option<Error>)

  /** `SetDefaults` on a pointer to `n`. */
  function DefaultsNode(n: Node): (r: Defaulted)
    ensures r.node.typeName == n.typeName && |r.node.fields| == |n.fields|
    decreases n.fields, 2
  {
    var w := DefaultsFields(n.fields);
    Defaulted(Node(n.typeName, w.fields), w.err)
  }

  /** The field loop from the first of `fs` on. A leaf whose default is not
      supported ends the loop with an error and leaves it and the later fields
      as they are. */
  function DefaultsFields(fs: seq<Field>): (r: DefaultedFields)
    ensures |r.fields| == |fs|
    decreases fs, 1
  {
    if fs == [] then DefaultedFields([], None)
    else
      match DefaultField(fs[0])
      case Err(e) => DefaultedFields(fs, Some(e))
      case Ok(f) =>
        var rest := DefaultsFields(fs[1..]);
        DefaultedFields([f] + rest.fields, rest.err)
  }

  /** One iteration of the field loop: the field afterwards, or the error that
      ends the loop. Pointers and slice elements are walked recursively and
      their errors dropped, so only a leaf of the struct itself can fail. */
  function DefaultField(f: Field): (r: Result<Field, Error>)
    ensures r.Err? <==> Unsupported(f)
    ensures r.Err? ==> r.error == UnsupportedDefault(f.leaf.value.kind)
    decreases f, 0
  {
    match f
    case Leaf(l) =>
      (match DefaultLeaf(l)
       case Err(e) => Err(e)
       case Ok(v) => Ok(Leaf(l.(value := v))))
    case Pointer(None) => Ok(f)
    case Pointer(Some(m)) => assert f decreases to m; Ok(Pointer(Some(DefaultsNode(m).node)))
    case Slice(es) => Ok(Slice(DefaultsElems(es)))
  }

  /** The slice loop: every element that points to a struct is walked, its
      error dropped; other elements stay. */
  function DefaultsElems(es: seq<Option<Node>>): (r: seq<Option<Node>>)
    ensures |r| == |es|
    decreases es, 1
  {
    if es == [] then []
    else
      [match es[0]
       case None => None
       case Some(m) => assert es[0] decreases to m; Some(DefaultsNode(m).node)]
      + DefaultsElems(es[1..])
  }

  // ---------------------------------------------------------------------
  // The Go loops, proved to compute the walk above.

  /** `SetDefaults(needsDefaults)`: the argument after the call (the struct it
      points to, written in place in Go) and the error returned. */
  method SetDefaults(arg: Arg) returns (after: Arg, err: Option<Error>)
    ensures arg.NotAPointer? ==> after == arg && err == Some(NotPointer("SetDefaults"))
    ensures arg.StructPointer? ==>
              after == StructPointer(DefaultsNode(arg.root).node) && err == DefaultsNode(arg.root).err
  {
    if !arg.StructPointer? {
      return arg, Some(NotPointer("SetDefaults"));
    }
    var n;
    n, err := SetStructDefaults(arg.root);
    after := StructPointer(n);
  }

  /** The field loop of `SetDefaults` over the struct `n`. */
  method SetStructDefaults(n: Node) returns (r: Node, err: Option<Error>)
    ensures Defaulted(r, err) == DefaultsNode(n)
    decreases n.fields, 2
  {
    var fields := n.fields;
    var i := 0;
    while i < |fields|
      invariant i <= |fields| == |n.fields|
      invariant fields[i..] == n.fields[i..]
      invariant DefaultsFields(n.fields) == Resumed(fields[..i], DefaultsFields(n.fields[i..]))
    {
      assert fields[i] == n.fields[i];
      DefaultsFieldsFrom(n.fields, i);
      var next := SetFieldDefaults(fields[i]);
      match next {
        case Err(e) =>
          assert fields[..i] + fields[i..] == fields;
          return Node(n.typeName, fields), Some(e);
        case Ok(f) =>
          ResumedStep(fields, i, f, DefaultsFields(n.fields[i + 1..]));
          fields := fields[i := f];
      }
      i := i + 1;
    }
    return Node(n.typeName, fields), None;
  }

  /** The body of the field loop for one field: recurse into a slice or a
      pointer to a struct, otherwise apply the `default` tag. */
  method SetFieldDefaults(f: Field) returns (r: Result<Field, Error>)
    ensures r == DefaultField(f)
    decreases f, 0
  {
    match f {
      case Slice(es) =>
        var elems := SetSliceDefaults(es);
        return Ok(Slice(elems));
      case Pointer(p) =>
        if p.Some? {
          assert f decreases to p.value;
          var m, _ := SetStructDefaults(p.value);
          return Ok(Pointer(Some(m)));
        }
        return Ok(f);
      case Leaf(l) =>
        if l.defaultTag.Some? && IsExported(l.name) && IsZero(l.value) {
          match l.value {
            case Str(_) =>
              return Ok(Leaf(l.(value := Str(l.defaultTag.value))));
            case Bool(_) =>
              if l.defaultTag.value == "true" {
                return Ok(Leaf(l.(value := Bool(true))));
              } else {
                return Ok(Leaf(l.(value := Bool(false))));
              }
            case Other(kind, _) =>
              return Err(UnsupportedDefault(kind));
          }
        }
        return Ok(f);
    }
  }

  /** The slice loop of `SetDefaults`: each element that points to a struct
      is walked and its error dropped. */
  method SetSliceDefaults(es: seq<Option<Node>>) returns (elems: seq<Option<Node>>)
    ensures elems == DefaultsElems(es)
    decreases es, 1
  {
    elems := es;
    var j := 0;
    while j < |elems|
      invariant j <= |elems| == |es|
      invariant elems[j..] == es[j..]
      invariant DefaultsElems(es) == elems[..j] + DefaultsElems(es[j..])
    {
      DefaultsElemsFrom(es, j);
      var e := elems[j];
      if elems[j].Some? {
        assert es[j] decreases to es[j].value;
        var m, _ := SetStructDefaults(elems[j].value);
        e := Some(m);
      }
      ReplaceStep(elems, j, e, DefaultsElems(es[j + 1..]));
      elems := elems[j := e];
      j := j + 1;
    }
    assert es[j..] == [] && elems == elems[..j];
  }

  /** The slice loop from element `j` on, one iteration unfolded. */
  lemma DefaultsElemsFrom(es: seq<Option<Node>>, j: nat)
    requires j < |es|
    ensures es[j].None? ==> DefaultsElems(es[j..]) == [None] + DefaultsElems(es[j + 1..])
    ensures es[j].Some? ==> DefaultsElems(es[j..]) == [Some(DefaultsNode(es[j].value).node)] + DefaultsElems(es[j + 1..])
  {
    assert es[j..][0] == es[j] && es[j..][1..] == es[j + 1..];
  }

  /** Replacing the element at `j` extends the finished prefix by it. */
  lemma ReplaceStep<T>(s: seq<T>, j: nat, e: T, rest: seq<T>)
    requires j < |s|
    ensures s[..j] + ([e] + rest) == s[j := e][..j + 1] + rest
    ensures s[j := e][j + 1..] == s[j + 1..]
  {
    assert s[j := e][..j + 1] == s[..j] + [e];
  }

  /** The outcome of the field loop when the fields before the current one are
      `done` and the loop goes on to produce `w` from there. */
  function Resumed(done: seq<Field>, w: DefaultedFields): DefaultedFields
  {
    DefaultedFields(done + w.fields, w.err)
  }

  /** The field loop from field `i` on, one iteration unfolded. */
  lemma DefaultsFieldsFrom(fs: seq<Field>, i: nat)
    requires i < |fs|
    ensures DefaultField(fs[i]).Err? ==>
              DefaultsFields(fs[i..]) == DefaultedFields(fs[i..], Some(DefaultField(fs[i]).error))
    ensures DefaultField(fs[i]).Ok? ==>
              DefaultsFields(fs[i..]) == Resumed([DefaultField(fs[i]).value], DefaultsFields(fs[i + 1..]))
  {
    assert fs[i..][0] == fs[i] && fs[i..][1..] == fs[i + 1..];
  }

  /** One more field of the loop done: `next` replaces the field at `i`. */
  lemma ResumedStep(fields: seq<Field>, i: nat, next: Field, w: DefaultedFields)
    requires i < |fields|
    ensures Resumed(fields[..i], Resumed([next], w)) == Resumed(fields[i := next][..i + 1], w)
  {
    ReplaceStep(fields, i, next, w.fields);
  }

  // ---------------------------------------------------------------------
  // The walk keeps the shape of the tree.

  lemma {:induction false} DefaultsKeepShape(n: Node)
    ensures Shape(DefaultsNode(n).node) == Shape(n)
    decreases n.fields, 2
  {
    DefaultsFieldsKeepShape(n.fields);
  }

  lemma {:induction false} DefaultsFieldsKeepShape(fs: seq<Field>)
    ensures MapFieldLeaves(DefaultsFields(fs).fields, Erase) == MapFieldLeaves(fs, Erase)
    decreases fs, 1
  {
    if fs != [] && DefaultField(fs[0]).Ok? {
      DefaultFieldKeepsShape(fs[0]);
      DefaultsFieldsKeepShape(fs[1..]);
      assert DefaultsFields(fs).fields[1..] == DefaultsFields(fs[1..]).fields;
    }
  }

  lemma {:induction false} DefaultFieldKeepsShape(f: Field)
    requires DefaultField(f).Ok?
    ensures MapFieldLeaf(DefaultField(f).value, Erase) == MapFieldLeaf(f, Erase)
    decreases f, 0
  {
    match f
    case Leaf(l) =>
    case Pointer(None) =>
    case Pointer(Some(m)) =>
      assert f decreases to m;
      DefaultsKeepShape(m);
    case Slice(es) =>
      DefaultsElemsKeepShape(es);
  }

  lemma {:induction false} DefaultsElemsKeepShape(es: seq<Option<Node>>)
    ensures MapElemLeaves(DefaultsElems(es), Erase) == MapElemLeaves(es, Erase)
    decreases es, 1
  {
    if es != [] {
      assert DefaultsElems(es)[1..] == DefaultsElems(es[1..]);
      DefaultsElemsKeepShape(es[1..]);
      match es[0]
      case None =>
      case Some(m) =>
        assert es[0] decreases to m;
        DefaultsKeepShape(m);
    }
  }

  // ---------------------------------------------------------------------
  // Running the walk twice is the same as running it once.

  lemma {:induction false} DefaultsIdempotent(n: Node)
    ensures DefaultsNode(DefaultsNode(n).node) == DefaultsNode(n)
    decreases n.fields, 2
  {
    DefaultsFieldsIdempotent(n.fields);
  }

  lemma {:induction false} DefaultsFieldsIdempotent(fs: seq<Field>)
    ensures DefaultsFields(DefaultsFields(fs).fields) == DefaultsFields(fs)
    decreases fs, 1
  {
    if fs != [] && DefaultField(fs[0]).Ok? {
      var r := DefaultsFields(fs);
      DefaultFieldIdempotent(fs[0]);
      DefaultsFieldsIdempotent(fs[1..]);
      assert r.fields[0] == DefaultField(fs[0]).value;
      assert r.fields[1..] == DefaultsFields(fs[1..]).fields;
    }
  }

  lemma {:induction false} DefaultFieldIdempotent(f: Field)
    requires DefaultField(f).Ok?
    ensures DefaultField(DefaultField(f).value) == DefaultField(f)
    decreases f, 0
  {
    match f
    case Leaf(l) =>
    case Pointer(None) =>
    case Pointer(Some(m)) =>
      assert f decreases to m;
      DefaultsIdempotent(m);
    case Slice(es) =>
      DefaultsElemsIdempotent(es);
  }

  lemma {:induction false} DefaultsElemsIdempotent(es: seq<Option<Node>>)
    ensures DefaultsElems(DefaultsElems(es)) == DefaultsElems(es)
    decreases es, 1
  {
    if es != [] {
      assert DefaultsElems(es)[1..] == DefaultsElems(es[1..]);
      DefaultsElemsIdempotent(es[1..]);
      match es[0]
      case None =>
      case Some(m) =>
        assert es[0] decreases to m;
        DefaultsIdempotent(m);
    }
  }

  // ---------------------------------------------------------------------
  // Without unsupported defaults, the walk applies the leaf rule to every
  // leaf of the tree, however deeply nested, and succeeds.

  lemma {:induction false} DefaultsAppliesRuleEverywhere(n: Node)
    requires forall v :: v in Leaves(n) ==> DefaultLeaf(v.leaf).Ok?
    ensures DefaultsNode(n) == Defaulted(MapLeaves(n, ApplyDefault), None)
    decreases n.fields, 2
  {
    DefaultsFieldsApplyRule(n.typeName, n.fields);
  }

  lemma {:induction false} DefaultsFieldsApplyRule(parent: string, fs: seq<Field>)
    requires forall v :: v in FieldLeaves(parent, fs) ==> DefaultLeaf(v.leaf).Ok?
    ensures DefaultsFields(fs) == DefaultedFields(MapFieldLeaves(fs, ApplyDefault), None)
    decreases fs, 1
  {
    if fs != [] {
      DefaultFieldAppliesRule(parent, fs[0]);
      DefaultsFieldsApplyRule(parent, fs[1..]);
    }
  }

  lemma {:induction false} DefaultFieldAppliesRule(parent: string, f: Field)
    requires forall v :: v in LeavesOf(parent, f) ==> DefaultLeaf(v.leaf).Ok?
    ensures DefaultField(f) == Ok(MapFieldLeaf(f, ApplyDefault))
    decreases f, 0
  {
    match f
    case Leaf(l) =>
      assert Visit(parent, l) in LeavesOf(parent, f);
    case Pointer(None) =>
    case Pointer(Some(m)) =>
      assert f decreases to m;
      DefaultsAppliesRuleEverywhere(m);
    case Slice(es) =>
      DefaultsElemsApplyRule(es);
  }

  lemma {:induction false} DefaultsElemsApplyRule(es: seq<Option<Node>>)
    requires forall v :: v in ElemLeaves(es) ==> DefaultLeaf(v.leaf).Ok?
    ensures DefaultsElems(es) == MapElemLeaves(es, ApplyDefault)
    decreases es, 1
  {
    if es != [] {
      DefaultsElemsApplyRule(es[1..]);
      match es[0]
      case None =>
      case Some(m) =>
        assert es[0] decreases to m;
        DefaultsAppliesRuleEverywhere(m);
    }
  }

  // ---------------------------------------------------------------------
  // In every case, each leaf ends up either as it was or as the leaf rule
  // makes it: the walk writes nothing else.

  /** `after` lists the same leaves as `before`, each unchanged or defaulted. */
  predicate LeafwiseDefaulted(before: seq<Visit>, after: seq<Visit>)
  {
    |after| == |before| &&
    forall k :: 0 <= k < |before| ==>
      after[k] == before[k] || after[k] == before[k].(leaf := ApplyDefault(before[k].leaf))
  }

  lemma LeafwiseDefaultedConcat(a1: seq<Visit>, b1: seq<Visit>, a2: seq<Visit>, b2: seq<Visit>)
    requires LeafwiseDefaulted(a1, b1) && LeafwiseDefaulted(a2, b2)
    ensures LeafwiseDefaulted(a1 + a2, b1 + b2)
  {
    forall k | 0 <= k < |a1 + a2|
      ensures (b1 + b2)[k] == (a1 + a2)[k] || (b1 + b2)[k] == (a1 + a2)[k].(leaf := ApplyDefault((a1 + a2)[k].leaf))
    {
      if k >= |a1| {
        assert (a1 + a2)[k] == a2[k - |a1|] && (b1 + b2)[k] == b2[k - |a1|];
      }
    }
  }

  lemma {:induction false} DefaultsLeafwise(n: Node)
    ensures LeafwiseDefaulted(Leaves(n), Leaves(DefaultsNode(n).node))
    decreases n.fields, 2
  {
    DefaultsFieldsLeafwise(n.typeName, n.fields);
  }

  lemma {:induction false} DefaultsFieldsLeafwise(parent: string, fs: seq<Field>)
    ensures LeafwiseDefaulted(FieldLeaves(parent, fs), FieldLeaves(parent, DefaultsFields(fs).fields))
    decreases fs, 1
  {
    var r := DefaultsFields(fs);
    if fs != [] && DefaultField(fs[0]).Ok? {
      DefaultFieldLeafwise(parent, fs[0]);
      DefaultsFieldsLeafwise(parent, fs[1..]);
      assert r.fields[0] == DefaultField(fs[0]).value;
      assert r.fields[1..] == DefaultsFields(fs[1..]).fields;
      LeafwiseDefaultedConcat(LeavesOf(parent, fs[0]), LeavesOf(parent, r.fields[0]),
                              FieldLeaves(parent, fs[1..]), FieldLeaves(parent, r.fields[1..]));
    }
  }

  lemma {:induction false} DefaultFieldLeafwise(parent: string, f: Field)
    requires DefaultField(f).Ok?
    ensures LeafwiseDefaulted(LeavesOf(parent, f), LeavesOf(parent, DefaultField(f).value))
    decreases f, 0
  {
    match f
    case Leaf(l) =>
    case Pointer(None) =>
    case Pointer(Some(m)) =>
      assert f decreases to m;
      DefaultsLeafwise(m);
    case Slice(es) =>
      DefaultsElemsLeafwise(es);
  }

  lemma {:induction false} DefaultsElemsLeafwise(es: seq<Option<Node>>)
    ensures LeafwiseDefaulted(ElemLeaves(es), ElemLeaves(DefaultsElems(es)))
    decreases es, 1
  {
    if es != [] {
      var r := DefaultsElems(es);
      assert r[1..] == DefaultsElems(es[1..]);
      DefaultsElemsLeafwise(es[1..]);
      match es[0]
      case None =>
        LeafwiseDefaultedConcat([], [], ElemLeaves(es[1..]), ElemLeaves(r[1..]));
      case Some(m) =>
        assert es[0] decreases to m;
        DefaultsLeafwise(m);
        LeafwiseDefaultedConcat(Leaves(m), Leaves(DefaultsNode(m).node), ElemLeaves(es[1..]), ElemLeaves(r[1..]));
    }
  }

  // ---------------------------------------------------------------------
  // The error SetDefaults returns.

  /** Field `k` is the first field of `fs` with an unsupported default. */
  predicate FirstUnsupportedAt(fs: seq<Field>, k: int)
  {
    0 <= k < |fs| && Unsupported(fs[k]) && forall j :: 0 <= j < k ==> !Unsupported(fs[j])
  }

  lemma FirstUnsupportedShift(fs: seq<Field>, k: int)
    requires fs != [] && !Unsupported(fs[0]) && FirstUnsupportedAt(fs[1..], k)
    ensures FirstUnsupportedAt(fs, k + 1)
  {
    forall j | 0 < j < k + 1 ensures !Unsupported(fs[j]) {
      assert fs[j] == fs[1..][j - 1];
    }
  }

  /** The field loop on fields whose first one succeeds, one iteration
      unfolded. */
  lemma DefaultsFieldsUnfold(fs: seq<Field>)
    requires fs != [] && !Unsupported(fs[0])
    ensures DefaultsFields(fs) == Resumed([DefaultField(fs[0]).value], DefaultsFields(fs[1..]))
  {
  }

  /** Walking the first `k + 1` fields is walking the first field and then
      the `k` after it. */
  lemma DefaultsFieldsPrefixStep(fs: seq<Field>, k: nat)
    requires k < |fs| && !Unsupported(fs[0])
    ensures DefaultsFields(fs[..k + 1]) ==
              Resumed([DefaultField(fs[0]).value], DefaultsFields(fs[1..][..k]))
  {
    var p := fs[..k + 1];
    assert p[0] == fs[0] && p[1..] == fs[1..][..k];
    DefaultsFieldsUnfold(p);
  }

  /** The first `k + 1` elements of `[x] + s` are `x` and the first `k` of `s`. */
  lemma TakeCons<T>(x: T, s: seq<T>, k: nat)
    requires k <= |s|
    ensures ([x] + s)[..k + 1] == [x] + s[..k]
  {
  }

  /** The walk of a struct fails exactly when one of its own leaves has an
      unsupported default (errors of nested structs are dropped). The error
      names the kind of the first such leaf; the fields before it are walked
      as a successful walk of them alone would leave them, and that field and
      all later ones are left as they were. */
  lemma {:induction false} DefaultsErrorIsFirstUnsupported(fs: seq<Field>)
    ensures DefaultsFields(fs).err.None? <==> forall k :: 0 <= k < |fs| ==> !Unsupported(fs[k])
    ensures DefaultsFields(fs).err.Some? ==>
              exists k :: FirstUnsupportedAt(fs, k) &&
                DefaultsFields(fs).err == Some(UnsupportedDefault(fs[k].leaf.value.kind)) &&
                DefaultsFields(fs).fields[..k] == DefaultsFields(fs[..k]).fields &&
                DefaultsFields(fs[..k]).err == None &&
                DefaultsFields(fs).fields[k..] == fs[k..]
    decreases fs
  {
    if fs != [] {
      var r := DefaultsFields(fs);
      if Unsupported(fs[0]) {
        assert FirstUnsupportedAt(fs, 0);
        assert r.fields[0..] == fs[0..] && fs[..0] == [] && r.fields[..0] == [];
      } else {
        DefaultsErrorIsFirstUnsupported(fs[1..]);
        var rest := DefaultsFields(fs[1..]);
        assert r.fields[1..] == rest.fields && r.err == rest.err;
        if r.err.Some? {
          var k :| FirstUnsupportedAt(fs[1..], k) &&
                   rest.err == Some(UnsupportedDefault(fs[1..][k].leaf.value.kind)) &&
                   rest.fields[..k] == DefaultsFields(fs[1..][..k]).fields &&
                   DefaultsFields(fs[1..][..k]).err == None &&
                   rest.fields[k..] == fs[1..][k..];
          FirstUnsupportedShift(fs, k);
          assert r.fields[k + 1..] == rest.fields[k..];
          assert fs[k + 1..] == fs[1..][k..];
          DefaultsFieldsPrefixStep(fs, k);
          DefaultsFieldsUnfold(fs);
          TakeCons(DefaultField(fs[0]).value, rest.fields, k);
        } else {
          forall k | 0 < k < |fs| ensures !Unsupported(fs[k]) {
            assert fs[k] == fs[1..][k - 1];
          }
        }
      }
    }
  }
}
