/**
 Three-valued Terraform attributes and the merge of a planned value with a refreshed one
 (`linode/helper/framework_data.go`).
 */
module Attributes {
  import opened Wrappers

  /** A framework value. Go's zero value of such a type is Null. */
  datatype Attr<+T> = Unknown | Null | Known(value: T)

  /** A Go pointer as an attribute: nil becomes Null (`types.StringPointerValue` and its siblings). */
  function FromPointer<T>(p: Option<T>): Attr<T> {
    if p.Some? then Known(p.value) else Null
  }

  /** `ValueString`, `ValueBool` and the like: the value, or the zero value of its Go type. */
  function ValueOr<T>(a: Attr<T>, zero: T): T {
    if a.Known? then a.value else zero
  }

  /** `KeepOrUpdateValue`: a null original counts as known. */
  function KeepOrUpdateValue<T>(original: Attr<T>, updated: Attr<T>, preserveKnown: bool): Attr<T> {
    if preserveKnown && !original.Unknown? then original else updated
  }

  // ---------------------------------------------------------------- merging along a chain of sources

  /** r is the first value of xs that is not unknown, or unknown when there is none. */
  ghost predicate IsFirstNonUnknown<T(!new)>(xs: seq<Attr<T>>, r: Attr<T>) {
    || (r.Unknown? && forall i :: 0 <= i < |xs| ==> xs[i].Unknown?)
    || (!r.Unknown? && exists i :: 0 <= i < |xs| && xs[i] == r && forall j :: 0 <= j < i ==> xs[j].Unknown?)
  }

  /** Successive known-preserving merges of the sources xs into a value. */
  function MergeChain<T>(original: Attr<T>, xs: seq<Attr<T>>): Attr<T>
    decreases |xs|
  {
    if xs == [] then original
    else MergeChain(KeepOrUpdateValue(original, xs[0], true), xs[1..])
  }

  /** However many merges a value goes through, it ends as the first non-unknown of its sources. */
  lemma {:induction false} MergeChainTakesFirst<T(!new)>(original: Attr<T>, xs: seq<Attr<T>>)
    ensures IsFirstNonUnknown([original] + xs, MergeChain(original, xs))
    decreases |xs|
  {
    var all := [original] + xs;
    if xs == [] {
      assert all[0] == original;
    } else {
      var next := KeepOrUpdateValue(original, xs[0], true);
      MergeChainTakesFirst(next, xs[1..]);
      var tail := [next] + xs[1..];
      var r := MergeChain(next, xs[1..]);
      assert all[0] == original && all[1] == xs[0];
      assert forall i :: 1 <= i < |tail| ==> tail[i] == all[i + 1];
      if r.Unknown? {
        assert tail[0].Unknown?;
        forall i | 0 <= i < |all| ensures all[i].Unknown? {
          assert i >= 2 ==> all[i] == tail[i - 1];
        }
      } else {
        var i :| 0 <= i < |tail| && tail[i] == r && forall j :: 0 <= j < i ==> tail[j].Unknown?;
        if i == 0 {
          assert original.Unknown? ==> all[1] == r;
        } else {
          assert tail[0].Unknown? && all[i + 1] == r;
          forall j | 0 <= j < i + 1 ensures all[j].Unknown? {
            assert j >= 2 ==> all[j] == tail[j - 1];
          }
        }
      }
    }
  }

  // ---------------------------------------------------------------- nested objects

  /** The attribute types of an object: positions are attribute names. */
  datatype Shape = LeafType | ObjectType(fields: seq<Shape>)

  /** A framework value of such a type. */
  datatype Node<+V> = Leaf(leaf: Attr<V>) | Object(obj: Attr<seq<Node<V>>>)

  /** The API's counterpart: a scalar or a struct, either possibly nil. */
  datatype ApiValue<+V> = Scalar(scalar: Option<V>) | Struct(struct: Option<seq<ApiValue<V>>>)

  predicate NodeFits<V>(node: Node<V>, shape: Shape)
    decreases shape
  {
    match shape
    case LeafType => node.Leaf?
    case ObjectType(fields) =>
      node.Object? && (node.obj.Known? ==>
        |node.obj.value| == |fields| && forall i :: 0 <= i < |fields| ==> NodeFits(node.obj.value[i], fields[i]))
  }

  predicate NodesFit<V>(nodes: seq<Node<V>>, shapes: seq<Shape>) {
    |nodes| == |shapes| && forall i :: 0 <= i < |shapes| ==> NodeFits(nodes[i], shapes[i])
  }

  predicate RemoteFits<V>(remote: ApiValue<V>, shape: Shape)
    decreases shape
  {
    match shape
    case LeafType => remote.Scalar?
    case ObjectType(fields) =>
      remote.Struct? && (remote.struct.Some? ==>
        |remote.struct.value| == |fields| &&
        forall i :: 0 <= i < |fields| ==> RemoteFits(remote.struct.value[i], fields[i]))
  }

  predicate RemotesFit<V>(remotes: Option<seq<ApiValue<V>>>, shapes: seq<Shape>) {
    remotes.Some? ==>
      |remotes.value| == |shapes| && forall i :: 0 <= i < |shapes| ==> RemoteFits(remotes.value[i], shapes[i])
  }

  /** Go's zero value of the model struct: every attribute is null. */
  function ZeroModel<V>(shapes: seq<Shape>): (nodes: seq<Node<V>>)
    ensures NodesFit(nodes, shapes)
  {
    seq(|shapes|, i requires 0 <= i < |shapes| => if shapes[i].LeafType? then Leaf(Null) else Object(Null))
  }

  /** What a field of a nil struct reads as. */
  function NilRemote<V>(shape: Shape): ApiValue<V> {
    if shape.LeafType? then Scalar(None) else Struct(None)
  }

  function FieldOf<V>(remotes: Option<seq<ApiValue<V>>>, shapes: seq<Shape>, i: nat): (r: ApiValue<V>)
    requires i < |shapes| && RemotesFit(remotes, shapes)
    ensures RemoteFits(r, shapes[i])
  {
    if remotes.Some? then remotes.value[i] else NilRemote(shapes[i])
  }

  /**
   `KeepOrUpdateSingleNestedAttributesWithTypes`: hands the callback the current model, or a zero model
   when the object is unknown or null, and stops preserving below an unknown object.
   */
  function KeepOrUpdateSingleNestedAttributesWithTypes<T>(
    original: Attr<T>, zero: T, preserveKnown: bool, flatten: (T, bool) --> (T, bool)
  ): Attr<T>
    requires forall keep :: flatten.requires(zero, keep)
    requires forall keep :: original.Known? ==> flatten.requires(original.value, keep)
  {
    if preserveKnown && original.Null? then original
    else
      var model := if original.Known? then original.value else zero;
      var keep := preserveKnown && !original.Unknown?;
      var (fields, isNull) := flatten(model, keep);
      if isNull && !keep then Null else Known(fields)
  }

  /** A flatten callback that merges attribute by attribute, and marks the object null when the API's is nil. */
  function FlattenFields<V>(
    model: seq<Node<V>>, shapes: seq<Shape>, remotes: Option<seq<ApiValue<V>>>, preserveKnown: bool
  ): (r: (seq<Node<V>>, bool))
    requires NodesFit(model, shapes) && RemotesFit(remotes, shapes)
    ensures NodesFit(r.0, shapes)
    decreases shapes
  {
    (seq(|shapes|, i requires 0 <= i < |shapes| =>
       MergeNode(model[i], shapes[i], FieldOf(remotes, shapes, i), preserveKnown)),
     remotes.None?)
  }

  /** Merging one attribute: `KeepOrUpdateValue` on a leaf, the nested helper on an object. */
  function MergeNode<V>(node: Node<V>, shape: Shape, remote: ApiValue<V>, preserveKnown: bool): (r: Node<V>)
    requires NodeFits(node, shape) && RemoteFits(remote, shape)
    ensures NodeFits(r, shape)
    decreases shape
  {
    match shape
    case LeafType => Leaf(KeepOrUpdateValue(node.leaf, FromPointer(remote.scalar), preserveKnown))
    case ObjectType(fields) =>
      var flatten := (model: seq<Node<V>>, keep: bool) requires NodesFit(model, fields) =>
          FlattenFields(model, fields, remote.struct, keep);
      Object(KeepOrUpdateSingleNestedAttributesWithTypes(node.obj, ZeroModel(fields), preserveKnown, flatten))
  }

  /** What one finds walking down a path of field positions: an object that is not known, at some depth, or a leaf. */
  datatype View<+V> = ObjectNull(depth: nat) | ObjectUnknown(depth: nat) | LeafView(leaf: Attr<V>)

  /** The same seen from one level further up. */
  function Deeper<V>(view: View<V>): View<V> {
    match view
    case ObjectNull(d) => ObjectNull(d + 1)
    case ObjectUnknown(d) => ObjectUnknown(d + 1)
    case LeafView(_) => view
  }

  predicate PathTo(shape: Shape, path: seq<nat>)
    decreases shape
  {
    match shape
    case LeafType => path == []
    case ObjectType(fields) => path != [] && path[0] < |fields| && PathTo(fields[path[0]], path[1..])
  }

  function ViewAt<V>(node: Node<V>, shape: Shape, path: seq<nat>): View<V>
    requires NodeFits(node, shape) && PathTo(shape, path)
    decreases shape
  {
    match shape
    case LeafType => LeafView(node.leaf)
    case ObjectType(fields) =>
      if node.obj.Unknown? then ObjectUnknown(0)
      else if node.obj.Null? then ObjectNull(0)
      else Deeper(ViewAt(node.obj.value[path[0]], fields[path[0]], path[1..]))
  }

  /** No object type without attributes. */
  predicate Inhabited(shape: Shape)
    decreases shape
  {
    shape.ObjectType? ==>
      shape.fields != [] && forall i :: 0 <= i < |shape.fields| ==> Inhabited(shape.fields[i])
  }

  lemma {:induction false} SomePath(shape: Shape) returns (path: seq<nat>)
    requires Inhabited(shape)
    ensures PathTo(shape, path)
    decreases shape
  {
    if shape.LeafType? {
      path := [];
    } else {
      var rest := SomePath(shape.fields[0]);
      path := [0] + rest;
    }
  }

  /** What one finds along all paths determines the value. */
  lemma {:induction false} ViewsDetermineNode<V>(a: Node<V>, b: Node<V>, shape: Shape)
    requires NodeFits(a, shape) && NodeFits(b, shape) && Inhabited(shape)
    requires forall path :: PathTo(shape, path) ==> ViewAt(a, shape, path) == ViewAt(b, shape, path)
    ensures a == b
    decreases shape
  {
    var any := SomePath(shape);
    assert ViewAt(a, shape, any) == ViewAt(b, shape, any);
    if shape.ObjectType? {
      var fields := shape.fields;
      if a.obj.Known? {
        forall i | 0 <= i < |fields| ensures a.obj.value[i] == b.obj.value[i] {
          forall path | PathTo(fields[i], path)
            ensures ViewAt(a.obj.value[i], fields[i], path) == ViewAt(b.obj.value[i], fields[i], path)
          {
            assert PathTo(shape, [i] + path) && ([i] + path)[1..] == path;
            assert ViewAt(a, shape, [i] + path) == ViewAt(b, shape, [i] + path);
          }
          ViewsDetermineNode(a.obj.value[i], b.obj.value[i], fields[i]);
        }
        assert a.obj.value == b.obj.value;
      }
    }
  }

  /** The same walk through the API's value; it never meets an unknown. */
  function RemoteViewAt<V>(remote: ApiValue<V>, shape: Shape, path: seq<nat>): View<V>
    requires RemoteFits(remote, shape) && PathTo(shape, path)
    decreases shape
  {
    match shape
    case LeafType => LeafView(FromPointer(remote.scalar))
    case ObjectType(fields) =>
      if remote.struct.None? then ObjectNull(0)
      else Deeper(RemoteViewAt(remote.struct.value[path[0]], fields[path[0]], path[1..]))
  }

  /** Walking through nil structs as if their fields were all nil. */
  function RemoteLeafAt<V>(remote: ApiValue<V>, shape: Shape, path: seq<nat>): Attr<V>
    requires RemoteFits(remote, shape) && PathTo(shape, path)
  {
    var view := RemoteViewAt(remote, shape, path);
    if view.LeafView? then view.leaf else Null
  }

  /** Without preserving, the result is the API's value at every path, whatever was there before. */
  lemma {:induction false} OverwriteIsTotal<V>(node: Node<V>, shape: Shape, remote: ApiValue<V>, path: seq<nat>)
    requires NodeFits(node, shape) && RemoteFits(remote, shape) && PathTo(shape, path)
    ensures ViewAt(MergeNode(node, shape, remote, false), shape, path) == RemoteViewAt(remote, shape, path)
    decreases shape
  {
    if shape.ObjectType? && remote.struct.Some? {
      var fields, i := shape.fields, path[0];
      var model := if node.obj.Known? then node.obj.value else ZeroModel(fields);
      assert MergeNode(node, shape, remote, false).obj == Known(FlattenFields(model, fields, remote.struct, false).0);
      OverwriteIsTotal(model[i], fields[i], remote.struct.value[i], path[1..]);
    }
  }

  /** Overwriting depends on the API's value alone. */
  lemma OverwriteForgets<V>(a: Node<V>, b: Node<V>, shape: Shape, remote: ApiValue<V>)
    requires NodeFits(a, shape) && NodeFits(b, shape) && RemoteFits(remote, shape) && Inhabited(shape)
    ensures MergeNode(a, shape, remote, false) == MergeNode(b, shape, remote, false)
  {
    forall path | PathTo(shape, path)
      ensures ViewAt(MergeNode(a, shape, remote, false), shape, path)
              == ViewAt(MergeNode(b, shape, remote, false), shape, path)
    {
      OverwriteIsTotal(a, shape, remote, path);
      OverwriteIsTotal(b, shape, remote, path);
    }
    ViewsDetermineNode(MergeNode(a, shape, remote, false), MergeNode(b, shape, remote, false), shape);
  }

  /** What a known-preserving merge must leave at a path, given what plan and API held there. */
  function MergedView<V>(before: View<V>, remote: View<V>, remoteLeaf: Attr<V>): View<V> {
    match before
    case ObjectNull(_) => before
    case ObjectUnknown(d) => if remote.ObjectNull? && remote.depth < d then ObjectNull(d) else remote
    case LeafView(leaf) => if leaf.Unknown? then LeafView(remoteLeaf) else before
  }

  /**
   The deep-merge law, at every path of every shape: a null object stays null, an unknown object is replaced
   as a whole (by null where the API's is nil at or above it), and below known objects a known leaf is kept
   and an unknown one takes the API's.
   */
  lemma {:induction false} PreservingIsDeepMerge<V>(node: Node<V>, shape: Shape, remote: ApiValue<V>, path: seq<nat>)
    requires NodeFits(node, shape) && RemoteFits(remote, shape) && PathTo(shape, path)
    ensures ViewAt(MergeNode(node, shape, remote, true), shape, path)
            == MergedView(ViewAt(node, shape, path), RemoteViewAt(remote, shape, path),
                          RemoteLeafAt(remote, shape, path))
    decreases shape
  {
    if shape.ObjectType? {
      var fields, i := shape.fields, path[0];
      if node.obj.Unknown? {
        OverwriteIsTotal(node, shape, remote, path);
        assert MergeNode(node, shape, remote, true) == MergeNode(node, shape, remote, false);
      } else if node.obj.Known? {
        var field := FieldOf(remote.struct, fields, i);
        PreservingIsDeepMerge(node.obj.value[i], fields[i], field, path[1..]);
        if remote.struct.None? {
          NilReadsNull<V>(fields[i], path[1..]);
        }
      }
    }
  }

  /** A nil struct reads as null at every path below it. */
  lemma NilReadsNull<V>(shape: Shape, path: seq<nat>)
    requires PathTo(shape, path)
    ensures RemoteLeafAt<V>(NilRemote(shape), shape, path) == Null
    ensures shape.ObjectType? ==> RemoteViewAt<V>(NilRemote(shape), shape, path) == ObjectNull(0)
  {
  }

  /** After a merge, preserving or not, nothing unknown is left anywhere. */
  lemma NothingUnknownRemains<V>(node: Node<V>, shape: Shape, remote: ApiValue<V>, preserveKnown: bool, path: seq<nat>)
    requires NodeFits(node, shape) && RemoteFits(remote, shape) && PathTo(shape, path)
    ensures var view := ViewAt(MergeNode(node, shape, remote, preserveKnown), shape, path);
            !view.ObjectUnknown? && (view.LeafView? ==> !view.leaf.Unknown?)
  {
    RemoteNeverUnknown(remote, shape, path);
    if preserveKnown {
      PreservingIsDeepMerge(node, shape, remote, path);
    } else {
      OverwriteIsTotal(node, shape, remote, path);
    }
  }

  lemma {:induction false} RemoteNeverUnknown<V>(remote: ApiValue<V>, shape: Shape, path: seq<nat>)
    requires RemoteFits(remote, shape) && PathTo(shape, path)
    ensures var view := RemoteViewAt(remote, shape, path);
            !view.ObjectUnknown? && (view.LeafView? ==> !view.leaf.Unknown?)
    decreases shape
  {
    if shape.ObjectType? && remote.struct.Some? {
      RemoteNeverUnknown(remote.struct.value[path[0]], shape.fields[path[0]], path[1..]);
    }
  }
}
