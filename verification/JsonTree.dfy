/** What merging two JSON documents means, on values: the copy that drops the null entries of objects, and the overlay
    of a new document on it.  The heap version is in MergeHeap, the laws are in JsonLaws. */
module JsonTree {
  import opened Options

  datatype Json = Null | Scalar(value: string) | Array(elems: seq<Json>) | Object(fields: map<string, Json>)

  /** An absent entry reads as null. */
  function At(m: map<string, Json>, k: string): Json { if k in m then m[k] else Null }

  /** What Copy makes of a document: null entries of objects are not stored. */
  function Compact(t: Json): Json
  {
    match t
    case Null => Null
    case Scalar(_) => t
    case Array(es) => Array(seq(|es|, i requires 0 <= i < |es| => Compact(es[i])))
    case Object(m) => Object(map k | k in m && m[k] != Null :: Compact(m[k]))
  }

  /** Copy panics on a null inside an array. */
  predicate Copyable(t: Json)
  {
    match t
    case Null => true
    case Scalar(_) => true
    case Array(es) => forall i | 0 <= i < |es| :: es[i] != Null && Copyable(es[i])
    case Object(m) => forall k | k in m :: Copyable(m[k])
  }

  predicate NullFree(t: Json)
  {
    match t
    case Null => false
    case Scalar(_) => true
    case Array(es) => forall i | 0 <= i < |es| :: NullFree(es[i])
    case Object(m) => forall k | k in m :: NullFree(m[k])
  }

  /** No object in t stores a null. */
  predicate Pruned(t: Json)
  {
    match t
    case Null => true
    case Scalar(_) => true
    case Array(es) => forall i | 0 <= i < |es| :: Pruned(es[i])
    case Object(m) => forall k | k in m :: m[k] != Null && Pruned(m[k])
  }

  lemma {:induction false} CompactPruned(t: Json)
    ensures Pruned(Compact(t)) && (Compact(t) == Null <==> t == Null)
  {
    match t
    case Null =>
    case Scalar(_) =>
    case Array(es) => forall i | 0 <= i < |es| ensures Pruned(Compact(es[i])) { CompactPruned(es[i]); }
    case Object(m) =>
      forall k | k in m ensures Pruned(Compact(m[k])) && (Compact(m[k]) == Null <==> m[k] == Null) {
        CompactPruned(m[k]);
      }
  }

  /** The new document over the copied old one: objects recurse, an old array is kept under a new one, and anything
      else is the new value. */
  function Overlay(n: Json, d: Json): Json
    decreases n, 1
  {
    match n
    case Null => Null
    case Scalar(_) => n
    case Array(_) => if d.Array? then d else n
    case Object(_) => if d.Object? then Object(OverlayFields(n, d.fields)) else n
  }

  /** A null in the new object removes the key. */
  function OverlayFields(n: Json, d: map<string, Json>): map<string, Json>
    requires n.Object?
    decreases n, 0
  {
    map k | k in n.fields.Keys + d.Keys && (k in n.fields ==> n.fields[k] != Null) ::
      if k in n.fields then Overlay(n.fields[k], At(d, k)) else d[k]
  }

  /** Arrays at the root are overlaid element by element, and keep the old length. */
  function OverlayElems(n: seq<Json>, d: seq<Json>): seq<Json>
  {
    seq(|d|, i requires 0 <= i < |d| => if i < |n| then Overlay(n[i], d[i]) else d[i])
  }

  /** Setting an array element to null panics. */
  predicate NullMeetsElement(n: seq<Json>, d: seq<Json>)
  {
    exists i | 0 <= i < |n| && i < |d| :: n[i] == Null
  }

  datatype Merge = NoMerge | Panicked | Merged(tree: Json)

  /** Merging two documents; NoMerge is the nil result for roots that are not two objects or two arrays. */
  function MergeTrees(n: Json, o: Json): Merge
  {
    if n.Object? && o.Object? then
      if Copyable(o) then Merged(Overlay(n, Compact(o))) else Panicked
    else if n.Array? && o.Array? then
      if Copyable(o) && !NullMeetsElement(n.elems, o.elems)
      then Merged(Array(OverlayElems(n.elems, Compact(o).elems)))
      else Panicked
    else NoMerge
  }

  function Kept(m: Merge): Option<Json> { if m.Merged? then Some(m.tree) else None }

  /** The variadic merge, in the order of its arguments. */
  function FoldTrees(m: Option<Json>, rest: seq<Option<Json>>): Merge
    decreases |rest|
  {
    if rest == [] then (if m.None? then NoMerge else Merged(m.value))
    else if m.None? then FoldTrees(rest[0], rest[1..])
    else if rest[0].None? then FoldTrees(m, rest[1..])
    else
      var r := MergeTrees(m.value, rest[0].value);
      if r.Panicked? then Panicked else FoldTrees(Kept(r), rest[1..])
  }
}
