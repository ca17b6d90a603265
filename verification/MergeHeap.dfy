/** Copy and Merge on the heap: documents are made of mutable maps and slices, the copy is fresh, and a visitor with a
    stack of destinations writes the new document into it in place.  Every node of the copy carries in `own` the path
    at which it hangs, so that what lies under two different paths is disjoint; `sh` holds the nodes the result may
    share with the new document. */
module MergeHeap {
  import opened Options
  import opened JsonTree

  /** A Go map with string keys. */
  class MapNode {
    var fields: map<string, Val>
    constructor ()
      ensures fields == map[]
    {
      fields := map[];
    }
  }

  datatype Val = VNil | VScalar(value: string) | VArr(a: array<Val>) | VObj(o: MapNode)

  datatype Key = Name(s: string) | Index(i: nat)

  type Path = seq<Key>

  /** v is the document t, and all its maps and slices are in fp. */
  ghost predicate Denotes(v: Val, t: Json, fp: set<object>)
    reads fp
    decreases t
  {
    match t
    case Null => v.VNil?
    case Scalar(s) => v == VScalar(s)
    case Array(es) =>
      v.VArr? && v.a in fp && v.a.Length == |es| &&
      forall i | 0 <= i < |es| :: Denotes(v.a[i], es[i], fp)
    case Object(m) =>
      v.VObj? && v.o in fp && v.o.fields.Keys == m.Keys &&
      forall k | k in m :: Denotes(v.o.fields[k], m[k], fp)
  }

  /** The copied nodes at or below a path. */
  ghost function Under(own: map<object, Path>, p: Path): set<object>
  {
    set o | o in own && p <= own[o]
  }

  /** v is the document t, made of copied nodes each at its own path. */
  ghost predicate OwnedTree(v: Val, t: Json, p: Path, own: map<object, Path>)
    reads Under(own, p)
    decreases t
  {
    match t
    case Null => v.VNil?
    case Scalar(s) => v == VScalar(s)
    case Array(es) =>
      v.VArr? && v.a in own && own[v.a] == p && v.a.Length == |es| &&
      forall i | 0 <= i < |es| :: OwnedTree(v.a[i], es[i], p + [Index(i)], own)
    case Object(m) =>
      v.VObj? && v.o in own && own[v.o] == p && v.o.fields.Keys == m.Keys &&
      forall k | k in m :: OwnedTree(v.o.fields[k], m[k], p + [Name(k)], own)
  }

  lemma {:induction false} DenotesMono(v: Val, t: Json, fp: set<object>, fp': set<object>)
    requires fp <= fp' && Denotes(v, t, fp)
    ensures Denotes(v, t, fp')
    decreases t
  {
    match t
    case Null =>
    case Scalar(_) =>
    case Array(es) =>
      forall i | 0 <= i < |es| ensures Denotes(v.a[i], es[i], fp') {
        DenotesMono(v.a[i], es[i], fp, fp');
      }
    case Object(m) =>
      forall k | k in m ensures Denotes(v.o.fields[k], m[k], fp') {
        DenotesMono(v.o.fields[k], m[k], fp, fp');
      }
  }

  lemma {:induction false} OwnedDenotes(v: Val, t: Json, p: Path, own: map<object, Path>)
    requires OwnedTree(v, t, p, own)
    ensures Denotes(v, t, Under(own, p))
    decreases t
  {
    match t
    case Null =>
    case Scalar(_) =>
    case Array(es) =>
      forall i | 0 <= i < |es| ensures Denotes(v.a[i], es[i], Under(own, p)) {
        OwnedDenotes(v.a[i], es[i], p + [Index(i)], own);
        DenotesMono(v.a[i], es[i], Under(own, p + [Index(i)]), Under(own, p));
      }
    case Object(m) =>
      forall k | k in m ensures Denotes(v.o.fields[k], m[k], Under(own, p)) {
        OwnedDenotes(v.o.fields[k], m[k], p + [Name(k)], own);
        DenotesMono(v.o.fields[k], m[k], Under(own, p + [Name(k)]), Under(own, p));
      }
  }

  lemma {:induction false} OwnedMono(v: Val, t: Json, p: Path, own: map<object, Path>, own': map<object, Path>)
    requires forall o | o in own :: o in own' && own'[o] == own[o]
    requires OwnedTree(v, t, p, own)
    ensures OwnedTree(v, t, p, own')
    decreases t
  {
    match t
    case Null =>
    case Scalar(_) =>
    case Array(es) =>
      forall i | 0 <= i < |es| ensures OwnedTree(v.a[i], es[i], p + [Index(i)], own') {
        OwnedMono(v.a[i], es[i], p + [Index(i)], own, own');
      }
    case Object(m) =>
      forall k | k in m ensures OwnedTree(v.o.fields[k], m[k], p + [Name(k)], own') {
        OwnedMono(v.o.fields[k], m[k], p + [Name(k)], own, own');
      }
  }

  /** What the loop over an object's keys has stored in the fresh node so far. */
  ghost predicate CopiedFields(node: MapNode, m: map<string, Json>, done: set<string>, p: Path, own: map<object, Path>)
    reads node, Under(own, p)
  {
    && done <= m.Keys
    && node.fields.Keys == (set k | k in done && m[k] != Null)
    && forall k | k in node.fields ::
         node !in Under(own, p + [Name(k)]) && OwnedTree(node.fields[k], Compact(m[k]), p + [Name(k)], own)
  }

  lemma CopiedFieldsMono(node: MapNode, m: map<string, Json>, done: set<string>, p: Path, own: map<object, Path>,
      own': map<object, Path>)
    requires CopiedFields(node, m, done, p, own)
    requires forall o | o in own :: o in own' && own'[o] == own[o]
    requires node in own && own[node] == p
    ensures CopiedFields(node, m, done, p, own')
  {
    forall k | k in node.fields ensures OwnedTree(node.fields[k], Compact(m[k]), p + [Name(k)], own') {
      OwnedMono(node.fields[k], Compact(m[k]), p + [Name(k)], own, own');
    }
  }

  ghost predicate Extends(own: map<object, Path>, own': map<object, Path>)
  {
    forall o | o in own :: o in own' && own'[o] == own[o]
  }

  /** A deep copy out of fresh nodes; it panics exactly on a null inside an array. */
  method Copy(v: Val, ghost t: Json, ghost fp: set<object>, ghost p: Path)
    returns (r: Val, panicked: bool, ghost own: map<object, Path>)
    requires Denotes(v, t, fp)
    ensures fresh(own.Keys) && Under(own, p) == own.Keys
    ensures panicked <==> !Copyable(t)
    ensures !panicked ==> OwnedTree(r, Compact(t), p, own)
    decreases t, 1
  {
    match v {
      case VNil => r, panicked, own := v, false, map[];
      case VScalar(_) => r, panicked, own := v, false, map[];
      case VObj(src) => r, panicked, own := CopyObject(src, t, fp, p);
      case VArr(src) => r, panicked, own := CopyArray(src, t, fp, p);
    }
  }

  lemma JoinLabels(own: map<object, Path>, ownK: map<object, Path>, p: Path, k: string)
    requires Under(own, p) == own.Keys && Under(ownK, p + [Name(k)]) == ownK.Keys
    ensures Under(own + ownK, p) == (own + ownK).Keys
  {
    forall o | o in ownK ensures p <= ownK[o] { assert o in Under(ownK, p + [Name(k)]); }
    forall o | o in own ensures p <= own[o] { assert o in Under(own, p); }
  }

  method CopyObject(src: MapNode, ghost t: Json, ghost fp: set<object>, ghost p: Path)
    returns (r: Val, panicked: bool, ghost own: map<object, Path>)
    requires t.Object? && Denotes(VObj(src), t, fp)
    ensures fresh(own.Keys) && Under(own, p) == own.Keys
    ensures panicked <==> !Copyable(t)
    ensures !panicked ==> OwnedTree(r, Compact(t), p, own)
    decreases t, 0, 1
  {
    ghost var m := t.fields;
    var node := new MapNode();
    r := VObj(node);
    own := map[node := p];
    panicked := false;
    var rest := src.fields.Keys;
    while rest != {}
      invariant rest <= m.Keys
      invariant fresh(node) && node in own && own[node] == p
      invariant fresh(own.Keys) && Under(own, p) == own.Keys
      invariant forall k | k in m && k !in rest :: Copyable(m[k])
      invariant CopiedFields(node, m, m.Keys - rest, p, own)
      decreases rest
    {
      var k :| k in rest;
      ghost var done := m.Keys - rest;
      rest := rest - {k};
      panicked, own := CopyField(node, src, k, t, fp, done, p, own);
      if panicked { return; }
      assert done + {k} == m.Keys - rest;
    }
  }

  /** One entry of the object: copied, and stored in the fresh node. */
  method CopyField(node: MapNode, src: MapNode, k: string, ghost t: Json, ghost fp: set<object>,
      ghost done: set<string>, ghost p: Path, ghost own: map<object, Path>)
      returns (panicked: bool, ghost own': map<object, Path>)
    requires t.Object? && Denotes(VObj(src), t, fp) && src != node
    requires node in own && own[node] == p && Under(own, p) == own.Keys
    requires CopiedFields(node, t.fields, done, p, own)
    requires k in t.fields && k !in done
    modifies node
    ensures Extends(own, own') && fresh(own'.Keys - own.Keys) && Under(own', p) == own'.Keys
    ensures panicked <==> !Copyable(t.fields[k])
    ensures !panicked ==> CopiedFields(node, t.fields, done + {k}, p, own')
    decreases t, 0, 0
  {
    ghost var m := t.fields;
    var c, bad, ownK := Copy(src.fields[k], m[k], fp, p + [Name(k)]);
    own' := own + ownK;
    panicked := bad;
    JoinLabels(own, ownK, p, k);
    if !bad {
      CopiedFieldsMono(node, m, done, p, own, own');
      OwnedMono(c, Compact(m[k]), p + [Name(k)], ownK, own');
      StoreField(node, k, c, m, done, p, own');
    }
  }

  /** `ret.Set(k, Copy(New(v)))` on a map: a nil value leaves no entry. */
  method StoreField(node: MapNode, k: string, c: Val, ghost m: map<string, Json>, ghost done: set<string>,
      ghost p: Path, ghost own: map<object, Path>)
    requires CopiedFields(node, m, done, p, own)
    requires k in m && k !in done
    requires OwnedTree(c, Compact(m[k]), p + [Name(k)], own)
    requires node in own && own[node] == p
    modifies node
    ensures CopiedFields(node, m, done + {k}, p, own)
  {
    assert node !in Under(own, p + [Name(k)]);
    if c != VNil { node.fields := node.fields[k := c]; }
  }

  method CopyArray(src: array<Val>, ghost t: Json, ghost fp: set<object>, ghost p: Path)
    returns (r: Val, panicked: bool, ghost own: map<object, Path>)
    requires t.Array? && Denotes(VArr(src), t, fp)
    ensures fresh(own.Keys) && Under(own, p) == own.Keys
    ensures panicked <==> !Copyable(t)
    ensures !panicked ==> OwnedTree(r, Compact(t), p, own)
    decreases t, 0, 1
  {
    var dst := new Val[src.Length](_ => VNil);
    r := VArr(dst);
    own := map[dst := p];
    panicked := false;
    var i := 0;
    while i < src.Length
      invariant 0 <= i <= src.Length
      invariant fresh(dst) && dst in own && own[dst] == p
      invariant fresh(own.Keys) && Under(own, p) == own.Keys
      invariant CopiedElems(dst, t.elems, i, p, own)
    {
      panicked, own := CopyElem(dst, src, i, t, fp, p, own);
      if panicked { return; }
      i := i + 1;
    }
  }

  /** What the loop over an array's elements has stored in the fresh slice so far. */
  ghost predicate CopiedElems(dst: array<Val>, es: seq<Json>, i: nat, p: Path, own: map<object, Path>)
    reads dst, Under(own, p)
  {
    && i <= |es| == dst.Length
    && (forall j | 0 <= j < i :: es[j] != Null && Copyable(es[j]))
    && (forall j | 0 <= j < i ::
          dst !in Under(own, p + [Index(j)]) && OwnedTree(dst[j], Compact(es[j]), p + [Index(j)], own))
  }

  lemma CopiedElemsMono(dst: array<Val>, es: seq<Json>, i: nat, p: Path, own: map<object, Path>,
      own': map<object, Path>)
    requires CopiedElems(dst, es, i, p, own) && Extends(own, own')
    requires dst in own && own[dst] == p
    ensures CopiedElems(dst, es, i, p, own')
  {
    forall j | 0 <= j < i ensures OwnedTree(dst[j], Compact(es[j]), p + [Index(j)], own') {
      OwnedMono(dst[j], Compact(es[j]), p + [Index(j)], own, own');
    }
  }

  lemma JoinElemLabels(own: map<object, Path>, ownI: map<object, Path>, p: Path, i: nat)
    requires Under(own, p) == own.Keys && Under(ownI, p + [Index(i)]) == ownI.Keys
    ensures Under(own + ownI, p) == (own + ownI).Keys
  {
    forall o | o in ownI ensures p <= ownI[o] { assert o in Under(ownI, p + [Index(i)]); }
    forall o | o in own ensures p <= own[o] { assert o in Under(own, p); }
  }

  method CopyElem(dst: array<Val>, src: array<Val>, i: nat, ghost t: Json, ghost fp: set<object>, ghost p: Path,
      ghost own: map<object, Path>)
      returns (panicked: bool, ghost own': map<object, Path>)
    requires t.Array? && Denotes(VArr(src), t, fp) && i < |t.elems| && src != dst
    requires dst in own && own[dst] == p && Under(own, p) == own.Keys
    requires CopiedElems(dst, t.elems, i, p, own)
    modifies dst
    ensures Extends(own, own') && fresh(own'.Keys - own.Keys) && Under(own', p) == own'.Keys
    ensures panicked <==> t.elems[i] == Null || !Copyable(t.elems[i])
    ensures !panicked ==> CopiedElems(dst, t.elems, i + 1, p, own')
    decreases t, 0, 0
  {
    var c, bad, ownI := Copy(src[i], t.elems[i], fp, p + [Index(i)]);
    own' := own + ownI;
    panicked := bad || c == VNil;
    JoinElemLabels(own, ownI, p, i);
    if !bad { CompactPruned(t.elems[i]); }
    if !panicked {
      CopiedElemsMono(dst, t.elems, i, p, own, own');
      OwnedMono(c, Compact(t.elems[i]), p + [Index(i)], ownI, own');
      StoreElem(dst, i, c, t.elems, p, own');
    }
  }

  method StoreElem(dst: array<Val>, i: nat, c: Val, ghost es: seq<Json>, ghost p: Path, ghost own: map<object, Path>)
    requires CopiedElems(dst, es, i, p, own) && i < |es| && es[i] != Null && Copyable(es[i])
    requires OwnedTree(c, Compact(es[i]), p + [Index(i)], own)
    requires dst in own && own[dst] == p
    modifies dst
    ensures CopiedElems(dst, es, i + 1, p, own)
  {
    assert dst !in Under(own, p + [Index(i)]);
    dst[i] := c;
  }

  // ---- Get and Set of one entry ----

  ghost function NodeOf(v: Val): set<object>
  {
    match v
    case VArr(a) => {a}
    case VObj(o) => {o}
    case _ => {}
  }

  predicate Fits(cur: Val, k: Key)
  {
    (cur.VObj? && k.Name?) || (cur.VArr? && k.Index? && k.i < cur.a.Length)
  }

  function Child(cur: Val, k: Key): Val
    reads NodeOf(cur)
  {
    if !Fits(cur, k) then VNil
    else if cur.VArr? then cur.a[k.i]
    else if k.s in cur.o.fields then cur.o.fields[k.s] else VNil
  }

  /** Every other entry of the container is as it was. */
  twostate predicate OnlyChildChanged(cur: Val, k: Key)
    reads NodeOf(cur)
  {
    && (cur.VObj? ==> forall s | Name(s) != k ::
          (s in cur.o.fields <==> old(s in cur.o.fields))
              && (s in cur.o.fields ==> cur.o.fields[s] == old(cur.o.fields[s])))
    && (cur.VArr? ==> forall i: nat | Index(i) != k :: Child(cur, Index(i)) == old(Child(cur, Index(i))))
  }

  /** Set on a map drops a nil value's key; on a slice a nil value panics. */
  method SetChild(cur: Val, k: Key, x: Val) returns (panicked: bool)
    modifies NodeOf(cur)
    ensures panicked <==> cur.VArr? && Fits(cur, k) && x.VNil?
    ensures Fits(cur, k) && !panicked ==> Child(cur, k) == x
    ensures OnlyChildChanged(cur, k)
    ensures cur.VObj? && k.Name? ==>
      cur.o.fields == if x.VNil? then old(cur.o.fields) - {k.s} else old(cur.o.fields)[k.s := x]
  {
    panicked := false;
    if Fits(cur, k) {
      match cur {
        case VObj(o) =>
          o.fields := if x.VNil? then o.fields - {k.s} else o.fields[k.s := x];
        case VArr(a) =>
          if x.VNil? { panicked := true; } else { a[k.i] := x; }
      }
    }
  }

  /** A new slice with the same elements. */
  method ToArray(src: array<Val>, ghost d: Json, ghost p: Path, ghost own: map<object, Path>)
      returns (elems: array<Val>)
    requires OwnedTree(VArr(src), d, p, own)
    ensures fresh(elems) && elems[..] == src[..]
    ensures Denotes(VArr(elems), d, {elems} + Under(own, p))
  {
    OwnedDenotes(VArr(src), d, p, own);
    elems := new Val[src.Length](i requires 0 <= i < src.Length reads src => src[i]);
    assert Denotes(VArr(src), d, Under(own, p));
    forall i | 0 <= i < elems.Length ensures Denotes(elems[i], d.elems[i], {elems} + Under(own, p)) {
      DenotesMono(src[i], d.elems[i], Under(own, p), {elems} + Under(own, p));
    }
  }

  /** `cur` is the container labelled p, and holds the copied subtree d at `key`. */
  ghost predicate Site(cur: Val, key: Key, d: Json, p: Path, own: map<object, Path>)
    reads NodeOf(cur), Under(own, p + [key])
  {
    && (forall o | o in NodeOf(cur) :: o in own && own[o] == p)
    && (Fits(cur, key) ==> OwnedTree(Child(cur, key), d, p + [key], own))
  }

  /** The container holds the document t at `key`, partly shared. */
  ghost predicate Settled(cur: Val, key: Key, t: Json, p: Path, own: map<object, Path>, sh: set<object>)
    reads NodeOf(cur), sh, Under(own, p + [key])
  {
    Fits(cur, key) ==>
      Denotes(Child(cur, key), t, sh + Under(own, p + [key]))
          && (cur.VObj? && key.s in cur.o.fields ==> !cur.o.fields[key.s].VNil?)
  }

  // ---- The merge proper ----

  class Merger {
    var stack: seq<Val>

    constructor (root: Val)
      ensures stack == [root]
    {
      stack := [root];
    }

    ghost predicate Apart(own: map<object, Path>, sh: set<object>)
    {
      sh !! own.Keys && this !in sh && this !in own
    }

    /** The visitor: one key of the new document, applied to the container on top of the stack. */
    method Visit(key: Key, value: Val, ghost n: Json, ghost d: Json, ghost p: Path, ghost own: map<object, Path>,
        ghost sh: set<object>)
      returns (panicked: bool, ghost sh': set<object>)
      requires stack != [] && Site(stack[|stack| - 1], key, d, p, own) && Pruned(d)
      requires Denotes(value, n, sh) && Apart(own, sh)
      modifies `stack, NodeOf(stack[|stack| - 1]), Under(own, p + [key])
      ensures stack == old(stack)
      ensures sh <= sh' && fresh(sh' - sh)
      ensures panicked <==> stack[|stack| - 1].VArr? && Fits(stack[|stack| - 1], key) && n == Null
      ensures !panicked ==> Settled(stack[|stack| - 1], key, Overlay(n, d), p, own, sh')
      ensures OnlyChildChanged(stack[|stack| - 1], key)
      ensures var cur := stack[|stack| - 1]; var dst := old(Child(cur, key));
        !panicked && Fits(cur, key) && !(value.VArr? && dst.VArr?) ==>
          Child(cur, key) == if value.VObj? && dst.VObj? then dst else value
      decreases n, 1
    {
      var cur := stack[|stack| - 1];
      sh' := sh;
      assert NodeOf(cur) !! Under(own, p + [key]);
      var dst := Child(cur, key);
      if value.VObj? && dst.VObj? {
        panicked, sh' := Descend(key, value, dst, n, d, p, own, sh);
      } else if value.VArr? && dst.VArr? {
        panicked, sh' := KeepArray(cur, key, dst, d, p, own, sh);
      } else {
        panicked := SetChild(cur, key, value);
        if Fits(cur, key) && !panicked { DenotesMono(value, n, sh, sh' + Under(own, p + [key])); }
      }
    }

    /** Two arrays: the old elements are written back in a new slice. */
    method KeepArray(cur: Val, key: Key, dst: Val, ghost d: Json, ghost p: Path, ghost own: map<object, Path>,
        ghost sh: set<object>)
      returns (panicked: bool, ghost sh': set<object>)
      requires Site(cur, key, d, p, own) && Child(cur, key) == dst && dst.VArr? && sh !! own.Keys
      modifies NodeOf(cur)
      ensures sh <= sh' && fresh(sh' - sh)
      ensures !panicked && Settled(cur, key, d, p, own, sh')
      ensures OnlyChildChanged(cur, key)
    {
      assert NodeOf(cur) !! Under(own, p + [key]);
      var elems := ToArray(dst.a, d, p + [key], own);
      sh' := sh + {elems};
      DenotesMono(VArr(elems), d, {elems} + Under(own, p + [key]), sh' + Under(own, p + [key]));
      panicked := SetChild(cur, key, VArr(elems));
    }

    /** Two objects: the destination map is pushed, the new object traversed, and the map popped. */
    method Descend(key: Key, value: Val, dst: Val, ghost n: Json, ghost d: Json, ghost p: Path,
        ghost own: map<object, Path>, ghost sh: set<object>)
      returns (panicked: bool, ghost sh': set<object>)
      requires stack != [] && Site(stack[|stack| - 1], key, d, p, own) && Child(stack[|stack| - 1], key) == dst
          && dst.VObj? && Pruned(d)
      requires Denotes(value, n, sh) && value.VObj? && Apart(own, sh)
      modifies `stack, NodeOf(stack[|stack| - 1]), Under(own, p + [key])
      ensures stack == old(stack)
      ensures sh <= sh' && fresh(sh' - sh)
      ensures !panicked && Settled(stack[|stack| - 1], key, Overlay(n, d), p, own, sh')
      ensures OnlyChildChanged(stack[|stack| - 1], key)
      ensures Fits(stack[|stack| - 1], key) ==> Child(stack[|stack| - 1], key) == dst
      decreases n, 0, 4
    {
      var cur := stack[|stack| - 1];
      assert NodeOf(cur) !! Under(own, p + [key]);
      panicked, sh' := TraverseInto(dst, value, n, d, p + [key], own, sh);
      panicked := SetChild(cur, key, dst);
    }

    /** The traversal with `dst` on top of the stack. */
    method TraverseInto(dst: Val, value: Val, ghost n: Json, ghost d: Json, ghost p: Path,
        ghost own: map<object, Path>, ghost sh: set<object>)
      returns (panicked: bool, ghost sh': set<object>)
      requires dst.VObj? && OwnedTree(dst, d, p, own) && Pruned(d)
      requires Denotes(value, n, sh) && value.VObj? && Apart(own, sh)
      modifies `stack, Under(own, p)
      ensures stack == old(stack)
      ensures sh <= sh' && fresh(sh' - sh)
      ensures !panicked && Denotes(dst, Overlay(n, d), sh' + Under(own, p))
      decreases n, 0, 3
    {
      stack := stack + [dst];
      panicked, sh' := Traverse(value, n, d, p, own, sh);
      stack := stack[..|stack| - 1];
    }

    /** Visits every key of an object, in any order. */
    method Traverse(value: Val, ghost n: Json, ghost d: Json, ghost p: Path, ghost own: map<object, Path>,
        ghost sh: set<object>)
      returns (panicked: bool, ghost sh': set<object>)
      requires stack != [] && OwnedTree(stack[|stack| - 1], d, p, own)
      requires value.VObj? && n.Object? && d.Object? && Pruned(d)
      requires Denotes(value, n, sh) && Apart(own, sh)
      modifies `stack, Under(own, p)
      ensures stack == old(stack)
      ensures sh <= sh' && fresh(sh' - sh)
      ensures !panicked
      ensures Denotes(stack[|stack| - 1], Overlay(n, d), sh' + Under(own, p))
      decreases n, 0, 2
    {
      var cur := stack[|stack| - 1];
      sh' := sh;
      panicked := false;
      var rest := value.o.fields.Keys;
      StartTraversing(cur, value, n, d, p, own, sh);
      while rest != {}
        invariant stack == old(stack) && fresh(sh' - sh) && !panicked
        invariant Traversing(cur, value, n, d, rest, p, own, sh, sh')
        decreases rest
      {
        var k :| k in rest;
        panicked, sh' := VisitKey(k, value, n, d, rest, p, own, sh, sh');
        rest := rest - {k};
      }
      EndTraversing(cur, value, n, d, p, own, sh, sh');
    }

    /** The keys in `rest` are still to be visited; `sh0` holds the new document, `sh` also what was made since. */
    ghost predicate Traversing(cur: Val, value: Val, n: Json, d: Json, rest: set<string>, p: Path,
        own: map<object, Path>, sh0: set<object>, sh: set<object>)
      reads NodeOf(cur), sh, Under(own, p)
    {
      && cur.VObj? && value.VObj? && n.Object? && d.Object? && Pruned(d)
      && sh0 <= sh && Apart(own, sh) && Denotes(value, n, sh0)
      && rest <= n.fields.Keys
      && MergedFields(cur.o, n.fields, d.fields, n.fields.Keys - rest, p, own, sh)
    }

    lemma StartTraversing(cur: Val, value: Val, n: Json, d: Json, p: Path, own: map<object, Path>, sh: set<object>)
      requires OwnedTree(cur, d, p, own) && value.VObj? && n.Object? && d.Object? && Pruned(d)
      requires Denotes(value, n, sh) && Apart(own, sh)
      ensures Traversing(cur, value, n, d, value.o.fields.Keys, p, own, sh, sh)
    {
      assert n.fields.Keys - value.o.fields.Keys == {};
    }

    lemma EndTraversing(cur: Val, value: Val, n: Json, d: Json, p: Path, own: map<object, Path>,
        sh0: set<object>, sh: set<object>)
      requires Traversing(cur, value, n, d, {}, p, own, sh0, sh)
      ensures Denotes(cur, Overlay(n, d), sh + Under(own, p))
    {
      assert n.fields.Keys - {} == n.fields.Keys;
      MergedAll(cur.o, n, d.fields, p, own, sh);
    }

    method VisitKey(k: string, value: Val, ghost n: Json, ghost d: Json, ghost rest: set<string>, ghost p: Path,
        ghost own: map<object, Path>, ghost sh0: set<object>, ghost sh: set<object>)
      returns (panicked: bool, ghost sh': set<object>)
      requires stack != [] && Traversing(stack[|stack| - 1], value, n, d, rest, p, own, sh0, sh) && k in rest
      modifies `stack, Under(own, p)
      ensures stack == old(stack)
      ensures sh <= sh' && fresh(sh' - sh) && !panicked
      ensures Traversing(stack[|stack| - 1], value, n, d, rest - {k}, p, own, sh0, sh')
      decreases n, 0, 1
    {
      ghost var seen := n.fields.Keys - rest;
      assert n.fields.Keys - (rest - {k}) == seen + {k};
      panicked, sh' := VisitField(k, value.o.fields[k], n, d.fields, seen, p, own, sh0, sh);
    }

    method VisitField(k: string, value: Val, ghost n: Json, ghost d: map<string, Json>, ghost seen: set<string>,
        ghost p: Path, ghost own: map<object, Path>, ghost sh0: set<object>, ghost sh: set<object>)
      returns (panicked: bool, ghost sh': set<object>)
      requires stack != [] && stack[|stack| - 1].VObj? && n.Object?
      requires MergedFields(stack[|stack| - 1].o, n.fields, d, seen, p, own, sh)
      requires k in n.fields && k !in seen && Pruned(Object(d))
      requires sh0 <= sh && Denotes(value, n.fields[k], sh0) && Apart(own, sh)
      modifies `stack, stack[|stack| - 1].o, Under(own, p + [Name(k)])
      ensures stack == old(stack)
      ensures sh <= sh' && fresh(sh' - sh)
      ensures !panicked
      ensures MergedFields(stack[|stack| - 1].o, n.fields, d, seen + {k}, p, own, sh')
      decreases n, 0, 0
    {
      DenotesMono(value, n.fields[k], sh0, sh);
      ghost var node := stack[|stack| - 1].o;
      ghost var f := node.fields;
      BeforeVisit(node, k, n.fields, d, seen, p, own, sh);
      panicked, sh' := Visit(Name(k), value, n.fields[k], At(d, k), p, own, sh);
      AfterVisit(node, f, k, n.fields, d, seen, p, own, sh, sh');
    }

    /** Visits every element of an array, in order; only a root is ever traversed this way. */
    method TraverseElems(value: Val, ghost n: Json, ghost d: Json, ghost p: Path, ghost own: map<object, Path>,
        ghost sh: set<object>)
      returns (panicked: bool, ghost sh': set<object>)
      requires stack != [] && OwnedTree(stack[|stack| - 1], d, p, own)
      requires value.VArr? && n.Array? && d.Array? && Pruned(d)
      requires Denotes(value, n, sh) && Apart(own, sh)
      modifies `stack, Under(own, p)
      ensures stack == old(stack)
      ensures sh <= sh' && fresh(sh' - sh)
      ensures panicked <==> NullMeetsElement(n.elems, d.elems)
      ensures !panicked ==> Denotes(stack[|stack| - 1], Array(OverlayElems(n.elems, d.elems)), sh' + Under(own, p))
    {
      var cur := stack[|stack| - 1];
      sh' := sh;
      panicked := false;
      var i := 0;
      while i < value.a.Length
        invariant 0 <= i <= |n.elems|
        invariant stack == old(stack) && Denotes(value, n, sh) && Apart(own, sh')
        invariant sh <= sh' && fresh(sh' - sh)
        invariant MergedElems(cur.a, n.elems, d.elems, i, p, own, sh')
      {
        panicked, sh' := VisitElem(i, value.a[i], n, d.elems, p, own, sh, sh');
        if panicked { return; }
        i := i + 1;
      }
      MergedAllElems(cur.a, n.elems, d.elems, p, own, sh');
    }

    method VisitElem(i: nat, value: Val, ghost n: Json, ghost d: seq<Json>, ghost p: Path,
        ghost own: map<object, Path>, ghost sh0: set<object>, ghost sh: set<object>)
      returns (panicked: bool, ghost sh': set<object>)
      requires stack != [] && stack[|stack| - 1].VArr? && n.Array? && i < |n.elems| && Pruned(Array(d))
      requires MergedElems(stack[|stack| - 1].a, n.elems, d, i, p, own, sh)
      requires sh0 <= sh && Denotes(value, n.elems[i], sh0) && Apart(own, sh)
      modifies `stack, stack[|stack| - 1].a, Under(own, p + [Index(i)])
      ensures stack == old(stack)
      ensures sh <= sh' && fresh(sh' - sh)
      ensures panicked <==> i < |d| && n.elems[i] == Null
      ensures !panicked ==> MergedElems(stack[|stack| - 1].a, n.elems, d, i + 1, p, own, sh')
    {
      DenotesMono(value, n.elems[i], sh0, sh);
      ghost var arr := stack[|stack| - 1].a;
      ghost var f := arr[..];
      forall j: nat | j != i ensures Under(own, p + [Index(j)]) !! Under(own, p + [Index(i)]) {
        SiblingsApart(own, p, Index(j), Index(i));
      }
      panicked, sh' := Visit(Index(i), value, n.elems[i], if i < |d| then d[i] else Null, p, own, sh);
      if !panicked {
        forall j: nat | j < |f| && j != i ensures arr[j] == f[j] {
          assert Child(VArr(arr), Index(j)) == arr[j];
        }
        forall j: nat | j < |f| && j < i
          ensures Denotes(f[j], Overlay(n.elems[j], d[j]), sh' + Under(own, p + [Index(j)]))
        {
          DenotesMono(f[j], Overlay(n.elems[j], d[j]),
                      sh + Under(own, p + [Index(j)]), sh' + Under(own, p + [Index(j)]));
        }
        if i < |f| { assert Child(VArr(arr), Index(i)) == arr[i]; }
      }
    }
  }

  /** The array after the elements before `seen` of n were visited. */
  ghost predicate MergedElems(a: array<Val>, n: seq<Json>, d: seq<Json>, seen: nat, p: Path, own: map<object, Path>,
      sh: set<object>)
    reads a, sh, Under(own, p)
  {
    && seen <= |n| && a.Length == |d| && a in own && own[a] == p
    && (forall j: nat | j < |d| && j < seen :: n[j] != Null)
    && (forall j: nat | j < |d| && j < seen :: Denotes(a[j], Overlay(n[j], d[j]), sh + Under(own, p + [Index(j)])))
    && (forall j: nat | seen <= j < |d| :: OwnedTree(a[j], d[j], p + [Index(j)], own))
  }

  lemma MergedAllElems(a: array<Val>, n: seq<Json>, d: seq<Json>, p: Path, own: map<object, Path>, sh: set<object>)
    requires MergedElems(a, n, d, |n|, p, own, sh)
    ensures Denotes(VArr(a), Array(OverlayElems(n, d)), sh + Under(own, p))
  {
    var t := OverlayElems(n, d);
    forall j: nat | j < |d| ensures Denotes(a[j], t[j], sh + Under(own, p)) {
      if j < |n| {
        DenotesMono(a[j], t[j], sh + Under(own, p + [Index(j)]), sh + Under(own, p));
      } else {
        OwnedDenotes(a[j], d[j], p + [Index(j)], own);
        DenotesMono(a[j], t[j], Under(own, p + [Index(j)]), sh + Under(own, p));
      }
    }
  }

  lemma SiblingsApartAll(own: map<object, Path>, p: Path, k: string)
    ensures forall k' | k' != k :: Under(own, p + [Name(k')]) !! Under(own, p + [Name(k)])
    ensures forall k', o | o in own && own[o] == p :: o !in Under(own, p + [Name(k')])
  {
    forall k' | k' != k ensures Under(own, p + [Name(k')]) !! Under(own, p + [Name(k)]) {
      SiblingsApart(own, p, Name(k'), Name(k));
    }
  }

  /** The copied nodes below p, but not at or below its key k. */
  ghost function Beside(own: map<object, Path>, p: Path, k: string): set<object>
  {
    set o | o in own && p < own[o] && !(p + [Name(k)] <= own[o])
  }

  lemma SiblingsBeside(own: map<object, Path>, p: Path, k: string, s: string)
    requires s != k
    ensures Under(own, p + [Name(s)]) <= Beside(own, p, k)
  {
    SiblingsApart(own, p, Name(s), Name(k));
    forall o | o in Under(own, p + [Name(s)]) ensures p < own[o] {
      assert p == (p + [Name(s)])[..|p|] == own[o][..|p|];
    }
  }

  /** The entries f of the keys other than k: the visited ones hold the overlay, the others the copy. */
  ghost predicate OthersMerged(f: map<string, Val>, k: string, n: map<string, Json>, d: map<string, Json>,
      seen: set<string>, p: Path, own: map<object, Path>, sh: set<object>)
    requires seen <= n.Keys
    reads sh, Beside(own, p, k)
  {
    && (forall s | s in f && s in seen && s != k ::
          SiblingsBeside(own, p, k, s);
          Denotes(f[s], Overlay(n[s], At(d, s)), sh + Under(own, p + [Name(s)])))
    && (forall s | s in f && s !in seen && s != k && s in d ::
          SiblingsBeside(own, p, k, s);
          OwnedTree(f[s], d[s], p + [Name(s)], own))
  }

  lemma BeforeVisit(node: MapNode, k: string, n: map<string, Json>, d: map<string, Json>, seen: set<string>, p: Path,
      own: map<object, Path>, sh: set<object>)
    requires MergedFields(node, n, d, seen, p, own, sh) && k in n && k !in seen && Pruned(Object(d))
    ensures OthersMerged(node.fields, k, n, d, seen, p, own, sh)
    ensures Site(VObj(node), Name(k), At(d, k), p, own) && Pruned(At(d, k))
    ensures node !in Under(own, p + [Name(k)]) && node !in Beside(own, p, k)
    ensures Under(own, p + [Name(k)]) !! Beside(own, p, k)
  {
    SiblingsApartAll(own, p, k);
  }

  /** Putting the overlay of one more key into place, the entries f of the other keys being as before. */
  lemma AfterVisit(node: MapNode, f: map<string, Val>, k: string, n: map<string, Json>, d: map<string, Json>,
                   seen: set<string>, p: Path, own: map<object, Path>, sh: set<object>, sh': set<object>)
    requires seen <= n.Keys && k in n && k !in seen && sh <= sh' && node in own && own[node] == p
    requires forall s :: s in f <==> if s in seen then n[s] != Null else s in d
    requires OthersMerged(f, k, n, d, seen, p, own, sh)
    requires forall s | s != k :: (s in node.fields <==> s in f) && (s in f ==> node.fields[s] == f[s])
    requires Settled(VObj(node), Name(k), Overlay(n[k], At(d, k)), p, own, sh')
    ensures MergedFields(node, n, d, seen + {k}, p, own, sh')
  {
    assert Child(VObj(node), Name(k)) == if k in node.fields then node.fields[k] else VNil;
    forall s | s in f && s in seen ensures Denotes(f[s], Overlay(n[s], At(d, s)), sh' + Under(own, p + [Name(s)])) {
      DenotesMono(f[s], Overlay(n[s], At(d, s)), sh + Under(own, p + [Name(s)]), sh' + Under(own, p + [Name(s)]));
    }
  }

  /** Paths that part at the key after p label disjoint parts of the copy. */
  lemma SiblingsApart(own: map<object, Path>, p: Path, a: Key, b: Key)
    requires a != b
    ensures Under(own, p + [a]) !! Under(own, p + [b])
  {
    forall o | o in Under(own, p + [a]) ensures o !in Under(own, p + [b]) {
      assert own[o][|p|] == (p + [a])[|p|] == a;
      assert (p + [b])[|p|] == b;
    }
  }

  /** The object `node` after the keys `seen` of n were visited: those hold the overlay, the others the copy. */
  ghost predicate MergedFields(node: MapNode, n: map<string, Json>, d: map<string, Json>, seen: set<string>, p: Path,
      own: map<object, Path>, sh: set<object>)
    reads node, sh, Under(own, p)
  {
    && seen <= n.Keys
    && node in own && own[node] == p
    && (forall k :: k in node.fields <==> if k in seen then n[k] != Null else k in d)
    && (forall k | k in node.fields && k in seen ::
        Denotes(node.fields[k], Overlay(n[k], At(d, k)), sh + Under(own, p + [Name(k)])))
    && (forall k | k in node.fields && k !in seen :: OwnedTree(node.fields[k], d[k], p + [Name(k)], own))
  }

  lemma MergedAll(node: MapNode, n: Json, d: map<string, Json>, p: Path, own: map<object, Path>, sh: set<object>)
    requires n.Object? && MergedFields(node, n.fields, d, n.fields.Keys, p, own, sh)
    ensures Denotes(VObj(node), Overlay(n, Object(d)), sh + Under(own, p))
  {
    var t := OverlayFields(n, d);
    assert node.fields.Keys == t.Keys;
    forall k | k in t ensures Denotes(node.fields[k], t[k], sh + Under(own, p)) {
      if k in n.fields {
        DenotesMono(node.fields[k], t[k], sh + Under(own, p + [Name(k)]), sh + Under(own, p));
      } else {
        OwnedDenotes(node.fields[k], d[k], p + [Name(k)], own);
        DenotesMono(node.fields[k], t[k], Under(own, p + [Name(k)]), sh + Under(own, p));
      }
    }
  }

  // ---- Merge ----

  /** One application of `merge`: m2 is copied and the copy overlaid with m1.  There is no modifies clause, so no map or
      slice that existed before the call changes, though the result shares m1's. */
  method MergeTwo(m1: Val, m2: Val, ghost n: Json, ghost o: Json, ghost fp1: set<object>, ghost fp2: set<object>)
    returns (r: Option<Val>, panicked: bool, ghost fp: set<object>)
    requires Denotes(m1, n, fp1) && Denotes(m2, o, fp2)
    ensures fresh(fp - fp1)
    ensures panicked <==> MergeTrees(n, o) == Panicked
    ensures !panicked ==> (r.None? <==> MergeTrees(n, o) == NoMerge)
    ensures !panicked && r.Some? ==> Denotes(r.value, MergeTrees(n, o).tree, fp)
  {
    r, panicked, fp := None, false, fp1;
    if !(m1.VObj? && m2.VObj?) && !(m1.VArr? && m2.VArr?) { return; }
    var copy, bad, own := Copy(m2, o, fp2, []);
    if bad { panicked := true; return; }
    panicked, fp := OverlayOnto(copy, m1, n, o, own, fp1);
    r := Some(copy);
  }

  /** The new document's root is traversed over the copy of the old one. */
  method OverlayOnto(copy: Val, m1: Val, ghost n: Json, ghost o: Json, ghost own: map<object, Path>,
      ghost fp1: set<object>)
    returns (panicked: bool, ghost fp: set<object>)
    requires (n.Object? && o.Object?) || (n.Array? && o.Array?)
    requires Copyable(o) && OwnedTree(copy, Compact(o), [], own) && Denotes(m1, n, fp1) && fp1 !! own.Keys
    modifies Under(own, [])
    ensures fp1 <= fp && fresh(fp - fp1 - Under(own, []))
    ensures panicked <==> MergeTrees(n, o) == Panicked
    ensures !panicked ==> Denotes(copy, MergeTrees(n, o).tree, fp)
  {
    CompactPruned(o);
    var merger := new Merger(copy);
    ghost var sh;
    if m1.VObj? {
      panicked, sh := merger.Traverse(m1, n, Compact(o), [], own, fp1);
    } else {
      panicked, sh := merger.TraverseElems(m1, n, Compact(o), [], own, fp1);
    }
    fp := sh + Under(own, []);
  }

  /** The variadic form: each further document is merged underneath what has been built so far. */
  method MergeAll(newValue: Option<Val>, oldValue: Option<Val>, mn: seq<Option<Val>>,
                  ghost n: Option<Json>, ghost o: Option<Json>, ghost ts: seq<Option<Json>>, ghost fp0: set<object>)
    returns (r: Option<Val>, panicked: bool, ghost fp: set<object>)
    requires Means(newValue, n, fp0) && Means(oldValue, o, fp0)
    requires |mn| == |ts| && forall i | 0 <= i < |mn| :: Means(mn[i], ts[i], fp0)
    ensures fresh(fp - fp0)
    ensures panicked <==> FoldTrees(n, [o] + ts) == Panicked
    ensures !panicked ==> Means(r, Kept(FoldTrees(n, [o] + ts)), fp)
  {
    ghost var t := n;
    r, panicked, fp := newValue, false, fp0;
    var all := [oldValue] + mn;
    ghost var docs := [o] + ts;
    var i := 0;
    assert docs[0..] == docs;
    while i < |all|
      invariant 0 <= i <= |all|
      invariant fp0 <= fp && fresh(fp - fp0)
      invariant Means(r, t, fp)
      invariant forall j | 0 <= j < |all| :: Means(all[j], docs[j], fp0)
      invariant FoldTrees(n, docs) == FoldTrees(t, docs[i..])
    {
      FoldStep(t, docs, i);
      if r.None? {
        r, t := all[i], docs[i];
        MeansMono(r, t, fp0, fp);
      } else if all[i].Some? {
        ghost var e := docs[i];
        var r', bad, got := MergeTwo(r.value, all[i].value, t.value, e.value, fp, fp0);
        if bad { panicked := true; return; }
        r, t := r', Kept(MergeTrees(t.value, e.value));
        MeansMono(r, t, got, got + fp);
        fp := got + fp;
      }
      i := i + 1;
    }
    assert docs[i..] == [];
  }

  lemma FoldStep(t: Option<Json>, docs: seq<Option<Json>>, i: nat)
    requires i < |docs|
    ensures t.None? ==> FoldTrees(t, docs[i..]) == FoldTrees(docs[i], docs[i + 1..])
    ensures t.Some? && docs[i].None? ==> FoldTrees(t, docs[i..]) == FoldTrees(t, docs[i + 1..])
    ensures t.Some? && docs[i].Some? ==>
      var r := MergeTrees(t.value, docs[i].value);
      FoldTrees(t, docs[i..]) == if r.Panicked? then Panicked else FoldTrees(Kept(r), docs[i + 1..])
  {
    assert docs[i..][0] == docs[i] && docs[i..][1..] == docs[i + 1..];
  }

  ghost predicate Means(v: Option<Val>, t: Option<Json>, fp: set<object>)
    reads fp
  {
    (v.None? <==> t.None?) && (v.Some? ==> Denotes(v.value, t.value, fp))
  }

  lemma MeansMono(v: Option<Val>, t: Option<Json>, fp: set<object>, fp': set<object>)
    requires fp <= fp' && Means(v, t, fp)
    ensures Means(v, t, fp')
  {
    if v.Some? { DenotesMono(v.value, t.value, fp, fp'); }
  }
}
