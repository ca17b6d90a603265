/** Laws of the overlay that configuration merging promises: idempotence, associativity, and what a
    dotted-path lookup of the merged document returns. */
module JsonLaws {
  import opened Options
  import opened JsonTree

  // ---- Merging a document with itself ----

  /** Copying is the identity on exactly the documents without nulls. */
  lemma {:induction false} CompactIdentity(t: Json)
    requires Copyable(t)
    ensures (Compact(t) == t) <==> (t == Null || NullFree(t))
  {
    match t
    case Null =>
    case Scalar(_) =>
    case Array(es) =>
      forall i | 0 <= i < |es| ensures (Compact(es[i]) == es[i]) <==> NullFree(es[i]) { CompactIdentity(es[i]); }
      if forall i | 0 <= i < |es| :: NullFree(es[i]) {
        assert Compact(t).elems == es;
      } else {
        var i :| 0 <= i < |es| && !NullFree(es[i]);
        assert Compact(t).elems[i] == Compact(es[i]) != es[i];
      }
    case Object(m) =>
      forall k | k in m ensures m[k] != Null ==> ((Compact(m[k]) == m[k]) <==> NullFree(m[k])) {
        CompactIdentity(m[k]);
      }
      if forall k | k in m :: NullFree(m[k]) {
        assert Compact(t).fields == m;
      } else {
        var k :| k in m && !NullFree(m[k]);
        if m[k] == Null { assert k !in Compact(t).fields; }
        else { assert Compact(t).fields[k] == Compact(m[k]) != m[k]; }
      }
  }

  lemma {:induction false} OverlaySelf(t: Json)
    ensures Overlay(t, Compact(t)) == Compact(t)
  {
    match t
    case Null =>
    case Scalar(_) =>
    case Array(_) =>
    case Object(m) =>
      var c := Compact(t).fields;
      var r := OverlayFields(t, c);
      forall k | k in m && m[k] != Null ensures k in r && r[k] == c[k] {
        OverlaySelf(m[k]);
      }
      assert r.Keys == c.Keys;
      assert r == c;
  }

  /** Merge(t, t) gives back t exactly when t holds no null anywhere. */
  lemma MergeIdempotent(t: Json)
    requires t.Object? && Copyable(t)
    ensures MergeTrees(t, t) == Merged(t) <==> NullFree(t)
  {
    OverlaySelf(t);
    CompactIdentity(t);
  }

  // ---- What is where in a merge ----

  /** What stands at a path of object keys. */
  function Under(t: Json, path: seq<string>): Option<Json>
    decreases |path|
  {
    if path == [] then Some(t)
    else if t.Object? && path[0] in t.fields then Under(t.fields[path[0]], path[1..])
    else None
  }

  /** The entries of one object laid over another. */
  lemma OverlayAt(n: Json, d: Json, k: string)
    requires n.Object? && d.Object?
    ensures var r := Overlay(n, d);
      && r.Object?
      && (k in r.fields <==> if k in n.fields then n.fields[k] != Null else k in d.fields)
      && (k in r.fields ==>
            r.fields[k] == if k in n.fields then Overlay(n.fields[k], At(d.fields, k)) else d.fields[k])
  {
  }

  /** Where two objects do not meet, the overlay is the new document, or the old array under a new one. */
  lemma OverlayRoots(n: Json, d: Json)
    ensures n.Object? && d.Object? ==> Overlay(n, d).Object?
    ensures !(n.Object? && d.Object?) ==> Overlay(n, d) == if n.Array? && d.Array? then d else n
  {
  }

  /** At a path where both documents have an object the result has one, with the keys of either but for those the new
      document sets to null.  A key of the new one has its value there, nulls inside it included; but two objects
      become an object again, and an array stays the old one under a new array. */
  lemma {:induction false} OverlayMeaning(n: Json, d: Json, path: seq<string>, k: string)
    requires Under(n, path).Some? && Under(n, path).value.Object?
    requires Under(d, path).Some? && Under(d, path).value.Object?
    ensures var x, y, r := Under(n, path).value.fields, Under(d, path).value.fields, Under(Overlay(n, d), path);
      && r.Some? && r.value.Object?
      && (k in r.value.fields <==> if k in x then x[k] != Null else k in y)
      && (k in r.value.fields ==>
            var v := r.value.fields[k];
            if k !in x then v == y[k]
            else if k !in y then v == x[k]
            else if x[k].Object? && y[k].Object? then v.Object?
            else v == if x[k].Array? && y[k].Array? then y[k] else x[k])
    decreases |path|
  {
    if path != [] {
      OverlayMeaning(n.fields[path[0]], d.fields[path[0]], path[1..], k);
      OverlayAt(n, d, path[0]);
    } else {
      OverlayAt(n, d, k);
      if k in n.fields { OverlayRoots(n.fields[k], At(d.fields, k)); }
    }
  }

  /** x is t or stands anywhere in it. */
  predicate Part(t: Json, x: Json)
  {
    || t == x
    || (t.Array? && exists i | 0 <= i < |t.elems| :: Part(t.elems[i], x))
    || (t.Object? && exists k | k in t.fields :: Part(t.fields[k], x))
  }

  /** A document can be copied exactly if no array in it holds a null. */
  lemma {:induction false} CopyableMeaning(t: Json)
    ensures Copyable(t) <==> forall x | Part(t, x) && x.Array? :: Null !in x.elems
  {
    match t
    case Null =>
    case Scalar(_) =>
    case Array(es) =>
      forall i | 0 <= i < |es| ensures Copyable(es[i]) <==> forall x | Part(es[i], x) && x.Array? :: Null !in x.elems {
        CopyableMeaning(es[i]);
      }
      assert Part(t, t);
    case Object(m) =>
      forall k | k in m ensures Copyable(m[k]) <==> forall x | Part(m[k], x) && x.Array? :: Null !in x.elems {
        CopyableMeaning(m[k]);
      }
  }

  /** Two objects, and two arrays, are merged; no other roots are.  The merge panics exactly if the old document has a
      null in an array, or a null of the new array meets an element of the old.  Arrays are merged element by element,
      and the result is as long as the old one. */
  lemma MergeMeaning(n: Json, o: Json)
    ensures MergeTrees(n, o) == NoMerge <==> !(n.Object? && o.Object?) && !(n.Array? && o.Array?)
    ensures MergeTrees(n, o) == Panicked <==>
      || (n.Object? && o.Object? && !Copyable(o))
      || (n.Array? && o.Array?
          && (!Copyable(o) || exists i | 0 <= i < |n.elems| && i < |o.elems| :: n.elems[i] == Null))
    ensures MergeTrees(n, o).Merged? && n.Object? ==> MergeTrees(n, o).tree == Overlay(n, Compact(o))
    ensures MergeTrees(n, o).Merged? && n.Array? ==>
      var r := MergeTrees(n, o).tree;
      r.Array? && |r.elems| == |o.elems| && forall i | 0 <= i < |o.elems| ::
        r.elems[i] == if i < |n.elems| then Overlay(n.elems[i], Compact(o.elems[i])) else Compact(o.elems[i])
  {
  }

  // ---- Associativity ----

  /** c changes nothing when it is laid under a. */
  predicate AddsNothing(a: Json, c: Json)
    decreases a
  {
    if a.Object? && c.Object? then
      forall k | k in c.fields :: k in a.fields && AddsNothing(a.fields[k], c.fields[k])
    else if a.Array? && c.Array? then a == c
    else true
  }

  lemma NullFreeEntries(t: Json)
    requires NullFree(t) && t.Object?
    ensures forall k | k in t.fields :: NullFree(t.fields[k]) && t.fields[k] != Null
  {
  }

  /** r is the overlay of n on d as far as the key k goes. */
  predicate OverlaidAt(n: map<string, Json>, d: map<string, Json>, r: map<string, Json>, k: string)
  {
    && (k in r <==> k in n || k in d)
    && (k in r ==> r[k] == if k !in n then d[k] else if k in d then Overlay(n[k], d[k]) else n[k])
  }

  lemma OverlayEntry(n: Json, d: map<string, Json>, k: string)
    requires n.Object? && NullFree(n)
    ensures OverlaidAt(n.fields, d, OverlayFields(n, d), k)
  {
    NullFreeEntries(n);
  }

  lemma {:induction false} AddsNothingMeaning(a: Json, c: Json)
    requires NullFree(a) && NullFree(c)
    ensures AddsNothing(a, c) <==> Overlay(a, c) == a
    decreases a
  {
    if a.Object? && c.Object? {
      var r := OverlayFields(a, c.fields);
      forall k ensures OverlaidAt(a.fields, c.fields, r, k) { OverlayEntry(a, c.fields, k); }
      forall k | k in a.fields && k in c.fields ensures AddsNothing(a.fields[k], c.fields[k]) <==> r[k] == a.fields[k] {
        AddsNothingMeaning(a.fields[k], c.fields[k]);
      }
      if AddsNothing(a, c) {
        forall k | k in r ensures k in a.fields && r[k] == a.fields[k] { assert OverlaidAt(a.fields, c.fields, r, k); }
        assert r.Keys == a.fields.Keys;
      }
      else if k :| k in c.fields && k !in a.fields { assert k in r; }
    }
  }

  /** No path at which a middle document of another kind hides a container that the outer two share. */
  predicate KindsAgree(a: Json, b: Json, c: Json)
    decreases a
  {
    if a.Object? && b.Object? && c.Object? then
      forall k | k in a.fields && k in b.fields && k in c.fields :: KindsAgree(a.fields[k], b.fields[k], c.fields[k])
    else if a.Object? && c.Object? then AddsNothing(a, c)
    else if a.Array? && c.Array? && !b.Array? then a == c
    else true
  }

  lemma {:induction false} OverlayAssociative(a: Json, b: Json, c: Json)
    requires NullFree(a) && NullFree(b) && NullFree(c)
    ensures Overlay(a, Overlay(b, c)) == Overlay(Overlay(a, b), c) <==> KindsAgree(a, b, c)
    decreases a
  {
    if a.Object? && b.Object? && c.Object? {
      NullFreeEntries(a); NullFreeEntries(b); NullFreeEntries(c);
      var l := OverlayFields(a, OverlayFields(b, c.fields));
      var r := OverlayFields(Object(OverlayFields(a, b.fields)), c.fields);
      forall k ensures SameEntry(l, r, k) <==>
          (k in a.fields && k in b.fields && k in c.fields ==> KindsAgree(a.fields[k], b.fields[k], c.fields[k])) {
        AssociativeEntry(a, b, c, k);
        if k in a.fields && k in b.fields && k in c.fields {
          OverlayAssociative(a.fields[k], b.fields[k], c.fields[k]);
        }
      }
      if KindsAgree(a, b, c) {
        forall k ensures SameEntry(l, r, k) {}
        assert l == r;
      } else {
        var k :| !SameEntry(l, r, k);
      }
    } else if a.Object? && c.Object? {
      AddsNothingMeaning(a, c);
    }
  }

  predicate SameEntry(l: map<string, Json>, r: map<string, Json>, k: string)
  {
    (k in l <==> k in r) && (k in l ==> l[k] == r[k])
  }

  lemma EntryTwoWays(a: map<string, Json>, b: map<string, Json>, c: map<string, Json>, bc: map<string, Json>,
      l: map<string, Json>, ab: map<string, Json>, r: map<string, Json>, k: string)
    requires OverlaidAt(b, c, bc, k) && OverlaidAt(a, bc, l, k)
    requires OverlaidAt(a, b, ab, k) && OverlaidAt(ab, c, r, k)
    ensures
      if k in a && k in b && k in c then
        k in l && k in r && l[k] == Overlay(a[k], Overlay(b[k], c[k])) && r[k] == Overlay(Overlay(a[k], b[k]), c[k])
      else SameEntry(l, r, k)
  {
  }

  lemma AssociativeEntry(a: Json, b: Json, c: Json, k: string)
    requires a.Object? && b.Object? && c.Object? && NullFree(a) && NullFree(b) && NullFree(c)
    ensures var l := OverlayFields(a, OverlayFields(b, c.fields));
      var r := OverlayFields(Object(OverlayFields(a, b.fields)), c.fields);
      if k in a.fields && k in b.fields && k in c.fields then
        k in l && k in r && l[k] == Overlay(a.fields[k], Overlay(b.fields[k], c.fields[k]))
        && r[k] == Overlay(Overlay(a.fields[k], b.fields[k]), c.fields[k])
      else SameEntry(l, r, k)
  {
    var ab, bc := Object(OverlayFields(a, b.fields)), OverlayFields(b, c.fields);
    OverlayNullFree(a, b);
    OverlayEntry(b, c.fields, k);
    OverlayEntry(a, bc, k);
    OverlayEntry(a, b.fields, k);
    OverlayEntry(ab, c.fields, k);
    EntryTwoWays(a.fields, b.fields, c.fields, bc, OverlayFields(a, bc), ab.fields, OverlayFields(ab, c.fields), k);
  }

  lemma {:induction false} NullFreeCopyable(t: Json)
    requires NullFree(t)
    ensures Copyable(t) && Compact(t) == t
  {
    match t
    case Scalar(_) =>
    case Array(es) =>
      forall i | 0 <= i < |es| ensures Copyable(es[i]) { NullFreeCopyable(es[i]); }
      CompactIdentity(t);
    case Object(m) =>
      forall k | k in m ensures Copyable(m[k]) { NullFreeCopyable(m[k]); }
      CompactIdentity(t);
  }

  lemma {:induction false} OverlayNullFree(n: Json, d: Json)
    requires NullFree(n) && NullFree(d)
    ensures NullFree(Overlay(n, d))
    decreases n
  {
    if n.Object? && d.Object? {
      var r := OverlayFields(n, d.fields);
      forall k | k in r ensures NullFree(r[k]) {
        OverlayEntry(n, d.fields, k);
        if k in n.fields && k in d.fields { OverlayNullFree(n.fields[k], d.fields[k]); }
      }
    }
  }

  /** Merging three null-free documents gives the same tree in either grouping exactly when KindsAgree. */
  lemma MergeAssociative(a: Json, b: Json, c: Json)
    requires a.Object? && b.Object? && c.Object? && NullFree(a) && NullFree(b) && NullFree(c)
    ensures MergeTrees(a, b).Merged? && MergeTrees(b, c).Merged?
    ensures MergeTrees(a, MergeTrees(b, c).tree) == MergeTrees(MergeTrees(a, b).tree, c) <==> KindsAgree(a, b, c)
  {
    NullFreeCopyable(b);
    NullFreeCopyable(c);
    OverlayNullFree(b, c);
    NullFreeCopyable(Overlay(b, c));
    OverlayAssociative(a, b, c);
  }

  // ---- Lookup by dotted path ----

  function DigitValue(c: char): Option<nat>
  {
    if '0' <= c <= '9' then Some(c as int - '0' as int) else None
  }

  function ParseDigits(s: string, acc: nat): Option<nat>
  {
    if s == "" then Some(acc)
    else match DigitValue(s[0])
      case None => None
      case Some(d) => ParseDigits(s[1..], 10 * acc + d)
  }

  /** A base-ten index that fits in 32 bits, with an optional sign. */
  function ParseIndex(s: string): Option<int>
  {
    var negative := s != "" && s[0] == '-';
    var digits := if s != "" && (s[0] == '-' || s[0] == '+') then s[1..] else s;
    if digits == "" then None
    else match ParseDigits(digits, 0)
      case None => None
      case Some(v) =>
        var size: int := v;
        var i := if negative then -size else size;
        if -0x8000_0000 <= i < 0x8000_0000 then Some(i) else None
  }

  function GetOne(t: Json, key: string): Json
  {
    match t
    case Object(m) => At(m, key)
    case Array(es) =>
      (match ParseIndex(key)
       case None => Null
       case Some(i) => if 0 <= i < |es| then es[i] else Null)
    case _ => Null
  }

  function Get(t: Json, keys: seq<string>): Json
    decreases |keys|
  {
    if keys == [] then Null
    else if |keys| == 1 then GetOne(t, keys[0])
    else Get(GetOne(t, keys[0]), keys[1..])
  }

  predicate AllDigits(s: string)
  {
    forall k | 0 <= k < |s| :: '0' <= s[k] <= '9'
  }

  /** What the digits say in base ten. */
  function NumberOf(s: string): nat
    requires AllDigits(s)
  {
    if s == "" then 0 else 10 * NumberOf(s[..|s| - 1]) + (s[|s| - 1] as int - '0' as int)
  }

  lemma {:induction false} DigitsSnoc(s: string, c: char, acc: nat)
    requires AllDigits(s) && '0' <= c <= '9' && ParseDigits(s, acc).Some?
    ensures ParseDigits(s + [c], acc) == Some(10 * ParseDigits(s, acc).value + (c as int - '0' as int))
    decreases |s|
  {
    if s == "" {
      assert "" + [c] == [c] && [c][1..] == "";
      assert ParseDigits("", 10 * acc + (c as int - '0' as int)) == Some(10 * acc + (c as int - '0' as int));
    } else {
      assert (s + [c])[1..] == s[1..] + [c];
      DigitsSnoc(s[1..], c, 10 * acc + DigitValue(s[0]).value);
    }
  }

  lemma {:induction false} DigitsParsed(s: string)
    requires AllDigits(s)
    ensures ParseDigits(s, 0) == Some(NumberOf(s))
  {
    if s != "" {
      var init, c := s[..|s| - 1], s[|s| - 1];
      assert s == init + [c];
      DigitsParsed(init);
      DigitsSnoc(init, c, 0);
    }
  }

  lemma {:induction false} NotParsed(s: string, acc: nat)
    requires !AllDigits(s)
    ensures ParseDigits(s, acc) == None
  {
    if DigitValue(s[0]).Some? { NotParsed(s[1..], 10 * acc + DigitValue(s[0]).value); }
  }

  /** A key of an array is a number in base ten, of 32 bits, with or without a sign; it finds the element at that place,
      and any other key finds nothing. */
  lemma GetElement(es: seq<Json>, key: string)
    ensures var signed := key != "" && key[0] in "+-";
      var digits := if signed then key[1..] else key;
      Get(Array(es), [key]) ==
        if digits != "" && AllDigits(digits) && NumberOf(digits) < |es| && NumberOf(digits) < 2147483648
           && !(signed && key[0] == '-' && NumberOf(digits) > 0)
        then es[NumberOf(digits)] else Null
  {
    var digits := if key != "" && key[0] in "+-" then key[1..] else key;
    if AllDigits(digits) { DigitsParsed(digits); } else { NotParsed(digits, 0); }
  }

  /** An array of n and an array of d meet at a proper prefix of the path. */
  predicate ArraysMeet(n: Json, d: Json, keys: seq<string>)
    decreases |keys|
  {
    keys != [] && ((n.Array? && d.Array?) ||
    (n.Object? && d.Object? && keys[0] in n.fields && keys[0] in d.fields
        && ArraysMeet(n.fields[keys[0]], d.fields[keys[0]], keys[1..])))
  }

  lemma {:induction false} GetNull(keys: seq<string>)
    ensures Get(Null, keys) == Null
    decreases |keys|
  {
    if |keys| > 1 { GetNull(keys[1..]); }
  }

  /** Where the new document has a scalar, the merged one has it too, unless two arrays meet on the way:
      then the old document answers. */
  lemma {:induction false} GetNewScalar(n: Json, d: Json, keys: seq<string>)
    requires Get(n, keys).Scalar?
    ensures Get(Overlay(n, d), keys) == if ArraysMeet(n, d, keys) then Get(d, keys) else Get(n, keys)
    decreases |keys|
  {
    if n.Object? && d.Object? {
      var k := keys[0];
      if k !in n.fields || n.fields[k] == Null {
        if |keys| > 1 { GetNull(keys[1..]); }
      } else {
        assert GetOne(Overlay(n, d), k) == Overlay(n.fields[k], At(d.fields, k));
        if |keys| > 1 {
          GetNewScalar(n.fields[k], At(d.fields, k), keys[1..]);
        } else {
          assert keys[1..] == [];
        }
      }
    }
  }

  /** The new document has no entry on the way down to the path. */
  predicate Untouched(n: Json, d: Json, keys: seq<string>)
    decreases |keys|
  {
    keys != [] && n.Object? && d.Object? &&
    (keys[0] !in n.fields
        || (|keys| > 1 && keys[0] in d.fields && Untouched(n.fields[keys[0]], d.fields[keys[0]], keys[1..])))
  }

  lemma {:induction false} GetUntouched(n: Json, d: Json, keys: seq<string>)
    requires Untouched(n, d, keys)
    ensures Get(Overlay(n, d), keys) == Get(d, keys)
    decreases |keys|
  {
    var k := keys[0];
    if k in n.fields {
      assert GetOne(Overlay(n, d), k) == Overlay(n.fields[k], d.fields[k]);
      GetUntouched(n.fields[k], d.fields[k], keys[1..]);
    }
  }

  lemma {:induction false} GetCompact(t: Json, keys: seq<string>)
    ensures Get(Compact(t), keys) == Compact(Get(t, keys))
    decreases |keys|
  {
    if |keys| > 1 { GetCompact(GetOne(t, keys[0]), keys[1..]); }
  }

  lemma {:induction false} ArraysMeetCompact(n: Json, o: Json, keys: seq<string>)
    ensures ArraysMeet(n, Compact(o), keys) == ArraysMeet(n, o, keys)
    decreases |keys|
  {
    if keys != [] && n.Object? && o.Object? && keys[0] in n.fields && keys[0] in o.fields {
      ArraysMeetCompact(n.fields[keys[0]], o.fields[keys[0]], keys[1..]);
    }
  }

  lemma {:induction false} UntouchedCompact(n: Json, o: Json, keys: seq<string>)
    requires Untouched(n, o, keys)
    ensures Untouched(n, Compact(o), keys)
    decreases |keys|
  {
    var k := keys[0];
    if k in n.fields { UntouchedCompact(n.fields[k], o.fields[k], keys[1..]); }
  }

  /** A dotted-path get on the merge of two objects. */
  lemma GetAfterMerge(n: Json, o: Json, keys: seq<string>)
    requires n.Object? && o.Object? && Copyable(o)
    ensures MergeTrees(n, o).Merged?
    ensures Get(n, keys).Scalar? ==>
      Get(MergeTrees(n, o).tree, keys) == if ArraysMeet(n, o, keys) then Compact(Get(o, keys)) else Get(n, keys)
    ensures Untouched(n, o, keys) ==> Get(MergeTrees(n, o).tree, keys) == Compact(Get(o, keys))
  {
    GetCompact(o, keys);
    ArraysMeetCompact(n, o, keys);
    if Get(n, keys).Scalar? { GetNewScalar(n, Compact(o), keys); }
    if Untouched(n, o, keys) {
      UntouchedCompact(n, o, keys);
      GetUntouched(n, Compact(o), keys);
    }
  }

  // ---- Any number of documents ----

  /** One more document at the end of a merge: a panic stays, a nil argument changes nothing, the first document is
      itself, and any other is merged underneath what there is. */
  lemma {:induction false} FoldSnoc(m: Option<Json>, docs: seq<Option<Json>>, d: Option<Json>)
    ensures FoldTrees(m, []) == if m.Some? then Merged(m.value) else NoMerge
    ensures FoldTrees(m, docs + [d]) ==
      match FoldTrees(m, docs)
      case Panicked => Panicked
      case NoMerge => if d.Some? then Merged(d.value) else NoMerge
      case Merged(t) => if d.Some? then MergeTrees(t, d.value) else Merged(t)
    decreases |docs|
  {
    if docs == [] {
      assert docs + [d] == [d] && [d][1..] == [];
      assert d.Some? ==> FoldTrees(d, []) == Merged(d.value);
    } else {
      assert (docs + [d])[1..] == docs[1..] + [d];
      if m.None? {
        FoldSnoc(docs[0], docs[1..], d);
      } else if docs[0].None? {
        FoldSnoc(m, docs[1..], d);
      } else {
        FoldSnoc(Kept(MergeTrees(m.value, docs[0].value)), docs[1..], d);
      }
    }
  }

  /** Two documents are merged as one call of `merge` does. */
  lemma MergeOfTwo(n: Json, o: Json)
    ensures FoldTrees(Some(n), [Some(o)]) == MergeTrees(n, o)
  {
    assert [Some(o)][1..] == [];
    assert forall m: Option<Json> :: FoldTrees(m, []) == if m.Some? then Merged(m.value) else NoMerge;
  }

  function Given(docs: seq<Json>): seq<Option<Json>>
  {
    seq(|docs|, i requires 0 <= i < |docs| => Some(docs[i]))
  }

  lemma {:induction false} UntouchedOverlay(a: Json, b: Json, d: Json, keys: seq<string>)
    requires Untouched(a, d, keys) && Untouched(b, d, keys)
    ensures Untouched(Overlay(a, b), d, keys)
    decreases |keys|
  {
    var k := keys[0];
    OverlayAt(a, b, k);
    if k in a.fields && k in b.fields { UntouchedOverlay(a.fields[k], b.fields[k], d.fields[k], keys[1..]); }
  }

  lemma {:induction false} CompactUntouched(b: Json, d: Json, keys: seq<string>)
    requires Untouched(b, d, keys)
    ensures Untouched(Compact(b), d, keys)
    decreases |keys|
  {
    var k := keys[0];
    if k in b.fields { CompactUntouched(b.fields[k], d.fields[k], keys[1..]); }
  }

  lemma {:induction false} ArraysUnderUntouched(n: Json, d: Json, x: Json, keys: seq<string>)
    requires Untouched(n, d, keys) && ArraysMeet(Overlay(n, d), x, keys)
    ensures ArraysMeet(d, x, keys)
    decreases |keys|
  {
    var k := keys[0];
    OverlayAt(n, d, k);
    if k in n.fields { ArraysUnderUntouched(n.fields[k], d.fields[k], x.fields[k], keys[1..]); }
  }

  lemma {:induction false} ArraysOfCompact(d: Json, x: Json, keys: seq<string>)
    requires ArraysMeet(Compact(d), x, keys)
    ensures ArraysMeet(d, x, keys)
    decreases |keys|
  {
    if !d.Array? { ArraysOfCompact(d.fields[keys[0]], x.fields[keys[0]], keys[1..]); }
  }

  lemma {:induction false} ArraysOverScalar(n: Json, d: Json, x: Json, keys: seq<string>)
    requires Get(n, keys).Scalar? && ArraysMeet(Overlay(n, d), x, keys)
    ensures ArraysMeet(n, x, keys)
    decreases |keys|
  {
    if n.Object? && d.Object? {
      var k := keys[0];
      if k !in n.fields || n.fields[k] == Null {
        if |keys| > 1 { GetNull(keys[1..]); }
      } else if |keys| > 1 {
        OverlayAt(n, d, k);
        ArraysOverScalar(n.fields[k], At(d.fields, k), x.fields[k], keys[1..]);
      }
    }
  }

  /** What is known of a merge of the first documents at a path where document j has a scalar. */
  ghost predicate Answers(r: Json, docs: seq<Json>, n: nat, keys: seq<string>, j: nat)
    requires j < |docs|
  {
    && r.Object?
    && (n <= j ==> Untouched(r, docs[j], keys))
    && (n > j ==> Get(r, keys) == Get(docs[j], keys))
    && (n > j ==> forall x | ArraysMeet(r, x, keys) :: ArraysMeet(docs[j], x, keys))
  }

  predicate AnsweredBy(docs: seq<Json>, keys: seq<string>, j: nat)
    requires j < |docs|
  {
    && Get(docs[j], keys).Scalar?
    && (forall i | 0 <= i < j :: Untouched(docs[i], docs[j], keys))
    && (forall i | j < i < |docs| :: !ArraysMeet(docs[j], docs[i], keys))
  }

  lemma OneMoreAnswers(r: Json, docs: seq<Json>, n: nat, keys: seq<string>, j: nat)
    requires j < |docs| && 0 < n < |docs| && docs[n].Object? && AnsweredBy(docs, keys, j)
    requires Answers(r, docs, n, keys, j)
    ensures Answers(Overlay(r, Compact(docs[n])), docs, n + 1, keys, j)
  {
    var d := Compact(docs[n]);
    if n < j {
      CompactUntouched(docs[n], docs[j], keys);
      UntouchedOverlay(r, d, docs[j], keys);
    } else if n == j {
      UntouchedCompact(r, docs[j], keys);
      GetUntouched(r, d, keys);
      GetCompact(docs[j], keys);
      forall x | ArraysMeet(Overlay(r, d), x, keys) ensures ArraysMeet(docs[j], x, keys) {
        ArraysUnderUntouched(r, d, x, keys);
        ArraysOfCompact(docs[j], x, keys);
      }
    } else {
      ArraysMeetCompact(r, docs[n], keys);
      GetNewScalar(r, d, keys);
      forall x | ArraysMeet(Overlay(r, d), x, keys) ensures ArraysMeet(docs[j], x, keys) {
        ArraysOverScalar(r, d, x, keys);
      }
    }
  }

  lemma {:induction false} FoldAnswers(docs: seq<Json>, n: nat, keys: seq<string>, j: nat)
    requires j < |docs| && 0 < n <= |docs| && AnsweredBy(docs, keys, j)
    requires forall i | 0 <= i < |docs| :: docs[i].Object? && (i > 0 ==> Copyable(docs[i]))
    ensures var r := FoldTrees(None, Given(docs[..n])); r.Merged? && Answers(r.tree, docs, n, keys, j)
    decreases n
  {
    var before := Given(docs[..n - 1]);
    assert Given(docs[..n]) == before + [Some(docs[n - 1])];
    FoldSnoc(None, before, Some(docs[n - 1]));
    if n == 1 {
      assert before == [];
    } else {
      FoldAnswers(docs, n - 1, keys, j);
      OneMoreAnswers(FoldTrees(None, before).tree, docs, n - 1, keys, j);
    }
  }

  /** A dotted-path get of a merge of any number of objects returns the scalar of the document that has one, if those
      before it leave the path untouched and no later one has an array where it has one on the way. */
  lemma GetAfterMergeAll(docs: seq<Json>, keys: seq<string>, j: nat)
    requires j < |docs| && forall i | 0 <= i < |docs| :: docs[i].Object? && (i > 0 ==> Copyable(docs[i]))
    requires Get(docs[j], keys).Scalar?
    requires forall i | 0 <= i < j :: Untouched(docs[i], docs[j], keys)
    requires forall i | j < i < |docs| :: !ArraysMeet(docs[j], docs[i], keys)
    ensures var r := FoldTrees(None, Given(docs)); r.Merged? && Get(r.tree, keys) == Get(docs[j], keys)
  {
    FoldAnswers(docs, |docs|, keys, j);
    assert docs[..|docs|] == docs;
  }
}
