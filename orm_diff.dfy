/** Structural comparison of a declared schema with the one read back from the
    database: `diffObjects` walks the union of both objects' keys and sorts
    every difference into additions, updates and removals. */
module OrmDiff {

  import opened Wrappers
  import opened JsValue
  import opened OrmTypes

  /** `mergeDiff`: the three lists concatenated pairwise. */
  function MergeDiff(d1: Diff, d2: Diff): (r: Diff)
    ensures r.add == d1.add + d2.add
    ensures r.update == d1.update + d2.update
    ensures r.remove == d1.remove + d2.remove
  {
    Diff(d1.add + d2.add, d1.update + d2.update, d1.remove + d2.remove)
  }

  /** The empty diff is neutral on both sides, and merging is associative. */
  lemma MergeDiffLaws(a: Diff, b: Diff, c: Diff)
    ensures MergeDiff(EmptyDiff, a) == a && MergeDiff(a, EmptyDiff) == a
    ensures MergeDiff(MergeDiff(a, b), c) == MergeDiff(a, MergeDiff(b, c))
  {
    assert a.add + [] == a.add && a.update + [] == a.update && a.remove + [] == a.remove;
    assert (a.add + b.add) + c.add == a.add + (b.add + c.add);
    assert (a.update + b.update) + c.update == a.update + (b.update + c.update);
    assert (a.remove + b.remove) + c.remove == a.remove + (b.remove + c.remove);
  }

  /** `a === b` after `?? null`: primitives compare by value; two objects or
      arrays are never the same reference here, because the two sides of a
      comparison are always built separately. */
  predicate StrictEquals(a: Value, b: Value)
  {
    !IsObjectLike(a) && a == b
  }

  /** `v !== null ? JSON.stringify(v) : null`, with the serialiser as a parameter. */
  function Serialized(v: Value, json: Value -> string): (r: Option<string>)
    ensures r.None? <==> v == Null
  {
    if v != Null then Some(json(v)) else None
  }

  /** The value `diffObjects` compares under `key`: the property, or null. */
  function Side(o: Value, key: string): Value
    requires IsObjectLike(o)
  {
    Coalesce(Get(FieldsOf(o), key))
  }

  /** The keys of `{ ...obj1, ...obj2 }`. */
  function DiffKeys(o1: Value, o2: Value): seq<string>
    requires IsObjectLike(o1) && IsObjectLike(o2)
  {
    UnionKeys(FieldsOf(o1), FieldsOf(o2))
  }

  /** `diffObjects(obj1, obj2, path)`: obj1 is the definition, obj2 the
      database's actual state. */
  function DiffValues(o1: Value, o2: Value, path: seq<string>, json: Value -> string): Diff
    requires IsObjectLike(o1) && IsObjectLike(o2)
    decreases o1, 2
  {
    DiffUpTo(o1, o2, DiffKeys(o1, o2), |DiffKeys(o1, o2)|, path, json)
  }

  /** The accumulated diff after the first `i` keys of `ks`. */
  function DiffUpTo(o1: Value, o2: Value, ks: seq<string>, i: nat, path: seq<string>,
                    json: Value -> string): Diff
    requires IsObjectLike(o1) && IsObjectLike(o2) && i <= |ks|
    decreases o1, 1, i
  {
    if i == 0 then EmptyDiff
    else MergeDiff(DiffUpTo(o1, o2, ks, i - 1, path, json), KeyDiff(o1, o2, ks[i - 1], path, json))
  }

  /** What one key contributes: nothing when both sides are the same
      primitive; a removal when only the database has a value; an addition
      when only the definition has one; the nested diff when both are
      objects; otherwise an update. */
  function KeyDiff(o1: Value, o2: Value, key: string, path: seq<string>, json: Value -> string): Diff
    requires IsObjectLike(o1) && IsObjectLike(o2)
    decreases o1, 0
  {
    var def := Side(o1, key);
    var actual := Side(o2, key);
    var change := Change(path + [key], Serialized(actual, json), Serialized(def, json));
    if StrictEquals(def, actual) then EmptyDiff
    else if actual != Null && def == Null then Diff([], [], [change])
    else if actual == Null && def != Null then Diff([change], [], [])
    else if IsObjectLike(def) && IsObjectLike(actual) then
      GetFieldsOfBelow(o1, key);
      DiffValues(def, actual, path + [key], json)
    else Diff([], [change], [])
  }

  /** `diffObjects`: a loop over the union of keys that pushes each change
      onto its list, merging in the diff of nested objects. */
  method DiffObjects(o1: Value, o2: Value, path: seq<string>, json: Value -> string) returns (total: Diff)
    requires IsObjectLike(o1) && IsObjectLike(o2)
    ensures total == DiffValues(o1, o2, path, json)
    decreases o1, 1
  {
    var keys := UnionKeys(FieldsOf(o1), FieldsOf(o2));
    total := EmptyDiff;
    var i := 0;
    while i < |keys|
      invariant 0 <= i <= |keys|
      invariant total == DiffUpTo(o1, o2, keys, i, path, json)
    {
      total := DiffKey(o1, o2, keys[i], path, json, total);
      i := i + 1;
    }
  }

  /** The body of the `reduce` callback for one key. */
  method DiffKey(o1: Value, o2: Value, key: string, path: seq<string>, json: Value -> string, total: Diff)
    returns (next: Diff)
    requires IsObjectLike(o1) && IsObjectLike(o2)
    ensures next == MergeDiff(total, KeyDiff(o1, o2, key, path, json))
    decreases o1, 0
  {
    var p := path + [key];
    var def := Coalesce(Get(FieldsOf(o1), key));
    var actual := Coalesce(Get(FieldsOf(o2), key));
    if def == actual && !IsObjectLike(def) {
      MergeDiffLaws(total, EmptyDiff, EmptyDiff);
      return total;
    }
    var change := Change(p, if actual != Null then Some(json(actual)) else None,
                            if def != Null then Some(json(def)) else None);
    if actual != Null && def == Null {
      next := total.(remove := total.remove + [change]);
      assert next == MergeDiff(total, Diff([], [], [change]));
    } else if actual == Null && def != Null {
      next := total.(add := total.add + [change]);
      assert next == MergeDiff(total, Diff([change], [], []));
    } else if IsObjectLike(def) && IsObjectLike(actual) {
      GetFieldsOfBelow(o1, key);
      var sub := DiffObjects(def, actual, p, json);
      next := MergeDiff(total, sub);
    } else {
      next := total.(update := total.update + [change]);
      assert next == MergeDiff(total, Diff([], [change], []));
    }
  }

  /** Comparing an object with itself finds no difference. */
  lemma DiffSelf(v: Value, path: seq<string>, json: Value -> string)
    requires IsObjectLike(v)
    ensures DiffValues(v, v, path, json) == EmptyDiff
  {
    ValuesSelf(v, path, json);
  }

  predicate NoChanges(d: Diff)
  {
    |d.add| == 0 && |d.update| == 0 && |d.remove| == 0
  }

  lemma ValuesSelf(v: Value, path: seq<string>, json: Value -> string)
    requires IsObjectLike(v)
    ensures NoChanges(DiffValues(v, v, path, json))
    decreases v, 2
  {
    UpToSelf(v, DiffKeys(v, v), |DiffKeys(v, v)|, path, json);
  }

  lemma {:induction false} UpToSelf(v: Value, ks: seq<string>, i: nat, path: seq<string>, json: Value -> string)
    requires IsObjectLike(v) && i <= |ks|
    ensures NoChanges(DiffUpTo(v, v, ks, i, path, json))
    decreases v, 1, i
  {
    if i > 0 {
      var d1 := DiffUpTo(v, v, ks, i - 1, path, json);
      var d2 := KeyDiff(v, v, ks[i - 1], path, json);
      assert DiffUpTo(v, v, ks, i, path, json) == MergeDiff(d1, d2);
      UpToSelf(v, ks, i - 1, path, json);
      KeySelf(v, ks[i - 1], path, json);
      assert d1.add + d2.add == [] && d1.update + d2.update == [] && d1.remove + d2.remove == [];
    }
  }

  lemma KeySelf(v: Value, key: string, path: seq<string>, json: Value -> string)
    requires IsObjectLike(v)
    ensures NoChanges(KeyDiff(v, v, key, path, json))
    decreases v, 0
  {
    var s := Side(v, key);
    if IsObjectLike(s) {
      GetFieldsOfBelow(v, key);
      ValuesSelf(s, path + [key], json);
    }
  }

  /** The change lies strictly below `path`. */
  predicate Under(c: Change, path: seq<string>)
  {
    |c.path| > |path| && c.path[..|path|] == path
  }

  /** Additions carry only a definition, removals only an actual value,
      updates both; every change lies below the path the walk started at. */
  predicate Classified(d: Diff, path: seq<string>)
  {
    && (forall c :: c in d.add ==> c.actual.None? && c.definition.Some? && Under(c, path))
    && (forall c :: c in d.update ==> c.actual.Some? && c.definition.Some? && Under(c, path))
    && (forall c :: c in d.remove ==> c.actual.Some? && c.definition.None? && Under(c, path))
  }

  /** Every change `diffObjects` reports is classified by which side has a value. */
  lemma DiffClassified(o1: Value, o2: Value, path: seq<string>, json: Value -> string)
    requires IsObjectLike(o1) && IsObjectLike(o2)
    ensures Classified(DiffValues(o1, o2, path, json), path)
    decreases o1, 2
  {
    UpToClassified(o1, o2, DiffKeys(o1, o2), |DiffKeys(o1, o2)|, path, json);
  }

  lemma {:induction false} UpToClassified(o1: Value, o2: Value, ks: seq<string>, i: nat,
                                          path: seq<string>, json: Value -> string)
    requires IsObjectLike(o1) && IsObjectLike(o2) && i <= |ks|
    ensures Classified(DiffUpTo(o1, o2, ks, i, path, json), path)
    decreases o1, 1, i
  {
    if i > 0 {
      var d1 := DiffUpTo(o1, o2, ks, i - 1, path, json);
      var d2 := KeyDiff(o1, o2, ks[i - 1], path, json);
      assert DiffUpTo(o1, o2, ks, i, path, json) == MergeDiff(d1, d2);
      UpToClassified(o1, o2, ks, i - 1, path, json);
      KeyClassified(o1, o2, ks[i - 1], path, json);
      MergeClassified(d1, d2, path);
    }
  }

  lemma KeyClassified(o1: Value, o2: Value, key: string, path: seq<string>, json: Value -> string)
    requires IsObjectLike(o1) && IsObjectLike(o2)
    ensures Classified(KeyDiff(o1, o2, key, path, json), path)
    decreases o1, 0
  {
    var def := Side(o1, key);
    var actual := Side(o2, key);
    var p := path + [key];
    assert p[..|path|] == path;
    if !StrictEquals(def, actual) && def != Null && actual != Null && IsObjectLike(def) && IsObjectLike(actual) {
      GetFieldsOfBelow(o1, key);
      DiffClassified(def, actual, p, json);
      NarrowClassified(DiffValues(def, actual, p, json), path, key);
    }
  }

  /** What lies below `path + [key]` lies below `path`. */
  lemma NarrowClassified(d: Diff, path: seq<string>, key: string)
    requires Classified(d, path + [key])
    ensures Classified(d, path)
  {
    forall c: Change | |c.path| > |path| + 1 && c.path[..|path| + 1] == path + [key]
      ensures c.path[..|path|] == path
    {
      assert c.path[..|path|] == c.path[..|path| + 1][..|path|];
    }
  }

  lemma MergeClassified(d1: Diff, d2: Diff, path: seq<string>)
    requires Classified(d1, path) && Classified(d2, path)
    ensures Classified(MergeDiff(d1, d2), path)
  {
  }

  /** The changes one key contributes all appear in the final diff. */
  predicate Includes(whole: Diff, part: Diff)
  {
    && (forall c :: c in part.add ==> c in whole.add)
    && (forall c :: c in part.update ==> c in whole.update)
    && (forall c :: c in part.remove ==> c in whole.remove)
  }

  lemma UpToIncludes(o1: Value, o2: Value, ks: seq<string>, i: nat, j: nat,
                     path: seq<string>, json: Value -> string)
    requires IsObjectLike(o1) && IsObjectLike(o2) && j < i <= |ks|
    ensures Includes(DiffUpTo(o1, o2, ks, i, path, json), KeyDiff(o1, o2, ks[j], path, json))
  {
    var parts := KeyDiffs(o1, o2, ks, i, path, json);
    UpToIsMergeAll(o1, o2, ks, i, path, json);
    MergeAllIncludes(parts, j);
  }

  /** The contribution of each of the first `i` keys. */
  function KeyDiffs(o1: Value, o2: Value, ks: seq<string>, i: nat, path: seq<string>,
                    json: Value -> string): (parts: seq<Diff>)
    requires IsObjectLike(o1) && IsObjectLike(o2) && i <= |ks|
    ensures |parts| == i
    ensures forall j :: 0 <= j < i ==> parts[j] == KeyDiff(o1, o2, ks[j], path, json)
  {
    seq(i, j requires 0 <= j < i => KeyDiff(o1, o2, ks[j], path, json))
  }

  function MergeAll(parts: seq<Diff>): Diff
  {
    if parts == [] then EmptyDiff else MergeDiff(MergeAll(parts[..|parts| - 1]), parts[|parts| - 1])
  }

  lemma {:induction false} UpToIsMergeAll(o1: Value, o2: Value, ks: seq<string>, i: nat,
                                          path: seq<string>, json: Value -> string)
    requires IsObjectLike(o1) && IsObjectLike(o2) && i <= |ks|
    ensures DiffUpTo(o1, o2, ks, i, path, json) == MergeAll(KeyDiffs(o1, o2, ks, i, path, json))
  {
    if i > 0 {
      UpToIsMergeAll(o1, o2, ks, i - 1, path, json);
      var parts := KeyDiffs(o1, o2, ks, i, path, json);
      assert parts[..i - 1] == KeyDiffs(o1, o2, ks, i - 1, path, json);
    }
  }

  lemma {:induction false} MergeAllIncludes(parts: seq<Diff>, j: nat)
    requires j < |parts|
    ensures Includes(MergeAll(parts), parts[j])
  {
    var init := parts[..|parts| - 1];
    var last := parts[|parts| - 1];
    if j < |parts| - 1 {
      MergeAllIncludes(init, j);
      assert init[j] == parts[j];
      IncludesMergeLeft(MergeAll(init), last, parts[j]);
    } else {
      IncludesMergeRight(MergeAll(init), last);
    }
  }

  lemma IncludesMergeLeft(a: Diff, b: Diff, part: Diff)
    requires Includes(a, part)
    ensures Includes(MergeDiff(a, b), part)
  {
  }

  lemma IncludesMergeRight(a: Diff, b: Diff)
    ensures Includes(MergeDiff(a, b), b)
  {
  }

  /** Every key either object has is visited, so its changes are reported. */
  lemma KeyIncluded(o1: Value, o2: Value, key: string, path: seq<string>, json: Value -> string)
    requires IsObjectLike(o1) && IsObjectLike(o2)
    requires key in Keys(FieldsOf(o1)) || key in Keys(FieldsOf(o2))
    ensures Includes(DiffValues(o1, o2, path, json), KeyDiff(o1, o2, key, path, json))
  {
    var ks := DiffKeys(o1, o2);
    var j :| 0 <= j < |ks| && ks[j] == key;
    UpToIncludes(o1, o2, ks, |ks|, j, path, json);
  }

  /** A property only the definition has is reported as an addition. */
  lemma DefinitionOnly(o1: Value, o2: Value, key: string, path: seq<string>, json: Value -> string)
    requires IsObjectLike(o1) && IsObjectLike(o2)
    requires key in Keys(FieldsOf(o1))
    requires Side(o1, key) != Null && Side(o2, key) == Null
    ensures Change(path + [key], None, Some(json(Side(o1, key)))) in DiffValues(o1, o2, path, json).add
  {
    var c := Change(path + [key], None, Some(json(Side(o1, key))));
    KeyAdds(o1, o2, key, path, json);
    assert c in KeyDiff(o1, o2, key, path, json).add;
    KeyIncluded(o1, o2, key, path, json);
  }

  lemma KeyAdds(o1: Value, o2: Value, key: string, path: seq<string>, json: Value -> string)
    requires IsObjectLike(o1) && IsObjectLike(o2)
    requires Side(o1, key) != Null && Side(o2, key) == Null
    ensures KeyDiff(o1, o2, key, path, json).add == [Change(path + [key], None, Some(json(Side(o1, key))))]
  {
  }

  /** A property only the database has is reported as a removal. */
  lemma DatabaseOnly(o1: Value, o2: Value, key: string, path: seq<string>, json: Value -> string)
    requires IsObjectLike(o1) && IsObjectLike(o2)
    requires key in Keys(FieldsOf(o2))
    requires Side(o1, key) == Null && Side(o2, key) != Null
    ensures Change(path + [key], Some(json(Side(o2, key))), None) in DiffValues(o1, o2, path, json).remove
  {
    var c := Change(path + [key], Some(json(Side(o2, key))), None);
    KeyRemoves(o1, o2, key, path, json);
    assert c in KeyDiff(o1, o2, key, path, json).remove;
    KeyIncluded(o1, o2, key, path, json);
  }

  lemma KeyRemoves(o1: Value, o2: Value, key: string, path: seq<string>, json: Value -> string)
    requires IsObjectLike(o1) && IsObjectLike(o2)
    requires Side(o1, key) == Null && Side(o2, key) != Null
    ensures KeyDiff(o1, o2, key, path, json).remove == [Change(path + [key], Some(json(Side(o2, key))), None)]
  {
  }

  lemma KeyUpdates(o1: Value, o2: Value, key: string, path: seq<string>, json: Value -> string)
    requires IsObjectLike(o1) && IsObjectLike(o2)
    requires Side(o1, key) != Null && Side(o2, key) != Null
    requires !(IsObjectLike(Side(o1, key)) && IsObjectLike(Side(o2, key)))
    requires !StrictEquals(Side(o1, key), Side(o2, key))
    ensures KeyDiff(o1, o2, key, path, json).update ==
      [Change(path + [key], Some(json(Side(o2, key))), Some(json(Side(o1, key))))]
  {
  }

  /** Two different primitive values, or a primitive against an object, are
      reported as an update carrying both serialisations. */
  lemma ValuesDiffer(o1: Value, o2: Value, key: string, path: seq<string>, json: Value -> string)
    requires IsObjectLike(o1) && IsObjectLike(o2)
    requires key in Keys(FieldsOf(o1))
    requires Side(o1, key) != Null && Side(o2, key) != Null
    requires !(IsObjectLike(Side(o1, key)) && IsObjectLike(Side(o2, key)))
    requires !StrictEquals(Side(o1, key), Side(o2, key))
    ensures Change(path + [key], Some(json(Side(o2, key))), Some(json(Side(o1, key))))
      in DiffValues(o1, o2, path, json).update
  {
    var c := Change(path + [key], Some(json(Side(o2, key))), Some(json(Side(o1, key))));
    KeyUpdates(o1, o2, key, path, json);
    assert c in KeyDiff(o1, o2, key, path, json).update;
    KeyIncluded(o1, o2, key, path, json);
  }

  // ---------------------------------------------------------------------
  // Swapping the two sides
  // ---------------------------------------------------------------------

  /** The same change seen from the other side: the two serialisations exchanged. */
  function Swapped(c: Change): (r: Change)
    ensures r.path == c.path && r.actual == c.definition && r.definition == c.actual
  {
    Change(c.path, c.definition, c.actual)
  }

  /** The three lists of a diff. */
  datatype Kind = Additions | Updates | Removals

  function ListOf(d: Diff, kind: Kind): seq<Change>
  {
    match kind
    case Additions => d.add
    case Updates => d.update
    case Removals => d.remove
  }

  /** Every change after the first `i` keys comes from one of those keys. */
  lemma {:induction false} UpToSource(o1: Value, o2: Value, ks: seq<string>, i: nat, path: seq<string>,
                                      json: Value -> string, kind: Kind, c: Change) returns (j: nat)
    requires IsObjectLike(o1) && IsObjectLike(o2) && i <= |ks|
    requires c in ListOf(DiffUpTo(o1, o2, ks, i, path, json), kind)
    ensures j < i && c in ListOf(KeyDiff(o1, o2, ks[j], path, json), kind)
  {
    assert i > 0;
    var d1 := DiffUpTo(o1, o2, ks, i - 1, path, json);
    var d2 := KeyDiff(o1, o2, ks[i - 1], path, json);
    assert ListOf(DiffUpTo(o1, o2, ks, i, path, json), kind) == ListOf(d1, kind) + ListOf(d2, kind);
    if c in ListOf(d2, kind) {
      j := i - 1;
    } else {
      j := UpToSource(o1, o2, ks, i - 1, path, json, kind, c);
    }
  }

  /** For one key, a removal is the swapped comparison's addition and an
      update is the swapped comparison's update, with the sides exchanged. */
  lemma KeySwap(o1: Value, o2: Value, key: string, path: seq<string>, json: Value -> string)
    requires IsObjectLike(o1) && IsObjectLike(o2)
    ensures forall c :: c in KeyDiff(o1, o2, key, path, json).remove <==> Swapped(c) in KeyDiff(o2, o1, key, path, json).add
    ensures forall c :: c in KeyDiff(o1, o2, key, path, json).update <==> Swapped(c) in KeyDiff(o2, o1, key, path, json).update
    decreases o1, 0
  {
    var def := Side(o1, key);
    var actual := Side(o2, key);
    if !StrictEquals(def, actual) && def != Null && actual != Null && IsObjectLike(def) && IsObjectLike(actual) {
      GetFieldsOfBelow(o1, key);
      ValuesSwap(def, actual, path + [key], json);
    }
  }

  /** `diffObjects` with its arguments exchanged: removals become additions
      and updates stay updates, each with the two serialisations exchanged.
      The lists agree as collections only, because the walk visits the keys
      of its first argument first. */
  lemma ValuesSwap(o1: Value, o2: Value, path: seq<string>, json: Value -> string)
    requires IsObjectLike(o1) && IsObjectLike(o2)
    ensures forall c :: c in DiffValues(o1, o2, path, json).remove <==> Swapped(c) in DiffValues(o2, o1, path, json).add
    ensures forall c :: c in DiffValues(o1, o2, path, json).update <==> Swapped(c) in DiffValues(o2, o1, path, json).update
    decreases o1, 3
  {
    forall c ensures c in DiffValues(o1, o2, path, json).remove ==> Swapped(c) in DiffValues(o2, o1, path, json).add {
      if c in DiffValues(o1, o2, path, json).remove {
        SwapSource(o1, o2, path, json, Removals, c);
      }
    }
    forall c ensures Swapped(c) in DiffValues(o2, o1, path, json).add ==> c in DiffValues(o1, o2, path, json).remove {
      if Swapped(c) in DiffValues(o2, o1, path, json).add {
        SwapTarget(o1, o2, path, json, Additions, c);
      }
    }
    forall c ensures c in DiffValues(o1, o2, path, json).update ==> Swapped(c) in DiffValues(o2, o1, path, json).update {
      if c in DiffValues(o1, o2, path, json).update {
        SwapSource(o1, o2, path, json, Updates, c);
      }
    }
    forall c ensures Swapped(c) in DiffValues(o2, o1, path, json).update ==> c in DiffValues(o1, o2, path, json).update {
      if Swapped(c) in DiffValues(o2, o1, path, json).update {
        SwapTarget(o1, o2, path, json, Updates, c);
      }
    }
  }

  /** The list a change moves to when the two sides are exchanged. */
  function Mirror(kind: Kind): Kind
  {
    match kind
    case Additions => Removals
    case Updates => Updates
    case Removals => Additions
  }

  /** A removal or update of `diffObjects(o1, o2)`, swapped, is reported by
      `diffObjects(o2, o1)`. */
  lemma SwapSource(o1: Value, o2: Value, path: seq<string>, json: Value -> string, kind: Kind, c: Change)
    requires IsObjectLike(o1) && IsObjectLike(o2) && kind != Additions
    requires c in ListOf(DiffValues(o1, o2, path, json), kind)
    ensures Swapped(c) in ListOf(DiffValues(o2, o1, path, json), Mirror(kind))
    decreases o1, 2
  {
    var ks := DiffKeys(o1, o2);
    var j := UpToSource(o1, o2, ks, |ks|, path, json, kind, c);
    var key := ks[j];
    assert key in ks;
    KeySwapForth(o1, o2, key, path, json, kind, c);
    KeyIncluded(o2, o1, key, path, json);
    IncludesList(DiffValues(o2, o1, path, json), KeyDiff(o2, o1, key, path, json), Mirror(kind), Swapped(c));
  }

  /** A change whose swap is an addition or update of `diffObjects(o2, o1)`
      is reported by `diffObjects(o1, o2)`. */
  lemma SwapTarget(o1: Value, o2: Value, path: seq<string>, json: Value -> string, kind: Kind, c: Change)
    requires IsObjectLike(o1) && IsObjectLike(o2) && kind != Removals
    requires Swapped(c) in ListOf(DiffValues(o2, o1, path, json), kind)
    ensures c in ListOf(DiffValues(o1, o2, path, json), Mirror(kind))
    decreases o1, 2
  {
    var sk := DiffKeys(o2, o1);
    var j := UpToSource(o2, o1, sk, |sk|, path, json, kind, Swapped(c));
    var key := sk[j];
    assert key in sk;
    KeySwapBack(o1, o2, key, path, json, kind, c);
    KeyIncluded(o1, o2, key, path, json);
    IncludesList(DiffValues(o1, o2, path, json), KeyDiff(o1, o2, key, path, json), Mirror(kind), c);
  }

  /** `KeySwap`, forwards, for one change. */
  lemma KeySwapForth(o1: Value, o2: Value, key: string, path: seq<string>, json: Value -> string, kind: Kind, c: Change)
    requires IsObjectLike(o1) && IsObjectLike(o2) && kind != Additions
    requires c in ListOf(KeyDiff(o1, o2, key, path, json), kind)
    ensures Swapped(c) in ListOf(KeyDiff(o2, o1, key, path, json), Mirror(kind))
    decreases o1, 1
  {
    KeySwap(o1, o2, key, path, json);
  }

  /** `KeySwap`, backwards, for one change. */
  lemma KeySwapBack(o1: Value, o2: Value, key: string, path: seq<string>, json: Value -> string, kind: Kind, c: Change)
    requires IsObjectLike(o1) && IsObjectLike(o2) && kind != Removals
    requires Swapped(c) in ListOf(KeyDiff(o2, o1, key, path, json), kind)
    ensures c in ListOf(KeyDiff(o1, o2, key, path, json), Mirror(kind))
    decreases o1, 1
  {
    KeySwap(o1, o2, key, path, json);
  }

  lemma IncludesList(whole: Diff, part: Diff, kind: Kind, c: Change)
    requires Includes(whole, part) && c in ListOf(part, kind)
    ensures c in ListOf(whole, kind)
  {
  }

  /** Swapping the arguments turns additions into removals and back. */
  lemma DiffSwap(o1: Value, o2: Value, path: seq<string>, json: Value -> string)
    requires IsObjectLike(o1) && IsObjectLike(o2)
    ensures forall c :: c in DiffValues(o1, o2, path, json).remove <==> Swapped(c) in DiffValues(o2, o1, path, json).add
    ensures forall c :: c in DiffValues(o1, o2, path, json).add <==> Swapped(c) in DiffValues(o2, o1, path, json).remove
    ensures forall c :: c in DiffValues(o1, o2, path, json).update <==> Swapped(c) in DiffValues(o2, o1, path, json).update
  {
    ValuesSwap(o1, o2, path, json);
    ValuesSwap(o2, o1, path, json);
    forall c ensures c in DiffValues(o1, o2, path, json).add <==> Swapped(c) in DiffValues(o2, o1, path, json).remove
    {
      assert Swapped(Swapped(c)) == c;
    }
  }
}
