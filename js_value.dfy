/** JavaScript values as the data-access layer handles them. A plain object is
    an ordered list of fields, because `Object.keys` and every loop over an
    object follow the order in which its keys were first assigned. */
module JsValue {

  import opened Wrappers
  import opened JsString

  datatype Value =
    | Undefined
    | Null
    | Bool(b: bool)
    | Num(n: int)
    | Str(s: string)
    | Arr(items: seq<Value>)
    | Obj(fields: seq<Field>)

  datatype Field = Field(key: string, val: Value)

  /** JavaScript truthiness: `undefined`, `null`, `false`, `0` and `""` are falsy. */
  predicate Truthy(v: Value)
  {
    match v
    case Undefined => false
    case Null => false
    case Bool(b) => b
    case Num(n) => n != 0
    case Str(s) => s != ""
    case _ => true
  }

  /** `v ?? null` */
  function Coalesce(v: Value): (r: Value)
    ensures r != Undefined
    ensures v != Undefined ==> r == v
  {
    if v.Undefined? then Null else v
  }

  /** `typeof v === "object" && v !== null` */
  predicate IsObjectLike(v: Value)
  {
    v.Arr? || v.Obj?
  }

  /** `Object.keys(o)` of a plain object */
  function Keys(fs: seq<Field>): (ks: seq<string>)
    ensures |ks| == |fs|
    ensures forall i :: 0 <= i < |fs| ==> ks[i] == fs[i].key
  {
    if fs == [] then [] else [fs[0].key] + Keys(fs[1..])
  }

  /** Property read `o[k]`: the value of the first field named `k`, or undefined. */
  function Get(fs: seq<Field>, k: string): Value
  {
    GetFrom(fs, k, 0)
  }

  function GetFrom(fs: seq<Field>, k: string, i: nat): Value
    requires i <= |fs|
    decreases |fs| - i
  {
    if i == |fs| then Undefined
    else if fs[i].key == k then fs[i].val
    else GetFrom(fs, k, i + 1)
  }

  /** A property that is read from an object lies structurally inside it. */
  lemma {:induction false} GetBelow(fs: seq<Field>, k: string, i: nat)
    requires i <= |fs|
    ensures GetFrom(fs, k, i) == Undefined || GetFrom(fs, k, i) < Obj(fs)
    decreases |fs| - i
  {
    if i < |fs| && fs[i].key != k {
      GetBelow(fs, k, i + 1);
    }
  }

  /** A key that is not among the keys reads as undefined. */
  lemma {:induction false} GetAbsent(fs: seq<Field>, k: string, i: nat)
    requires i <= |fs|
    requires k !in Keys(fs)[i..]
    ensures GetFrom(fs, k, i) == Undefined
    decreases |fs| - i
  {
    if i < |fs| {
      assert Keys(fs)[i] == fs[i].key;
      assert Keys(fs)[i + 1..] == Keys(fs)[i..][1..];
      GetAbsent(fs, k, i + 1);
    }
  }

  /** Property write `o[k] = v`: an existing key keeps its place, a new key goes last. */
  function Put(fs: seq<Field>, k: string, v: Value): (r: seq<Field>)
    ensures k in Keys(fs) ==> Keys(r) == Keys(fs)
    ensures k !in Keys(fs) ==> Keys(r) == Keys(fs) + [k]
    ensures Get(r, k) == v
  {
    if fs == [] then [Field(k, v)]
    else if fs[0].key == k then [Field(k, v)] + fs[1..]
    else
      var rest := Put(fs[1..], k, v);
      assert Keys(fs) == [fs[0].key] + Keys(fs[1..]);
      assert Keys([fs[0]] + rest) == [fs[0].key] + Keys(rest);
      GetShift(fs[0], rest, k);
      [fs[0]] + rest
  }

  /** Reading past a first field with another key. */
  lemma GetShift(f: Field, rest: seq<Field>, k: string)
    requires f.key != k
    ensures Get([f] + rest, k) == Get(rest, k)
  {
    GetShiftFrom(f, rest, k, 0);
  }

  lemma {:induction false} GetShiftFrom(f: Field, rest: seq<Field>, k: string, i: nat)
    requires f.key != k && i <= |rest|
    ensures GetFrom([f] + rest, k, i + 1) == GetFrom(rest, k, i)
    decreases |rest| - i
  {
    if i < |rest| {
      assert ([f] + rest)[i + 1] == rest[i];
      GetShiftFrom(f, rest, k, i + 1);
    }
  }

  /** Writing one key leaves every other key's value alone. */
  lemma {:induction false} PutOther(fs: seq<Field>, k: string, v: Value, other: string)
    requires other != k
    ensures Get(Put(fs, k, v), other) == Get(fs, other)
  {
    if fs == [] {
      GetShift(Field(k, v), [], other);
      assert [Field(k, v)] + [] == [Field(k, v)];
    } else if fs[0].key == k {
      GetShift(Field(k, v), fs[1..], other);
      GetShift(fs[0], fs[1..], other);
      assert fs == [fs[0]] + fs[1..];
    } else {
      PutOther(fs[1..], k, v, other);
      assert fs == [fs[0]] + fs[1..];
      if fs[0].key == other {
        assert Get(Put(fs, k, v), other) == fs[0].val;
      } else {
        GetShift(fs[0], Put(fs[1..], k, v), other);
        GetShift(fs[0], fs[1..], other);
      }
    }
  }

  /** The elements of `s` in order of first occurrence, each once. This is the
      key order of `{ ...a, ...b }` and the result of the `seen`-set filter. */
  function Dedup<T(==,!new)>(s: seq<T>): (r: seq<T>)
    ensures forall x :: x in r <==> x in s
    ensures |r| <= |s|
  {
    if s == [] then []
    else
      var d := Dedup(s[..|s| - 1]);
      assert s == s[..|s| - 1] + [s[|s| - 1]];
      if s[|s| - 1] in d then d else d + [s[|s| - 1]]
  }

  predicate Distinct<T(==)>(s: seq<T>)
  {
    forall i, j :: 0 <= i < j < |s| ==> s[i] != s[j]
  }

  /** Deduplication leaves no repetitions. */
  lemma {:induction false} DedupIsDistinct<T(!new)>(s: seq<T>)
    ensures Distinct(Dedup(s))
  {
    if s != [] {
      DedupIsDistinct(s[..|s| - 1]);
    }
  }

  /** A sequence without repetitions is its own deduplication. */
  lemma {:induction false} DedupDistinct<T(!new)>(s: seq<T>)
    requires Distinct(s)
    ensures Dedup(s) == s
  {
    if s != [] {
      DedupDistinct(s[..|s| - 1]);
      assert s == s[..|s| - 1] + [s[|s| - 1]];
      assert s[|s| - 1] !in s[..|s| - 1];
    }
  }

  /** Later elements never reorder earlier ones: the deduplication of a
      prefix is a prefix of the deduplication. With membership and
      `DedupIsDistinct` this makes `Dedup` the first-occurrence order. */
  lemma {:induction false} DedupPrefix<T(!new)>(a: seq<T>, b: seq<T>)
    ensures Dedup(a) <= Dedup(a + b)
    decreases |b|
  {
    if b == [] {
      assert a + b == a;
    } else {
      var b' := b[..|b| - 1];
      DedupPrefix(a, b');
      assert (a + b)[..|a + b| - 1] == a + b';
      assert Dedup(a + b') <= Dedup(a + b);
    }
  }

  /** The keys of `{ ...a, ...b }`: those of `a`, then those only `b` has. */
  function UnionKeys(a: seq<Field>, b: seq<Field>): (ks: seq<string>)
    ensures forall k :: k in ks <==> k in Keys(a) || k in Keys(b)
  {
    Dedup(Keys(a) + Keys(b))
  }

  /** `diffObjects` visits the first object's keys first, in their own order. */
  lemma UnionKeysOrder(a: seq<Field>, b: seq<Field>)
    ensures Dedup(Keys(a)) <= UnionKeys(a, b)
    ensures Distinct(Keys(a)) ==> Keys(a) <= UnionKeys(a, b)
  {
    DedupPrefix(Keys(a), Keys(b));
    if Distinct(Keys(a)) {
      DedupDistinct(Keys(a));
    }
  }

  /** The own enumerable properties of an object-like value: the fields of a
      plain object, the indices (as text) of an array. */
  function FieldsOf(v: Value): (fs: seq<Field>)
    requires IsObjectLike(v)
    ensures v.Obj? ==> fs == v.fields
    ensures v.Arr? ==> |fs| == |v.items| && forall i :: 0 <= i < |fs| ==> fs[i] == Field(NatToString(i), v.items[i])
  {
    match v
    case Obj(fields) => fields
    case Arr(items) => seq(|items|, i requires 0 <= i < |items| => Field(NatToString(i), items[i]))
  }

  /** A property read from an object-like value lies structurally inside it. */
  lemma GetFieldsOfBelow(v: Value, k: string)
    requires IsObjectLike(v)
    ensures Get(FieldsOf(v), k) == Undefined || Get(FieldsOf(v), k) < v
  {
    var fs := FieldsOf(v);
    if v.Obj? {
      GetBelow(fs, k, 0);
    } else {
      GetInItems(fs, k, 0, v.items);
    }
  }

  lemma {:induction false} GetInItems(fs: seq<Field>, k: string, i: nat, items: seq<Value>)
    requires i <= |fs| == |items|
    requires forall j :: 0 <= j < |fs| ==> fs[j].val == items[j]
    ensures GetFrom(fs, k, i) == Undefined || GetFrom(fs, k, i) < Arr(items)
    decreases |fs| - i
  {
    if i < |fs| && fs[i].key != k {
      GetInItems(fs, k, i + 1, items);
    } else if i < |fs| {
      assert items[i] in items;
    }
  }

  /** Reading from an object with one more field at the end: its own keys
      come first. */
  lemma {:induction false} GetSnoc(fs: seq<Field>, f: Field, k: string)
    ensures Get(fs + [f], k) == if k in Keys(fs) then Get(fs, k) else if f.key == k then f.val else Undefined
  {
    if fs == [] {
      assert fs + [f] == [f];
      assert Keys(fs) == [];
      assert GetFrom([f], k, 1) == Undefined;
    } else {
      GetSnoc(fs[1..], f, k);
      assert fs + [f] == [fs[0]] + (fs[1..] + [f]);
      assert fs == [fs[0]] + fs[1..];
      assert Keys(fs) == [fs[0].key] + Keys(fs[1..]);
      if fs[0].key != k {
        GetShift(fs[0], fs[1..] + [f], k);
        GetShift(fs[0], fs[1..], k);
      }
    }
  }

  /** Writing a key keeps the keys distinct. */
  lemma DistinctPut(fs: seq<Field>, k: string, v: Value)
    requires Distinct(Keys(fs))
    ensures Distinct(Keys(Put(fs, k, v)))
  {
    if k !in Keys(fs) {
      var ks := Keys(fs) + [k];
      forall i, j | 0 <= i < j < |ks|
        ensures ks[i] != ks[j]
      {
        assert ks[i] == Keys(fs)[i];
      }
    }
  }

  /** `delete o[k]`: the object without its field `k`. */
  function Remove(fs: seq<Field>, k: string): (r: seq<Field>)
    ensures forall f :: f in r <==> f in fs && f.key != k
  {
    if fs == [] then []
    else (if fs[0].key == k then [] else [fs[0]]) + Remove(fs[1..], k)
  }

  /** After `delete o[k]`, `o[k]` reads as undefined and every other key
      reads as before. */
  lemma {:induction false} GetRemove(fs: seq<Field>, k: string, other: string)
    ensures Get(Remove(fs, k), other) == if other == k then Undefined else Get(fs, other)
  {
    if fs != [] {
      GetRemove(fs[1..], k, other);
      var rest := Remove(fs[1..], k);
      assert fs == [fs[0]] + fs[1..];
      if fs[0].key == k {
        assert Remove(fs, k) == rest;
        if other != k {
          GetShift(fs[0], fs[1..], other);
        }
      } else {
        assert Remove(fs, k) == [fs[0]] + rest;
        if fs[0].key != other {
          GetShift(fs[0], rest, other);
          GetShift(fs[0], fs[1..], other);
        }
      }
    }
  }

  /** `{ ...base, ...fs }`: the fields of `fs` written over `base` in order. */
  function Spread(base: seq<Field>, fs: seq<Field>): seq<Field>
  {
    if fs == [] then base
    else Put(Spread(base, fs[..|fs| - 1]), fs[|fs| - 1].key, fs[|fs| - 1].val)
  }

  /** With distinct keys in `fs`, a spread reads `fs` where it has the key
      and `base` elsewhere. */
  lemma {:induction false} GetSpread(base: seq<Field>, fs: seq<Field>, k: string)
    requires Distinct(Keys(fs))
    ensures Get(Spread(base, fs), k) == if k in Keys(fs) then Get(fs, k) else Get(base, k)
  {
    if fs != [] {
      var init := fs[..|fs| - 1];
      var last := fs[|fs| - 1];
      assert fs == init + [last];
      assert Keys(init) == Keys(fs)[..|fs| - 1];
      assert Keys(fs) == Keys(init) + [last.key];
      GetSpread(base, init, k);
      GetSnoc(init, last, k);
      if k != last.key {
        PutOther(Spread(base, init), last.key, last.val, k);
      } else {
        forall i | 0 <= i < |init|
          ensures Keys(init)[i] != last.key
        {
          assert Keys(fs)[i] != Keys(fs)[|fs| - 1];
        }
      }
    }
  }
}
