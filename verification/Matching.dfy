/** How the bus compares what it searches for with what is on disk (`deepEqual` in
    `src/messaging/bus.ts`). */
module Matching {
  import opened Prelude
  import opened Extras

  // ---- the comparison ----

  /** The element that an array shows under a key: its indices, written in decimal, are its keys. */
  function ElementAt(elements: seq<Value>, key: string): Value {
    if elements == [] then Undefined
    else if key == Decimal(|elements| - 1) then elements[|elements| - 1]
    else ElementAt(elements[..|elements| - 1], key)
  }

  /** `a` is compared key by key, and a key that `b` does not have counts as undefined there. */
  predicate DeepEqual(a: Value, b: Value) {
    match a
    case Arr(xs) =>
      if b.Arr? then |xs| == |b.elements| && forall i :: 0 <= i < |xs| ==> DeepEqual(xs[i], b.elements[i])
      else b.Obj? && |xs| == |b.fields| && forall i :: 0 <= i < |xs| ==> DeepEqual(xs[i], Get(b.fields, Decimal(i)))
    case Obj(f) =>
      if b.Arr? then |f| == |b.elements| && forall k :: k in f ==> DeepEqual(f[k], ElementAt(b.elements, k))
      else b.Obj? && |f| == |b.fields| && forall k :: k in f ==> DeepEqual(f[k], Get(b.fields, k))
    case _ => a == b
  }

  // ---- what it means ----

  function Indices(n: nat): set<string> {
    set i | 0 <= i < n :: Decimal(i)
  }

  lemma DecimalsDiffer(a: nat, b: nat)
    ensures Decimal(a) == Decimal(b) ==> a == b
  {
    DecimalValue(a);
    DecimalValue(b);
  }

  lemma {:induction false} IndicesCount(n: nat)
    ensures |Indices(n)| == n
  {
    if n > 0 {
      IndicesCount(n - 1);
      assert Indices(n) == Indices(n - 1) + {Decimal(n - 1)};
      if Decimal(n - 1) in Indices(n - 1) {
        var i :| 0 <= i < n - 1 && Decimal(i) == Decimal(n - 1);
        DecimalsDiffer(i, n - 1);
      }
    }
  }

  lemma {:induction false} ElementAtIndex(elements: seq<Value>, i: nat)
    requires i < |elements|
    ensures ElementAt(elements, Decimal(i)) == elements[i]
  {
    var n := |elements| - 1;
    if i < n {
      DecimalsDiffer(i, n);
      ElementAtIndex(elements[..n], i);
    }
  }

  lemma {:induction false} ElementElsewhere(elements: seq<Value>, key: string)
    requires key !in Indices(|elements|)
    ensures ElementAt(elements, key).Undefined?
  {
    if elements != [] {
      var n := |elements| - 1;
      assert Decimal(n) in Indices(n + 1);
      ElementElsewhere(elements[..n], key);
    }
  }

  predicate HasKeys(v: Value) {
    v.Arr? || v.Obj?
  }

  function Keys(v: Value): set<string> {
    match v
    case Arr(xs) => Indices(|xs|)
    case Obj(f) => f.Keys
    case _ => {}
  }

  function Prop(v: Value, key: string): Value {
    match v
    case Arr(xs) => ElementAt(xs, key)
    case Obj(f) => Get(f, key)
    case _ => Undefined
  }

  /** No member is undefined, as in everything that was read from disk. */
  predicate Defined(v: Value) {
    match v
    case Undefined => false
    case Arr(xs) => forall i :: 0 <= i < |xs| ==> Defined(xs[i])
    case Obj(f) => forall k :: k in f ==> Defined(f[k])
    case _ => true
  }

  lemma DefinedProps(v: Value, key: string)
    requires Defined(v)
    ensures key in Keys(v) ==> Defined(Prop(v, key))
    ensures key !in Keys(v) ==> Prop(v, key).Undefined?
  {
    if v.Arr? {
      if key in Indices(|v.elements|) {
        var i :| 0 <= i < |v.elements| && Decimal(i) == key;
        ElementAtIndex(v.elements, i);
      } else {
        ElementElsewhere(v.elements, key);
      }
    }
  }

  lemma UndefinedEqualsNothing(a: Value)
    requires Defined(a)
    ensures !DeepEqual(a, Undefined)
  {}

  lemma KeyCount(v: Value)
    requires HasKeys(v)
    ensures |Keys(v)| == if v.Arr? then |v.elements| else |v.fields|
  {
    if v.Arr? { IndicesCount(|v.elements|); }
  }

  lemma SameKeys(a: set<string>, b: set<string>)
    requires a <= b && |a| == |b|
    ensures a == b
  {
    if k :| k in b && k !in a { SubsetSize(a, b - {k}); }
  }

  /** The comparison goes through all keys of `a`. */
  predicate PropsEqual(a: Value, b: Value) {
    forall k :: k in Keys(a) ==> DeepEqual(Prop(a, k), Prop(b, k))
  }

  lemma ByKeys(a: Value, b: Value)
    requires HasKeys(a) && HasKeys(b)
    ensures DeepEqual(a, b) <==> |Keys(a)| == |Keys(b)| && PropsEqual(a, b)
  {
    KeyCount(a);
    KeyCount(b);
    if a.Arr? {
      forall i | 0 <= i < |a.elements|
        ensures Decimal(i) in Keys(a) && Prop(a, Decimal(i)) == a.elements[i]
        ensures b.Arr? && i < |b.elements| ==> Prop(b, Decimal(i)) == b.elements[i]
      {
        ElementAtIndex(a.elements, i);
        if b.Arr? && i < |b.elements| { ElementAtIndex(b.elements, i); }
      }
    }
  }

  /** Two values that were read from disk are equal to the search exactly if they are the same scalar, or
      have the same keys with equal values under them: a list and an object with its indices as keys
      are not told apart. */
  lemma DeepEqualIff(a: Value, b: Value)
    requires Defined(a) && Defined(b)
    ensures DeepEqual(a, b) <==>
      if HasKeys(a) then HasKeys(b) && Keys(a) == Keys(b) && PropsEqual(a, b) else a == b
  {
    if HasKeys(a) && HasKeys(b) {
      ByKeys(a, b);
      if PropsEqual(a, b) && |Keys(a)| == |Keys(b)| {
        forall k | k in Keys(a) ensures k in Keys(b) {
          DefinedProps(a, k);
          DefinedProps(b, k);
          if k !in Keys(b) { UndefinedEqualsNothing(Prop(a, k)); }
        }
        SameKeys(Keys(a), Keys(b));
      }
    }
  }

  /** No list, at any depth. */
  predicate HasNoList(v: Value) {
    match v
    case Arr(_) => false
    case Obj(f) => forall k :: k in f ==> HasNoList(f[k])
    case _ => true
  }

  lemma SameFields(a: Value, b: Value)
    requires a.Obj? && b.Obj? && Keys(a) == Keys(b)
    requires forall k :: k in a.fields ==> (DeepEqual(a.fields[k], b.fields[k]) <==> a.fields[k] == b.fields[k])
    ensures PropsEqual(a, b) <==> a == b
  {
    if PropsEqual(a, b) {
      forall k | k in a.fields ensures a.fields[k] == b.fields[k] { assert DeepEqual(Prop(a, k), Prop(b, k)); }
      assert a.fields == b.fields;
    } else {
      var k :| k in Keys(a) && !DeepEqual(Prop(a, k), Prop(b, k));
      assert a.fields[k] != b.fields[k];
    }
  }

  /** Without lists it is equality. */
  lemma {:induction false} NoListsIsEquality(a: Value, b: Value)
    requires Defined(a) && Defined(b) && HasNoList(a) && HasNoList(b)
    ensures DeepEqual(a, b) <==> a == b
    decreases a
  {
    DeepEqualIff(a, b);
    if a.Obj? && b.Obj? && Keys(a) == Keys(b) {
      forall k | k in a.fields ensures DeepEqual(a.fields[k], b.fields[k]) <==> a.fields[k] == b.fields[k] {
        NoListsIsEquality(a.fields[k], b.fields[k]);
      }
      SameFields(a, b);
    }
  }

  /** The empty list is the empty object, and an undefined member is any other key. */
  lemma NotEquality()
    ensures DeepEqual(Arr([]), Obj(map[])) && DeepEqual(Arr([Null]), Obj(map["0" := Null]))
    ensures DeepEqual(Obj(map["a" := Undefined]), Obj(map["b" := Null]))
  {
    assert Decimal(0) == "0";
  }

  // ---- a search ----

  /** The extras on disk hold every wanted value. */
  predicate Holds(extras: Record, wanted: map<string, Value>) {
    forall k :: k in wanted ==> DeepEqual(Get(extras, k), wanted[k])
  }

  lemma HoldsString(extras: Record, key: string, s: string)
    ensures Holds(extras, map[key := Str(s)]) <==> Get(extras, key) == Str(s)
  {
    assert DeepEqual(Get(extras, key), map[key := Str(s)][key]) <==> Get(extras, key) == Str(s);
  }

  /** Wanting one more value narrows the search by that value. */
  lemma HoldsOneMore(extras: Record, wanted: map<string, Value>, key: string, v: Value)
    requires key !in wanted
    ensures Holds(extras, map[])
    ensures Holds(extras, wanted[key := v]) <==> Holds(extras, wanted) && DeepEqual(Get(extras, key), v)
  {
    var more := wanted[key := v];
    if Holds(extras, more) {
      forall k | k in wanted ensures DeepEqual(Get(extras, k), wanted[k]) { assert more[k] == wanted[k]; }
      assert DeepEqual(Get(extras, key), more[key]);
    }
  }
}
