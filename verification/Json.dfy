/** Decoded JSON values, and the equality the schema keywords are about. */
module Json {

  /** Objects keep their own-property order; numbers are exact. */
  datatype Json =
    | Null
    | Bool(b: bool)
    | Num(n: real)
    | Str(s: string)
    | Arr(items: seq<Json>)
    | Obj(fields: seq<Field>)

  datatype Field = Field(key: string, val: Json)

  /** What a document means: an object is an unordered map. */
  datatype Value =
    | VNull
    | VBool(b: bool)
    | VNum(n: real)
    | VStr(s: string)
    | VArr(items: seq<Value>)
    | VObj(fields: map<string, Value>)

  predicate DistinctKeys(fs: seq<Field>) {
    forall i, j :: 0 <= i < j < |fs| ==> fs[i].key != fs[j].key
  }

  /** What a JSON parser delivers: no object repeats a key, at any depth. */
  predicate WellFormed(v: Json) {
    match v
    case Arr(xs) => forall i :: 0 <= i < |xs| ==> WellFormed(xs[i])
    case Obj(fs) => DistinctKeys(fs) && forall i :: 0 <= i < |fs| ==> WellFormed(fs[i].val)
    case _ => true
  }

  function Denote(v: Json): Value {
    match v
    case Null => VNull
    case Bool(b) => VBool(b)
    case Num(n) => VNum(n)
    case Str(s) => VStr(s)
    case Arr(xs) => VArr(DenoteItems(xs))
    case Obj(fs) => VObj(DenoteFields(fs))
  }

  function DenoteItems(xs: seq<Json>): (r: seq<Value>)
    ensures |r| == |xs|
    ensures forall i :: 0 <= i < |xs| ==> r[i] == Denote(xs[i])
  {
    if xs == [] then [] else [Denote(xs[0])] + DenoteItems(xs[1..])
  }

  function DenoteFields(fs: seq<Field>): map<string, Value> {
    if fs == [] then map[] else DenoteFields(fs[1..])[fs[0].key := Denote(fs[0].val)]
  }

  /** The instance equality of section 4.2.2 of JSON Schema Core 2020-12. */
  predicate Same(a: Json, b: Json) {
    Denote(a) == Denote(b)
  }

  function Keys(fs: seq<Field>): set<string> {
    set i | 0 <= i < |fs| :: fs[i].key
  }

  predicate HasKey(fs: seq<Field>, k: string) {
    exists i :: 0 <= i < |fs| && fs[i].key == k
  }

  /** Position of a property the object is known to have. */
  function Find(fs: seq<Field>, k: string): (i: nat)
    requires HasKey(fs, k)
    ensures i < |fs| && fs[i].key == k
  {
    if fs[0].key == k then 0 else
      assert HasKey(fs[1..], k) by {
        var j :| 0 <= j < |fs| && fs[j].key == k;
        assert fs[1..][j - 1] == fs[j];
      }
      1 + Find(fs[1..], k)
  }

  /** `o[key]` for a key that is present. */
  function Get(fs: seq<Field>, k: string): Json
    requires HasKey(fs, k)
  {
    fs[Find(fs, k)].val
  }

  lemma DistinctTail(fs: seq<Field>)
    requires DistinctKeys(fs) && fs != []
    ensures DistinctKeys(fs[1..]) && fs[0].key !in Keys(fs[1..]) && Keys(fs) == Keys(fs[1..]) + {fs[0].key}
  {
    assert fs == [fs[0]] + fs[1..];
  }

  lemma {:induction false} DenoteKeys(fs: seq<Field>)
    requires DistinctKeys(fs)
    ensures DenoteFields(fs).Keys == Keys(fs) && |DenoteFields(fs)| == |fs|
  {
    if fs != [] {
      DistinctTail(fs);
      DenoteKeys(fs[1..]);
      FreshKey(DenoteFields(fs[1..]), fs[0].key, Denote(fs[0].val));
    }
  }

  lemma FreshKey(m: map<string, Value>, k: string, v: Value)
    requires k !in m
    ensures m[k := v].Keys == m.Keys + {k} && |m[k := v]| == |m| + 1
  {
  }

  lemma {:induction false} DenoteValue(fs: seq<Field>, i: nat)
    requires DistinctKeys(fs) && i < |fs|
    ensures fs[i].key in DenoteFields(fs) && DenoteFields(fs)[fs[i].key] == Denote(fs[i].val)
  {
    if i > 0 {
      DistinctTail(fs);
      DenoteValue(fs[1..], i - 1);
    }
  }

  /** The field list and the map it denotes have the same keys, size and values. */
  lemma DenoteFieldsMeaning(fs: seq<Field>)
    requires DistinctKeys(fs)
    ensures DenoteFields(fs).Keys == Keys(fs)
    ensures |DenoteFields(fs)| == |fs|
    ensures forall i :: 0 <= i < |fs| ==>
      fs[i].key in DenoteFields(fs) && DenoteFields(fs)[fs[i].key] == Denote(fs[i].val)
  {
    DenoteKeys(fs);
    forall i | 0 <= i < |fs|
      ensures fs[i].key in DenoteFields(fs) && DenoteFields(fs)[fs[i].key] == Denote(fs[i].val)
    {
      DenoteValue(fs, i);
    }
  }

  /** The emitted helper `eq`: deep equality by recursion, loops and key lookup. */
  method Eq(a: Json, b: Json) returns (same: bool)
    requires WellFormed(a) && WellFormed(b)
    ensures same == Same(a, b)
    decreases a
  {
    if a.Arr? && b.Arr? {
      same := EqItems(a, b);
    } else if a.Obj? && b.Obj? {
      same := EqFields(a, b);
    } else {
      // `a === b` on two scalars, and false for values of different kinds
      same := a == b;
    }
  }

  method EqItems(a: Json, b: Json) returns (same: bool)
    requires a.Arr? && b.Arr? && WellFormed(a) && WellFormed(b)
    ensures same == Same(a, b)
    decreases a, 0
  {
    var x, y := a.items, b.items;
    if |x| != |y| {
      assert |DenoteItems(x)| != |DenoteItems(y)|;
      return false;
    }
    var i := 0;
    while i < |x|
      invariant 0 <= i <= |x|
      invariant forall k :: 0 <= k < i ==> Same(x[k], y[k])
    {
      var e := Eq(x[i], y[i]);
      if !e {
        assert DenoteItems(x)[i] != DenoteItems(y)[i];
        return false;
      }
      i := i + 1;
    }
    assert DenoteItems(x) == DenoteItems(y);
    return true;
  }

  method EqFields(a: Json, b: Json) returns (same: bool)
    requires a.Obj? && b.Obj? && WellFormed(a) && WellFormed(b)
    ensures same == Same(a, b)
    decreases a, 0
  {
    var x, y := a.fields, b.fields;
    if |x| != |y| {
      DenoteKeys(x);
      DenoteKeys(y);
      return false;
    }
    var i := 0;
    while i < |x|
      invariant 0 <= i <= |x|
      invariant forall k :: 0 <= k < i ==> Agrees(x[k], y)
    {
      if !HasKey(y, x[i].key) {
        AgreeingFields(x, y);
        return false;
      }
      var e := Eq(x[i].val, Get(y, x[i].key));
      if !e {
        AgreeingFields(x, y);
        return false;
      }
      i := i + 1;
    }
    AgreeingFields(x, y);
    return true;
  }

  predicate Agrees(f: Field, fs: seq<Field>) {
    HasKey(fs, f.key) && Same(f.val, Get(fs, f.key))
  }

  lemma DenoteKey(fs: seq<Field>, k: string)
    requires DistinctKeys(fs)
    ensures k in DenoteFields(fs) <==> HasKey(fs, k)
    ensures HasKey(fs, k) ==> DenoteFields(fs)[k] == Denote(Get(fs, k))
  {
    DenoteFieldsMeaning(fs);
  }

  lemma AgreeingFields(x: seq<Field>, y: seq<Field>)
    requires DistinctKeys(x) && DistinctKeys(y) && |x| == |y|
    ensures DenoteFields(x) == DenoteFields(y) <==> forall k :: 0 <= k < |x| ==> Agrees(x[k], y)
  {
    DenoteFieldsMeaning(x);
    forall k | 0 <= k < |x|
      ensures Agrees(x[k], y) <==>
        x[k].key in DenoteFields(y) && DenoteFields(y)[x[k].key] == DenoteFields(x)[x[k].key]
    {
      DenoteKey(y, x[k].key);
    }
    if forall k :: 0 <= k < |x| ==> Agrees(x[k], y) {
      AgreeingMaps(x, y);
    }
  }

  lemma AgreeingAt(x: seq<Field>, y: seq<Field>, key: string)
    requires DistinctKeys(x) && DistinctKeys(y) && key in DenoteFields(x)
    requires forall k :: 0 <= k < |x| ==> Agrees(x[k], y)
    ensures key in DenoteFields(y) && DenoteFields(y)[key] == DenoteFields(x)[key]
  {
    DenoteKey(x, key);
    DenoteKey(y, key);
    assert Agrees(x[Find(x, key)], y);
  }

  lemma AgreeingMaps(x: seq<Field>, y: seq<Field>)
    requires DistinctKeys(x) && DistinctKeys(y) && |x| == |y|
    requires forall k :: 0 <= k < |x| ==> Agrees(x[k], y)
    ensures DenoteFields(x) == DenoteFields(y)
  {
    var mx, my := DenoteFields(x), DenoteFields(y);
    forall key | key in mx
      ensures key in my && my[key] == mx[key]
    {
      AgreeingAt(x, y, key);
    }
    DenoteKeys(x);
    DenoteKeys(y);
    SameSizeSubset(mx.Keys, my.Keys);
  }

  lemma SameSizeSubset(s: set<string>, t: set<string>)
    requires s <= t && |s| == |t|
    ensures s == t
  {
    assert t == s + (t - s);
  }

  predicate AllDistinct(xs: seq<Json>) {
    forall i, j :: 0 <= i < j < |xs| ==> !Same(xs[i], xs[j])
  }

  /** The emitted helper `allUnique`. */
  method AllUnique(xs: seq<Json>) returns (unique: bool)
    requires forall i :: 0 <= i < |xs| ==> WellFormed(xs[i])
    ensures unique == AllDistinct(xs)
  {
    var i := 0;
    while i < |xs|
      invariant 0 <= i <= |xs|
      invariant forall p, q :: 0 <= p < i && p < q < |xs| ==> !Same(xs[p], xs[q])
    {
      var j := i + 1;
      while j < |xs|
        invariant i < j <= |xs|
        invariant forall q :: i < q < j ==> !Same(xs[i], xs[q])
      {
        var e := Eq(xs[i], xs[j]);
        if e {
          return false;
        }
        j := j + 1;
      }
      i := i + 1;
    }
    return true;
  }

  /** Nesting size, the measure every descent into a value decreases. */
  function Size(v: Json): (n: nat)
    ensures n > 0
  {
    match v
    case Arr(xs) => 1 + ItemsSize(xs)
    case Obj(fs) => 1 + FieldsSize(fs)
    case _ => 1
  }

  function ItemsSize(xs: seq<Json>): (n: nat)
    ensures forall i :: 0 <= i < |xs| ==> Size(xs[i]) <= n
  {
    if xs == [] then 0 else
      assert forall i :: 1 <= i < |xs| ==> xs[i] == xs[1..][i - 1];
      Size(xs[0]) + ItemsSize(xs[1..])
  }

  function FieldsSize(fs: seq<Field>): (n: nat)
    ensures forall i :: 0 <= i < |fs| ==> Size(fs[i].val) <= n
  {
    if fs == [] then 0 else
      assert forall i :: 1 <= i < |fs| ==> fs[i] == fs[1..][i - 1];
      Size(fs[0].val) + FieldsSize(fs[1..])
  }
}
