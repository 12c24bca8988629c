/** Conversions between Rust values and Java objects
    (crates/jni-bindgen/src/conversion/object_convert.rs): the scalar and
    string impls delegate to the optional converters, `Vec` and `HashMap`
    go through `java.util.ArrayList` and `java.util.HashMap` element by
    element, and `JObject` / `JString` pass through unchanged. */
module ObjectConvert {
  import opened Wrappers
  import opened JniValues
  import OptionConvert

  /** The Rust types with a `FromJNI` / `IntoJNI` impl. */
  datatype RType =
    | TScalar(k: Kind)
    | TString
    | TOption(inner: RType)
    | TVec(elem: RType)
    | TMap(key: RType, val: RType)
    | TObject
    | TJString

  /** Values of those types: a Rust `HashMap` is its entries in iteration order. */
  datatype RValue =
    | Scalar(k: Kind, v: int)
    | RStr(s: string)
    | Opt(o: Option<RValue>)
    | RVec(items: seq<RValue>)
    | RMap(entries: seq<(RValue, RValue)>)
    | RObj(obj: JValue)

  /** A type with an impl: `Option` wraps a scalar, a `String`, a `Vec` or a
      `HashMap`, and a map's key type is `Eq + Hash` (no float, map or object). */
  predicate Supported(t: RType) {
    match t
    case TOption(i) => (i.TScalar? || i.TString? || i.TVec? || i.TMap?) && Supported(i)
    case TVec(e) => Supported(e)
    case TMap(k, v) => Hashable(k) && Supported(k) && Supported(v)
    case _ => true
  }

  predicate Hashable(t: RType) {
    match t
    case TScalar(k) => k != FloatK && k != DoubleK
    case TString => true
    case TOption(i) => Hashable(i)
    case TVec(e) => Hashable(e)
    case _ => false
  }

  /** `v` is a value of type `t`; a map's keys are distinct. */
  predicate HasType(v: RValue, t: RType) {
    match t
    case TScalar(k) => v.Scalar? && v.k == k && InRange(k, v.v)
    case TString => v.RStr?
    case TOption(i) => v.Opt? && (v.o.Some? ==> HasType(v.o.value, i))
    case TVec(e) => v.RVec? && forall j :: 0 <= j < |v.items| ==> HasType(v.items[j], e)
    case TMap(kt, vt) =>
      && v.RMap? && DistinctKeys(v.entries)
      && forall j :: 0 <= j < |v.entries| ==> HasType(v.entries[j].0, kt) && HasType(v.entries[j].1, vt)
    case TObject => v.RObj?
    case TJString => v.RObj?
  }

  function TSize(t: RType): nat {
    match t
    case TOption(i) => 1 + TSize(i)
    case TVec(e) => 1 + TSize(e)
    case TMap(k, v) => 1 + TSize(k) + TSize(v)
    case _ => 1
  }

  /** The error of a non-optional scalar or string read from null. */
  const NullError := "The value is null"

  const ArrayListClass := "java/util/ArrayList"
  const HashMapClass := "java/util/HashMap"
  const NoArgs := "()V"
  const AddSig := "(Ljava/lang/Object;)Z"
  const PutSig := "(Ljava/lang/Object;Ljava/lang/Object;)Ljava/lang/Object;"

  // ---------------------------------------------------------------------
  // Java to Rust (`FromJNI`)

  /** `T::from_jni(env, obj)`. */
  function FromJni(t: RType, obj: JValue): (r: Result<RValue, string>)
    requires Supported(t)
    decreases TSize(t), 1, 0
  {
    match t
    case TScalar(k) =>
      var o :- OptionConvert.FromJni(k, obj);
      if o.None? then Err(NullError) else Ok(Scalar(k, o.value))
    case TString =>
      var o :- OptionConvert.StringFromJni(obj);
      if o.None? then Err(NullError) else Ok(RStr(o.value))
    case TOption(i) =>
      if i.TScalar? then
        var o :- OptionConvert.FromJni(i.k, obj);
        Ok(Opt(if o.None? then None else Some(Scalar(i.k, o.value))))
      else if i.TString? then
        var o :- OptionConvert.StringFromJni(obj);
        Ok(Opt(if o.None? then None else Some(RStr(o.value))))
      else if obj.Null? then Ok(Opt(None))
      else
        var x :- FromJni(i, obj);
        Ok(Opt(Some(x)))
    case TVec(e) =>
      var items :- GetList(obj);
      var ys :- Collect(ElemFrom(e), items, 0, []);
      Ok(RVec(ys))
    case TMap(kt, vt) =>
      var entries :- GetMap(obj);
      var m :- InsertFrom(ElemFrom(kt), ElemFrom(vt), entries, 0, []);
      Ok(RMap(m))
    case TObject => Ok(RObj(obj))
    case TJString => Ok(RObj(obj))
  }

  /** `T::from_jni` as a function of the object, for the elements of a
      list or the keys and values of a map. */
  function ElemFrom(e: RType): JValue -> Result<RValue, string>
    requires Supported(e)
    decreases TSize(e), 2
  {
    x => FromJni(e, x)
  }

  /** The `into_vec` loop from element `i` on, with `acc` converted so far;
      the first element that fails ends it. */
  function Collect<A, B>(f: A -> Result<B, string>, xs: seq<A>, i: nat, acc: seq<B>): Result<seq<B>, string>
    requires i <= |xs|
    decreases |xs| - i
  {
    if i == |xs| then Ok(acc)
    else
      var y :- f(xs[i]);
      Collect(f, xs, i + 1, acc + [y])
  }

  /** The `into_hashmap` loop from entry `i` on: the key is converted before
      the value, and the pair is inserted into `acc`. */
  function InsertFrom<A, K(==), V>(fk: A -> Result<K, string>, fv: A -> Result<V, string>,
                                   entries: seq<(A, A)>, i: nat, acc: seq<(K, V)>): Result<seq<(K, V)>, string>
    requires i <= |entries|
    decreases |entries| - i
  {
    if i == |entries| then Ok(acc)
    else
      var k :- fk(entries[i].0);
      var v :- fv(entries[i].1);
      InsertFrom(fk, fv, entries, i + 1, Put(acc, k, v))
  }

  /** `into_vec`. */
  method IntoVec(e: RType, obj: JValue) returns (r: Result<RValue, string>)
    requires Supported(e)
    ensures r == FromJni(TVec(e), obj)
  {
    var jVec := GetList(obj);
    if jVec.Err? {
      return Err(jVec.error);
    }
    var items := jVec.value;
    var vec: seq<RValue> := [];
    var i := 0;
    while i < |items|
      invariant i <= |items|
      invariant Collect(ElemFrom(e), items, i, vec) == Collect(ElemFrom(e), items, 0, [])
    {
      var x := FromJni(e, items[i]);
      if x.Err? {
        return Err(x.error);
      }
      vec := vec + [x.value];
      i := i + 1;
    }
    return Ok(RVec(vec));
  }

  /** `into_hashmap`. */
  method IntoHashMap(kt: RType, vt: RType, obj: JValue) returns (r: Result<RValue, string>)
    requires Supported(TMap(kt, vt))
    ensures r == FromJni(TMap(kt, vt), obj)
  {
    var jMap := GetMap(obj);
    if jMap.Err? {
      return Err(jMap.error);
    }
    var entries := jMap.value;
    var acc: seq<(RValue, RValue)> := [];
    var i := 0;
    while i < |entries|
      invariant i <= |entries|
      invariant InsertFrom(ElemFrom(kt), ElemFrom(vt), entries, i, acc) == InsertFrom(ElemFrom(kt), ElemFrom(vt), entries, 0, [])
    {
      var k := FromJni(kt, entries[i].0);
      if k.Err? {
        return Err(k.error);
      }
      var v := FromJni(vt, entries[i].1);
      if v.Err? {
        return Err(v.error);
      }
      acc := Put(acc, k.value, v.value);
      i := i + 1;
    }
    return Ok(RMap(acc));
  }

  // ---------------------------------------------------------------------
  // Rust to Java (`IntoJNI`)

  /** `v.into_jni(env)`. */
  function IntoJni(v: RValue): (r: Result<JValue, string>)
    decreases v, 1, 0
  {
    match v
    case Scalar(k, x) => OptionConvert.IntoJni(k, Some(x))
    case RStr(s) => OptionConvert.StringIntoJni(Some(s))
    case Opt(o) => if o.None? then Ok(Null) else IntoJni(o.value)
    case RVec(_) =>
      var list :- NewObject(ArrayListClass, NoArgs);
      AddFrom(v, list, 0)
    case RMap(_) =>
      var m :- NewObject(HashMapClass, NoArgs);
      PutFrom(v, m, 0)
    case RObj(o) => Ok(o)
  }

  /** The `from_vec` loop from element `i` on: convert, then `add`. */
  function AddFrom(v: RValue, list: JValue, i: nat): (r: Result<JValue, string>)
    requires v.RVec? && i <= |v.items|
    decreases v, 0, |v.items| - i
  {
    if i == |v.items| then Ok(list)
    else
      var value :- IntoJni(v.items[i]);
      var list' :- CallAdd(list, "add", AddSig, value);
      AddFrom(v, list', i + 1)
  }

  /** The `from_hashmap` loop from entry `i` on: convert the key, then the
      value, then `put`. */
  function PutFrom(v: RValue, m: JValue, i: nat): (r: Result<JValue, string>)
    requires v.RMap? && i <= |v.entries|
    decreases v, 0, |v.entries| - i
  {
    if i == |v.entries| then Ok(m)
    else
      var key :- IntoJni(v.entries[i].0);
      var value :- IntoJni(v.entries[i].1);
      var m' :- CallPut(m, "put", PutSig, key, value);
      PutFrom(v, m', i + 1)
  }

  /** `from_vec`. */
  method FromVec(xs: seq<RValue>) returns (r: Result<JValue, string>)
    ensures r == IntoJni(RVec(xs))
  {
    var list := NewObject(ArrayListClass, NoArgs).value;
    for i := 0 to |xs|
      invariant AddFrom(RVec(xs), list, i) == IntoJni(RVec(xs))
    {
      var value := IntoJni(xs[i]);
      if value.Err? {
        return Err(value.error);
      }
      var added := CallAdd(list, "add", AddSig, value.value);
      if added.Err? {
        return Err(added.error);
      }
      list := added.value;
    }
    return Ok(list);
  }

  /** `from_hashmap`. */
  method FromHashMap(entries: seq<(RValue, RValue)>) returns (r: Result<JValue, string>)
    ensures r == IntoJni(RMap(entries))
  {
    var m := NewObject(HashMapClass, NoArgs).value;
    for i := 0 to |entries|
      invariant PutFrom(RMap(entries), m, i) == IntoJni(RMap(entries))
    {
      var key := IntoJni(entries[i].0);
      if key.Err? {
        return Err(key.error);
      }
      var value := IntoJni(entries[i].1);
      if value.Err? {
        return Err(value.error);
      }
      var put := CallPut(m, "put", PutSig, key.value, value.value);
      if put.Err? {
        return Err(put.error);
      }
      m := put.value;
    }
    return Ok(m);
  }

  // ---------------------------------------------------------------------
  // Properties

  /** A null reference is an error for a scalar or a string ("The value is
      null"), `None` for an `Option`, and an error for a list or a map; `None`
      becomes null. */
  lemma NullHandling(t: RType)
    requires Supported(t)
    ensures (t.TScalar? || t.TString?) ==> FromJni(t, Null) == Err(NullError)
    ensures t.TOption? ==> FromJni(t, Null) == Ok(Opt(None))
    ensures (t.TVec? || t.TMap?) ==> FromJni(t, Null).Err?
    ensures IntoJni(Opt(None)) == Ok(Null)
  {
  }

  /** The Java values of `xs[i..]`, when each converts. */
  function ItemsJni(xs: seq<RValue>, i: nat): (r: seq<JValue>)
    requires i <= |xs| && forall j :: i <= j < |xs| ==> IntoJni(xs[j]).Ok?
    ensures |r| == |xs| - i
    ensures forall j :: i <= j < |xs| ==> IntoJni(xs[j]) == Ok(r[j - i])
    decreases |xs| - i
  {
    if i == |xs| then [] else [IntoJni(xs[i]).value] + ItemsJni(xs, i + 1)
  }

  lemma {:induction false} AddFromAll(v: RValue, list: JValue, i: nat)
    requires v.RVec? && i <= |v.items| && list.JList?
    requires forall j :: i <= j < |v.items| ==> IntoJni(v.items[j]).Ok?
    ensures AddFrom(v, list, i) == Ok(JList(list.items + ItemsJni(v.items, i)))
    decreases |v.items| - i
  {
    if i < |v.items| {
      var c := IntoJni(v.items[i]).value;
      AddFromStep(v, list, i);
      AddFromAll(v, JList(list.items + [c]), i + 1);
      assert list.items + [c] + ItemsJni(v.items, i + 1) == list.items + ItemsJni(v.items, i);
    } else {
      assert ItemsJni(v.items, i) == [];
      assert list.items + [] == list.items;
    }
  }

  lemma {:induction false} AddFromFails(v: RValue, list: JValue, i: nat, j: nat)
    requires v.RVec? && i <= j < |v.items| && list.JList?
    requires forall l :: i <= l < j ==> IntoJni(v.items[l]).Ok?
    requires IntoJni(v.items[j]).Err?
    ensures AddFrom(v, list, i) == Err(IntoJni(v.items[j]).error)
    decreases j - i
  {
    if i < j {
      AddFromStep(v, list, i);
      AddFromFails(v, JList(list.items + [IntoJni(v.items[i]).value]), i + 1, j);
    } else {
      AddFromStop(v, list, i);
    }
  }

  /** One turn of the `from_vec` loop: a converted element is added at the end. */
  lemma AddFromStep(v: RValue, list: JValue, i: nat)
    requires v.RVec? && i < |v.items| && list.JList? && IntoJni(v.items[i]).Ok?
    ensures AddFrom(v, list, i) == AddFrom(v, JList(list.items + [IntoJni(v.items[i]).value]), i + 1)
  {
  }

  /** An element that does not convert ends the `from_vec` loop with its error. */
  lemma AddFromStop(v: RValue, list: JValue, i: nat)
    requires v.RVec? && i < |v.items| && list.JList? && IntoJni(v.items[i]).Err?
    ensures AddFrom(v, list, i) == Err(IntoJni(v.items[i]).error)
  {
  }

  /** The accumulating loop computes what `CollectAll` does on the rest. */
  lemma {:induction false} CollectRest<A, B>(f: A -> Result<B, string>, xs: seq<A>, i: nat, acc: seq<B>)
    requires i <= |xs|
    ensures var r := CollectAll(xs[i..], f);
            Collect(f, xs, i, acc) == if r.Ok? then Ok(acc + r.value) else Err(r.error)
    decreases |xs| - i
  {
    if i < |xs| {
      assert xs[i..][1..] == xs[i + 1..];
      if f(xs[i]).Ok? {
        CollectRest(f, xs, i + 1, acc + [f(xs[i]).value]);
        var r := CollectAll(xs[i + 1..], f);
        if r.Ok? {
          assert acc + [f(xs[i]).value] + r.value == acc + ([f(xs[i]).value] + r.value);
        }
      }
    } else {
      assert acc + [] == acc;
    }
  }

  /** `into_vec` returns the converted elements in the list's order, and the
      first element that fails makes the whole conversion fail with its error. */
  lemma IntoVecElements(e: RType, items: seq<JValue>)
    requires Supported(e)
    ensures var r := FromJni(TVec(e), JList(items));
            && (r.Ok? <==> forall j :: 0 <= j < |items| ==> FromJni(e, items[j]).Ok?)
            && (r.Ok? ==> r.value.RVec? && |r.value.items| == |items|)
            && (r.Ok? ==> forall j :: 0 <= j < |items| ==> FromJni(e, items[j]) == Ok(r.value.items[j]))
            && (r.Err? ==> exists j :: 0 <= j < |items| && FromJni(e, items[j]) == Err(r.error)
                                        && forall l :: 0 <= l < j ==> FromJni(e, items[l]).Ok?)
  {
    FromJniList(e, items);
  }

  /** Reading a list is `CollectAll` of the element conversion. */
  lemma FromJniList(e: RType, items: seq<JValue>)
    requires Supported(e)
    ensures var r := CollectAll(items, ElemFrom(e));
            FromJni(TVec(e), JList(items)) == if r.Ok? then Ok(RVec(r.value)) else Err(r.error)
  {
    var c := Collect(ElemFrom(e), items, 0, []);
    assert FromJni(TVec(e), JList(items)) == if c.Ok? then Ok(RVec(c.value)) else Err(c.error);
    CollectRest(ElemFrom(e), items, 0, []);
    assert items[0..] == items;
    var r := CollectAll(items, ElemFrom(e));
    if r.Ok? {
      assert [] + r.value == r.value;
    }
  }

  /** `from_vec` makes an ArrayList and adds every element in order; the first
      element that fails makes the whole conversion fail with its error. */
  lemma FromVecElements(xs: seq<RValue>)
    ensures var r := IntoJni(RVec(xs));
            && (r.Ok? <==> forall j :: 0 <= j < |xs| ==> IntoJni(xs[j]).Ok?)
            && (r.Ok? ==> r.value.JList? && |r.value.items| == |xs|)
            && (r.Ok? ==> forall j :: 0 <= j < |xs| ==> IntoJni(xs[j]) == Ok(r.value.items[j]))
            && (r.Err? ==> exists j :: 0 <= j < |xs| && IntoJni(xs[j]) == Err(r.error)
                                     && forall l :: 0 <= l < j ==> IntoJni(xs[l]).Ok?)
  {
    var v := RVec(xs);
    if forall j :: 0 <= j < |xs| ==> IntoJni(xs[j]).Ok? {
      AddFromAll(v, JList([]), 0);
    } else {
      var j := FirstIntoFailure(xs);
      AddFromFails(v, JList([]), 0, j);
    }
  }

  /** The first value that does not convert. */
  function FirstIntoFailure(xs: seq<RValue>): (j: nat)
    requires exists j :: 0 <= j < |xs| && IntoJni(xs[j]).Err?
    ensures j < |xs| && IntoJni(xs[j]).Err?
    ensures forall l :: 0 <= l < j ==> IntoJni(xs[l]).Ok?
  {
    if IntoJni(xs[0]).Err? then 0
    else
      var j := FirstIntoFailure(xs[1..]);
      assert xs[1..][j] == xs[j + 1];
      j + 1
  }

  // ---------------------------------------------------------------------
  // Maps

  /** After the `into_hashmap` loop the keys are distinct, and they are the
      keys already inserted and the converted keys of the remaining entries. */
  lemma InsertFromKeys<A, K, V>(fk: A -> Result<K, string>, fv: A -> Result<V, string>,
                                entries: seq<(A, A)>, i: nat, acc: seq<(K, V)>)
    requires i <= |entries| && DistinctKeys(acc)
    ensures var r := InsertFrom(fk, fv, entries, i, acc);
            && (r.Ok? <==> forall j :: i <= j < |entries| ==> fk(entries[j].0).Ok? && fv(entries[j].1).Ok?)
            && (r.Ok? ==> DistinctKeys(r.value))
            && (r.Ok? ==> forall x :: x in Keys(r.value) <==>
                            x in Keys(acc) || exists j :: i <= j < |entries| && fk(entries[j].0) == Ok(x))
  {
    InsertFromOk(fk, fv, entries, i, acc);
    InsertFromDistinct(fk, fv, entries, i, acc);
    InsertFromKeySet(fk, fv, entries, i, acc);
  }

  lemma {:induction false} InsertFromOk<A, K, V>(fk: A -> Result<K, string>, fv: A -> Result<V, string>,
                                                 entries: seq<(A, A)>, i: nat, acc: seq<(K, V)>)
    requires i <= |entries|
    ensures InsertFrom(fk, fv, entries, i, acc).Ok? <==>
              forall j :: i <= j < |entries| ==> fk(entries[j].0).Ok? && fv(entries[j].1).Ok?
    decreases |entries| - i
  {
    if i < |entries| {
      if fk(entries[i].0).Ok? && fv(entries[i].1).Ok? {
        var k, v := fk(entries[i].0).value, fv(entries[i].1).value;
        assert InsertFrom(fk, fv, entries, i, acc) == InsertFrom(fk, fv, entries, i + 1, Put(acc, k, v));
        InsertFromOk(fk, fv, entries, i + 1, Put(acc, k, v));
      } else {
        assert InsertFrom(fk, fv, entries, i, acc).Err?;
      }
    }
  }

  lemma {:induction false} InsertFromDistinct<A, K, V>(fk: A -> Result<K, string>, fv: A -> Result<V, string>,
                                                       entries: seq<(A, A)>, i: nat, acc: seq<(K, V)>)
    requires i <= |entries| && DistinctKeys(acc)
    ensures var r := InsertFrom(fk, fv, entries, i, acc);
            r.Ok? ==> DistinctKeys(r.value)
    decreases |entries| - i
  {
    if i < |entries| && fk(entries[i].0).Ok? && fv(entries[i].1).Ok? {
      var k, v := fk(entries[i].0).value, fv(entries[i].1).value;
      assert InsertFrom(fk, fv, entries, i, acc) == InsertFrom(fk, fv, entries, i + 1, Put(acc, k, v));
      PutDistinct(acc, k, v);
      InsertFromDistinct(fk, fv, entries, i + 1, Put(acc, k, v));
    }
  }

  lemma {:induction false} InsertFromKeySet<A, K, V>(fk: A -> Result<K, string>, fv: A -> Result<V, string>,
                                                     entries: seq<(A, A)>, i: nat, acc: seq<(K, V)>)
    requires i <= |entries|
    ensures var r := InsertFrom(fk, fv, entries, i, acc);
            r.Ok? ==> forall x :: x in Keys(r.value) <==>
                        x in Keys(acc) || exists j :: i <= j < |entries| && fk(entries[j].0) == Ok(x)
    decreases |entries| - i
  {
    if i < |entries| && fk(entries[i].0).Ok? && fv(entries[i].1).Ok? {
      var k, v := fk(entries[i].0).value, fv(entries[i].1).value;
      var r := InsertFrom(fk, fv, entries, i, acc);
      assert r == InsertFrom(fk, fv, entries, i + 1, Put(acc, k, v));
      PutKeys(acc, k, v);
      InsertFromKeySet(fk, fv, entries, i + 1, Put(acc, k, v));
      if r.Ok? {
        forall x
          ensures x in Keys(r.value) <==>
                    x in Keys(acc) || exists j :: i <= j < |entries| && fk(entries[j].0) == Ok(x)
        {
          if x == k {
            assert fk(entries[i].0) == Ok(x);
          }
          if exists j :: i <= j < |entries| && fk(entries[j].0) == Ok(x) {
            var j :| i <= j < |entries| && fk(entries[j].0) == Ok(x);
            assert j == i ==> x == k;
          }
        }
      }
    } else if i < |entries| {
      assert InsertFrom(fk, fv, entries, i, acc).Err?;
    }
  }

  /** Entries `i..` of `entries` convert, key and value, to `ys`. */
  ghost predicate Converts<A, K, V>(fk: A -> Result<K, string>, fv: A -> Result<V, string>,
                                    entries: seq<(A, A)>, i: nat, ys: seq<(K, V)>)
  {
    && i + |ys| == |entries|
    && forall j :: 0 <= j < |ys| ==> fk(entries[i + j].0) == Ok(ys[j].0) && fv(entries[i + j].1) == Ok(ys[j].1)
  }

  lemma ConvertsTail<A, K, V>(fk: A -> Result<K, string>, fv: A -> Result<V, string>,
                              entries: seq<(A, A)>, i: nat, ys: seq<(K, V)>)
    requires Converts(fk, fv, entries, i, ys) && |ys| > 0
    ensures fk(entries[i].0) == Ok(ys[0].0) && fv(entries[i].1) == Ok(ys[0].1)
    ensures Converts(fk, fv, entries, i + 1, ys[1..])
  {
    assert entries[i + 0] == entries[i];
    forall j | 0 <= j < |ys[1..]|
      ensures fk(entries[i + 1 + j].0) == Ok(ys[1..][j].0) && fv(entries[i + 1 + j].1) == Ok(ys[1..][j].1)
    {
      assert i + 1 + j == i + (j + 1);
    }
  }

  /** When the converted keys are new and distinct, the loop appends the
      converted entries in order. */
  lemma {:induction false} InsertFromFresh<A, K, V>(fk: A -> Result<K, string>, fv: A -> Result<V, string>,
                                                    entries: seq<(A, A)>, i: nat, acc: seq<(K, V)>, ys: seq<(K, V)>)
    requires Converts(fk, fv, entries, i, ys)
    requires DistinctKeys(acc + ys)
    ensures InsertFrom(fk, fv, entries, i, acc) == Ok(acc + ys)
    decreases |entries| - i
  {
    if i < |entries| {
      ConvertsTail(fk, fv, entries, i, ys);
      FreshKey(acc, ys);
      var acc' := acc + [ys[0]];
      assert Put(acc, ys[0].0, ys[0].1) == acc';
      assert InsertFrom(fk, fv, entries, i, acc) == InsertFrom(fk, fv, entries, i + 1, acc');
      assert acc' + ys[1..] == acc + ys;
      InsertFromFresh(fk, fv, entries, i + 1, acc', ys[1..]);
    } else {
      assert acc + ys == acc;
    }
  }

  /** In a map with distinct keys, the first key of a tail is not among the keys before it. */
  lemma FreshKey<K, V>(acc: seq<(K, V)>, ys: seq<(K, V)>)
    requires |ys| > 0 && DistinctKeys(acc + ys)
    ensures ys[0].0 !in Keys(acc)
  {
    forall j | 0 <= j < |acc| ensures Keys(acc)[j] != ys[0].0 {
      assert (acc + ys)[j] == acc[j] && (acc + ys)[|acc|] == ys[0];
    }
  }

  /** `from_hashmap`'s loop is the generic insertion loop with `IntoJni` as
      the conversion of keys and values, on the entries of the Java map. */
  lemma {:induction false} PutFromInsert(v: RValue, m: JValue, i: nat)
    requires v.RMap? && i <= |v.entries| && m.JMap?
    ensures var r := InsertFrom(IntoJni, IntoJni, v.entries, i, m.entries);
            PutFrom(v, m, i) == if r.Ok? then Ok(JMap(r.value)) else Err(r.error)
    decreases |v.entries| - i
  {
    if i < |v.entries| && IntoJni(v.entries[i].0).Ok? && IntoJni(v.entries[i].1).Ok? {
      var k, x := IntoJni(v.entries[i].0).value, IntoJni(v.entries[i].1).value;
      PutFromInsert(v, JMap(Put(m.entries, k, x)), i + 1);
    }
  }

  /** `from_hashmap` makes a HashMap holding every converted key, with no key
      twice; any key or value that fails makes the whole conversion fail. */
  lemma FromHashMapEntries(entries: seq<(RValue, RValue)>)
    ensures var r := IntoJni(RMap(entries));
            && (r.Ok? <==> forall j :: 0 <= j < |entries| ==> IntoJni(entries[j].0).Ok? && IntoJni(entries[j].1).Ok?)
            && (r.Ok? ==> r.value.JMap? && DistinctKeys(r.value.entries))
            && (r.Ok? ==> forall x :: x in Keys(r.value.entries) <==>
                            exists j :: 0 <= j < |entries| && IntoJni(entries[j].0) == Ok(x))
  {
    PutFromInsert(RMap(entries), JMap([]), 0);
    InsertFromKeys(IntoJni, IntoJni, entries, 0, []);
  }

  /** Reading a map is the `into_hashmap` loop over its entries. */
  lemma FromJniMap(kt: RType, vt: RType, entries: seq<(JValue, JValue)>)
    requires Supported(TMap(kt, vt))
    ensures var r := InsertFrom(ElemFrom(kt), ElemFrom(vt), entries, 0, []);
            FromJni(TMap(kt, vt), JMap(entries)) == if r.Ok? then Ok(RMap(r.value)) else Err(r.error)
  {
  }

  /** `into_hashmap` inserts every entry of the Java map after converting its
      key and then its value; the keys come out distinct, and any key or value
      that fails makes the whole conversion fail. */
  lemma IntoHashMapEntries(kt: RType, vt: RType, entries: seq<(JValue, JValue)>)
    requires Supported(TMap(kt, vt))
    ensures var r := FromJni(TMap(kt, vt), JMap(entries));
            && (r.Ok? <==> forall j :: 0 <= j < |entries| ==> FromJni(kt, entries[j].0).Ok? && FromJni(vt, entries[j].1).Ok?)
            && (r.Ok? ==> r.value.RMap? && DistinctKeys(r.value.entries))
            && (r.Ok? ==> forall x :: x in Keys(r.value.entries) <==>
                            exists j :: 0 <= j < |entries| && FromJni(kt, entries[j].0) == Ok(x))
  {
    FromJniMap(kt, vt, entries);
    InsertFromKeys(ElemFrom(kt), ElemFrom(vt), entries, 0, []);
  }

  // ---------------------------------------------------------------------
  // Round trip

  /** Every value of a supported type crosses to Java and comes back
      unchanged: `T::from_jni(t.into_jni())` is `t`. */
  lemma {:induction false} RoundTrip(v: RValue, t: RType)
    requires Supported(t) && HasType(v, t)
    ensures IntoJni(v).Ok? && FromJni(t, IntoJni(v).value) == Ok(v)
    decreases v, 2
  {
    match t
    case TScalar(k) => OptionConvert.RoundTrip(k, Some(v.v));
    case TString =>
    case TOption(i) => RoundTripOption(v, i);
    case TVec(e) => RoundTripVec(v, e);
    case TMap(kt, vt) => RoundTripMap(v, kt, vt);
    case TObject =>
    case TJString =>
  }

  lemma {:induction false} RoundTripOption(v: RValue, i: RType)
    requires Supported(TOption(i)) && HasType(v, TOption(i))
    ensures IntoJni(v).Ok? && FromJni(TOption(i), IntoJni(v).value) == Ok(v)
    decreases v, 1
  {
    if v.o.Some? {
      var x := v.o.value;
      if i.TScalar? {
        OptionConvert.RoundTrip(i.k, Some(x.v));
      } else if !i.TString? {
        RoundTrip(x, i);
        NullHandling(i);
      }
    }
  }

  lemma {:induction false} RoundTripVec(v: RValue, e: RType)
    requires Supported(TVec(e)) && HasType(v, TVec(e))
    ensures IntoJni(v).Ok? && FromJni(TVec(e), IntoJni(v).value) == Ok(v)
    decreases v, 1
  {
    var xs := v.items;
    forall j | 0 <= j < |xs| ensures IntoJni(xs[j]).Ok? && FromJni(e, IntoJni(xs[j]).value) == Ok(xs[j]) {
      RoundTrip(xs[j], e);
    }
    FromVecElements(xs);
    var items := IntoJni(v).value.items;
    FromJniList(e, items);
    var r := CollectAll(items, ElemFrom(e));
    assert r.Ok? && r.value == xs;
  }

  lemma {:induction false} RoundTripMap(v: RValue, kt: RType, vt: RType)
    requires Supported(TMap(kt, vt)) && HasType(v, TMap(kt, vt))
    ensures IntoJni(v).Ok? && FromJni(TMap(kt, vt), IntoJni(v).value) == Ok(v)
    decreases v, 1
  {
    var es := v.entries;
    forall j | 0 <= j < |es|
      ensures IntoJni(es[j].0).Ok? && FromJni(kt, IntoJni(es[j].0).value) == Ok(es[j].0)
      ensures IntoJni(es[j].1).Ok? && FromJni(vt, IntoJni(es[j].1).value) == Ok(es[j].1)
    {
      RoundTrip(es[j].0, kt);
      RoundTrip(es[j].1, vt);
    }
    var cs := seq(|es|, j requires 0 <= j < |es| => (IntoJni(es[j].0).value, IntoJni(es[j].1).value));
    MapToJava(v, cs);
    MapFromJava(kt, vt, es, cs);
  }

  /** The Java map of a Rust map whose converted keys stay distinct holds the
      converted entries in order. */
  lemma MapToJava(v: RValue, cs: seq<(JValue, JValue)>)
    requires v.RMap? && |cs| == |v.entries| && DistinctKeys(cs)
    requires forall j :: 0 <= j < |cs| ==> IntoJni(v.entries[j].0) == Ok(cs[j].0) && IntoJni(v.entries[j].1) == Ok(cs[j].1)
    ensures IntoJni(v) == Ok(JMap(cs))
  {
    assert Converts(IntoJni, IntoJni, v.entries, 0, cs) by {
      forall j | 0 <= j < |cs| ensures v.entries[0 + j] == v.entries[j] {}
    }
    assert [] + cs == cs;
    InsertFromFresh(IntoJni, IntoJni, v.entries, 0, [], cs);
    PutFromInsert(v, JMap([]), 0);
  }

  /** Reading back a Java map whose entries convert to `es`, with distinct
      keys, gives `es`. */
  lemma MapFromJava(kt: RType, vt: RType, es: seq<(RValue, RValue)>, cs: seq<(JValue, JValue)>)
    requires Supported(TMap(kt, vt)) && |cs| == |es| && DistinctKeys(es)
    requires forall j :: 0 <= j < |cs| ==> FromJni(kt, cs[j].0) == Ok(es[j].0) && FromJni(vt, cs[j].1) == Ok(es[j].1)
    ensures DistinctKeys(cs)
    ensures FromJni(TMap(kt, vt), JMap(cs)) == Ok(RMap(es))
  {
    assert Converts(ElemFrom(kt), ElemFrom(vt), cs, 0, es) by {
      forall j | 0 <= j < |es| ensures cs[0 + j] == cs[j] {}
    }
    assert [] + es == es;
    InsertFromFresh(ElemFrom(kt), ElemFrom(vt), cs, 0, [], es);
    FromJniMap(kt, vt, cs);
  }
}
