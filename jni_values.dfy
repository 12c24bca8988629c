/** The Java side of the conversions: the values a `JObject` can refer to and
    the few JVM calls the converters make (static `valueOf`, the unboxing
    getters, strings, `ArrayList.add` and `HashMap.put`), answered as the JVM
    answers them when the class, the name and the descriptor are right. */
module JniValues {
  import opened Wrappers

  /** The primitive types with a boxed class. */
  datatype Kind = IntK | LongK | FloatK | DoubleK | BooleanK | ShortK | CharK | ByteK

  /** The boxed class of each kind. */
  function ClassOf(k: Kind): string {
    match k
    case IntK => "java/lang/Integer"
    case LongK => "java/lang/Long"
    case FloatK => "java/lang/Float"
    case DoubleK => "java/lang/Double"
    case BooleanK => "java/lang/Boolean"
    case ShortK => "java/lang/Short"
    case CharK => "java/lang/Character"
    case ByteK => "java/lang/Byte"
  }

  /** The descriptor character of each kind. */
  function Code(k: Kind): string {
    match k
    case IntK => "I"
    case LongK => "J"
    case FloatK => "F"
    case DoubleK => "D"
    case BooleanK => "Z"
    case ShortK => "S"
    case CharK => "C"
    case ByteK => "B"
  }

  /** The unboxing method of each boxed class. */
  function Getter(k: Kind): string {
    match k
    case IntK => "intValue"
    case LongK => "longValue"
    case FloatK => "floatValue"
    case DoubleK => "doubleValue"
    case BooleanK => "booleanValue"
    case ShortK => "shortValue"
    case CharK => "charValue"
    case ByteK => "byteValue"
  }

  /** The kind whose boxed class is `cls`, if any. */
  function KindOfClass(cls: string): (r: Option<Kind>)
    ensures r.Some? ==> ClassOf(r.value) == cls
  {
    if cls == "java/lang/Integer" then Some(IntK)
    else if cls == "java/lang/Long" then Some(LongK)
    else if cls == "java/lang/Float" then Some(FloatK)
    else if cls == "java/lang/Double" then Some(DoubleK)
    else if cls == "java/lang/Boolean" then Some(BooleanK)
    else if cls == "java/lang/Short" then Some(ShortK)
    else if cls == "java/lang/Character" then Some(CharK)
    else if cls == "java/lang/Byte" then Some(ByteK)
    else None
  }

  /** Each boxed class names exactly one kind, so the table is consistent. */
  lemma KindOfClassOf(k: Kind)
    ensures KindOfClass(ClassOf(k)) == Some(k)
  {
  }

  /** The values of each Rust primitive: two's-complement ranges for the
      integers, 0 and 1 for `bool`, and the bit pattern of a float. */
  predicate InRange(k: Kind, v: int) {
    match k
    case IntK => -0x8000_0000 <= v < 0x8000_0000
    case LongK => -0x8000_0000_0000_0000 <= v < 0x8000_0000_0000_0000
    case FloatK => 0 <= v < 0x1_0000_0000
    case DoubleK => 0 <= v < 0x1_0000_0000_0000_0000
    case BooleanK => v == 0 || v == 1
    case ShortK => -0x8000 <= v < 0x8000
    case CharK => 0 <= v < 0x1_0000
    case ByteK => -0x80 <= v < 0x80
  }

  /** What a `JObject` refers to: null, a boxed primitive, a string, a list, a
      map (its entries in iteration order) or any other object. */
  datatype JValue =
    | Null
    | Boxed(cls: string, bits: int)
    | JStr(s: string)
    | JList(items: seq<JValue>)
    | JMap(entries: seq<(JValue, JValue)>)
    | Other(handle: nat)

  /** The error a call the JVM cannot answer raises. */
  const NoSuchMethod := "java/lang/NoSuchMethodError"

  /** `env.call_static_method(cls, name, sig, [v])`: only `valueOf` of a boxed
      class with descriptor `(code)Lcls;` and an argument of that kind exists. */
  function CallStatic(cls: string, name: string, sig: string, k: Kind, v: int): (r: Result<JValue, string>)
    ensures r.Ok? ==> r.value == Boxed(cls, v) && cls == ClassOf(k)
  {
    if name == "valueOf" && KindOfClass(cls) == Some(k) && sig == "(" + Code(k) + ")L" + cls + ";"
    then Ok(Boxed(cls, v))
    else Err(NoSuchMethod)
  }

  /** `env.call_method(obj, name, sig, [])` for a getter: only the unboxing
      getter of the object's own boxed class, with descriptor `()code`, exists. */
  function CallGetter(obj: JValue, name: string, sig: string): (r: Result<int, string>)
    ensures r.Ok? ==> obj.Boxed? && r.value == obj.bits
  {
    if obj.Boxed? && KindOfClass(obj.cls).Some? && name == Getter(KindOfClass(obj.cls).value)
       && sig == "()" + Code(KindOfClass(obj.cls).value)
    then Ok(obj.bits)
    else Err(NoSuchMethod)
  }

  /** `env.get_string`: the characters of a string object. */
  function GetString(obj: JValue): (r: Result<string, string>)
    ensures r.Ok? <==> obj.JStr?
  {
    if obj.JStr? then Ok(obj.s) else Err("java/lang/ClassCastException")
  }

  /** `env.new_object(cls, "()V", [])` for the two collection classes the
      converters create. */
  function NewObject(cls: string, sig: string): (r: Result<JValue, string>)
    ensures r.Ok? <==> sig == "()V" && (cls == "java/util/ArrayList" || cls == "java/util/HashMap")
  {
    if sig != "()V" then Err(NoSuchMethod)
    else if cls == "java/util/ArrayList" then Ok(JList([]))
    else if cls == "java/util/HashMap" then Ok(JMap([]))
    else Err("java/lang/NoClassDefFoundError")
  }

  /** `List.add(Object)`: appends. */
  function CallAdd(list: JValue, name: string, sig: string, v: JValue): (r: Result<JValue, string>)
    ensures r.Ok? ==> list.JList? && r.value == JList(list.items + [v])
  {
    if list.JList? && name == "add" && sig == "(Ljava/lang/Object;)Z" then Ok(JList(list.items + [v]))
    else Err(NoSuchMethod)
  }

  /** `Map.put(Object, Object)`. */
  function CallPut(m: JValue, name: string, sig: string, k: JValue, v: JValue): (r: Result<JValue, string>)
    ensures r.Ok? ==> m.JMap? && r.value == JMap(Put(m.entries, k, v))
  {
    if m.JMap? && name == "put" && sig == "(Ljava/lang/Object;Ljava/lang/Object;)Ljava/lang/Object;"
    then Ok(JMap(Put(m.entries, k, v)))
    else Err(NoSuchMethod)
  }

  /** `env.get_list`: the elements of a list object in iteration order. */
  function GetList(obj: JValue): (r: Result<seq<JValue>, string>)
    ensures r.Ok? <==> obj.JList?
  {
    if obj.JList? then Ok(obj.items) else Err("java/lang/ClassCastException")
  }

  /** `env.get_map`: the entries of a map object in iteration order. */
  function GetMap(obj: JValue): (r: Result<seq<(JValue, JValue)>, string>)
    ensures r.Ok? <==> obj.JMap?
  {
    if obj.JMap? then Ok(obj.entries) else Err("java/lang/ClassCastException")
  }

  // ---------------------------------------------------------------------
  // Maps as entry sequences

  /** The keys of a map, in iteration order. */
  function Keys<K, V>(entries: seq<(K, V)>): (r: seq<K>)
    ensures |r| == |entries|
    ensures forall i :: 0 <= i < |entries| ==> r[i] == entries[i].0
  {
    seq(|entries|, i requires 0 <= i < |entries| => entries[i].0)
  }

  /** A map's keys are distinct. */
  predicate DistinctKeys<K(==), V>(entries: seq<(K, V)>) {
    forall i, j :: 0 <= i < j < |entries| ==> entries[i].0 != entries[j].0
  }

  /** `put` / `insert`: the value of an existing key is replaced in place, a
      new key is added at the end. */
  function Put<K(==), V>(entries: seq<(K, V)>, k: K, v: V): (r: seq<(K, V)>)
    ensures k in Keys(entries) ==> |r| == |entries|
    ensures k !in Keys(entries) ==> r == entries + [(k, v)]
    ensures forall i :: 0 <= i < |entries| && entries[i].0 != k ==> r[i] == entries[i]
  {
    if |entries| == 0 then [(k, v)]
    else if entries[0].0 == k then [(k, v)] + entries[1..]
    else
      var tail := entries[1..];
      assert Keys(entries) == [entries[0].0] + Keys(tail);
      var rest := Put(tail, k, v);
      assert k !in Keys(entries) ==> [entries[0]] + rest == entries + [(k, v)] by {
        assert entries == [entries[0]] + tail;
      }
      [entries[0]] + rest
  }

  /** The keys of a list that starts with `e`. */
  lemma KeysCons<K, V>(e: (K, V), rest: seq<(K, V)>)
    ensures Keys([e] + rest) == [e.0] + Keys(rest)
  {
    var l := [e] + rest;
    var a, b := Keys(l), [e.0] + Keys(rest);
    forall i | 0 <= i < |a|
      ensures a[i] == b[i]
    {
      if i > 0 {
        assert l[i] == rest[i - 1];
      }
    }
    assert a == b;
  }

  /** After `put` the keys are the old ones and the new one. */
  lemma {:induction false} PutKeys<K, V>(entries: seq<(K, V)>, k: K, v: V)
    ensures forall x :: x in Keys(Put(entries, k, v)) <==> x == k || x in Keys(entries)
  {
    if |entries| > 0 {
      var tail := entries[1..];
      assert entries == [entries[0]] + tail;
      KeysCons(entries[0], tail);
      if entries[0].0 == k {
        assert Put(entries, k, v) == [(k, v)] + tail;
        KeysCons((k, v), tail);
      } else {
        var rest := Put(tail, k, v);
        assert Put(entries, k, v) == [entries[0]] + rest;
        KeysCons(entries[0], rest);
        PutKeys(tail, k, v);
      }
    } else {
      assert Keys(Put(entries, k, v)) == [k];
    }
  }

  /** `put` keeps the keys distinct. */
  lemma {:induction false} PutDistinct<K, V>(entries: seq<(K, V)>, k: K, v: V)
    requires DistinctKeys(entries)
    ensures DistinctKeys(Put(entries, k, v))
  {
    if |entries| > 0 && entries[0].0 != k {
      var rest := Put(entries[1..], k, v);
      PutDistinct(entries[1..], k, v);
      PutKeys(entries[1..], k, v);
      assert entries[0].0 !in Keys(entries[1..]) by {
        forall i | 0 <= i < |entries[1..]| ensures Keys(entries[1..])[i] != entries[0].0 {
          assert entries[1..][i] == entries[i + 1];
        }
      }
      var r := Put(entries, k, v);
      assert r == [entries[0]] + rest;
      forall i, j | 0 <= i < j < |r| ensures r[i].0 != r[j].0 {
        if i == 0 {
          assert r[j] == rest[j - 1];
          assert Keys(rest)[j - 1] == rest[j - 1].0;
        }
      }
    }
  }

  /** After `put` the map holds the new entry. */
  lemma {:induction false} PutHolds<K, V>(entries: seq<(K, V)>, k: K, v: V)
    ensures (k, v) in Put(entries, k, v)
  {
    if |entries| > 0 && entries[0].0 != k {
      PutHolds(entries[1..], k, v);
      assert Put(entries, k, v) == [entries[0]] + Put(entries[1..], k, v);
    }
  }
}
