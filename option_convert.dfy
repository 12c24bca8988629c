/** Optional primitives and strings across JNI
    (crates/jni-bindgen/src/conversion/option_convert.rs): `None` is the null
    reference, `Some(v)` a boxed value made by the boxed class's static
    `valueOf` and read back through its unboxing getter. */
module OptionConvert {
  import opened Wrappers
  import Strings
  import Descriptors
  import opened JniValues

  /** The descriptor of `valueOf`: the primitive in, the boxed class out. */
  function BoxDescriptor(k: Kind): string {
    "(" + Code(k) + ")L" + ClassOf(k) + ";"
  }

  /** The descriptor of the unboxing getter: no argument, the primitive out. */
  function UnboxDescriptor(k: Kind): string {
    "()" + Code(k)
  }

  /** `<t>_into_jni`: null for `None`, `valueOf(v)` for `Some(v)`. */
  function IntoJni(k: Kind, val: Option<int>): (r: Result<JValue, string>)
    ensures r.Ok? && val.Some? ==> r.value == Boxed(ClassOf(k), val.value)
  {
    match val
    case None => Ok(Null)
    case Some(v) => CallStatic(ClassOf(k), "valueOf", BoxDescriptor(k), k, v)
  }

  /** `<t>_from_jni`: `None` for null, the getter's result otherwise. */
  function FromJni(k: Kind, obj: JValue): (r: Result<Option<int>, string>)
    ensures r.Ok? && r.value.Some? ==> obj.Boxed? && r.value.value == obj.bits
  {
    if obj.Null? then Ok(None)
    else
      var v :- CallGetter(obj, Getter(k), UnboxDescriptor(k));
      Ok(Some(v))
  }

  /** Every optional primitive crosses to Java and back unchanged; `None` is
      exactly the null reference on the Java side. */
  lemma RoundTrip(k: Kind, val: Option<int>)
    ensures IntoJni(k, val).Ok?
    ensures IntoJni(k, val).value.Null? <==> val.None?
    ensures FromJni(k, IntoJni(k, val).value) == Ok(val)
  {
    KindOfClassOf(k);
  }

  /** Null, and only null, reads as `None`; a boxed value of the kind's own
      class reads as its value. */
  lemma FromJniCases(k: Kind, obj: JValue)
    ensures FromJni(k, obj) == Ok(None) <==> obj.Null?
    ensures obj.Boxed? && obj.cls == ClassOf(k) ==> FromJni(k, obj) == Ok(Some(obj.bits))
  {
    if obj.Boxed? && obj.cls == ClassOf(k) {
      KindOfClassOf(k);
    }
  }

  /** Both descriptors are well-formed method descriptors in the sense of
      section 4.3.3 of the Java Virtual Machine Specification: `valueOf`
      takes the primitive and returns the boxed class, the getter takes
      nothing and returns the primitive. */
  lemma DescriptorsParse(k: Kind)
    ensures Descriptors.ParseMethod(BoxDescriptor(k)) == Some(([Code(k)], "L" + ClassOf(k) + ";"))
    ensures Descriptors.ParseMethod(UnboxDescriptor(k)) == Some(([], Code(k)))
  {
    BoxDescriptorParses(k);
    UnboxDescriptorParses(k);
  }

  lemma BoxDescriptorParses(k: Kind)
    ensures Descriptors.ParseMethod(BoxDescriptor(k)) == Some(([Code(k)], "L" + ClassOf(k) + ";"))
  {
    assert Descriptors.IsInternalName(ClassOf(k)) by {
      Descriptors.BoxedClassNames();
    }
    assert Descriptors.IsFieldDescriptor(Code(k));
    ValueOfDescriptorParses(Code(k), ClassOf(k));
  }

  /** A descriptor taking one parameter and returning an object parses back
      into those two parts. */
  lemma ValueOfDescriptorParses(code: string, cls: string)
    requires Descriptors.IsFieldDescriptor(code) && Descriptors.IsInternalName(cls)
    ensures Descriptors.ParseMethod("(" + code + ")L" + cls + ";") == Some(([code], "L" + cls + ";"))
  {
    var ret := "L" + cls + ";";
    Descriptors.ReferenceDescriptorValid(cls);
    assert Strings.Join([code], "") == code;
    assert "(" + code + ")L" + cls + ";" == Descriptors.MethodDescriptor([code], ret);
    Descriptors.ParseMethodDescriptor([code], ret);
  }

  lemma UnboxDescriptorParses(k: Kind)
    ensures Descriptors.ParseMethod(UnboxDescriptor(k)) == Some(([], Code(k)))
  {
    assert Descriptors.IsFieldDescriptor(Code(k));
    assert UnboxDescriptor(k) == Descriptors.MethodDescriptor([], Code(k));
    Descriptors.ParseMethodDescriptor([], Code(k));
  }

  /** `string_into_jni`: null for `None`, a new string for `Some(s)`. */
  function StringIntoJni(val: Option<string>): (r: Result<JValue, string>)
    ensures r.Ok?
    ensures r.value.Null? <==> val.None?
  {
    match val
    case None => Ok(Null)
    case Some(s) => Ok(JStr(s))
  }

  /** `string_from_jni`: `None` for null, the string's characters otherwise. */
  function StringFromJni(obj: JValue): (r: Result<Option<string>, string>)
    ensures r == Ok(None) <==> obj.Null?
    ensures r.Ok? <==> obj.Null? || obj.JStr?
  {
    if obj.Null? then Ok(None)
    else
      var s :- GetString(obj);
      Ok(Some(s))
  }

  /** Every optional string crosses to Java and back unchanged. */
  lemma StringRoundTrip(val: Option<string>)
    ensures StringFromJni(StringIntoJni(val).value) == Ok(val)
  {
  }
}
