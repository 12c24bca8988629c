/** The Java-side view of a Rust type: the classifier that maps a Rust type
    expression to a `JavaType`, and the renderings of a `JavaType` as Java text,
    JVM descriptor, JNI type, error sentinel, imports and conversions
    (crates/jni-bindgen-macros/src/codegen/java_type.rs). */
module JavaTypes {
  import opened Wrappers
  import Syn
  import Strings
  import Attrs
  import Traits
  import Descriptors
  import JniError

  /** `JavaType`; the source's `Result` and `Option` variants are called
      `Fallible` and `Optional` here. */
  datatype JavaType =
    | String
    | This
    | Void
    | Integer
    | Long
    | Boolean
    | Float
    | Double
    | Short
    | Char
    | Byte
    | Env(mutable: bool, inner: Syn.SynType)
    | Fallible(javaType: JavaType, resultType: seq<Syn.Segment>)
    | Optional(javaType: JavaType, inner: Syn.SynType)
    | Reference(path: seq<Syn.Segment>)
    | Object
    | Vec(ty: Syn.SynType, javaType: JavaType)
    | HashMap(key: Syn.SynType, value: Syn.SynType, javaKey: JavaType, javaValue: JavaType)
    | Interface(inner: Syn.SynType, className: string)

  predicate IsPrimitive(jt: JavaType) {
    jt in {Integer, Long, Boolean, Float, Double, Short, Char, Byte}
  }

  // ---------------------------------------------------------------------
  // Classification

  /** The texts that name `JNIEnv` references directly. */
  const EnvTexts: set<string> := {"& jni :: JNIEnv", "& JNIEnv", "& mut jni :: JNIEnv", "& mut JNIEnv"}

  /** The exact-text table of `from_declaration(&Box<Type>)`, without the
      `JNIEnv` entries. */
  function TableEntry(text: string): Option<JavaType> {
    if text == "String" || text == "& 'static str" then Some(String)
    else if text == "Self" then Some(This)
    else if text == "()" then Some(Void)
    else if text == "i32" then Some(Integer)
    else if text == "i64" then Some(Long)
    else if text == "bool" then Some(Boolean)
    else if text == "f32" then Some(Float)
    else if text == "f64" then Some(Double)
    else if text == "i16" then Some(Short)
    else if text == "u16" then Some(Char)
    else if text == "i8" then Some(Byte)
    else None
  }

  /** `JavaType::from_declaration(&Box<Type>)`: the printed type is looked up in
      the table first; any other type goes to `match_typed` without attribute,
      and what that does not recognise is unsupported. */
  function Classify(ty: Syn.SynType): (r: Result<JavaType, string>)
    decreases ty, 1
  {
    var text := Syn.TypeText(ty);
    if TableEntry(text).Some? then Ok(TableEntry(text).value)
    else if text in EnvTexts then Ok(Env(Strings.IsPrefix("& mut", text), ty))
    else
      match MatchTyped(ty, None)
      case Err(e) => Err(e)
      case Ok(Some(t)) => Ok(t)
      case Ok(None) => Err("Unsupported type: '" + text + "'")
  }

  /** `match_typed`: the structural cases. `Ok(None)` means "not recognised". */
  function MatchTyped(ty: Syn.SynType, attr: Option<Attrs.BindgenAttrs>): (r: Result<Option<JavaType>, string>)
    decreases ty, 0
  {
    match ty
    case Path(segs) =>
      if |segs| == 0 then Ok(None)
      else
        var last := segs[|segs| - 1];
        assert last in segs;
        if last.ident in {"Result", "Option", "Vec", "Box"} then
          if last.arguments.AngleBracketed? && |last.arguments.args| > 0 && last.arguments.args[0].TypeArg? then
            var t := last.arguments.args[0].ty;
            assert last.arguments.args[0] in last.arguments.args;
            if last.ident == "Result" then
              var j :- Classify(t);
              Ok(Some(Fallible(j, segs)))
            else if last.ident == "Option" then
              var j :- Classify(t);
              Ok(Some(Optional(j, t)))
            else if last.ident == "Vec" then
              var j :- Classify(t);
              Ok(Some(Vec(t, j)))
            else
              BoxInterface(t, attr)
          else Ok(None)
        else if last.ident == "JObject" then Ok(Some(Object))
        else if last.ident == "HashMap" && last.arguments.AngleBracketed?
                && |last.arguments.args| > 0 && last.arguments.args[0].TypeArg?
                && last.arguments.args[|last.arguments.args| - 1].TypeArg? then
          var args := last.arguments.args;
          var k := args[0].ty;
          var v := args[|args| - 1].ty;
          assert args[0] in args && args[|args| - 1] in args;
          var jk :- Classify(k);
          var jv :- Classify(v);
          Ok(Some(HashMap(k, v, jk, jv)))
        else Ok(None)
    case Reference(_, m, elem) =>
      if elem.Path? then
        if |elem.segments| > 0 && elem.segments[|elem.segments| - 1].ident == "JNIEnv" then
          Ok(Some(Env(m, ty)))
        else if m then Err("Mutable references are not supported")
        else Ok(Some(Reference(elem.segments)))
      else Ok(None)
    case _ => Ok(None)
  }

  /** The trait's path without `crate` segments, joined by "." */
  function TraitClassName(path: seq<Syn.Segment>): string {
    Strings.Join(NonCrateIdents(path), ".")
  }

  function NonCrateIdents(path: seq<Syn.Segment>): (r: seq<string>)
    ensures forall i :: 0 <= i < |r| ==> r[i] != "crate"
    decreases |path|
  {
    if |path| == 0 then []
    else if path[0].ident == "crate" then NonCrateIdents(path[1..])
    else [path[0].ident] + NonCrateIdents(path[1..])
  }

  /** The class name derived from the first trait bound, if there is one. */
  function FirstTraitName(bounds: seq<Syn.Bound>): (r: Option<string>)
    ensures r.None? <==> forall i :: 0 <= i < |bounds| ==> !bounds[i].TraitBound?
    decreases |bounds|
  {
    if |bounds| == 0 then None
    else if bounds[0].TraitBound? then Some(TraitClassName(bounds[0].path))
    else
      var r := FirstTraitName(bounds[1..]);
      assert forall i :: 1 <= i < |bounds| ==> bounds[i] == bounds[1..][i - 1];
      r
  }

  /** Position of the first lifetime bound, if there is one. */
  function FirstLifetime(bounds: seq<Syn.Bound>): (r: Option<nat>)
    ensures r.None? <==> forall i :: 0 <= i < |bounds| ==> !bounds[i].LifetimeBound?
    ensures r.Some? ==> r.value < |bounds| && bounds[r.value].LifetimeBound?
                        && forall i :: 0 <= i < r.value ==> !bounds[i].LifetimeBound?
    decreases |bounds|
  {
    if |bounds| == 0 then None
    else if bounds[0].LifetimeBound? then Some(0)
    else
      var r := FirstLifetime(bounds[1..]);
      assert forall i :: 1 <= i < |bounds| ==> bounds[i] == bounds[1..][i - 1];
      if r.Some? then Some(r.value + 1) else None
  }

  /** The `Box<dyn Trait + 'a>` case: the first lifetime bound is renamed to
      `'local`; the class name comes from the `class_name` attribute when given,
      else from the trait path. */
  function BoxInterface(t: Syn.SynType, attr: Option<Attrs.BindgenAttrs>): (r: Result<Option<JavaType>, string>)
    ensures r.Ok? ==> r.value.Some? && r.value.value.Interface?
    ensures !t.TraitObject? ==> r == Err("Box must have a dyn Trait parameter")
    ensures t.TraitObject? && FirstLifetime(t.bounds).None? ==> r == Err("Box must have a lifetime parameter")
    ensures r.Ok? && attr.Some? && Attrs.GetClassName(attr.value).Some? ==>
              r.value.value.className == Attrs.GetClassName(attr.value).value
    ensures r.Ok? && (attr.None? || Attrs.GetClassName(attr.value).None?) ==>
              FirstTraitName(t.bounds) == Some(r.value.value.className)
  {
    if !t.TraitObject? then Err("Box must have a dyn Trait parameter")
    else
      var derived := FirstTraitName(t.bounds);
      match FirstLifetime(t.bounds)
      case None => Err("Box must have a lifetime parameter")
      case Some(i) =>
        var renamed := Syn.TraitObject(t.bounds[i := Syn.LifetimeBound("local")]);
        if derived.None? then
          if attr.None? then Err("Box must have a #[jni(class_name = \"...\")] attribute")
          else
            match Attrs.GetClassName(attr.value)
            case None => Err("jni attribute must have a class_name member")
            case Some(c) => Ok(Some(Interface(renamed, c)))
        else
          var name := if attr.Some? && Attrs.GetClassName(attr.value).Some?
                      then Attrs.GetClassName(attr.value).value else derived.value;
          Ok(Some(Interface(renamed, name)))
  }

  /** `JavaType::from_declaration(&FnArg)`: a receiver is `This`; a typed
      argument tries `match_typed` with its `jni` attribute before the table. */
  function ClassifyArg(arg: Syn.FnArg): (r: Result<JavaType, string>)
    ensures arg.Receiver? ==> r == Ok(This)
  {
    match arg
    case Receiver(_, _) => Ok(This)
    case Typed(attrs, _, ty) =>
      match MatchTyped(ty, Traits.GetJniAttr(attrs))
      case Err(e) => Err(e)
      case Ok(Some(t)) => Ok(t)
      case Ok(None) => Classify(ty)
  }

  // ---------------------------------------------------------------------
  // Canonical Rust spelling of each Java type, and the classifier on it

  function Wrap(ident: string, arg: Syn.SynType): Syn.SynType {
    Syn.Path([Syn.Segment(ident, Syn.AngleBracketed([Syn.TypeArg(arg)]))])
  }

  /** The Rust type a user writes for each Java type. */
  function Canon(jt: JavaType): Syn.SynType {
    match jt
    case String => Syn.Named("String")
    case This => Syn.Named("Self")
    case Void => Syn.Tuple([])
    case Integer => Syn.Named("i32")
    case Long => Syn.Named("i64")
    case Boolean => Syn.Named("bool")
    case Float => Syn.Named("f32")
    case Double => Syn.Named("f64")
    case Short => Syn.Named("i16")
    case Char => Syn.Named("u16")
    case Byte => Syn.Named("i8")
    case Env(m, _) => Syn.Reference(None, m, Syn.Named("JNIEnv"))
    case Fallible(j, _) => Wrap("Result", Canon(j))
    case Optional(j, _) => Wrap("Option", Canon(j))
    case Reference(p) => Syn.Reference(None, false, Syn.Path(p))
    case Object => Syn.Named("JObject")
    case Vec(_, j) => Wrap("Vec", Canon(j))
    case HashMap(_, _, k, v) =>
      Syn.Path([Syn.Segment("HashMap", Syn.AngleBracketed([Syn.TypeArg(Canon(k)), Syn.TypeArg(Canon(v))]))])
    case Interface(_, c) =>
      Wrap("Box", Syn.TraitObject([Syn.TraitBound([Syn.Segment(c, Syn.NoArguments)]), Syn.LifetimeBound("a")]))
  }

  /** The Rust types kept inside a `JavaType` are those the classifier stores
      for the canonical spelling. */
  predicate Canonical(jt: JavaType) {
    match jt
    case Env(m, t) => t == Canon(jt)
    case Fallible(j, p) =>
      Canonical(j) && p == [Syn.Segment("Result", Syn.AngleBracketed([Syn.TypeArg(Canon(j))]))]
    case Optional(j, t) => Canonical(j) && t == Canon(j)
    case Reference(p) =>
      |p| == 1 && p[0].arguments.NoArguments? && p[0].ident != "JNIEnv" && ' ' !in p[0].ident
    case Vec(t, j) => Canonical(j) && t == Canon(j)
    case HashMap(k, v, jk, jv) => Canonical(jk) && Canonical(jv) && k == Canon(jk) && v == Canon(jv)
    case Interface(t, c) =>
      c != "crate" && t == Syn.TraitObject([Syn.TraitBound([Syn.Segment(c, Syn.NoArguments)]), Syn.LifetimeBound("local")])
    case _ => true
  }

  lemma WrapText(ident: string, arg: Syn.SynType)
    ensures Syn.TypeText(Wrap(ident, arg)) == ident + " < " + Syn.TypeText(arg) + " >"
  {
    var args := [Syn.TypeArg(arg)];
    var seg := Syn.Segment(ident, Syn.AngleBracketed(args));
    assert Syn.ArgText(args[0]) == Syn.TypeText(arg);
    assert Syn.ArgsText(args) == Syn.TypeText(arg);
    assert Syn.SegmentText(seg) == ident + " < " + Syn.TypeText(arg) + " >";
    assert Syn.PathText([seg]) == Syn.SegmentText(seg);
  }


  /** A printed type that starts with none of the table's first letters is not
      in the table. */
  lemma NotInTable(text: string)
    requires |text| > 0 && text[0] !in {'S', '&', '(', 'i', 'b', 'f', 'u'}
    ensures TableEntry(text).None? && text !in EnvTexts
  {
  }

  /** A reference to a single plain identifier other than `JNIEnv` is not in the
      table. */
  lemma RefNotInTable(ident: string)
    requires ident != "JNIEnv" && ' ' !in ident
    ensures TableEntry("& " + ident).None? && "& " + ident !in EnvTexts
  {
    var text := "& " + ident;
    assert text[0] == '&';
    NotStaticStr(ident);
    NotEnvText(ident);
  }

  lemma NotStaticStr(ident: string)
    requires ' ' !in ident
    ensures "& " + ident != "& 'static str"
  {
    if |ident| == 11 {
      assert ident[7] in ident;
      assert ("& " + ident)[9] == ident[7];
    }
  }

  lemma NotEnvText(ident: string)
    requires ident != "JNIEnv" && ' ' !in ident
    ensures "& " + ident !in EnvTexts
  {
    var text := "& " + ident;
    assert text[2..] == ident;
    if |ident| >= 4 {
      assert ident[3] in ident && text[5] == ident[3];
    }
    assert "& JNIEnv"[2..] == "JNIEnv";
  }

  lemma NamedText(n: string)
    ensures Syn.TypeText(Syn.Named(n)) == n
  {
    var seg := Syn.Segment(n, Syn.NoArguments);
    assert Syn.SegmentText(seg) == n;
    assert Syn.PathText([seg]) == n;
  }

  /** Every Java type is recognised from the Rust type a user writes for it:
      the classifier inverts `Canon`. */
  lemma {:induction false} ClassifyCanon(jt: JavaType)
    requires Canonical(jt)
    ensures Classify(Canon(jt)) == Ok(jt)
  {
    match jt {
      case Fallible(j, _) => ClassifyCanon(j); ClassifyWrapped(jt);
      case Optional(j, _) => ClassifyCanon(j); ClassifyWrapped(jt);
      case Vec(_, j) => ClassifyCanon(j); ClassifyWrapped(jt);
      case HashMap(_, _, k, v) => ClassifyCanon(k); ClassifyCanon(v); ClassifyMap(jt);
      case Interface(_, _) => ClassifyInterface(jt);
      case Reference(_) => ClassifyReference(jt);
      case Env(m, _) => ClassifyEnv(m);
      case _ => ClassifyLeaf(jt);
    }
  }

  /** `Result<T>`, `Option<T>` and `Vec<T>` are recognised when `T` is. */
  lemma ClassifyWrapped(jt: JavaType)
    requires jt.Fallible? || jt.Optional? || jt.Vec?
    requires Canonical(jt)
    requires Classify(Canon(jt.javaType)) == Ok(jt.javaType)
    ensures Classify(Canon(jt)) == Ok(jt)
  {
    var name := if jt.Fallible? then "Result" else if jt.Optional? then "Option" else "Vec";
    assert Canon(jt) == Wrap(name, Canon(jt.javaType));
    WrapText(name, Canon(jt.javaType));
    NotInTable(Syn.TypeText(Canon(jt)));
  }

  lemma ClassifyMap(jt: JavaType)
    requires jt.HashMap? && Canonical(jt)
    requires Classify(Canon(jt.javaKey)) == Ok(jt.javaKey)
    requires Classify(Canon(jt.javaValue)) == Ok(jt.javaValue)
    ensures Classify(Canon(jt)) == Ok(jt)
  {
    var args := [Syn.TypeArg(Canon(jt.javaKey)), Syn.TypeArg(Canon(jt.javaValue))];
    var seg := Syn.Segment("HashMap", Syn.AngleBracketed(args));
    assert Canon(jt) == Syn.Path([seg]);
    var text := Syn.SegmentText(seg);
    assert text == "HashMap" + " < " + Syn.ArgsText(args) + " >";
    assert text[0] == 'H';
    assert Syn.TypeText(Canon(jt)) == text;
    NotInTable(text);
  }

  lemma ClassifyInterface(jt: JavaType)
    requires jt.Interface? && Canonical(jt)
    ensures Classify(Canon(jt)) == Ok(jt)
  {
    var c := jt.className;
    var t := Syn.TraitObject([Syn.TraitBound([Syn.Segment(c, Syn.NoArguments)]), Syn.LifetimeBound("a")]);
    WrapText("Box", t);
    NotInTable(Syn.TypeText(Canon(jt)));
    assert NonCrateIdents([Syn.Segment(c, Syn.NoArguments)]) == [c];
    assert FirstLifetime(t.bounds) == Some(1);
    assert t.bounds[1 := Syn.LifetimeBound("local")] == [Syn.TraitBound([Syn.Segment(c, Syn.NoArguments)]), Syn.LifetimeBound("local")];
  }

  lemma ClassifyReference(jt: JavaType)
    requires jt.Reference? && Canonical(jt)
    ensures Classify(Canon(jt)) == Ok(jt)
  {
    var p := jt.path;
    assert Syn.SegmentText(p[0]) == p[0].ident;
    assert Syn.TypeText(Syn.Path(p)) == p[0].ident;
    assert Syn.TypeText(Canon(jt)) == "& " + "" + "" + p[0].ident;
    assert "& " + "" + "" + p[0].ident == "& " + p[0].ident;
    RefNotInTable(p[0].ident);
  }

  /** The types named by one table entry. */
  lemma ClassifyLeaf(jt: JavaType)
    requires jt in {String, This, Void, Integer, Long, Boolean, Float, Double, Short, Char, Byte, Object}
    ensures Classify(Canon(jt)) == Ok(jt)
  {
    match jt {
      case Object => NamedText("JObject"); NotInTable("JObject");
      case String => NamedText("String");
      case This => NamedText("Self");
      case Void =>
      case Integer => NamedText("i32");
      case Long => NamedText("i64");
      case Boolean => NamedText("bool");
      case Float => NamedText("f32");
      case Double => NamedText("f64");
      case Short => NamedText("i16");
      case Char => NamedText("u16");
      case Byte => NamedText("i8");
    }
  }

  /** `&JNIEnv` and `&mut JNIEnv` are recognised by their printed text. */
  lemma ClassifyEnv(m: bool)
    ensures Classify(Canon(Env(m, Canon(Env(m, Syn.Tuple([])))))) == Ok(Env(m, Canon(Env(m, Syn.Tuple([])))))
  {
    var ty := Canon(Env(m, Syn.Tuple([])));
    var text := Syn.TypeText(ty);
    NamedText("JNIEnv");
    assert text == "& " + (if m then "mut " else "") + "JNIEnv";
    if m {
      assert text == "& mut JNIEnv" && text[..5] == "& mut";
    } else {
      assert text == "& JNIEnv" && text[..5][2] != "& mut"[2];
    }
  }

  /** The same holds for a plain function argument written with that type. */
  lemma ClassifyArgCanon(jt: JavaType, pat: string)
    requires Canonical(jt)
    ensures ClassifyArg(Syn.Typed([], pat, Canon(jt))) == Ok(jt)
  {
    ClassifyCanon(jt);
    assert Traits.GetJniAttr([]).None?;
    var ty := Canon(jt);
    if jt.Env? {
      assert MatchTyped(ty, None) == Ok(Some(jt));
    } else if jt in {String, This, Void, Integer, Long, Boolean, Float, Double, Short, Char, Byte} {
      LeafNotMatched(jt);
    } else {
      var text := Syn.TypeText(ty);
      assert TableEntry(text).None? && text !in EnvTexts;
    }
  }

  /** The types named by the table are not structural cases. */
  lemma LeafNotMatched(jt: JavaType)
    requires jt in {String, This, Void, Integer, Long, Boolean, Float, Double, Short, Char, Byte}
    ensures MatchTyped(Canon(jt), None) == Ok(None)
  {
  }

  /** `&'static str` is a String as a nested or return type, but as an argument
      `match_typed` runs first and makes it a reference to `str`. */
  lemma StaticStr(pat: string)
    ensures Classify(Syn.Reference(Some("static"), false, Syn.Named("str"))) == Ok(String)
    ensures ClassifyArg(Syn.Typed([], pat, Syn.Reference(Some("static"), false, Syn.Named("str"))))
            == Ok(Reference([Syn.Segment("str", Syn.NoArguments)]))
  {
    assert Syn.TypeText(Syn.Reference(Some("static"), false, Syn.Named("str"))) == "& 'static str";
  }

  /** A mutable reference to anything but `JNIEnv` is rejected. */
  lemma MutableReferenceRejected(attrs: seq<Syn.Attribute>, pat: string, lt: Option<string>, segs: seq<Syn.Segment>)
    requires |segs| > 0 && segs[|segs| - 1].ident != "JNIEnv"
    ensures ClassifyArg(Syn.Typed(attrs, pat, Syn.Reference(lt, true, Syn.Path(segs))))
            == Err("Mutable references are not supported")
  {
  }

  /** A reference to `JNIEnv`, however qualified, is `Env`, mutable iff `&mut`. */
  lemma EnvReference(attrs: seq<Syn.Attribute>, pat: string, lt: Option<string>, m: bool, segs: seq<Syn.Segment>)
    requires |segs| > 0 && segs[|segs| - 1].ident == "JNIEnv"
    ensures ClassifyArg(Syn.Typed(attrs, pat, Syn.Reference(lt, m, Syn.Path(segs))))
            == Ok(Env(m, Syn.Reference(lt, m, Syn.Path(segs))))
  {
  }

  /** A plain name outside the table and the structural cases is unsupported. */
  lemma UnknownName(n: string)
    requires |n| > 0 && n[0] !in {'S', '&', '(', 'i', 'b', 'f', 'u'} && n != "JObject"
    ensures Classify(Syn.Named(n)) == Err("Unsupported type: '" + n + "'")
  {
    NamedText(n);
    NotInTable(n);
  }

  /** `HashMap<K>` with a single argument uses it as both key and value. */
  lemma HashMapOneArgument(k: Syn.SynType)
    requires Classify(k).Ok?
    ensures Classify(Syn.Path([Syn.Segment("HashMap", Syn.AngleBracketed([Syn.TypeArg(k)]))]))
            == Ok(HashMap(k, k, Classify(k).value, Classify(k).value))
  {
    var ty := Wrap("HashMap", k);
    WrapText("HashMap", k);
    NotInTable(Syn.TypeText(ty));
  }

  // ---------------------------------------------------------------------
  // Imports and throws

  /** The package of the runtime library's Java classes. */
  const BindgenPackage := "com.github.markusjx.jnibindgen."
  const ExceptionClass := "NativeExecutionException"
  const NativeExecutionImport := BindgenPackage + ExceptionClass

  /** `throws` */
  function Throws(jt: JavaType): (r: Option<string>)
    ensures r.Some? <==> jt.Fallible?
    ensures r.Some? ==> r.value == " throws NativeExecutionException"
  {
    if jt.Fallible? then Some(" throws NativeExecutionException") else None
  }

  /** `get_imports` */
  function Imports(jt: JavaType): (r: set<string>)
    ensures r <= {"java.util.List", "java.util.Map", NativeExecutionImport}
    ensures jt.Vec? ==> "java.util.List" in r
    ensures jt.HashMap? ==> "java.util.Map" in r
    ensures Throws(jt).Some? ==> NativeExecutionImport in r
  {
    match jt
    case Vec(_, j) => {"java.util.List"} + Imports(j)
    case HashMap(_, _, k, v) => {"java.util.Map"} + Imports(k) + Imports(v)
    case Optional(j, _) => Imports(j)
    case Fallible(j, _) => {NativeExecutionImport} + Imports(j)
    case _ => {}
  }

  /** The type and the types nested in it through Vec, HashMap, Option and Result. */
  function Parts(jt: JavaType): set<JavaType> {
    {jt} + match jt
      case Vec(_, j) => Parts(j)
      case HashMap(_, _, k, v) => Parts(k) + Parts(v)
      case Optional(j, _) => Parts(j)
      case Fallible(j, _) => Parts(j)
      case _ => {}
  }

  /** The import each kind of type needs by itself. */
  function OwnImport(jt: JavaType): set<string> {
    if jt.Vec? then {"java.util.List"}
    else if jt.HashMap? then {"java.util.Map"}
    else if jt.Fallible? then {NativeExecutionImport}
    else {}
  }

  /** The imports of a type are exactly the own imports of its parts. */
  lemma {:induction false} ImportsOfParts(jt: JavaType, imp: string)
    ensures imp in Imports(jt) <==> exists p :: p in Parts(jt) && imp in OwnImport(p)
  {
    assert jt in Parts(jt);
    match jt {
      case Vec(_, j) =>
        ImportsOfParts(j, imp);
        assert Imports(jt) == OwnImport(jt) + Imports(j) && Parts(jt) == {jt} + Parts(j);
      case HashMap(_, _, k, v) =>
        ImportsOfParts(k, imp);
        ImportsOfParts(v, imp);
        assert Imports(jt) == OwnImport(jt) + Imports(k) + Imports(v);
        assert Parts(jt) == {jt} + Parts(k) + Parts(v);
      case Optional(j, _) =>
        ImportsOfParts(j, imp);
        assert Imports(jt) == OwnImport(jt) + Imports(j) && Parts(jt) == {jt} + Parts(j);
      case Fallible(j, _) =>
        ImportsOfParts(j, imp);
        assert Imports(jt) == OwnImport(jt) + Imports(j) && Parts(jt) == {jt} + Parts(j);
      case _ =>
        assert Parts(jt) == {jt};
    }
  }


  // ---------------------------------------------------------------------
  // Java declaration text

  /** `as_declaration`: the Java type text, None for `JNIEnv` (no Java
      parameter); Err models the panic on an unsupported `Option` payload. */
  function AsDeclaration(jt: JavaType): (r: Result<Option<string>, string>)
    ensures IsPrimitive(jt) ==> r.Ok? && r.value.Some? && r.value.value == PrimitiveKeyword(jt)
    ensures jt.Env? ==> r == Ok(None)
  {
    match jt
    case String => Ok(Some("String"))
    case This => Ok(Some("long"))
    case Void => Ok(Some("void"))
    case Integer => Ok(Some("int"))
    case Long => Ok(Some("long"))
    case Boolean => Ok(Some("boolean"))
    case Float => Ok(Some("float"))
    case Double => Ok(Some("double"))
    case Short => Ok(Some("short"))
    case Char => Ok(Some("char"))
    case Byte => Ok(Some("byte"))
    case Optional(j, _) =>
      if j == String then Ok(Some("String"))
      else if IsPrimitive(j) then Ok(Some(BoxedName(j)))
      else if j.Reference? then Ok(Some(Syn.PathText(j.path)))
      else if j.Vec? then
        var d :- AsDeclaration(j.javaType);
        Ok(ListOf(d))
      else if j.HashMap? then
        var dk :- AsDeclaration(j.javaKey);
        if dk.None? then Ok(None)
        else
          var dv :- AsDeclaration(j.javaValue);
          Ok(MapOf(dk.value, dv))
      else
        var d :- AsDeclaration(j);
        Err("Unsupported option type: " + (if d.Some? then d.value else "Env"))
    case Fallible(j, _) => AsDeclaration(j)
    case Env(_, _) => Ok(None)
    case Reference(p) => Ok(Some(Syn.PathText(p)))
    case Object => Ok(Some("Object"))
    case Vec(_, j) =>
      var d :- AsDeclaration(j);
      Ok(ListOf(d))
    case HashMap(_, _, k, v) =>
      var dk :- AsDeclaration(k);
      if dk.None? then Ok(None)
      else
        var dv :- AsDeclaration(v);
        Ok(MapOf(dk.value, dv))
    case Interface(_, c) => Ok(Some(c))
  }

  /** `List<E>`; a list of `JNIEnv` has no Java text. */
  function ListOf(elem: Option<string>): Option<string> {
    if elem.None? then None else Some("List<" + elem.value + ">")
  }

  /** `Map<K, V>`; a map onto `JNIEnv` has no Java text. */
  function MapOf(key: string, value: Option<string>): Option<string> {
    if value.None? then None else Some("Map<" + key + ", " + value.value + ">")
  }

  /** The Java keyword of a primitive. */
  function PrimitiveKeyword(jt: JavaType): string
    requires IsPrimitive(jt)
  {
    match jt
    case Integer => "int"
    case Long => "long"
    case Boolean => "boolean"
    case Float => "float"
    case Double => "double"
    case Short => "short"
    case Char => "char"
    case Byte => "byte"
  }

  /** The java.lang wrapper class of a primitive. */
  function BoxedName(jt: JavaType): string
    requires IsPrimitive(jt)
  {
    match jt
    case Integer => "Integer"
    case Long => "Long"
    case Boolean => "Boolean"
    case Float => "Float"
    case Double => "Double"
    case Short => "Short"
    case Char => "Character"
    case Byte => "Byte"
  }

  /** `Option` of a primitive is declared as its wrapper class, and the
      descriptor names that same class in java/lang. */
  lemma OptionalPrimitive(j: JavaType, t: Syn.SynType)
    requires IsPrimitive(j)
    ensures AsDeclaration(Optional(j, t)) == Ok(Some(BoxedName(j)))
    ensures AsJniDeclaration(Optional(j, t)) == Ok(ClassDescriptor("java/lang/" + BoxedName(j)))
  {
    match j {
      case Integer => assert "java/lang/" + "Integer" == "java/lang/Integer";
      case Long => assert "java/lang/" + "Long" == "java/lang/Long";
      case Boolean => assert "java/lang/" + "Boolean" == "java/lang/Boolean";
      case Float => assert "java/lang/" + "Float" == "java/lang/Float";
      case Double => assert "java/lang/" + "Double" == "java/lang/Double";
      case Short => assert "java/lang/" + "Short" == "java/lang/Short";
      case Char => assert "java/lang/" + "Character" == "java/lang/Character";
      case Byte => assert "java/lang/" + "Byte" == "java/lang/Byte";
    }
  }

  /** Nested options are not declarable: `Option<Option<T>>` panics. */
  lemma NestedOptionPanics(j: JavaType, t: Syn.SynType, u: Syn.SynType)
    ensures AsDeclaration(Optional(Optional(j, t), u)).Err?
  {
  }

  // ---------------------------------------------------------------------
  // JNI types and sentinels

  /** The `jni::sys` types a bridge returns. */
  datatype JniType = JString | JLong | Unit | JInt | JBoolean | JFloat | JDouble | JShort | JChar | JByte | JObject

  /** The value a bridge returns after it threw: `null_mut()`, `0`, nothing,
      `JNI_FALSE` or `0.0`. */
  datatype Sentinel = NullMut | Zero | NoValue | JniFalse | ZeroFloat

  /** `as_jni_return_type` */
  function AsJniReturnType(jt: JavaType): (r: Result<JniType, string>)
  {
    match jt
    case String => Ok(JString)
    case This => Ok(JLong)
    case Void => Ok(Unit)
    case Integer => Ok(JInt)
    case Long => Ok(JLong)
    case Boolean => Ok(JBoolean)
    case Float => Ok(JFloat)
    case Double => Ok(JDouble)
    case Short => Ok(JShort)
    case Char => Ok(JChar)
    case Byte => Ok(JByte)
    case Optional(_, _) => Ok(JObject)
    case Object => Ok(JObject)
    case Vec(_, _) => Ok(JObject)
    case HashMap(_, _, _, _) => Ok(JObject)
    case Fallible(j, _) => AsJniReturnType(j)
    case Env(_, _) => Err("Env is not a valid Java type")
    case Reference(_) => Err("A reference to a type cannot be returned")
    case Interface(_, _) => Err("Interfaces cannot be returned")
  }

  /** `error_return_val` */
  function ErrorReturnVal(jt: JavaType): (r: Result<Sentinel, string>)
  {
    match jt
    case String => Ok(NullMut)
    case Optional(_, _) => Ok(NullMut)
    case Object => Ok(NullMut)
    case Vec(_, _) => Ok(NullMut)
    case HashMap(_, _, _, _) => Ok(NullMut)
    case This => Ok(Zero)
    case Integer => Ok(Zero)
    case Long => Ok(Zero)
    case Short => Ok(Zero)
    case Char => Ok(Zero)
    case Byte => Ok(Zero)
    case Void => Ok(NoValue)
    case Boolean => Ok(JniFalse)
    case Float => Ok(ZeroFloat)
    case Double => Ok(ZeroFloat)
    case Fallible(j, _) => ErrorReturnVal(j)
    case Env(_, _) => Err("Env is not a valid Java type")
    case Reference(_) => Err("A reference to a type cannot be returned")
    case Interface(_, _) => Err("Interfaces cannot be returned")
  }

  /** A sentinel is a value of the JNI type: a null pointer for object handles,
      integer zero for integral types, JNI_FALSE for jboolean, 0.0 for floating
      types, and nothing for unit. */
  predicate Fits(s: Sentinel, t: JniType) {
    match s
    case NullMut => t in {JString, JObject}
    case Zero => t in {JLong, JInt, JShort, JChar, JByte}
    case NoValue => t == Unit
    case JniFalse => t == JBoolean
    case ZeroFloat => t in {JFloat, JDouble}
  }

  /** The sentinel exists exactly when the return type does, fails with the same
      message, and is a value of that return type: every early return of a
      bridge is well typed. */
  lemma {:induction false} SentinelFitsReturnType(jt: JavaType)
    ensures ErrorReturnVal(jt).Ok? <==> AsJniReturnType(jt).Ok?
    ensures ErrorReturnVal(jt).Err? ==> ErrorReturnVal(jt).error == AsJniReturnType(jt).error
    ensures ErrorReturnVal(jt).Ok? ==> Fits(ErrorReturnVal(jt).value, AsJniReturnType(jt).value)
  {
    if jt.Fallible? {
      SentinelFitsReturnType(jt.javaType);
    }
  }

  /** `is_void`: `()`, or with `check_result` also `Result<()>` at any depth. */
  function IsVoid(jt: JavaType, checkResult: bool): bool {
    match jt
    case Void => true
    case Fallible(j, _) => checkResult && IsVoid(j, checkResult)
    case _ => false
  }

  /** A type counts as void (Result unwrapped) exactly when its bridge returns
      unit and its sentinel is "no value". */
  lemma {:induction false} VoidMeansUnit(jt: JavaType)
    ensures IsVoid(jt, true) <==> AsJniReturnType(jt) == Ok(Unit)
    ensures IsVoid(jt, true) <==> ErrorReturnVal(jt) == Ok(NoValue)
    ensures IsVoid(jt, false) <==> jt == Void
  {
    if jt.Fallible? {
      VoidMeansUnit(jt.javaType);
    }
  }

  // ---------------------------------------------------------------------
  // Descriptors

  /** The ObjectType descriptor of a class given in internal form. */
  function ClassDescriptor(internal: string): string {
    "L" + internal + ";"
  }

  /** `as_jni_declaration`; Err models its panics. */
  function AsJniDeclaration(jt: JavaType): (r: Result<string, string>)
  {
    match jt
    case String => Ok(ClassDescriptor("java/lang/String"))
    case This => Err("Self is not a valid argument for a JNI method")
    case Void => Ok("V")
    case Integer => Ok("I")
    case Long => Ok("J")
    case Boolean => Ok("Z")
    case Float => Ok("F")
    case Double => Ok("D")
    case Short => Ok("S")
    case Char => Ok("C")
    case Byte => Ok("B")
    case Env(_, _) => Err("Env is not a valid argument for a JNI method")
    case Fallible(j, _) => AsJniDeclaration(j)
    case Optional(j, _) => OptionalDescriptor(j)
    case Reference(_) => Err("A reference to a type cannot be passed")
    case Object => Ok(ClassDescriptor("java/lang/Object"))
    case Vec(_, _) => Ok(ClassDescriptor("java/util/List"))
    case HashMap(_, _, _, _) => Ok(ClassDescriptor("java/util/Map"))
    case Interface(_, c) => Ok(Descriptors.ObjectDescriptor(c))
  }

  /** The descriptor of `Option<T>`: the wrapper class of a primitive, the
      descriptor of `T` otherwise; `Option<Result<T>>` is that of `T`. */
  function OptionalDescriptor(j: JavaType): (r: Result<string, string>)
    decreases j, 1
  {
    match j
    case String => Ok(ClassDescriptor("java/lang/String"))
    case This => Err("Self is not a valid argument for a JNI method")
    case Void => Ok("V")
    case Integer => Ok(ClassDescriptor("java/lang/Integer"))
    case Long => Ok(ClassDescriptor("java/lang/Long"))
    case Boolean => Ok(ClassDescriptor("java/lang/Boolean"))
    case Float => Ok(ClassDescriptor("java/lang/Float"))
    case Double => Ok(ClassDescriptor("java/lang/Double"))
    case Short => Ok(ClassDescriptor("java/lang/Short"))
    case Char => Ok(ClassDescriptor("java/lang/Character"))
    case Byte => Ok(ClassDescriptor("java/lang/Byte"))
    case Env(_, _) => Err("Env is not a valid argument for a JNI method")
    case Fallible(k, _) => AsJniDeclaration(k)
    case Optional(_, _) => Err("Option is not a valid argument for a JNI method")
    case Reference(_) => Err("A reference to a type cannot be passed")
    case Object => Ok(ClassDescriptor("java/lang/Object"))
    case Vec(_, _) => Ok(ClassDescriptor("java/util/List"))
    case HashMap(_, _, _, _) => Ok(ClassDescriptor("java/util/Map"))
    case Interface(_, c) => Ok(Descriptors.ObjectDescriptor(c))
  }

  /** The interface class names a descriptor of `jt` would spell. */
  predicate DescriptorNamesValid(jt: JavaType) {
    match jt
    case Interface(_, c) => Descriptors.IsDottedName(c)
    case Fallible(j, _) => DescriptorNamesValid(j)
    case Optional(j, _) => DescriptorNamesValid(j)
    case _ => true
  }

  /** "V" comes only from `()`, possibly under Result or Option. */
  predicate VoidLike(jt: JavaType) {
    match jt
    case Void => true
    case Fallible(j, _) => VoidLike(j)
    case Optional(j, _) => VoidLike(j)
    case _ => false
  }

  lemma ClassDescriptorValid(internal: string)
    requires Descriptors.IsInternalName(internal)
    ensures Descriptors.IsFieldDescriptor(ClassDescriptor(internal))
  {
    Descriptors.ReferenceDescriptorValid(internal);
  }

  /** Every descriptor the generator writes is a FieldDescriptor of section 4.3.2
      of the Java Virtual Machine Specification, or "V" for a void-like type. */
  lemma {:induction false} DescriptorConforms(jt: JavaType)
    requires DescriptorNamesValid(jt)
    requires AsJniDeclaration(jt).Ok?
    ensures Descriptors.IsFieldDescriptor(AsJniDeclaration(jt).value)
            || (AsJniDeclaration(jt).value == "V" && VoidLike(jt))
  {
    Descriptors.JdkClassNames();
    match jt {
      case Fallible(j, _) => DescriptorConforms(j);
      case Optional(j, _) => OptionalDescriptorConforms(j);
      case Interface(_, c) => Descriptors.ObjectDescriptorValid(c);
      case String => ClassDescriptorValid("java/lang/String");
      case Object => ClassDescriptorValid("java/lang/Object");
      case Vec(_, _) => ClassDescriptorValid("java/util/List");
      case HashMap(_, _, _, _) => ClassDescriptorValid("java/util/Map");
      case _ =>
    }
  }

  lemma {:induction false} OptionalDescriptorConforms(j: JavaType)
    requires DescriptorNamesValid(j)
    requires OptionalDescriptor(j).Ok?
    ensures Descriptors.IsFieldDescriptor(OptionalDescriptor(j).value)
            || (OptionalDescriptor(j).value == "V" && VoidLike(j))
  {
    Descriptors.JdkClassNames();
    Descriptors.BoxedClassNames();
    match j {
      case Fallible(k, _) => DescriptorConforms(k);
      case Interface(_, c) => Descriptors.ObjectDescriptorValid(c);
      case String => ClassDescriptorValid("java/lang/String");
      case Object => ClassDescriptorValid("java/lang/Object");
      case Vec(_, _) => ClassDescriptorValid("java/util/List");
      case HashMap(_, _, _, _) => ClassDescriptorValid("java/util/Map");
      case Integer => ClassDescriptorValid("java/lang/Integer");
      case Long => ClassDescriptorValid("java/lang/Long");
      case Boolean => ClassDescriptorValid("java/lang/Boolean");
      case Float => ClassDescriptorValid("java/lang/Float");
      case Double => ClassDescriptorValid("java/lang/Double");
      case Short => ClassDescriptorValid("java/lang/Short");
      case Char => ClassDescriptorValid("java/lang/Character");
      case Byte => ClassDescriptorValid("java/lang/Byte");
      case _ =>
    }
  }

  // ---------------------------------------------------------------------
  // Arguments of a bridge function

  /** `JavaArg`: the classified type and the declaration it came from (None for
      the synthetic receiver of `drop`). */
  datatype JavaArg = JavaArg(javaType: JavaType, decl: Option<Syn.FnArg>)

  /** `JavaArg::this()` */
  function ThisArg(): (r: JavaArg)
    ensures IsSelf(r) && r.javaType == This
  {
    JavaArg(This, None)
  }

  /** `JavaArg::from_declaration` */
  function ArgFromDeclaration(decl: Syn.FnArg): (r: Result<JavaArg, string>)
    ensures r.Ok? <==> ClassifyArg(decl).Ok?
    ensures r.Ok? ==> r.value.javaType == ClassifyArg(decl).value && r.value.decl == Some(decl)
  {
    var t :- ClassifyArg(decl);
    Ok(JavaArg(t, Some(decl)))
  }

  /** `is_self`: a receiver declaration, or the synthetic `this()` argument. */
  predicate IsSelf(a: JavaArg) {
    if a.decl.Some? then a.decl.value.Receiver? else a.javaType == This
  }

  predicate IsEnv(a: JavaArg) {
    a.javaType.Env?
  }

  /** The type of a bridge parameter. */
  datatype JniArgType = LocalString | LocalObject | Primitive(jni: JniType)

  /** `as_jni_fn_arg`: None for `JNIEnv`, which the bridge does not take. */
  function AsJniFnArg(a: JavaArg): (r: Result<Option<JniArgType>, string>)
    ensures r == Ok(None) <==> !IsSelf(a) && IsEnv(a)
    ensures r.Err? <==> IsSelf(a) || a.javaType in {This, Void} || a.javaType.Fallible?
    ensures r.Ok? && r.value.Some? && r.value.value.Primitive? ==>
              IsPrimitive(a.javaType) && AsJniReturnType(a.javaType) == Ok(r.value.value.jni)
  {
    if IsSelf(a) then Err("Self is not a valid argument for a JNI method")
    else
      match a.javaType
      case String => Ok(Some(LocalString))
      case This => Err("Self is not a valid argument for a JNI method")
      case Env(_, _) => Ok(None)
      case Void => Err("Void is not a valid argument for a JNI method")
      case Fallible(_, _) => Err("Result is not a valid argument for a JNI method")
      case Optional(_, _) => Ok(Some(LocalObject))
      case Reference(_) => Ok(Some(LocalObject))
      case Object => Ok(Some(LocalObject))
      case Vec(_, _) => Ok(Some(LocalObject))
      case HashMap(_, _, _, _) => Ok(Some(LocalObject))
      case Interface(_, _) => Ok(Some(LocalObject))
      case _ => Ok(Some(Primitive(AsJniReturnType(a.javaType).value)))
  }

  /** The runtime conversions an argument getter calls. */
  datatype Conversion =
    | GetString                                   // env.get_string(..)
    | OptionFromJni(prim: JavaType)               // option_convert::*_from_jni
    | OptionalRef(path: seq<Syn.Segment>)         // null -> None, else <&T>::from_jni
    | OptionalVec(elem: Syn.SynType)              // null -> None, else into_vec
    | OptionalMap(key: Syn.SynType, value: Syn.SynType)
    | IntoVec(elem: Syn.SynType)
    | IntoMap(key: Syn.SynType, value: Syn.SynType)
    | BoxFromJni(iface: Syn.SynType)

  /** The statement that turns a bridge parameter into the user function's
      argument. */
  datatype GetterCode =
    | Checked(conv: Conversion, sentinel: Sentinel)      // match_error(..)
    | NullChecked(path: seq<Syn.Segment>, sentinel: Sentinel)
    | Cast(to: JavaType)                                 // `as T`, `== JNI_TRUE`
    | Pass                                               // a JObject is passed on
    | NoCode                                             // ()

  /** `JNIArgGetter` */
  datatype ArgGetter = Getter(code: GetterCode) | ArgName(name: string)

  /** `as_jni_arg_getter`: the sentinel of every early return is the one of the
      method's return type (or of `()` when it returns nothing). */
  function AsJniArgGetter(a: JavaArg, retTy: Option<JavaType>): (r: Result<ArgGetter, string>)
    ensures IsSelf(a) ==> r.Err?
    ensures !IsSelf(a) && a.javaType.Env? ==>
              r == Ok(ArgName(if a.javaType.mutable then "&mut env" else "&env"))
    ensures r.Ok? && r.value.Getter? && (r.value.code.Checked? || r.value.code.NullChecked?) ==>
              ErrorReturnVal(retTy.GetOr(Void)) == Ok(r.value.code.sentinel)
  {
    var ret := retTy.GetOr(Void);
    if IsSelf(a) then Err("Self is not a valid argument for a JNI method")
    else
      match a.javaType
      case String => MatchError(ret, GetString)
      case Env(m, _) => Ok(ArgName(if m then "&mut env" else "&env"))
      case This => Err("Self is not a valid argument for a JNI method")
      case Void => Ok(Getter(NoCode))
      case Fallible(_, _) => Err("Result is not a valid argument for a JNI method")
      case Optional(j, _) =>
        if IsPrimitive(j) || j == String then MatchError(ret, OptionFromJni(j))
        else if j.Reference? then MatchError(ret, OptionalRef(j.path))
        else if j.Vec? then MatchError(ret, OptionalVec(j.ty))
        else if j.HashMap? then MatchError(ret, OptionalMap(j.key, j.value))
        else Err("Unsupported option type")
      case Reference(p) =>
        var s :- ErrorReturnVal(ret);
        Ok(Getter(NullChecked(p, s)))
      case Object => Ok(Getter(Pass))
      case Vec(t, _) => MatchError(ret, IntoVec(t))
      case HashMap(k, v, _, _) => MatchError(ret, IntoMap(k, v))
      case Interface(t, _) => MatchError(ret, BoxFromJni(t))
      case _ => Ok(Getter(Cast(a.javaType)))
  }

  /** `match_error`: wraps a conversion so that a failure returns the sentinel. */
  function MatchError(ret: JavaType, conv: Conversion): (r: Result<ArgGetter, string>)
    ensures r.Ok? <==> ErrorReturnVal(ret).Ok?
    ensures r.Ok? ==> r.value == Getter(Checked(conv, ErrorReturnVal(ret).value))
  {
    var s :- ErrorReturnVal(ret);
    Ok(Getter(Checked(conv, s)))
  }

  /** What a getter does at run time: go on with the value, or return the
      sentinel from the bridge, leaving the exception it threw (if any) pending. */
  datatype Step = Proceed | EarlyReturn(value: Sentinel, thrown: Option<JniError.Thrown>)

  /** The reference getter: a null handle throws NullPointerException, a failed
      lookup throws RuntimeException with the error's text. */
  function RunNullChecked(code: GetterCode, isNull: bool, lookup: Result<(), string>): (r: Step)
    requires code.NullChecked?
  {
    if isNull then EarlyReturn(code.sentinel, Some(JniError.Thrown("java/lang/NullPointerException", "The pointer is null")))
    else if lookup.Err? then EarlyReturn(code.sentinel, Some(JniError.Thrown("java/lang/RuntimeException", lookup.error)))
    else Proceed
  }

  /** `match_error` at run time: on failure, a pending exception is left alone,
      otherwise the error is thrown. */
  function RunChecked(code: GetterCode, result: Result<(), JniError.JNIError>, pending: bool): (r: Step)
    requires code.Checked?
  {
    if result.Ok? then Proceed
    else if pending then EarlyReturn(code.sentinel, None)
    else EarlyReturn(code.sentinel, Some(JniError.Thrown(JniError.ThrownClass(result.error), result.error.message)))
  }

  /** A null reference argument never reaches the user function: the bridge
      throws NullPointerException "The pointer is null" and returns the
      sentinel of its return type. */
  lemma NullReferenceArgument(a: JavaArg, retTy: Option<JavaType>, lookup: Result<(), string>)
    requires !IsSelf(a) && a.javaType.Reference?
    requires AsJniArgGetter(a, retTy).Ok?
    ensures var g := AsJniArgGetter(a, retTy).value;
            g.Getter? && g.code.NullChecked?
            && RunNullChecked(g.code, true, lookup)
               == EarlyReturn(ErrorReturnVal(retTy.GetOr(Void)).value,
                              Some(JniError.Thrown("java/lang/NullPointerException", "The pointer is null")))
  {
  }

  /** The reference getter exists exactly when the return type has a sentinel. */
  lemma ReferenceGetterNeedsSentinel(a: JavaArg, retTy: Option<JavaType>)
    requires !IsSelf(a) && a.javaType.Reference?
    ensures AsJniArgGetter(a, retTy).Ok? <==> ErrorReturnVal(retTy.GetOr(Void)).Ok?
  {
  }

  // ---------------------------------------------------------------------
  // Return values of a bridge function

  /** The runtime conversions a return value goes through. */
  datatype OutConversion =
    | OptionIntoJni(prim: JavaType)               // option_convert::*_into_jni
    | OptionalVecOut(elem: Syn.SynType)           // None -> null, else from_vec
    | OptionalMapOut(key: Syn.SynType, value: Syn.SynType)
    | FromVec(elem: Syn.SynType)
    | FromMap(key: Syn.SynType, value: Syn.SynType)

  /** The expression that turns the user function's result into the bridge's
      return value. */
  datatype ReturnCode =
    | NewString                                  // env.new_string(res), null on failure
    | IntoRawBox                                 // Box::into_raw(Box::new(res))
    | UnitValue                                  // ()
    | CastResult(to: JniType)                    // res as jint, ...
    | BoolToJni                                  // JNI_TRUE / JNI_FALSE
    | ObjectIntoRaw                              // res.into_raw()
    | ResultCode(onOk: ReturnCode, sentinel: Sentinel)
    | CheckedOut(conv: OutConversion, sentinel: Sentinel)

  /** `as_jni_return_val` */
  function AsJniReturnVal(jt: JavaType): (r: Result<ReturnCode, string>)
    ensures r.Ok? ==> AsJniReturnType(jt).Ok?
    ensures r.Ok? && r.value.ResultCode? ==> jt.Fallible? && ErrorReturnVal(jt) == Ok(r.value.sentinel)
  {
    match jt
    case String => Ok(NewString)
    case This => Ok(IntoRawBox)
    case Void => Ok(UnitValue)
    case Integer => Ok(CastResult(JInt))
    case Long => Ok(CastResult(JLong))
    case Boolean => Ok(BoolToJni)
    case Float => Ok(CastResult(JFloat))
    case Double => Ok(CastResult(JDouble))
    case Short => Ok(CastResult(JShort))
    case Char => Ok(CastResult(JChar))
    case Byte => Ok(CastResult(JByte))
    case Object => Ok(ObjectIntoRaw)
    case Fallible(j, _) =>
      var onOk :- AsJniReturnVal(j);
      var s :- ErrorReturnVal(j);
      Ok(ResultCode(onOk, s))
    case Env(_, _) => Err("Env is not a valid Java type")
    case Optional(j, _) =>
      var conv :-
        if IsPrimitive(j) || j == String then Ok(OptionIntoJni(j))
        else if j.Vec? then Ok(OptionalVecOut(j.ty))
        else if j.HashMap? then Ok(OptionalMapOut(j.key, j.value))
        else Err("Unsupported option type");
      Ok(CheckedOut(conv, NullMut))
    case Reference(_) => Err("A reference to a type cannot be returned")
    case Vec(t, _) => Ok(CheckedOut(FromVec(t), NullMut))
    case HashMap(k, v, _, _) => Ok(CheckedOut(FromMap(k, v), NullMut))
    case Interface(_, _) => Err("Interfaces cannot be returned")
  }

  /** A `Result` return at run time: an error is given the class
      NativeExecutionException unless it has one, then thrown (unless an
      exception is already pending) and the sentinel is returned. */
  function RunResult(code: ReturnCode, result: Result<(), JniError.JNIError>, pending: bool): (r: Step)
    requires code.ResultCode?
  {
    if result.Ok? then Proceed
    else
      var e := JniError.OrClass(result.error, JniError.NativeExecutionException);
      if pending then EarlyReturn(code.sentinel, None)
      else EarlyReturn(code.sentinel, Some(JniError.Thrown(JniError.ThrownClass(e), e.message)))
  }

  /** An error without a class (from `bail!`, a String or anyhow) that a method
      returns surfaces in Java as NativeExecutionException with its message;
      an error with a class keeps it. */
  lemma ResultErrorThrown(jt: JavaType, e: JniError.JNIError)
    requires jt.Fallible? && AsJniReturnVal(jt).Ok?
    ensures var code := AsJniReturnVal(jt).value;
            code.ResultCode?
            && RunResult(code, Err(e), false)
               == EarlyReturn(ErrorReturnVal(jt).value,
                              Some(JniError.Thrown(
                                if e.errorClass.None? then "com/github/markusjx/jnibindgen/NativeExecutionException"
                                else JniError.ClassName(e.errorClass.value),
                                e.message)))
  {
  }

  // ---------------------------------------------------------------------
  // Interface (callback) side: failure conditions only

  /** The failures of `as_interface_val`, which converts a Rust argument into a
      Java call argument. */
  function InterfaceValCheck(jt: JavaType): (r: Result<(), string>)
    ensures r.Ok? ==> !jt.Reference? && !jt.Env? && !jt.Fallible? && jt != This && jt != Void
  {
    match jt
    case This => Err("Self is not a valid argument for a JNI method")
    case Void => Err("Void is not a valid argument for a JNI method")
    case Env(_, _) => Err("Env is not a valid argument for a JNI method")
    case Fallible(_, _) => Err("Result is not a valid argument for a JNI method")
    case Optional(j, _) =>
      if IsPrimitive(j) || j == String || j.Vec? || j.HashMap? then Ok(())
      else Err("Unsupported option type")
    case Reference(_) => Err("A reference to a type cannot be passed")
    case _ => Ok(())
  }

  /** The panics of `as_rust_return_val`, which converts a Java call result back. */
  function RustReturnValCheck(jt: JavaType): (r: Result<(), string>)
  {
    match jt
    case This => Err("Self is not a valid argument for a JNI method")
    case Env(_, _) => Err("Env is not a valid argument for a JNI method")
    case Fallible(j, _) => RustReturnValCheck(j)
    case Optional(j, _) =>
      (match j
       case This => Err("Self is not a valid argument for a JNI method")
       case Env(_, _) => Err("Env is not a valid argument for a JNI method")
       case Fallible(_, _) => Err("Result is not a valid argument for a JNI method")
       case Optional(_, _) => Err("Option must not be nested")
       case _ => Ok(()))
    case Reference(_) => Err("A reference to a type cannot be passed")
    case _ => Ok(())
  }
}
