/** An exported trait: its methods, the proxy struct through which Rust calls
    a Java implementation of it, and the arguments of its Java interface
    (crates/jni-bindgen-macros/src/codegen/java_interface.rs). */
module JavaInterfaces {
  import opened Wrappers
  import Syn
  import Strings
  import Attrs
  import JavaTypes
  import JavaMethods
  import JniValues
  import Descriptors

  type JavaMethod = JavaMethods.JavaMethod

  /** `JavaInterface`: the trait's name, its methods, its Java package and
      the trait declaration itself. */
  datatype JavaInterface = JavaInterface(
    name: string,
    methods: seq<JavaMethod>,
    namespace: string,
    decl: Syn.ItemTrait)

  /** The error of a trait item that is not a function. */
  const OnlyFunctions := "Only functions are supported"

  // ---------------------------------------------------------------------
  // Reading the trait (`from_declaration`)

  /** A trait item read as a method: functions only. */
  function ItemMethod(item: Syn.TraitItem): (r: Result<JavaMethod, string>)
    ensures item.TraitOther? ==> r == Err(OnlyFunctions)
    ensures r.Ok? ==> r.value.decl == Some(JavaMethods.TraitDecl(item.fn))
  {
    match item
    case TraitFn(f) => JavaMethods.FromTraitFn(f)
    case TraitOther => Err(OnlyFunctions)
  }

  /** `from_declaration`: every item must read as a method, and then the
      arguments must name a package. */
  function FromDeclaration(decl: Syn.ItemTrait, args: Attrs.BindgenAttrs): (r: Result<JavaInterface, string>)
    ensures r.Ok? <==> (forall i :: 0 <= i < |decl.items| ==> ItemMethod(decl.items[i]).Ok?) && Attrs.GetNamespace(args).Ok?
    ensures r.Ok? ==> r.value.name == decl.ident && r.value.decl == decl
    ensures r.Ok? ==> Attrs.GetNamespace(args) == Ok(r.value.namespace)
    ensures r.Ok? ==> |r.value.methods| == |decl.items|
    ensures r.Ok? ==> forall i :: 0 <= i < |decl.items| ==> ItemMethod(decl.items[i]) == Ok(r.value.methods[i])
    ensures r.Err? && (forall i :: 0 <= i < |decl.items| ==> ItemMethod(decl.items[i]).Ok?) ==>
              r.error == "Missing namespace = \"...\" attribute"
  {
    var methods :- CollectAll(decl.items, ItemMethod);
    var namespace :- Attrs.GetNamespace(args);
    Ok(JavaInterface(decl.ident, methods, namespace, decl))
  }

  /** The items are read in order and the first that fails decides the error:
      a trait whose first failing item is not a function is refused with
      "Only functions are supported", whatever its arguments. */
  lemma OnlyFunctionsRefused(decl: Syn.ItemTrait, args: Attrs.BindgenAttrs, i: nat)
    requires i < |decl.items| && decl.items[i].TraitOther?
    requires forall j :: 0 <= j < i ==> ItemMethod(decl.items[j]).Ok?
    ensures FromDeclaration(decl, args) == Err(OnlyFunctions)
  {
    var r := CollectAll(decl.items, ItemMethod);
    if r.Err? {
      var k :| 0 <= k < |decl.items| && ItemMethod(decl.items[k]) == Err(r.error)
               && forall j :: 0 <= j < k ==> ItemMethod(decl.items[j]).Ok?;
    }
  }

  // ---------------------------------------------------------------------
  // The proxy struct (`as_jni_methods`)

  /** What `as_jni_methods` generates: a struct `{Name}Impl` holding the Java
      object, the trait implemented for it by one call into Java per method,
      and `FromJNI` for `Box<dyn Trait>`. */
  datatype Proxy = Proxy(structName: string, traitName: string, calls: seq<JavaMethods.TraitCall>)

  function AsJniMethods(it: JavaInterface): (r: Result<Proxy, string>)
    ensures r.Ok? <==> forall i :: 0 <= i < |it.methods| ==> JavaMethods.AsTraitMethod(it.methods[i]).Ok?
    ensures r.Ok? ==> r.value.structName == it.name + "Impl" && r.value.traitName == it.name
    ensures r.Ok? ==> |r.value.calls| == |it.methods|
    ensures r.Ok? ==> forall i :: 0 <= i < |it.methods| ==> JavaMethods.AsTraitMethod(it.methods[i]) == Ok(r.value.calls[i])
    ensures r.Err? ==> exists i :: 0 <= i < |it.methods| && JavaMethods.AsTraitMethod(it.methods[i]) == Err(r.error)
  {
    var calls :- CollectAll(it.methods, JavaMethods.AsTraitMethod);
    Ok(Proxy(it.name + "Impl", it.name, calls))
  }

  /** Each call of the proxy reaches the Java method named after the Rust
      method in camel case, with a well-formed descriptor that lists the
      descriptors of the arguments handed to Java and of the result. */
  lemma ProxyCallsResolve(it: JavaInterface, i: nat)
    requires AsJniMethods(it).Ok? && i < |it.methods|
    requires var m := it.methods[i];
             && (forall k :: 0 <= k < |JavaMethods.NonSelf(m.args)| ==>
                   JavaTypes.DescriptorNamesValid(JavaMethods.NonSelf(m.args)[k].javaType))
             && (m.returnType.Some? ==> JavaTypes.DescriptorNamesValid(m.returnType.value))
    ensures var c := AsJniMethods(it).value.calls[i];
            && c.javaName == Strings.ToCamel(it.methods[i].name)
            && Descriptors.ParseMethod(c.descriptor).Some?
            && |Descriptors.ParseMethod(c.descriptor).value.0| == |c.jArgs|
  {
    JavaMethods.TraitDescriptorParses(it.methods[i]);
  }

  /** The boxed trait object: the proxy struct around a Java reference. */
  datatype BoxedProxy = BoxedProxy(structName: string, obj: JniValues.JValue)

  /** `FromJNI for Box<dyn Trait>`: always succeeds and keeps the reference as
      it is; a null reference is not refused here, only by the first call. */
  function ProxyFromJni(p: Proxy, obj: JniValues.JValue): (r: Result<BoxedProxy, string>)
    ensures r.Ok?
    ensures r.value.obj == obj && r.value.structName == p.structName
  {
    Ok(BoxedProxy(p.structName, obj))
  }

  // ---------------------------------------------------------------------
  // The Java interface (`as_java_declaration`)

  /** Everything any method of the interface imports. */
  function AllImports(ms: seq<JavaMethod>): (r: set<string>)
    ensures forall x :: x in r <==> exists i :: 0 <= i < |ms| && x in JavaMethods.GetImports(ms[i])
    decreases |ms|
  {
    if |ms| == 0 then {}
    else
      assert forall i :: 1 <= i < |ms| ==> ms[i] == ms[1..][i - 1];
      JavaMethods.GetImports(ms[0]) + AllImports(ms[1..])
  }

  /** The interface's imports: the methods' imports except any that mentions
      the exception class, since interface methods declare no `throws`. */
  function InterfaceImports(ms: seq<JavaMethod>): (r: set<string>) {
    set x | x in AllImports(ms) && !Strings.Contains(x, JavaTypes.ExceptionClass)
  }

  /** Filtering by the class name removes exactly the exception import: the
      interface imports what its methods import, bar that one, and so at most
      `java.util.List` and `java.util.Map`. */
  lemma ImportsWithoutException(ms: seq<JavaMethod>)
    ensures forall x :: x in InterfaceImports(ms) <==> x in AllImports(ms) && x != JavaTypes.NativeExecutionImport
    ensures InterfaceImports(ms) <= {"java.util.List", "java.util.Map"}
  {
    Strings.ContainsMiddle(JavaTypes.BindgenPackage, JavaTypes.ExceptionClass, "");
    assert JavaTypes.BindgenPackage + JavaTypes.ExceptionClass + "" == JavaTypes.NativeExecutionImport;
    forall x | x in AllImports(ms) && x != JavaTypes.NativeExecutionImport
      ensures !Strings.Contains(x, JavaTypes.ExceptionClass) && x in {"java.util.List", "java.util.Map"}
    {
      var i :| 0 <= i < |ms| && x in JavaMethods.GetImports(ms[i]);
      ImportOfMethod(ms[i], x);
      if Strings.Contains(x, JavaTypes.ExceptionClass) {
        Strings.ContainsBound(x, JavaTypes.ExceptionClass);
      }
    }
  }

  /** A method imports only the list, the map and the exception class. */
  lemma ImportOfMethod(m: JavaMethod, x: string)
    requires x in JavaMethods.GetImports(m)
    ensures x in {"java.util.List", "java.util.Map", JavaTypes.NativeExecutionImport}
  {
    if m.returnType.Some? && x in JavaTypes.Imports(m.returnType.value) {
    } else {
      var i :| 0 <= i < |m.args| && x in JavaTypes.Imports(m.args[i].1.javaType);
    }
  }

  /** The Javadoc of the trait's doc comments, or nothing when it has none. */
  function InterfaceComment(attrs: seq<Syn.Attribute>): (r: string)
    ensures r == "" <==> |JavaMethods.DocLines(attrs)| == 0
    ensures r != "" ==> r == JavaMethods.Javadoc(JavaMethods.DocLines(attrs))
  {
    var lines := JavaMethods.DocLines(attrs);
    var text := Strings.Join(lines, "\n");
    assert |lines| > 0 ==> |text| > 0 by {
      if |lines| > 0 {
        Strings.JoinAt(lines, "\n", 0);
      }
    }
    if text == "" then "" else "/**\n" + text + "\n */\n"
  }

  /** What `as_java_declaration` hands to the interface template: the package,
      the name, the comment, the method declarations one per line and the
      imports. */
  datatype InterfaceDecl = InterfaceDecl(
    namespace: string,
    name: string,
    comment: string,
    methods: string,
    imports: set<string>)

  /** `as_java_declaration`, with `methodDecl` the declaration of one method
      in the interface. */
  function AsJavaDeclaration(it: JavaInterface, methodDecl: JavaMethod -> string): (r: InterfaceDecl)
    ensures r.namespace == it.namespace && r.name == it.name
    ensures JavaTypes.NativeExecutionImport !in r.imports
    ensures r.imports <= {"java.util.List", "java.util.Map"}
    ensures forall x :: x in r.imports <==> x in AllImports(it.methods) && x != JavaTypes.NativeExecutionImport
    ensures r.comment == "" <==> |JavaMethods.DocLines(it.decl.attrs)| == 0
  {
    ImportsWithoutException(it.methods);
    var decls := seq(|it.methods|, i requires 0 <= i < |it.methods| => methodDecl(it.methods[i]));
    InterfaceDecl(it.namespace, it.name, InterfaceComment(it.decl.attrs), Strings.Join(decls, "\n"),
                  InterfaceImports(it.methods))
  }
}
