/** An exported struct: the methods and constructors read from its `impl`
    block, the native bridges generated for it and its Java class
    (crates/jni-bindgen-macros/src/codegen/java_class.rs). */
module JavaClasses {
  import opened Wrappers
  import Syn
  import Strings
  import Attrs
  import Traits
  import JavaTypes
  import JavaMethods
  import Quotes
  import Code
  import JniNames

  type JavaMethod = JavaMethods.JavaMethod

  /** `JavaClass`: the struct's name, its exported methods and constructors,
      its Java package and the macro arguments. */
  datatype JavaClass = JavaClass(
    name: string,
    methods: seq<JavaMethod>,
    constructors: seq<JavaMethod>,
    namespace: string,
    attrs: Attrs.BindgenAttrs)

  // ---------------------------------------------------------------------
  // Reading the impl block (`from_declaration`)

  /** An item that is exported as a method (`constructor` false) or as a
      constructor (`constructor` true): a function with a `jni` attribute. */
  predicate Selected(item: Syn.ImplItem, ctor: bool) {
    item.ImplFn? && Traits.HasJni(item.fn.attrs) && Traits.IsConstructor(item.fn.attrs) == ctor
  }

  function SelectedP(ctor: bool): Syn.ImplItem -> bool {
    item => Selected(item, ctor)
  }

  /** `iter().filter(p)`: the elements satisfying `p`, in order. */
  function Filter<T>(xs: seq<T>, p: T -> bool): (r: seq<T>)
    ensures |r| <= |xs|
    ensures forall k :: 0 <= k < |r| ==> p(r[k])
    decreases |xs|
  {
    if |xs| == 0 then [] else (if p(xs[0]) then [xs[0]] else []) + Filter(xs[1..], p)
  }

  lemma {:induction false} FilterMembers<T>(xs: seq<T>, p: T -> bool, x: T)
    ensures x in Filter(xs, p) <==> x in xs && p(x)
    decreases |xs|
  {
    if |xs| > 0 {
      FilterMembers(xs[1..], p, x);
      assert xs == [xs[0]] + xs[1..];
    }
  }

  lemma {:induction false} FilterConcat<T>(a: seq<T>, b: seq<T>, p: T -> bool)
    ensures Filter(a + b, p) == Filter(a, p) + Filter(b, p)
    decreases |a|
  {
    if |a| == 0 {
      assert a + b == b;
    } else {
      assert (a + b)[0] == a[0] && (a + b)[1..] == a[1..] + b;
      FilterConcat(a[1..], b, p);
    }
  }

  /** The selected functions, in source order. */
  function JniFns(items: seq<Syn.ImplItem>, ctor: bool): (r: seq<Syn.ImplItemFn>)
    ensures forall k :: 0 <= k < |r| ==> Traits.HasJni(r[k].attrs) && Traits.IsConstructor(r[k].attrs) == ctor
  {
    var sel := Filter(items, SelectedP(ctor));
    seq(|sel|, k requires 0 <= k < |sel| => sel[k].fn)
  }

  /** A function is selected exactly when some item is that function and
      carries the right attributes. */
  lemma JniFnsMembers(items: seq<Syn.ImplItem>, ctor: bool, f: Syn.ImplItemFn)
    ensures f in JniFns(items, ctor) <==> Syn.ImplFn(f) in items && Selected(Syn.ImplFn(f), ctor)
  {
    var sel := Filter(items, SelectedP(ctor));
    FilterMembers(items, SelectedP(ctor), Syn.ImplFn(f));
    if f in JniFns(items, ctor) {
      var k :| 0 <= k < |sel| && sel[k].fn == f;
      assert sel[k] == Syn.ImplFn(f);
    }
    if Syn.ImplFn(f) in sel {
      var k :| 0 <= k < |sel| && sel[k] == Syn.ImplFn(f);
      assert JniFns(items, ctor)[k] == f;
    }
  }

  /** Selection keeps source order: it distributes over concatenation. */
  lemma JniFnsConcat(a: seq<Syn.ImplItem>, b: seq<Syn.ImplItem>, ctor: bool)
    ensures JniFns(a + b, ctor) == JniFns(a, ctor) + JniFns(b, ctor)
  {
    FilterConcat(a, b, SelectedP(ctor));
  }

  /** Every function with a `jni` attribute is exported exactly once, as a
      method or as a constructor; anything else is not exported. */
  lemma Partition(items: seq<Syn.ImplItem>, i: nat)
    requires i < |items|
    ensures items[i].ImplFn? && Traits.HasJni(items[i].fn.attrs) ==>
              items[i].fn in JniFns(items, Traits.IsConstructor(items[i].fn.attrs))
    ensures items[i].ImplFn? ==> items[i].fn !in JniFns(items, !Traits.IsConstructor(items[i].fn.attrs))
    ensures items[i].ImplFn? && !Traits.HasJni(items[i].fn.attrs) ==>
              items[i].fn !in JniFns(items, false) && items[i].fn !in JniFns(items, true)
  {
    if items[i].ImplFn? {
      var f := items[i].fn;
      assert Syn.ImplFn(f) == items[i];
      JniFnsMembers(items, false, f);
      JniFnsMembers(items, true, f);
    }
  }


  /** `JavaClass::from_declaration`: the struct's name, each selected method
      and constructor read in source order, and the namespace. */
  function FromDeclaration(decl: Syn.ItemImpl, args: Attrs.BindgenAttrs): (r: Result<JavaClass, string>)
    ensures r.Ok? ==>
              && r.value.name == Syn.TypeText(decl.selfTy)
              && r.value.attrs == args
              && Attrs.GetNamespace(args) == Ok(r.value.namespace)
    ensures r.Ok? ==> var fs := JniFns(decl.items, false);
              && |r.value.methods| == |fs|
              && forall k :: 0 <= k < |fs| ==> JavaMethods.FromImplFn(fs[k]) == Ok(r.value.methods[k])
    ensures r.Ok? ==> var cs := JniFns(decl.items, true);
              && |r.value.constructors| == |cs|
              && forall k :: 0 <= k < |cs| ==> JavaMethods.FromImplFn(cs[k]) == Ok(r.value.constructors[k])
  {
    var methods :- CollectAll(JniFns(decl.items, false), JavaMethods.FromImplFn);
    var constructors :- CollectAll(JniFns(decl.items, true), JavaMethods.FromImplFn);
    var namespace :- Attrs.GetNamespace(args);
    Ok(JavaClass(Syn.TypeText(decl.selfTy), methods, constructors, namespace, args))
  }

  /** The class is read exactly when every selected method and constructor is,
      and the namespace is given; the methods are read first, then the
      constructors, so a missing namespace is reported only when all of them
      were read. */
  lemma FromDeclarationAccepts(decl: Syn.ItemImpl, args: Attrs.BindgenAttrs)
    ensures var fs := JniFns(decl.items, false);
            var cs := JniFns(decl.items, true);
            var allRead := (forall k :: 0 <= k < |fs| ==> JavaMethods.FromImplFn(fs[k]).Ok?)
                           && (forall k :: 0 <= k < |cs| ==> JavaMethods.FromImplFn(cs[k]).Ok?);
            && (FromDeclaration(decl, args).Ok? <==> allRead && Attrs.GetNamespace(args).Ok?)
            && (allRead && Attrs.GetNamespace(args).Err? ==>
                  FromDeclaration(decl, args) == Err("Missing namespace = \"...\" attribute"))
  {
    var fs := JniFns(decl.items, false);
    var cs := JniFns(decl.items, true);
    var rm := CollectAll(fs, JavaMethods.FromImplFn);
    var rc := CollectAll(cs, JavaMethods.FromImplFn);
    if rm.Err? {
      assert FromDeclaration(decl, args).Err?;
      assert !forall k :: 0 <= k < |fs| ==> JavaMethods.FromImplFn(fs[k]).Ok?;
    } else if rc.Err? {
      assert FromDeclaration(decl, args).Err?;
      assert !forall k :: 0 <= k < |cs| ==> JavaMethods.FromImplFn(cs[k]).Ok?;
    }
  }

  /** No method read from an impl block is also one of its constructors: each
      remembers the function it was read from, and that function is either a
      constructor or not. */
  lemma MethodsAndConstructorsDisjoint(decl: Syn.ItemImpl, args: Attrs.BindgenAttrs)
    requires FromDeclaration(decl, args).Ok?
    ensures var c := FromDeclaration(decl, args).value;
            forall k, l :: 0 <= k < |c.methods| && 0 <= l < |c.constructors| ==> c.methods[k] != c.constructors[l]
    ensures var c := FromDeclaration(decl, args).value;
            forall k :: 0 <= k < |c.methods| ==> c.methods[k].decl.Some? && c.methods[k].decl.value.ImplDecl?
  {
    var c := FromDeclaration(decl, args).value;
    var fs := JniFns(decl.items, false);
    var cs := JniFns(decl.items, true);
    forall k, l | 0 <= k < |c.methods| && 0 <= l < |c.constructors| ensures c.methods[k] != c.constructors[l] {
      assert c.methods[k].decl == Some(JavaMethods.ImplDecl(fs[k]));
      assert c.constructors[l].decl == Some(JavaMethods.ImplDecl(cs[l]));
      assert !Traits.IsConstructor(fs[k].attrs) && Traits.IsConstructor(cs[l].attrs);
    }
    forall k | 0 <= k < |c.methods| ensures c.methods[k].decl.Some? && c.methods[k].decl.value.ImplDecl? {
      assert c.methods[k].decl == Some(JavaMethods.ImplDecl(fs[k]));
    }
  }

  // ---------------------------------------------------------------------
  // Imports

  /** The imports a list of methods needs. */
  function MethodsImports(ms: seq<JavaMethod>): (r: set<string>)
    ensures forall x :: x in r <==> exists k :: 0 <= k < |ms| && x in JavaMethods.GetImports(ms[k])
    decreases |ms|
  {
    if |ms| == 0 then {}
    else
      assert forall k :: 1 <= k < |ms| ==> ms[k] == ms[1..][k - 1];
      JavaMethods.GetImports(ms[0]) + MethodsImports(ms[1..])
  }

  /** `get_imports`: the union over the methods and the constructors. */
  function GetImports(c: JavaClass): (r: set<string>)
    ensures forall x :: x in r <==>
              || (exists k :: 0 <= k < |c.methods| && x in JavaMethods.GetImports(c.methods[k]))
              || (exists k :: 0 <= k < |c.constructors| && x in JavaMethods.GetImports(c.constructors[k]))
  {
    MethodsImports(c.methods) + MethodsImports(c.constructors)
  }

  // ---------------------------------------------------------------------
  // Symbol prefix of the bridges

  /** The namespace part of the bridge symbols as `as_jni_methods` writes it:
      dots become '_' and nothing else is escaped. */
  function NamespacePrefixAsWritten(namespace: string): string {
    Strings.Replace(namespace, '.', '_')
  }

  /** The symbol prefix of every bridge of the struct as `as_jni_methods`
      builds it: `base_name` of that namespace part and the unescaped struct
      name. */
  function AsWrittenBaseName(namespace: string, structName: string): string {
    Quotes.BaseName(NamespacePrefixAsWritten(namespace), structName)
  }

  /** A namespace of ASCII letters, digits and dots, which the JNI naming
      rules leave unescaped. */
  predicate SimpleNamespace(namespace: string) {
    forall k :: 0 <= k < |namespace| ==> JniNames.IsAsciiAlnum(namespace[k]) || namespace[k] == '.'
  }

  /** The namespace part as the JNI naming rules spell it: the package in
      internal form ('/'-separated), mangled, so that '_' becomes "_1". */
  function NamespacePrefix(namespace: string): string {
    JniNames.Mangle(Strings.Replace(namespace, '.', '/'))
  }

  /** The internal name of the inner class `{S}.{S}Native` that declares the
      native methods. */
  function InnerClassName(namespace: string, structName: string): string {
    Strings.Replace(namespace, '.', '/') + "/" + structName + "$" + structName + "Native"
  }

  /** The symbol prefix of every bridge of the struct. */
  function ClassBaseName(namespace: string, structName: string): string {
    Quotes.BaseName(NamespacePrefix(namespace), JniNames.Mangle(structName))
  }

  predicate AllAlnum(s: string) {
    forall k :: 0 <= k < |s| ==> JniNames.IsAsciiAlnum(s[k])
  }

  lemma {:induction false} MangleAlnum(s: string)
    requires AllAlnum(s)
    ensures JniNames.Mangle(s) == s
    decreases |s|
  {
    if |s| > 0 {
      MangleAlnum(s[1..]);
      assert [s[0]] + s[1..] == s;
    }
  }

  lemma MangleDollar()
    ensures JniNames.Mangle("$") == "_00024"
  {
    assert '$' as int == 0x24;
    assert JniNames.Hex4(0x24) == "0024";
    assert "$"[1..] == "";
  }

  lemma MangleSlash()
    ensures JniNames.Mangle("/") == "_"
  {
    assert "/"[1..] == "";
  }

  /** The prefix together with a mangled member name is the short JNI name of
      that member of the inner class: the JVM looks the bridges up under these
      symbols. */
  lemma BaseNameIsJniPrefix(namespace: string, structName: string, member: string)
    ensures Quotes.MethodSymbol(ClassBaseName(namespace, structName), JniNames.Mangle(member))
            == JniNames.ShortSymbol(InnerClassName(namespace, structName), member)
  {
    var ms := JniNames.Mangle(structName);
    var mm := JniNames.Mangle(member);
    var base := ClassBaseName(namespace, structName);
    MangleInner(Strings.Replace(namespace, '.', '/'), structName);
    Quotes.BaseNameText(NamespacePrefix(namespace), ms);
    Quotes.JoinPair(base, mm);
    SymbolShape("Java_", "_", "_00024", "Native", NamespacePrefix(namespace), ms, mm, base,
                JniNames.Mangle(InnerClassName(namespace, structName)));
  }

  lemma SymbolShape(java: string, sep: string, dollar: string, native: string,
                    np: string, ms: string, mm: string, base: string, mc: string)
    requires base == java + np + sep + ms + dollar + ms + native
    requires mc == np + sep + ms + dollar + ms + native
    ensures base + sep + mm == java + mc + sep + mm
  {
  }

  /** The mangled internal name of the inner class. */
  lemma MangleInner(path: string, s: string)
    ensures JniNames.Mangle(path + "/" + s + "$" + s + "Native")
            == JniNames.Mangle(path) + "_" + JniNames.Mangle(s) + "_00024" + JniNames.Mangle(s) + "Native"
  {
    var slash, dollar, native := "/", "$", "Native";
    MangleAlnum(native);
    MangleDollar();
    MangleSlash();
    MangleFive(path, slash, s, dollar, native);
  }

  /** Mangling distributes over five concatenated parts. */
  lemma MangleFive(a: string, b: string, c: string, d: string, e: string)
    ensures JniNames.Mangle(a + b + c + d + c + e)
            == JniNames.Mangle(a) + JniNames.Mangle(b) + JniNames.Mangle(c) + JniNames.Mangle(d)
               + JniNames.Mangle(c) + JniNames.Mangle(e)
  {
    JniNames.MangleConcat(a + b + c + d + c, e);
    JniNames.MangleConcat(a + b + c + d, c);
    JniNames.MangleConcat(a + b + c, d);
    JniNames.MangleConcat(a + b, c);
    JniNames.MangleConcat(a, b);
  }

  /** Bridges of different native methods, or of the same method in different
      classes, never share a symbol. */
  lemma BaseNameInjective(ns1: string, s1: string, m1: string, ns2: string, s2: string, m2: string)
    requires JniNames.ValidPair(InnerClassName(ns1, s1), m1) && JniNames.ValidPair(InnerClassName(ns2, s2), m2)
    requires Quotes.MethodSymbol(ClassBaseName(ns1, s1), JniNames.Mangle(m1))
             == Quotes.MethodSymbol(ClassBaseName(ns2, s2), JniNames.Mangle(m2))
    ensures InnerClassName(ns1, s1) == InnerClassName(ns2, s2) && m1 == m2
  {
    BaseNameIsJniPrefix(ns1, s1, m1);
    BaseNameIsJniPrefix(ns2, s2, m2);
    JniNames.ShortSymbolInjective(InnerClassName(ns1, s1), m1, InnerClassName(ns2, s2), m2);
  }

  /** For namespaces of letters, digits and dots and a struct name of letters
      and digits, the prefix is the one the source writes. */
  lemma {:induction false} NamespacePrefixAgrees(namespace: string)
    requires SimpleNamespace(namespace)
    ensures NamespacePrefix(namespace) == NamespacePrefixAsWritten(namespace)
    decreases |namespace|
  {
    if |namespace| > 0 {
      var rest := namespace[1..];
      NamespacePrefixAgrees(rest);
      var path := Strings.Replace(namespace, '.', '/');
      assert path == [path[0]] + Strings.Replace(rest, '.', '/');
      assert NamespacePrefixAsWritten(namespace) == [NamespacePrefixAsWritten(namespace)[0]] + NamespacePrefixAsWritten(rest);
    }
  }

  lemma BaseNameAgrees(namespace: string, structName: string)
    requires SimpleNamespace(namespace)
    requires AllAlnum(structName)
    ensures ClassBaseName(namespace, structName) == AsWrittenBaseName(namespace, structName)
  {
    NamespacePrefixAgrees(namespace);
    MangleAlnum(structName);
  }

  /** Mangling never shortens a name, and lengthens one that contains '_'. */
  lemma {:induction false} MangleLength(s: string)
    ensures |JniNames.Mangle(s)| >= |s|
    ensures '_' in s ==> |JniNames.Mangle(s)| > |s|
    decreases |s|
  {
    if |s| > 0 {
      MangleLength(s[1..]);
      if s[0] != '_' {
        assert '_' in s ==> '_' in s[1..];
      }
    }
  }

  /** As written, the prefix does not escape '_': the namespaces `com.my_app`
      and `com.my.app` get the same bridge symbols, and neither is the symbol
      the JVM looks up for a native method `m` of `com.my_app.Point`. The
      struct name is not escaped either: the bridge of `m` of
      `com.example.Foo_Bar` is not the symbol the JVM looks up. */
  lemma NamespaceEscapeAsWritten()
    ensures NamespacePrefixAsWritten("com.my_app") == NamespacePrefixAsWritten("com.my.app")
    ensures Quotes.MethodSymbol(AsWrittenBaseName("com.my_app", "Point"), "m")
            != JniNames.ShortSymbol(InnerClassName("com.my_app", "Point"), "m")
    ensures Quotes.MethodSymbol(AsWrittenBaseName("com.example", "Foo_Bar"), "m")
            != JniNames.ShortSymbol(InnerClassName("com.example", "Foo_Bar"), "m")
  {
    AsWrittenCollision();
    assert "com.my_app"[6] == '_';
    AsWrittenMisses("com.my_app", "Point", "m");
    assert "Foo_Bar"[3] == '_';
    AsWrittenMisses("com.example", "Foo_Bar", "m");
  }

  lemma AsWrittenCollision()
    ensures NamespacePrefixAsWritten("com.my_app") == NamespacePrefixAsWritten("com.my.app")
  {
    var a := NamespacePrefixAsWritten("com.my_app");
    var b := NamespacePrefixAsWritten("com.my.app");
    assert forall k :: 0 <= k < |a| ==> a[k] == b[k];
  }

  /** As written, a namespace or struct name containing '_' never yields the
      symbol the JVM looks up: the prefix is shorter than the mangled one. */
  lemma AsWrittenMisses(namespace: string, structName: string, member: string)
    requires '_' in namespace || '_' in structName
    requires AllAlnum(member)
    ensures Quotes.MethodSymbol(AsWrittenBaseName(namespace, structName), member)
            != JniNames.ShortSymbol(InnerClassName(namespace, structName), member)
  {
    var path := Strings.Replace(namespace, '.', '/');
    if '_' in namespace {
      var i :| 0 <= i < |namespace| && namespace[i] == '_';
      assert path[i] == '_';
    }
    MangleLength(path);
    MangleLength(structName);
    MangleAlnum(member);
    BaseNameIsJniPrefix(namespace, structName, member);
    SymbolLengths(NamespacePrefixAsWritten(namespace), structName,
                  NamespacePrefix(namespace), JniNames.Mangle(structName), member);
  }

  /** As written, with a namespace and struct name that need no escaping, a
      method gets a bridge only when its Java name is made of letters and
      digits: for a rename such as `a$b` or `a"b` the bridge's name does not
      lex as one identifier, or the `fn` it names does not compile, so nothing
      is exported. A bridge that is built carries the name the JVM looks up. */
  lemma MemberEscapeAsWritten(namespace: string, structName: string, m: JavaMethod)
    requires SimpleNamespace(namespace) && AllAlnum(structName)
    ensures var r := JavaMethods.AsJniMethod(m, AsWrittenBaseName(namespace, structName), structName);
            && (r.Ok? <==> AllAlnum(JavaName(m)) && JavaMethods.Convertible(m))
            && (!AllAlnum(JavaName(m)) ==> r == Err(Quotes.NotAnIdentifier))
            && (r.Ok? ==> r.value.symbol == JniNames.ShortSymbol(InnerClassName(namespace, structName), JavaName(m)))
  {
    var base := ClassBaseName(namespace, structName);
    BaseNameAgrees(namespace, structName);
    ClassBaseNameIdent(namespace, structName);
    Quotes.MethodSymbolIdent(base, JavaName(m));
    JavaNameIdent(m);
    JavaMethods.BridgeAccepted(m, base, structName);
    if AllAlnum(JavaName(m)) {
      MangleAlnum(JavaName(m));
    }
    BaseNameIsJniPrefix(namespace, structName, JavaName(m));
  }

  /** Bridge symbols whose prefixes differ in length are different. */
  lemma SymbolLengths(p1: string, s1: string, p2: string, s2: string, member: string)
    requires |p1| + 2 * |s1| != |p2| + 2 * |s2|
    ensures Quotes.MethodSymbol(Quotes.BaseName(p1, s1), member)
            != Quotes.MethodSymbol(Quotes.BaseName(p2, s2), member)
  {
    Quotes.BaseNameText(p1, s1);
    Quotes.BaseNameText(p2, s2);
    Quotes.JoinPair(Quotes.BaseName(p1, s1), member);
    Quotes.JoinPair(Quotes.BaseName(p2, s2), member);
  }

  // ---------------------------------------------------------------------
  // Bridges (`as_jni_methods`)

  /** The bridges of a struct: one per method, one per constructor, the drop
      bridge when the struct has a constructor, and the type-hash bridge. */
  datatype ClassBridges = ClassBridges(
    methods: seq<JavaMethods.Bridge>,
    constructors: seq<JavaMethods.Bridge>,
    drop: Option<Quotes.DropBridge>,
    typeHash: Quotes.TypeHashBridge)

  /** The name a method's bridge symbol ends with: its Java name, unescaped as
      the source writes it, or mangled as the JNI naming rules require. */
  function MemberName(m: JavaMethod, escape: bool): string {
    if escape then JniNames.Mangle(JavaName(m)) else JavaName(m)
  }

  /** The bridge of one method under the prefix `base`. Without `escape` it is
      `as_jni_method` itself, which fails when the name is not an identifier.
      With `escape` its symbol ends with the mangled Java name, which always is
      one (`EscapedNamesBuild`), so only the conversions can make it fail. */
  function MemberBridge(m: JavaMethod, base: string, structName: string, escape: bool): (r: Result<JavaMethods.Bridge, string>)
    ensures !escape ==> r == JavaMethods.AsJniMethod(m, base, structName)
    ensures escape ==> (r.Ok? <==> JavaMethods.Convertible(m))
    ensures r.Ok? ==> r.value.symbol == Quotes.MethodSymbol(base, MemberName(m, escape))
    ensures r.Ok? ==> r == JavaMethods.BridgeNamed(m, r.value.symbol, structName)
  {
    if escape then
      JavaMethods.BridgeNamedAccepted(m, Quotes.MethodSymbol(base, MemberName(m, escape)), structName);
      JavaMethods.BridgeNamed(m, Quotes.MethodSymbol(base, MemberName(m, escape)), structName)
    else JavaMethods.AsJniMethod(m, base, structName)
  }

  /** Under a prefix that is an identifier, escaping a Java name of letters and
      digits changes nothing. */
  lemma MemberBridgeAlnum(m: JavaMethod, base: string, structName: string)
    requires Quotes.IsAsciiIdent(base) && AllAlnum(JavaName(m))
    ensures MemberBridge(m, base, structName, true) == MemberBridge(m, base, structName, false)
  {
    MangleAlnum(JavaName(m));
    JavaNameIdent(m);
    Quotes.MethodSymbolIdent(base, JavaName(m));
  }

  /** The bridges of a list of methods, in order; the first failure is the result. */
  function MethodBridges(ms: seq<JavaMethod>, baseName: string, structName: string, escape: bool): (r: Result<seq<JavaMethods.Bridge>, string>)
    ensures r.Ok? <==> forall k :: 0 <= k < |ms| ==> MemberBridge(ms[k], baseName, structName, escape).Ok?
    ensures r.Ok? ==> |r.value| == |ms|
    ensures r.Ok? ==> forall k :: 0 <= k < |ms| ==> MemberBridge(ms[k], baseName, structName, escape) == Ok(r.value[k])
  {
    CollectAll(ms, m => MemberBridge(m, baseName, structName, escape))
  }

  /** Under a prefix that is an identifier, escaping Java names of letters and
      digits changes no bridge. */
  lemma MethodBridgesAlnum(ms: seq<JavaMethod>, baseName: string, structName: string)
    requires Quotes.IsAsciiIdent(baseName)
    requires forall k :: 0 <= k < |ms| ==> AllAlnum(JavaName(ms[k]))
    ensures MethodBridges(ms, baseName, structName, true) == MethodBridges(ms, baseName, structName, false)
  {
    forall k | 0 <= k < |ms|
      ensures MemberBridge(ms[k], baseName, structName, true) == MemberBridge(ms[k], baseName, structName, false)
    {
      MemberBridgeAlnum(ms[k], baseName, structName);
    }
    CollectAllPointwise(ms, m => MemberBridge(m, baseName, structName, true),
                        m => MemberBridge(m, baseName, structName, false));
  }

  /** The bridges of a struct under the symbol prefix `base`; the drop bridge
      exists exactly when there is a constructor. The `drop` and type-hash
      bridges are named from `base` too, so a prefix that is not an identifier
      builds nothing, even for a struct without methods. */
  function BridgesWith(c: JavaClass, base: string, escape: bool): (r: Result<ClassBridges, string>)
    ensures r.Ok? <==> && MethodBridges(c.methods, base, c.name, escape).Ok?
                       && MethodBridges(c.constructors, base, c.name, escape).Ok?
                       && Quotes.IsAsciiIdent(base)
    ensures r.Ok? ==>
              && MethodBridges(c.methods, base, c.name, escape) == Ok(r.value.methods)
              && MethodBridges(c.constructors, base, c.name, escape) == Ok(r.value.constructors)
              && (r.value.drop.Some? <==> |c.constructors| > 0)
              && (r.value.drop.Some? ==> r.value.drop.value == Quotes.DropStruct(base, c.name))
              && r.value.typeHash == Quotes.GetTypeHash(base, c.name)
  {
    var methods :- MethodBridges(c.methods, base, c.name, escape);
    var constructors :- MethodBridges(c.constructors, base, c.name, escape);
    if !Quotes.IsAsciiIdent(base) then Err(Quotes.NotAnIdentifier)
    else
      var drop := if |c.constructors| > 0 then Some(Quotes.DropStruct(base, c.name)) else None;
      Ok(ClassBridges(methods, constructors, drop, Quotes.GetTypeHash(base, c.name)))
  }

  /** `as_jni_methods` as written: the namespace is read from the macro
      arguments first, and every bridge symbol is the unescaped
      `AsWrittenBaseName` followed by the unescaped Java name. */
  function AsJniMethods(c: JavaClass, args: Attrs.BindgenAttrs): (r: Result<ClassBridges, string>)
    ensures Attrs.GetNamespace(args).Err? ==> r == Err("Missing namespace = \"...\" attribute")
    ensures Attrs.GetNamespace(args).Ok? ==>
              var base := AsWrittenBaseName(Attrs.GetNamespace(args).value, c.name);
              (r.Ok? <==> && MethodBridges(c.methods, base, c.name, false).Ok?
                          && MethodBridges(c.constructors, base, c.name, false).Ok?
                          && Quotes.IsAsciiIdent(base))
    ensures r.Ok? ==>
              var base := AsWrittenBaseName(Attrs.GetNamespace(args).value, c.name);
              && MethodBridges(c.methods, base, c.name, false) == Ok(r.value.methods)
              && MethodBridges(c.constructors, base, c.name, false) == Ok(r.value.constructors)
              && (r.value.drop.Some? <==> |c.constructors| > 0)
              && (r.value.drop.Some? ==> r.value.drop.value.structName == c.name)
              && r.value.typeHash.structName == c.name
  {
    var namespace :- Attrs.GetNamespace(args);
    BridgesWith(c, AsWrittenBaseName(namespace, c.name), false)
  }

  /** `as_jni_methods` with the symbol prefix (`ClassBaseName`) and the Java
      names escaped as the JNI naming rules require. */
  function AsJniMethodsCorrected(c: JavaClass, args: Attrs.BindgenAttrs): (r: Result<ClassBridges, string>)
    ensures Attrs.GetNamespace(args).Err? ==> r == Err("Missing namespace = \"...\" attribute")
    ensures Attrs.GetNamespace(args).Ok? ==>
              var base := ClassBaseName(Attrs.GetNamespace(args).value, c.name);
              (r.Ok? <==> MethodBridges(c.methods, base, c.name, true).Ok? && MethodBridges(c.constructors, base, c.name, true).Ok?)
    ensures Attrs.GetNamespace(args).Ok? ==> Quotes.IsAsciiIdent(ClassBaseName(Attrs.GetNamespace(args).value, c.name))
    ensures r.Ok? ==>
              var base := ClassBaseName(Attrs.GetNamespace(args).value, c.name);
              && MethodBridges(c.methods, base, c.name, true) == Ok(r.value.methods)
              && MethodBridges(c.constructors, base, c.name, true) == Ok(r.value.constructors)
              && (r.value.drop.Some? <==> |c.constructors| > 0)
              && (r.value.drop.Some? ==> r.value.drop.value.structName == c.name)
              && r.value.typeHash.structName == c.name
  {
    var namespace :- Attrs.GetNamespace(args);
    ClassBaseNameIdent(namespace, c.name);
    BridgesWith(c, ClassBaseName(namespace, c.name), true)
  }

  /** For a namespace of letters, digits and dots, a struct name of letters
      and digits and Java names of letters and digits, the bridges as written
      are the corrected ones. */
  lemma AsWrittenAgrees(c: JavaClass, args: Attrs.BindgenAttrs)
    requires Attrs.GetNamespace(args).Ok?
    requires SimpleNamespace(Attrs.GetNamespace(args).value) && AllAlnum(c.name)
    requires forall k :: 0 <= k < |c.methods| ==> AllAlnum(JavaName(c.methods[k]))
    requires forall k :: 0 <= k < |c.constructors| ==> AllAlnum(JavaName(c.constructors[k]))
    ensures AsJniMethods(c, args) == AsJniMethodsCorrected(c, args)
  {
    var ns := Attrs.GetNamespace(args).value;
    BaseNameAgrees(ns, c.name);
    ClassBaseNameIdent(ns, c.name);
    MethodBridgesAlnum(c.methods, ClassBaseName(ns, c.name), c.name);
    MethodBridgesAlnum(c.constructors, ClassBaseName(ns, c.name), c.name);
  }

  /** The symbols a struct exports, in emission order. */
  function Symbols(b: ClassBridges): seq<string> {
    seq(|b.methods|, k requires 0 <= k < |b.methods| => b.methods[k].symbol)
    + seq(|b.constructors|, k requires 0 <= k < |b.constructors| => b.constructors[k].symbol)
    + (if b.drop.Some? then [b.drop.value.symbol] else [])
    + [b.typeHash.symbol]
  }

  /** The Java name of a method: its camel-case name. */
  function JavaName(m: JavaMethod): string {
    Strings.ToCamel(m.name)
  }

  /** As written, when the namespace and the struct name need no escaping,
      every bridge that is built is exported under the short JNI name of the
      matching native method of the inner class, so the JVM binds it. */
  lemma BridgeSymbols(c: JavaClass, args: Attrs.BindgenAttrs)
    requires AsJniMethods(c, args).Ok?
    requires SimpleNamespace(Attrs.GetNamespace(args).value) && AllAlnum(c.name)
    ensures var b := AsJniMethods(c, args).value;
            var cls := InnerClassName(Attrs.GetNamespace(args).value, c.name);
            && (forall k :: 0 <= k < |c.methods| ==>
                  b.methods[k].symbol == JniNames.ShortSymbol(cls, JavaName(c.methods[k])))
            && (forall k :: 0 <= k < |c.constructors| ==>
                  b.constructors[k].symbol == JniNames.ShortSymbol(cls, JavaName(c.constructors[k])))
            && (b.drop.Some? ==> b.drop.value.symbol == JniNames.ShortSymbol(cls, JavaName(JavaMethods.DropMethod())))
            && b.typeHash.symbol == JniNames.ShortSymbol(cls, JavaName(JavaMethods.TypeHashMethod()))
  {
    var ns := Attrs.GetNamespace(args).value;
    BaseNameAgrees(ns, c.name);
    BridgeSymbolsWith(c, ns, false);
  }

  /** With the corrected prefix and escaped Java names, each bridge is exported
      under the short JNI name of the matching native method of the inner
      class, whatever the namespace, struct name and method names. */
  lemma BridgeSymbolsCorrected(c: JavaClass, args: Attrs.BindgenAttrs)
    requires AsJniMethodsCorrected(c, args).Ok?
    ensures var b := AsJniMethodsCorrected(c, args).value;
            var cls := InnerClassName(Attrs.GetNamespace(args).value, c.name);
            && (forall k :: 0 <= k < |c.methods| ==>
                  b.methods[k].symbol == JniNames.ShortSymbol(cls, JavaName(c.methods[k])))
            && (forall k :: 0 <= k < |c.constructors| ==>
                  b.constructors[k].symbol == JniNames.ShortSymbol(cls, JavaName(c.constructors[k])))
            && (b.drop.Some? ==> b.drop.value.symbol == JniNames.ShortSymbol(cls, JavaName(JavaMethods.DropMethod())))
            && b.typeHash.symbol == JniNames.ShortSymbol(cls, JavaName(JavaMethods.TypeHashMethod()))
  {
    BridgeSymbolsWith(c, Attrs.GetNamespace(args).value, true);
  }

  /** The symbols of the bridges built under the escaped prefix, with or
      without escaping the Java names. */
  lemma BridgeSymbolsWith(c: JavaClass, ns: string, escape: bool)
    requires BridgesWith(c, ClassBaseName(ns, c.name), escape).Ok?
    ensures var b := BridgesWith(c, ClassBaseName(ns, c.name), escape).value;
            var cls := InnerClassName(ns, c.name);
            && (forall k :: 0 <= k < |c.methods| ==>
                  b.methods[k].symbol == JniNames.ShortSymbol(cls, JavaName(c.methods[k])))
            && (forall k :: 0 <= k < |c.constructors| ==>
                  b.constructors[k].symbol == JniNames.ShortSymbol(cls, JavaName(c.constructors[k])))
            && (b.drop.Some? ==> b.drop.value.symbol == JniNames.ShortSymbol(cls, JavaName(JavaMethods.DropMethod())))
            && b.typeHash.symbol == JniNames.ShortSymbol(cls, JavaName(JavaMethods.TypeHashMethod()))
  {
    var base := ClassBaseName(ns, c.name);
    var b := BridgesWith(c, base, escape).value;
    var cls := InnerClassName(ns, c.name);
    forall k | 0 <= k < |c.methods|
      ensures b.methods[k].symbol == JniNames.ShortSymbol(cls, JavaName(c.methods[k]))
    {
      MemberSymbol(c.methods[k], ns, c.name, escape, b.methods[k]);
    }
    forall k | 0 <= k < |c.constructors|
      ensures b.constructors[k].symbol == JniNames.ShortSymbol(cls, JavaName(c.constructors[k]))
    {
      MemberSymbol(c.constructors[k], ns, c.name, escape, b.constructors[k]);
    }
    DropName();
    TypeHashName();
    if b.drop.Some? {
      JavaMethods.DropSymbolAgrees(base, c.name);
      BaseNameIsJniPrefix(ns, c.name, "drop");
    }
    JavaMethods.TypeHashSymbolAgrees(base, c.name);
    BaseNameIsJniPrefix(ns, c.name, "getTypeHash");
  }

  /** A bridge built under the escaped prefix carries the short JNI name: with
      escaping by construction, without it because only Java names of letters
      and digits build (`BuiltNamesAlnum`). */
  lemma MemberSymbol(m: JavaMethod, ns: string, structName: string, escape: bool, b: JavaMethods.Bridge)
    requires MemberBridge(m, ClassBaseName(ns, structName), structName, escape) == Ok(b)
    ensures b.symbol == JniNames.ShortSymbol(InnerClassName(ns, structName), JavaName(m))
  {
    if !escape {
      BuiltNamesAlnum(m, ClassBaseName(ns, structName), structName);
      MangleAlnum(JavaName(m));
    }
    BaseNameIsJniPrefix(ns, structName, JavaName(m));
  }

  /** A Java name is an identifier exactly when it is made of letters and
      digits: camel case leaves no '_' in it. */
  lemma JavaNameIdent(m: JavaMethod)
    ensures Quotes.IsAsciiIdent(JavaName(m)) <==> AllAlnum(JavaName(m))
  {
    var n := JavaName(m);
    assert Strings.NoDelimiter(n);
    assert forall k :: 0 <= k < |n| ==> n[k] != '_' by {
      forall k | 0 <= k < |n| ensures n[k] != '_' {
        assert !Strings.IsDelimiter(n[k]);
      }
    }
  }

  /** As written, `as_jni_method` builds a bridge only for a Java name of
      letters and digits, whatever the prefix. */
  lemma BuiltNamesAlnum(m: JavaMethod, base: string, structName: string)
    requires JavaMethods.AsJniMethod(m, base, structName).Ok?
    ensures AllAlnum(JavaName(m))
  {
    Quotes.MethodSymbolIdent(base, JavaName(m));
    JavaNameIdent(m);
  }

  /** As written, a struct's bridges are built only when every method and
      constructor has a Java name of letters and digits. */
  lemma AsWrittenNamesAlnum(c: JavaClass, args: Attrs.BindgenAttrs)
    requires AsJniMethods(c, args).Ok?
    ensures forall k :: 0 <= k < |c.methods| ==> AllAlnum(JavaName(c.methods[k]))
    ensures forall k :: 0 <= k < |c.constructors| ==> AllAlnum(JavaName(c.constructors[k]))
  {
    var base := AsWrittenBaseName(Attrs.GetNamespace(args).value, c.name);
    forall k | 0 <= k < |c.methods|
      ensures AllAlnum(JavaName(c.methods[k]))
    {
      BuiltNamesAlnum(c.methods[k], base, c.name);
    }
    forall k | 0 <= k < |c.constructors|
      ensures AllAlnum(JavaName(c.constructors[k]))
    {
      BuiltNamesAlnum(c.constructors[k], base, c.name);
    }
  }

  /** Every mangled name is an identifier. */
  lemma {:induction false} MangleIdent(s: string)
    ensures Quotes.IsAsciiIdent(JniNames.Mangle(s))
    decreases |s|
  {
    if |s| > 0 {
      MangleIdent(s[1..]);
      MangleCharIdent(s[0]);
      Quotes.IdentConcat(JniNames.MangleChar(s[0]), JniNames.Mangle(s[1..]));
    }
  }

  lemma MangleCharIdent(c: char)
    ensures Quotes.IsAsciiIdent(JniNames.MangleChar(c))
  {
    if !JniNames.IsAsciiAlnum(c) && c != '/' && c != '_' && c != ';' && c != '[' {
      forall n: nat | n < 16 ensures JniNames.IsAsciiAlnum(JniNames.HexDigit(n)) {
      }
      if c as int < 0x1_0000 {
        Quotes.IdentConcat("_0", JniNames.Hex4(c as int));
      } else {
        var v := c as int - 0x1_0000;
        var h1, h2 := JniNames.Hex4(0xD800 + v / 0x400), JniNames.Hex4(0xDC00 + v % 0x400);
        Quotes.IdentConcat("_0", h1);
        Quotes.IdentConcat("_0" + h1, "_0");
        Quotes.IdentConcat("_0" + h1 + "_0", h2);
      }
    }
  }

  /** The corrected prefix is always an identifier. */
  lemma ClassBaseNameIdent(namespace: string, structName: string)
    ensures Quotes.IsAsciiIdent(ClassBaseName(namespace, structName))
  {
    MangleIdent(Strings.Replace(namespace, '.', '/'));
    MangleIdent(structName);
    Quotes.BaseNameIdent(NamespacePrefix(namespace), JniNames.Mangle(structName));
  }

  /** With escaping, every bridge name is an identifier, so a bridge is built
      for every method whose conversions exist, whatever its name, and it
      carries the short JNI name the JVM looks up. */
  lemma EscapedNamesBuild(namespace: string, structName: string, m: JavaMethod)
    ensures Quotes.IsAsciiIdent(Quotes.MethodSymbol(ClassBaseName(namespace, structName), JniNames.Mangle(JavaName(m))))
    ensures var r := MemberBridge(m, ClassBaseName(namespace, structName), structName, true);
            && (r.Ok? <==> JavaMethods.Convertible(m))
            && (r.Ok? ==> r.value.symbol == JniNames.ShortSymbol(InnerClassName(namespace, structName), JavaName(m)))
  {
    ClassBaseNameIdent(namespace, structName);
    MangleIdent(JavaName(m));
    Quotes.MethodSymbolIdent(ClassBaseName(namespace, structName), JniNames.Mangle(JavaName(m)));
    BaseNameIsJniPrefix(namespace, structName, JavaName(m));
  }

  lemma DropName()
    ensures JavaName(JavaMethods.DropMethod()) == "drop" && JniNames.Mangle("drop") == "drop"
  {
    JavaMethods.CamelOfLowerWord("drop");
    MangleAlnum("drop");
  }

  lemma TypeHashName()
    ensures JavaName(JavaMethods.TypeHashMethod()) == "getTypeHash" && JniNames.Mangle("getTypeHash") == "getTypeHash"
  {
    JavaMethods.CamelOfTypeHashName(JavaMethods.TypeHashMethod().name);
    AlnumGetTypeHash("getTypeHash");
  }

  /** `getTypeHash` is made of letters only, so mangling leaves it unchanged. */
  lemma AlnumGetTypeHash(s: string)
    requires s == "getTypeHash"
    ensures JniNames.Mangle(s) == s
  {
    assert s == "get" + "Type" + "Hash";
    assert AllAlnum("get") && AllAlnum("Type") && AllAlnum("Hash");
    AlnumConcat("get", "Type");
    AlnumConcat("get" + "Type", "Hash");
    MangleAlnum(s);
  }

  lemma AlnumConcat(a: string, b: string)
    requires AllAlnum(a) && AllAlnum(b)
    ensures AllAlnum(a + b)
  {
    assert forall k :: 0 <= k < |a + b| ==> (a + b)[k] == if k < |a| then a[k] else b[k - |a|];
  }

  /** Bridges `b` are exported under `name` of the methods, constructors and
      generated natives of `c`. */
  predicate ExportedAs(c: JavaClass, b: ClassBridges, name: JavaMethod -> string) {
    && |b.methods| == |c.methods| && |b.constructors| == |c.constructors|
    && (b.drop.Some? <==> |c.constructors| > 0)
    && (forall k :: 0 <= k < |c.methods| ==> b.methods[k].symbol == name(c.methods[k]))
    && (forall k :: 0 <= k < |c.constructors| ==> b.constructors[k].symbol == name(c.constructors[k]))
    && (b.drop.Some? ==> b.drop.value.symbol == name(JavaMethods.DropMethod()))
    && b.typeHash.symbol == name(JavaMethods.TypeHashMethod())
  }

  /** The short JNI name of a native of class `cls`. */
  function ShortName(cls: string): JavaMethod -> string {
    m => JniNames.ShortSymbol(cls, JavaName(m))
  }

  /** As written, with a namespace and struct name that need no escaping, the
      symbols a struct that builds exports are exactly the short JNI names of
      the natives its inner class declares. */
  lemma NativesMatchBridges(c: JavaClass, args: Attrs.BindgenAttrs)
    requires AsJniMethods(c, args).Ok?
    requires SimpleNamespace(Attrs.GetNamespace(args).value) && AllAlnum(c.name)
    ensures var cls := InnerClassName(Attrs.GetNamespace(args).value, c.name);
            var natives := InnerMethods(c);
            var syms := Symbols(AsJniMethods(c, args).value);
            && (forall k :: 0 <= k < |natives| ==> JniNames.ShortSymbol(cls, JavaName(natives[k])) in syms)
            && (forall x :: x in syms ==> exists k :: 0 <= k < |natives| && x == JniNames.ShortSymbol(cls, JavaName(natives[k])))
  {
    AsWrittenNamesAlnum(c, args);
    AsWrittenAgrees(c, args);
    NativesMatchBridgesCorrected(c, args);
  }

  /** With the corrected prefix and escaped Java names, the symbols the struct
      exports are exactly the short JNI names of the natives its inner class
      declares, whatever the namespace, struct name and method names. */
  lemma NativesMatchBridgesCorrected(c: JavaClass, args: Attrs.BindgenAttrs)
    requires AsJniMethodsCorrected(c, args).Ok?
    ensures var cls := InnerClassName(Attrs.GetNamespace(args).value, c.name);
            var natives := InnerMethods(c);
            var syms := Symbols(AsJniMethodsCorrected(c, args).value);
            && (forall k :: 0 <= k < |natives| ==> JniNames.ShortSymbol(cls, JavaName(natives[k])) in syms)
            && (forall x :: x in syms ==> exists k :: 0 <= k < |natives| && x == JniNames.ShortSymbol(cls, JavaName(natives[k])))
  {
    var b := AsJniMethodsCorrected(c, args).value;
    var cls := InnerClassName(Attrs.GetNamespace(args).value, c.name);
    BridgeSymbolsCorrected(c, args);
    assert ExportedAs(c, b, ShortName(cls));
    NativesExported(c, b, ShortName(cls));
    SymbolsDeclared(c, b, ShortName(cls));
  }

  /** Where each bridge's symbol sits in `Symbols`. */
  lemma SymbolsIndex(b: ClassBridges)
    ensures var syms := Symbols(b);
            var nm, nc := |b.methods|, |b.constructors|;
            var d := if b.drop.Some? then 1 else 0;
            && |syms| == nm + nc + d + 1
            && (forall k :: 0 <= k < nm ==> syms[k] == b.methods[k].symbol)
            && (forall l :: 0 <= l < nc ==> syms[nm + l] == b.constructors[l].symbol)
            && (b.drop.Some? ==> syms[nm + nc] == b.drop.value.symbol)
            && syms[nm + nc + d] == b.typeHash.symbol
  {
  }

  /** Where each native sits in `InnerMethods`. */
  lemma InnerIndex(c: JavaClass)
    ensures var natives := InnerMethods(c);
            var nm, nc := |c.methods|, |c.constructors|;
            var d := if nc > 0 then 1 else 0;
            && |natives| == nm + d + 1 + nc
            && (forall k :: 0 <= k < nm ==> natives[k] == c.methods[k])
            && (nc > 0 ==> natives[nm] == JavaMethods.DropMethod())
            && natives[nm + d] == JavaMethods.TypeHashMethod()
            && (forall l :: 0 <= l < nc ==> natives[nm + d + 1 + l] == c.constructors[l])
  {
  }

  /** Every native of the inner class has a bridge. */
  lemma NativesExported(c: JavaClass, b: ClassBridges, name: JavaMethod -> string)
    requires ExportedAs(c, b, name)
    ensures forall k :: 0 <= k < |InnerMethods(c)| ==> name(InnerMethods(c)[k]) in Symbols(b)
  {
    forall k | 0 <= k < |InnerMethods(c)|
      ensures name(InnerMethods(c)[k]) in Symbols(b)
    {
      NativeExported(c, b, name, k);
    }
  }

  lemma NativeExported(c: JavaClass, b: ClassBridges, name: JavaMethod -> string, k: nat)
    requires ExportedAs(c, b, name)
    requires k < |InnerMethods(c)|
    ensures name(InnerMethods(c)[k]) in Symbols(b)
  {
    var nm, nc := |c.methods|, |c.constructors|;
    var d := if nc > 0 then 1 else 0;
    SymbolsIndex(b);
    InnerIndex(c);
    if k < nm {
      MethodExported(c, b, name, k);
    } else if k < nm + d {
      assert Symbols(b)[nm + nc] == name(InnerMethods(c)[k]);
    } else if k == nm + d {
      assert Symbols(b)[nm + nc + d] == name(InnerMethods(c)[k]);
    } else {
      ConstructorExported(c, b, name, k - nm - d - 1);
    }
  }

  lemma MethodExported(c: JavaClass, b: ClassBridges, name: JavaMethod -> string, k: nat)
    requires ExportedAs(c, b, name)
    requires k < |c.methods|
    ensures name(InnerMethods(c)[k]) in Symbols(b)
  {
    SymbolsIndex(b);
    InnerIndex(c);
    assert Symbols(b)[k] == name(InnerMethods(c)[k]);
  }

  lemma ConstructorExported(c: JavaClass, b: ClassBridges, name: JavaMethod -> string, l: nat)
    requires ExportedAs(c, b, name)
    requires l < |c.constructors|
    ensures name(InnerMethods(c)[|c.methods| + 2 + l]) in Symbols(b)
  {
    var nm := |c.methods|;
    ConstructorNative(c, l);
    ConstructorSymbol(b, l);
    assert InnerMethods(c)[nm + 2 + l] == c.constructors[l];
    assert Symbols(b)[nm + l] == name(c.constructors[l]);
  }

  /** The l-th constructor sits after the methods, `drop` and `getTypeHash`. */
  lemma ConstructorNative(c: JavaClass, l: nat)
    requires l < |c.constructors|
    ensures |c.methods| + 2 + l < |InnerMethods(c)|
    ensures InnerMethods(c)[|c.methods| + 2 + l] == c.constructors[l]
  {
    InnerIndex(c);
  }

  /** The l-th constructor bridge's symbol follows the method bridges' symbols. */
  lemma ConstructorSymbol(b: ClassBridges, l: nat)
    requires l < |b.constructors|
    ensures |b.methods| + l < |Symbols(b)|
    ensures Symbols(b)[|b.methods| + l] == b.constructors[l].symbol
  {
    SymbolsIndex(b);
  }

  /** Every bridge answers a native of the inner class. */
  lemma SymbolsDeclared(c: JavaClass, b: ClassBridges, name: JavaMethod -> string)
    requires ExportedAs(c, b, name)
    ensures forall x :: x in Symbols(b) ==> exists k :: 0 <= k < |InnerMethods(c)| && x == name(InnerMethods(c)[k])
  {
    var natives := InnerMethods(c);
    var syms := Symbols(b);
    var nm, nc := |c.methods|, |c.constructors|;
    var d := if nc > 0 then 1 else 0;
    forall x | x in syms
      ensures exists k :: 0 <= k < |natives| && x == name(natives[k])
    {
      var i :| 0 <= i < |syms| && syms[i] == x;
      if i < nm {
        assert natives[i] == c.methods[i] && syms[i] == b.methods[i].symbol;
      } else if i < nm + nc {
        var l := i - nm;
        assert natives[nm + d + 1 + l] == c.constructors[l] && syms[i] == b.constructors[l].symbol;
      } else if i < nm + nc + d {
        assert natives[nm] == JavaMethods.DropMethod() && syms[i] == b.drop.value.symbol;
      } else {
        assert natives[nm + d] == JavaMethods.TypeHashMethod() && syms[i] == b.typeHash.symbol;
      }
    }
  }

  // ---------------------------------------------------------------------
  // The Java class (`as_declaration`)

  /** The natives of the inner class in declaration order: the user's methods,
      `drop` when the struct has a constructor, `getTypeHash`, and the
      constructors. */
  function InnerMethods(c: JavaClass): seq<JavaMethod> {
    c.methods + (if |c.constructors| > 0 then [JavaMethods.DropMethod()] else [])
    + [JavaMethods.TypeHashMethod()] + c.constructors
  }

  /** The inner class declares `drop` exactly when the struct has a
      constructor (no method read from source is the generated `drop`), and
      `getTypeHash` sits right after the user's methods and `drop`. */
  lemma InnerMethodsOrder(c: JavaClass)
    requires forall k :: 0 <= k < |c.methods| ==> c.methods[k].decl.Some?
    requires forall k :: 0 <= k < |c.constructors| ==> c.constructors[k].decl.Some?
    ensures var natives := InnerMethods(c);
            var t := |c.methods| + (if |c.constructors| > 0 then 1 else 0);
            && |natives| == t + 1 + |c.constructors|
            && natives[..|c.methods|] == c.methods
            && natives[t] == JavaMethods.TypeHashMethod()
            && natives[t + 1..] == c.constructors
            && (JavaMethods.DropMethod() in natives <==> |c.constructors| > 0)
  {
    var natives := InnerMethods(c);
    var t := |c.methods| + (if |c.constructors| > 0 then 1 else 0);
    assert natives[..|c.methods|] == c.methods;
    assert natives[t + 1..] == c.constructors;
    forall i | 0 <= i < |natives| && (i < |c.methods| || i >= t)
      ensures natives[i] != JavaMethods.DropMethod()
    {
      if i < |c.methods| {
        assert natives[i] == c.methods[i];
      } else if i > t {
        assert natives[i] == c.constructors[i - t - 1];
      }
    }
  }

  /** The private native declarations of the inner class. */
  function NativeDecls(ms: seq<JavaMethod>, structName: string): Result<seq<string>, string> {
    CollectAll(ms, m => JavaMethods.AsDeclaration(m, structName, false))
  }

  /** The public wrappers of the outer class. */
  function PublicDecls(ms: seq<JavaMethod>, structName: string): Result<seq<string>, string> {
    CollectAll(ms, m => JavaMethods.AsDeclaration(m, structName, true))
  }

  /** The constructors of the outer class (`inner` false) or of the inner one. */
  function Constructors(ms: seq<JavaMethod>, className: string, inner: bool): Result<seq<string>, string> {
    CollectAll(ms, m => JavaMethods.AsConstructor(m, className, inner))
  }

  /** The template of the inner class: struct name, natives, constructors and
      the library to load. */
  type InnerTemplate = (string, string, string, Option<string>) -> string

  /** The outer class imports the exception class when some method or
      constructor needs it. */
  predicate Throws(c: JavaClass) {
    JavaTypes.NativeExecutionImport in GetImports(c)
  }

  /** The text of the Java class; Err is the panic of a method that cannot be
      declared in Java. */
  function ClassText(c: JavaClass, innerClass: InnerTemplate): (r: Result<string, string>)
    ensures r.Ok? ==> Strings.IsPrefix("package " + c.namespace + ";", r.value)
  {
    var natives :- NativeDecls(InnerMethods(c), c.name);
    var innerCtors :- Constructors(c.constructors, c.name + "Native", true);
    var methods :- PublicDecls(c.methods, c.name);
    var ctors :- Constructors(c.constructors, c.name, false);
    var inner := innerClass(c.name, Strings.Join(natives, "\n\t"), Strings.Join(innerCtors, "\n\t"), Attrs.LoadLibName(c.attrs));
    Ok(Code.OuterClass(c.namespace, c.name, Strings.Join(methods, "\n"), Strings.Join(ctors, "\n"), inner, Throws(c)))
  }

  /** `as_declaration`: copies the methods, appends the generated natives and
      the constructors, and fills the class templates. */
  method AsDeclaration(c: JavaClass, innerClass: InnerTemplate) returns (r: Result<string, string>)
    ensures r == ClassText(c, innerClass)
  {
    var methodsCopy := c.methods;
    if |c.constructors| > 0 {
      methodsCopy := methodsCopy + [JavaMethods.DropMethod()];
    }
    methodsCopy := methodsCopy + [JavaMethods.TypeHashMethod()];
    methodsCopy := methodsCopy + c.constructors;
    assert methodsCopy == InnerMethods(c);
    var natives := NativeDecls(methodsCopy, c.name);
    if natives.Err? {
      return Err(natives.error);
    }
    var innerCtors := Constructors(c.constructors, c.name + "Native", true);
    if innerCtors.Err? {
      return Err(innerCtors.error);
    }
    var inner := innerClass(c.name, Strings.Join(natives.value, "\n\t"), Strings.Join(innerCtors.value, "\n\t"),
                            Attrs.LoadLibName(c.attrs));
    var methods := PublicDecls(c.methods, c.name);
    if methods.Err? {
      return Err(methods.error);
    }
    var ctors := Constructors(c.constructors, c.name, false);
    if ctors.Err? {
      return Err(ctors.error);
    }
    r := Ok(Code.OuterClass(c.namespace, c.name, Strings.Join(methods.value, "\n"), Strings.Join(ctors.value, "\n"),
                            inner, Throws(c)));
  }

  /** A class with a method or constructor that returns a Result (and so
      declares `throws NativeExecutionException`) imports the exception. */
  lemma ExceptionImported(c: JavaClass, innerClass: InnerTemplate, m: JavaMethod)
    requires ClassText(c, innerClass).Ok?
    requires m in c.methods || m in c.constructors
    requires m.returnType.Some? && m.returnType.value.Fallible?
    ensures Strings.IsPrefix(Code.Preamble(c.namespace) + Code.ExceptionImport, ClassText(c, innerClass).value)
  {
    JavaMethods.ThrowsImported(m);
    if m in c.methods {
      var k :| 0 <= k < |c.methods| && c.methods[k] == m;
      assert JavaTypes.NativeExecutionImport in JavaMethods.GetImports(c.methods[k]);
    } else {
      var k :| 0 <= k < |c.constructors| && c.constructors[k] == m;
      assert JavaTypes.NativeExecutionImport in JavaMethods.GetImports(c.constructors[k]);
    }
    assert Throws(c);
    var r := ClassText(c, innerClass).value;
    var natives := NativeDecls(InnerMethods(c), c.name).value;
    var innerCtors := Constructors(c.constructors, c.name + "Native", true).value;
    var methods := PublicDecls(c.methods, c.name).value;
    var ctors := Constructors(c.constructors, c.name, false).value;
    var inner := innerClass(c.name, Strings.Join(natives, "\n\t"), Strings.Join(innerCtors, "\n\t"), Attrs.LoadLibName(c.attrs));
    Code.OuterClassImports(c.namespace, c.name, Strings.Join(methods, "\n"), Strings.Join(ctors, "\n"), inner, true);
  }

  /** The generated `destruct` hands the pointer to the inner class's `drop`
      native, which the inner class declares whenever it has a constructor. */
  lemma DestructDropsHandle()
    ensures Strings.Contains(Code.Destruct, JavaName(JavaMethods.DropMethod()) + "(this.ptr);")
  {
    DropName();
    Strings.ContainsMiddle(Code.DestructHead, Code.DestructCall, Code.DestructTail);
  }
}
