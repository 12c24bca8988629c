/** The Java source templates of a bound struct
    (crates/jni-bindgen-macros/src/codegen/code.rs). */
module Code {
  import Strings

  /** `DESTRUCT`: the `destruct` override that hands the handle to the native `drop`. */
  const Destruct: string := DestructHead + DestructCall + DestructTail
  const DestructHead: string := "\n    @Override\n    protected void destruct() {\n        "
  const DestructCall: string := "drop" + "(this.ptr);"
  const DestructTail: string := "\n    }\n"

  /** The import of the exception that Result-returning methods declare. */
  const ExceptionImport: string := "\nimport com.github.markusjx.jnibindgen.NativeExecutionException;"

  /** The two imports every outer class has. */
  const FixedImports: string := "\n        \n        import com.github.markusjx.jnibindgen.NativeClass;\n        import com.github.markusjx.jnibindgen.NativeClassImpl;"

  const ClassIndent: string := "\n        \n        "
  const AccessorIndent: string := "\n\n    @Override\n    "

  /** The package line and the fixed imports. */
  function Preamble(namespace: string): string {
    "package " + namespace + ";" + FixedImports
  }

  /** The class line: the outer class implements `NativeClassImpl` over its own inner class. */
  function Inherits(className: string): string {
    "public class " + className + " implements NativeClassImpl<" + className + "." + className + "Native> {"
  }

  /** The `inner` field, then the public methods and constructors. */
  function Members(className: string, methods: string, constructors: string): string {
    "\n    private final " + className + "Native inner;\n\n    " + methods + "\n    \n    " + constructors
  }

  /** The `getInner` accessor. */
  function Accessor(className: string): string {
    "public " + className + "Native getInner() {\n        return inner;\n    }"
  }

  function Closing(inner: string): string {
    "\n\n    " + inner + "\n    }"
  }

  /** `outer_class`: the public Java class of a bound struct, which starts
      with its package line. */
  function OuterClass(namespace: string, className: string, methods: string, constructors: string,
                      inner: string, throws: bool): (r: string)
    ensures Strings.IsPrefix("package " + namespace + ";", r)
  {
    var head := "package " + namespace + ";";
    var rest := FixedImports + (if throws then ExceptionImport else "") + ClassIndent + Inherits(className)
                + Members(className, methods, constructors) + AccessorIndent + Accessor(className) + Closing(inner);
    Strings.PrefixOf(head, rest);
    head + rest
  }

  /** Right after the two fixed imports comes the exception import when
      `throws` is set and the class line otherwise. */
  lemma OuterClassImports(namespace: string, className: string, methods: string, constructors: string,
                          inner: string, throws: bool)
    ensures var r := OuterClass(namespace, className, methods, constructors, inner, throws);
            && (throws ==> Strings.IsPrefix(Preamble(namespace) + ExceptionImport, r))
            && (!throws ==> Strings.IsPrefix(Preamble(namespace) + ClassIndent + Inherits(className), r))
  {
    if throws {
      ImportedWhenThrows(namespace, className, methods, constructors, inner);
    } else {
      NotImportedOtherwise(namespace, className, methods, constructors, inner);
    }
  }

  lemma ImportedWhenThrows(namespace: string, className: string, methods: string, constructors: string, inner: string)
    ensures Strings.IsPrefix(Preamble(namespace) + ExceptionImport,
                             OuterClass(namespace, className, methods, constructors, inner, true))
  {
    var head := "package " + namespace + ";";
    var members := Members(className, methods, constructors);
    SevenParts(head, FixedImports, ExceptionImport, ClassIndent, Inherits(className), members,
               AccessorIndent + Accessor(className) + Closing(inner));
    Strings.PrefixOf(head + FixedImports + ExceptionImport,
             ClassIndent + Inherits(className) + members + (AccessorIndent + Accessor(className) + Closing(inner)));
  }

  lemma NotImportedOtherwise(namespace: string, className: string, methods: string, constructors: string, inner: string)
    ensures Strings.IsPrefix(Preamble(namespace) + ClassIndent + Inherits(className),
                             OuterClass(namespace, className, methods, constructors, inner, false))
  {
    var head := "package " + namespace + ";";
    var members := Members(className, methods, constructors);
    SevenParts(head, FixedImports, "", ClassIndent, Inherits(className), members,
               AccessorIndent + Accessor(className) + Closing(inner));
    Strings.PrefixOf(head + FixedImports + "" + ClassIndent + Inherits(className),
             members + (AccessorIndent + Accessor(className) + Closing(inner)));
    assert head + FixedImports + "" == Preamble(namespace);
  }

  /** Regrouping a concatenation of seven parts. */
  lemma SevenParts(a: string, b: string, c: string, d: string, e: string, f: string, g: string)
    ensures a + (b + c + d + e + f + g) == (a + b + c) + (d + e + f + g)
    ensures a + (b + c + d + e + f + g) == (a + b + c + d + e) + (f + g)
    ensures a + (b + c + d + e + f + g) == (a + b + c + d) + e + (f + g)
  {
  }

  /** The class implements `NativeClassImpl<C.CNative>` and its `getInner`
      returns the `inner` field. */
  lemma OuterClassShape(namespace: string, className: string, methods: string, constructors: string,
                        inner: string, throws: bool)
    ensures var r := OuterClass(namespace, className, methods, constructors, inner, throws);
            Strings.Contains(r, Inherits(className)) && Strings.Contains(r, Accessor(className))
  {
    var imp := if throws then ExceptionImport else "";
    ShapeInherits(namespace, className, methods, constructors, inner, throws, imp);
    ShapeAccessor(namespace, className, methods, constructors, inner, throws, imp);
  }

  lemma ShapeInherits(namespace: string, className: string, methods: string, constructors: string,
                      inner: string, throws: bool, imp: string)
    requires imp == if throws then ExceptionImport else ""
    ensures Strings.Contains(OuterClass(namespace, className, methods, constructors, inner, throws), Inherits(className))
  {
    var a := "package " + namespace + ";";
    var e := Inherits(className);
    var f := Members(className, methods, constructors);
    var h := Accessor(className);
    var i := Closing(inner);
    NineParts(a, FixedImports, imp, ClassIndent, e, f, AccessorIndent, h, i);
    Strings.ContainsMiddle(a + FixedImports + imp + ClassIndent, e, f + AccessorIndent + h + i);
  }

  lemma ShapeAccessor(namespace: string, className: string, methods: string, constructors: string,
                      inner: string, throws: bool, imp: string)
    requires imp == if throws then ExceptionImport else ""
    ensures Strings.Contains(OuterClass(namespace, className, methods, constructors, inner, throws), Accessor(className))
  {
    var a := "package " + namespace + ";";
    var e := Inherits(className);
    var f := Members(className, methods, constructors);
    var h := Accessor(className);
    var i := Closing(inner);
    NineParts(a, FixedImports, imp, ClassIndent, e, f, AccessorIndent, h, i);
    Strings.ContainsMiddle(a + FixedImports + imp + ClassIndent + e + f + AccessorIndent, h, i);
  }

  /** Regrouping the nine parts of the outer class. */
  lemma NineParts(a: string, b: string, c: string, d: string, e: string, f: string, g: string, h: string, i: string)
    ensures a + (b + c + d + e + f + g + h + i) == (a + b + c + d) + e + (f + g + h + i)
    ensures a + (b + c + d + e + f + g + h + i) == (a + b + c + d + e + f + g) + h + i
  {
  }

  /** `load_library`: the static initialiser that loads the native library. */
  function LoadLibrary(libName: string): string {
    LoadPrefix + "\"" + libName + "\"" + LoadSuffix
  }

  const LoadPrefix: string := "static {\n        System.loadLibrary("
  const LoadSuffix: string := ");\n    }"

  lemma JoinThree(a: string, b: string, c: string, sep: string)
    ensures Strings.Join([a, b, c], sep) == a + sep + b + sep + c
  {
    var parts := [a, b, c];
    assert parts[1..] == [b, c] && parts[1..][1..] == [c];
    assert Strings.Join(parts[1..][1..], sep) == c;
    assert Strings.Join(parts[1..], sep) == b + sep + c;
  }

  /** The library name is the only quoted text of the initialiser, so it can be
      read back from it. */
  lemma LoadLibraryName(libName: string)
    requires '"' !in libName
    ensures Strings.Split(LoadLibrary(libName), '"') == [LoadPrefix, libName, LoadSuffix]
  {
    var parts := [LoadPrefix, libName, LoadSuffix];
    JoinThree(LoadPrefix, libName, LoadSuffix, "\"");
    assert forall k :: 0 <= k < |LoadPrefix| ==> LoadPrefix[k] != '"';
    assert forall k :: 0 <= k < |LoadSuffix| ==> LoadSuffix[k] != '"';
    Strings.SplitJoin(parts, '"');
  }
}
