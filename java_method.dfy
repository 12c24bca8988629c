/** A method of an exported struct or of an interface trait as the generator
    sees it, and what it produces from it: the Java declaration, the Rust bridge
    the JVM calls, and the trait method that calls back into Java
    (crates/jni-bindgen-macros/src/codegen/java_method.rs). */
module JavaMethods {
  import opened Wrappers
  import Syn
  import Strings
  import Traits
  import JavaTypes
  import Descriptors
  import Quotes

  type JavaType = JavaTypes.JavaType
  type JavaArg = JavaTypes.JavaArg

  /** `ImplOrTraitFn`: the declaration a method was read from. */
  datatype FnDecl = ImplDecl(implFn: Syn.ImplItemFn) | TraitDecl(traitFn: Syn.TraitItemFn) {
    function Attrs(): seq<Syn.Attribute> {
      match this
      case ImplDecl(f) => f.attrs
      case TraitDecl(f) => f.attrs
    }
  }

  /** An `IndexMap<String, JavaArg>`: entries in insertion order, keyed by the
      parameter's pattern text. */
  type ArgMap = seq<(string, JavaArg)>

  /** `JavaMethod` */
  datatype JavaMethod = JavaMethod(
    name: string,
    originalName: string,
    args: ArgMap,
    returnType: Option<JavaType>,
    staticMethod: bool,
    mutSelf: bool,
    decl: Option<FnDecl>)

  // ---------------------------------------------------------------------
  // The argument map

  function Keys(m: ArgMap): seq<string> {
    seq(|m|, i requires 0 <= i < |m| => m[i].0)
  }

  function Values(m: ArgMap): seq<JavaArg> {
    seq(|m|, i requires 0 <= i < |m| => m[i].1)
  }

  predicate DistinctKeys(m: ArgMap) {
    forall i, j :: 0 <= i < j < |m| ==> m[i].0 != m[j].0
  }

  /** Position of the entry with key `k`, or |m| when there is none. */
  function KeyIndex(m: ArgMap, k: string): (r: nat)
    ensures r <= |m|
    ensures r < |m| ==> m[r].0 == k
    ensures forall j :: 0 <= j < r ==> m[j].0 != k
    decreases |m|
  {
    if |m| == 0 then 0 else if m[0].0 == k then 0 else 1 + KeyIndex(m[1..], k)
  }

  /** `IndexMap::insert`: a new key is appended; a key already present keeps its
      position and takes the new value. */
  function Insert(m: ArgMap, k: string, v: JavaArg): (r: ArgMap)
    ensures DistinctKeys(m) ==> DistinctKeys(r)
    ensures k in Keys(m) ==> |r| == |m| && Keys(r) == Keys(m)
    ensures k !in Keys(m) ==> r == m + [(k, v)]
    ensures exists i :: 0 <= i < |r| && r[i] == (k, v)
    ensures forall i :: 0 <= i < |r| ==> r[i] == (k, v) || r[i] in m
  {
    var i := KeyIndex(m, k);
    if i < |m| then
      assert Keys(m)[i] == k;
      m[i := (k, v)]
    else
      assert forall j :: 0 <= j < |m| ==> Keys(m)[j] != k;
      var r := m + [(k, v)];
      assert r[|m|] == (k, v);
      r
  }

  /** `get_name`: the receiver is "self", any other parameter its pattern text. */
  function ArgName(arg: Syn.FnArg): string {
    match arg
    case Receiver(_, _) => "self"
    case Typed(_, pat, _) => pat
  }

  /** The patterns of the typed (non-receiver) parameters, in order. */
  function TypedNames(inputs: seq<Syn.FnArg>): seq<string>
    decreases |inputs|
  {
    if |inputs| == 0 then []
    else (if inputs[0].Typed? then [inputs[0].pat] else []) + TypedNames(inputs[1..])
  }

  /** The argument map of `from_sig`, inserted after `acc`: receivers are
      skipped, every other parameter is classified, and the first parameter
      that cannot be classified fails the whole collection. */
  function CollectArgs(inputs: seq<Syn.FnArg>, acc: ArgMap): (r: Result<ArgMap, string>)
    ensures r.Ok? <==>
              forall i :: 0 <= i < |inputs| && inputs[i].Typed? ==> JavaTypes.ClassifyArg(inputs[i]).Ok?
    decreases |inputs|
  {
    if |inputs| == 0 then Ok(acc)
    else if inputs[0].Receiver? then
      var r := CollectArgs(inputs[1..], acc);
      assert forall i :: 1 <= i < |inputs| ==> inputs[i] == inputs[1..][i - 1];
      r
    else
      var a :- JavaTypes.ArgFromDeclaration(inputs[0]);
      var r := CollectArgs(inputs[1..], Insert(acc, ArgName(inputs[0]), a));
      assert forall i :: 1 <= i < |inputs| ==> inputs[i] == inputs[1..][i - 1];
      r
  }

  /** A failed collection reports the first parameter that cannot be classified. */
  lemma {:induction false} CollectArgsError(inputs: seq<Syn.FnArg>, acc: ArgMap)
    requires CollectArgs(inputs, acc).Err?
    ensures exists i :: && 0 <= i < |inputs| && inputs[i].Typed?
                        && JavaTypes.ClassifyArg(inputs[i]) == Err(CollectArgs(inputs, acc).error)
                        && forall j :: 0 <= j < i && inputs[j].Typed? ==> JavaTypes.ClassifyArg(inputs[j]).Ok?
    decreases |inputs|
  {
    var e := CollectArgs(inputs, acc).error;
    if inputs[0].Typed? && JavaTypes.ClassifyArg(inputs[0]).Err? {
      assert JavaTypes.ClassifyArg(inputs[0]) == Err(e);
    } else {
      var acc' := if inputs[0].Receiver? then acc
                  else Insert(acc, ArgName(inputs[0]), JavaTypes.ArgFromDeclaration(inputs[0]).value);
      assert CollectArgs(inputs, acc) == CollectArgs(inputs[1..], acc');
      CollectArgsError(inputs[1..], acc');
      var i :| && 0 <= i < |inputs[1..]| && inputs[1..][i].Typed?
               && JavaTypes.ClassifyArg(inputs[1..][i]) == Err(e)
               && forall j :: 0 <= j < i && inputs[1..][j].Typed? ==> JavaTypes.ClassifyArg(inputs[1..][j]).Ok?;
      assert inputs[i + 1] == inputs[1..][i];
      assert forall j :: 1 <= j < i + 1 ==> inputs[j] == inputs[1..][j - 1];
    }
  }

  /** A successful collection has one entry per distinct pattern, keys
      distinct, and no receiver among its values. */
  lemma {:induction false} CollectArgsKeys(inputs: seq<Syn.FnArg>, acc: ArgMap)
    requires CollectArgs(inputs, acc).Ok?
    requires DistinctKeys(acc)
    requires forall i :: 0 <= i < |acc| ==> !JavaTypes.IsSelf(acc[i].1)
    ensures DistinctKeys(CollectArgs(inputs, acc).value)
    ensures forall k :: k in Keys(CollectArgs(inputs, acc).value) <==> k in Keys(acc) || k in TypedNames(inputs)
    ensures forall i :: 0 <= i < |CollectArgs(inputs, acc).value| ==> !JavaTypes.IsSelf(CollectArgs(inputs, acc).value[i].1)
    decreases |inputs|
  {
    if |inputs| > 0 {
      if inputs[0].Receiver? {
        assert TypedNames(inputs) == TypedNames(inputs[1..]);
        CollectArgsKeys(inputs[1..], acc);
      } else {
        var a := JavaTypes.ArgFromDeclaration(inputs[0]).value;
        var p := inputs[0].pat;
        var acc' := Insert(acc, p, a);
        assert TypedNames(inputs) == [p] + TypedNames(inputs[1..]);
        assert forall k :: k in Keys(acc') <==> k in Keys(acc) || k == p by {
          if p in Keys(acc) {
            assert Keys(acc') == Keys(acc);
          } else {
            assert Keys(acc') == Keys(acc) + [p];
          }
        }
        assert !JavaTypes.IsSelf(a);
        assert CollectArgs(inputs, acc) == CollectArgs(inputs[1..], acc');
        CollectArgsKeys(inputs[1..], acc');
      }
    }
  }

  /** With distinct patterns, the map lists the parameters in declaration order. */
  lemma {:induction false} CollectOrder(inputs: seq<Syn.FnArg>, acc: ArgMap)
    requires Distinct(TypedNames(inputs))
    requires forall k :: k in TypedNames(inputs) ==> k !in Keys(acc)
    requires CollectArgs(inputs, acc).Ok?
    ensures Keys(CollectArgs(inputs, acc).value) == Keys(acc) + TypedNames(inputs)
    decreases |inputs|
  {
    if |inputs| == 0 {
      assert Keys(acc) + [] == Keys(acc);
    } else if inputs[0].Receiver? {
      assert TypedNames(inputs) == TypedNames(inputs[1..]);
      assert CollectArgs(inputs, acc) == CollectArgs(inputs[1..], acc);
      CollectOrder(inputs[1..], acc);
    } else {
      var rest := TypedNames(inputs[1..]);
      var p := inputs[0].pat;
      var acc' := Insert(acc, p, JavaTypes.ArgFromDeclaration(inputs[0]).value);
      CollectOrderStep(p, rest, Keys(acc), Keys(acc'));
      assert CollectArgs(inputs, acc) == CollectArgs(inputs[1..], acc');
      CollectOrder(inputs[1..], acc');
    }
  }

  predicate Distinct(s: seq<string>) {
    forall i, j :: 0 <= i < j < |s| ==> s[i] != s[j]
  }

  lemma CollectOrderStep(p: string, rest: seq<string>, keys: seq<string>, keys': seq<string>)
    requires Distinct([p] + rest)
    requires forall k :: k in [p] + rest ==> k !in keys
    requires p !in keys ==> keys' == keys + [p]
    ensures keys' == keys + [p]
    ensures Distinct(rest)
    ensures forall k :: k in rest ==> k !in keys'
    ensures keys' + rest == keys + ([p] + rest)
  {
    var names := [p] + rest;
    assert names[0] == p;
    forall i, j | 0 <= i < j < |rest| ensures rest[i] != rest[j] {
      assert rest[i] == names[i + 1] && rest[j] == names[j + 1];
    }
    forall k | k in rest ensures k !in keys' {
      var i :| 0 <= i < |rest| && rest[i] == k;
      assert names[i + 1] == k;
    }
  }

  /** Two parameters with the same pattern, such as two `_`, become a single
      argument: the first position with the second parameter's type. */
  lemma SamePatternMerges(first: Syn.FnArg, second: Syn.FnArg)
    requires first.Typed? && second.Typed? && first.pat == second.pat
    requires JavaTypes.ClassifyArg(first).Ok? && JavaTypes.ClassifyArg(second).Ok?
    ensures CollectArgs([first, second], [])
            == Ok([(first.pat, JavaTypes.ArgFromDeclaration(second).value)])
  {
    var a := JavaTypes.ArgFromDeclaration(first).value;
    var b := JavaTypes.ArgFromDeclaration(second).value;
    var p := first.pat;
    var acc := Insert([], p, a);
    assert KeyIndex([], p) == 0;
    assert acc == [(p, a)];
    var acc' := Insert(acc, p, b);
    assert KeyIndex(acc, p) == 0;
    assert acc' == [(p, b)];
    assert [second][1..] == [];
    assert CollectArgs([second], acc) == CollectArgs([], acc');
    assert [first, second][1..] == [second];
    assert CollectArgs([first, second], []) == CollectArgs([second], acc);
  }

  /** The first receiver: Some(mutable) for `&self` or `&mut self`, None when
      there is none; a receiver taken by value is an error. */
  function SelfArg(inputs: seq<Syn.FnArg>): (r: Result<Option<bool>, string>)
    ensures r == Ok(None) <==> forall i :: 0 <= i < |inputs| ==> !inputs[i].Receiver?
    ensures forall i :: 0 <= i < |inputs| && inputs[i].Receiver? && (forall j :: 0 <= j < i ==> !inputs[j].Receiver?) ==>
              r == (if inputs[i].reference then Ok(Some(inputs[i].mutable)) else Err("self argument must be a reference"))
    decreases |inputs|
  {
    if |inputs| == 0 then Ok(None)
    else if inputs[0].Receiver? then
      if inputs[0].reference then Ok(Some(inputs[0].mutable)) else Err("self argument must be a reference")
    else
      var r := SelfArg(inputs[1..]);
      assert forall i :: 1 <= i < |inputs| ==> inputs[i] == inputs[1..][i - 1];
      r
  }

  /** `from_sig`: the arguments are read first, then the return type, then the
      receiver; a method without receiver is static. */
  function FromSig(sig: Syn.Signature, name: string, decl: FnDecl): (r: Result<JavaMethod, string>)
    ensures CollectArgs(sig.inputs, []).Err? ==> r == Err(CollectArgs(sig.inputs, []).error)
    ensures CollectArgs(sig.inputs, []).Ok? && sig.output.Some? && JavaTypes.Classify(sig.output.value).Err? ==>
              r == Err(JavaTypes.Classify(sig.output.value).error)
    ensures r.Ok? <==>
              && CollectArgs(sig.inputs, []).Ok?
              && (sig.output.Some? ==> JavaTypes.Classify(sig.output.value).Ok?)
              && SelfArg(sig.inputs).Ok?
    ensures r.Ok? ==>
              && r.value.name == name && r.value.originalName == sig.ident && r.value.decl == Some(decl)
              && (r.value.staticMethod <==> forall i :: 0 <= i < |sig.inputs| ==> !sig.inputs[i].Receiver?)
              && (r.value.mutSelf ==> !r.value.staticMethod)
              && (r.value.returnType.Some? <==> sig.output.Some?)
              && (sig.output.Some? ==> r.value.returnType.value == JavaTypes.Classify(sig.output.value).value)
              && DistinctKeys(r.value.args)
              && forall i :: 0 <= i < |r.value.args| ==> !JavaTypes.IsSelf(r.value.args[i].1)
  {
    var args :- CollectArgs(sig.inputs, []);
    CollectArgsKeys(sig.inputs, []);
    var returnType :- if sig.output.None? then Ok(None)
                      else (var t :- JavaTypes.Classify(sig.output.value); Ok(Some(t)));
    var selfArg :- SelfArg(sig.inputs);
    Ok(JavaMethod(name, sig.ident, args, returnType, selfArg.None?, selfArg.GetOr(false), Some(decl)))
  }

  /** `from_declaration` of an impl method: named after its `rename`, or its own
      identifier. */
  function FromImplFn(f: Syn.ImplItemFn): (r: Result<JavaMethod, string>)
    ensures r.Ok? ==> r.value.name == Traits.GetRename(f.attrs).GetOr(f.sig.ident)
    ensures r.Ok? ==> r.value.originalName == f.sig.ident && r.value.decl == Some(ImplDecl(f))
  {
    FromSig(f.sig, Traits.GetRename(f.attrs).GetOr(f.sig.ident), ImplDecl(f))
  }

  /** `from_declaration` of a trait method. */
  function FromTraitFn(f: Syn.TraitItemFn): (r: Result<JavaMethod, string>)
    ensures r.Ok? ==> r.value.name == Traits.GetRename(f.attrs).GetOr(f.sig.ident)
    ensures r.Ok? ==> r.value.originalName == f.sig.ident && r.value.decl == Some(TraitDecl(f))
  {
    FromSig(f.sig, Traits.GetRename(f.attrs).GetOr(f.sig.ident), TraitDecl(f))
  }

  /** `drop_method`: the static native `drop(long self)` of the inner class. */
  function DropMethod(): JavaMethod {
    JavaMethod("drop", "drop", [("self", JavaTypes.ThisArg())], None, true, false, None)
  }

  /** `get_type_hash`: the static native `long getTypeHash()`. */
  function TypeHashMethod(): JavaMethod {
    JavaMethod("getTypeHash", "getTypeHash", [], Some(JavaTypes.Long), true, false, None)
  }

  // ---------------------------------------------------------------------
  // Imports

  /** The imports the argument types need. */
  function ArgImports(args: ArgMap): (r: set<string>)
    ensures forall x :: x in r <==> exists i :: 0 <= i < |args| && x in JavaTypes.Imports(args[i].1.javaType)
    decreases |args|
  {
    if |args| == 0 then {}
    else
      var r := JavaTypes.Imports(args[0].1.javaType) + ArgImports(args[1..]);
      assert forall i :: 1 <= i < |args| ==> args[i] == args[1..][i - 1];
      r
  }

  /** `get_imports`: what any argument type or the return type needs. */
  function GetImports(m: JavaMethod): (r: set<string>)
    ensures forall x :: x in r <==>
              || (exists i :: 0 <= i < |m.args| && x in JavaTypes.Imports(m.args[i].1.javaType))
              || (m.returnType.Some? && x in JavaTypes.Imports(m.returnType.value))
  {
    ArgImports(m.args) + (if m.returnType.Some? then JavaTypes.Imports(m.returnType.value) else {})
  }

  /** A method that returns a Result declares `throws NativeExecutionException`
      and has the exception class among its imports. */
  lemma ThrowsImported(m: JavaMethod)
    requires m.returnType.Some? && m.returnType.value.Fallible?
    ensures ThrowsClause(m) == " throws NativeExecutionException"
    ensures JavaTypes.NativeExecutionImport in GetImports(m)
  {
  }

  // ---------------------------------------------------------------------
  // Java declarations

  /** The parameters that have a Java declaration (a `JNIEnv` has none), as
      (camelCase name, Java type) pairs in argument order; Err is the panic of
      an unsupported `Option` payload. */
  function Declared(args: ArgMap): (r: Result<seq<(string, string)>, string>)
    ensures r.Ok? <==> forall i :: 0 <= i < |args| ==> JavaTypes.AsDeclaration(args[i].1.javaType).Ok?
    ensures r.Ok? ==> |r.value| == DeclCount(args)
    decreases |args|
  {
    if |args| == 0 then Ok([])
    else
      assert forall i :: 1 <= i < |args| ==> args[i] == args[1..][i - 1];
      var d :- JavaTypes.AsDeclaration(args[0].1.javaType);
      var rest :- Declared(args[1..]);
      Ok((if d.Some? then [(Strings.ToCamel(args[0].0), d.value)] else []) + rest)
  }

  /** The number of arguments that have a Java declaration. */
  function DeclCount(args: ArgMap): nat
    decreases |args|
  {
    if |args| == 0 then 0
    else
      (if JavaTypes.AsDeclaration(args[0].1.javaType).Ok? && JavaTypes.AsDeclaration(args[0].1.javaType).value.Some?
       then 1 else 0) + DeclCount(args[1..])
  }

  /** `get_args`: "Type name" for every declared parameter, joined by ", ". */
  function ParamList(ds: seq<(string, string)>): string {
    Strings.Join(seq(|ds|, i requires 0 <= i < |ds| => ds[i].1 + " " + ds[i].0), ", ")
  }

  /** `get_arg_names`: the names of the same parameters, joined by ", ". */
  function NameList(ds: seq<(string, string)>): string {
    Strings.Join(seq(|ds|, i requires 0 <= i < |ds| => ds[i].0), ", ")
  }

  /** `throws` of the return type, or nothing. */
  function ThrowsClause(m: JavaMethod): string {
    if m.returnType.Some? && JavaTypes.Throws(m.returnType.value).Some? then JavaTypes.Throws(m.returnType.value).value
    else ""
  }

  /** The Java return type: "void" without one; Err is the panic of `unwrap` on a
      type without Java text (`JNIEnv`) or of an unsupported `Option`. */
  function ReturnTypeText(rt: Option<JavaType>): (r: Result<string, string>)
    ensures rt.None? ==> r == Ok("void")
    ensures rt.Some? && rt.value.Env? ==> r.Err?
  {
    if rt.None? then Ok("void")
    else
      var d :- JavaTypes.AsDeclaration(rt.value);
      if d.None? then Err("called `Option::unwrap()` on a `None` value") else Ok(d.value)
  }

  /** A Java wrapper returns the native result unless the method returns `()`
      (or a Result of `()`). */
  predicate ReturnsValue(m: JavaMethod) {
    m.returnType.Some? && !JavaTypes.IsVoid(m.returnType.value, true)
  }

  /** The target a Java wrapper forwards to: the native class for a static
      method, the `inner` object otherwise. */
  function Target(m: JavaMethod, structName: string): string {
    if m.staticMethod then structName + "Native" else "inner"
  }

  /** The body of a public wrapper: `{ [return ]target.name(args); }`. */
  function Forward(m: JavaMethod, structName: string, names: string): string {
    " {\n\t\t" + (if ReturnsValue(m) then "return " else "") + Target(m, structName) + "."
    + Strings.ToCamel(m.name) + "(" + names + ");\n\t}"
  }

  /** `as_declaration`: the public wrapper (`definition`) or the private native
      declaration of the method. */
  function AsDeclaration(m: JavaMethod, structName: string, definition: bool): (r: Result<string, string>)
    ensures r.Ok? <==> ReturnTypeText(m.returnType).Ok? && Declared(m.args).Ok?
  {
    var retTy :- ReturnTypeText(m.returnType);
    var ds :- Declared(m.args);
    var def := if definition then Forward(m, structName, NameList(ds)) else ";";
    Ok(Header(m, definition) + retTy + " " + Strings.ToCamel(m.name) + "(" + ParamList(ds) + ")" + ThrowsClause(m) + def)
  }

  /** Everything before the return type: comment, visibility and modifiers. */
  function Header(m: JavaMethod, definition: bool): string {
    "\t" + GetComment(m).GetOr("") + (if definition then "public " else "private ")
    + (if m.staticMethod then "static " else "") + (if definition then "" else "native ")
  }

  /** The wrapper returns a value exactly when the native method's bridge
      returns something other than unit, and then its body starts with
      `return`. */
  lemma ForwardReturns(m: JavaMethod, structName: string, names: string)
    requires m.returnType.Some? ==> JavaTypes.AsJniReturnType(m.returnType.value).Ok?
    ensures ReturnsValue(m) <==>
            m.returnType.Some? && JavaTypes.AsJniReturnType(m.returnType.value) != Ok(JavaTypes.Unit)
    ensures ReturnsValue(m) ==> Strings.IsPrefix(" {\n\t\treturn ", Forward(m, structName, names))
  {
    if m.returnType.Some? {
      JavaTypes.VoidMeansUnit(m.returnType.value);
    }
    var rest := Target(m, structName) + "." + Strings.ToCamel(m.name) + "(" + names + ");\n\t}";
    if ReturnsValue(m) {
      assert Forward(m, structName, names) == " {\n\t\treturn " + rest;
    }
  }

  // ---------------------------------------------------------------------
  // Doc comments

  /** The `doc` attributes with a string value, each as "* " and its trimmed text. */
  function DocLines(attrs: seq<Syn.Attribute>): (r: seq<string>)
    ensures forall i :: 0 <= i < |r| ==> |r[i]| >= 2 && r[i][..2] == "* "
    decreases |attrs|
  {
    if |attrs| == 0 then []
    else
      var a := attrs[0];
      var line := "* " + Strings.Trim(if a.meta.MetaNameValue? && a.meta.value.ExprLitStr? then a.meta.value.value else "");
      assert line[..2] == "* ";
      (if Syn.AttrPathText(a) == "doc" && a.meta.MetaNameValue? && a.meta.value.ExprLitStr? then [line] else [])
      + DocLines(attrs[1..])
  }

  /** The Javadoc block around doc lines. */
  function Javadoc(lines: seq<string>): string {
    "/**\n" + Strings.Join(lines, "\n") + "\n */\n"
  }

  /** `get_comment`: the doc lines as a Javadoc block, None when there are none. */
  function GetComment(m: JavaMethod): (r: Option<string>)
    ensures r.None? <==> m.decl.None? || |DocLines(m.decl.value.Attrs())| == 0
    ensures r.Some? ==> r.value == Javadoc(DocLines(m.decl.value.Attrs()))
  {
    if m.decl.None? then None
    else
      var lines := DocLines(m.decl.value.Attrs());
      var text := Strings.Join(lines, "\n");
      assert |lines| > 0 ==> |text| > 0 by {
        if |lines| > 0 {
          Strings.JoinAt(lines, "\n", 0);
        }
      }
      if text == "" then None else Some("/**\n" + text + "\n */\n")
  }

  /** Each doc line appears, in order, on its own line of the Javadoc block: it
      starts after the opening line plus the lines before it and their newlines. */
  lemma JavadocLine(lines: seq<string>, i: nat)
    requires i < |lines|
    ensures var o := 4 + Strings.Offset(lines, "\n", i);
            o + |lines[i]| <= |Javadoc(lines)| && Javadoc(lines)[o..o + |lines[i]|] == lines[i]
  {
    var text := Strings.Join(lines, "\n");
    var o := Strings.Offset(lines, "\n", i);
    var line := lines[i];
    Strings.JoinAt(lines, "\n", i);
    assert o + |line| <= |text| && text[o..o + |line|] == line;
    InnerSlice("/**\n", text, "\n */\n", o, o + |line|);
    var doc := Javadoc(lines);
    assert doc == "/**\n" + text + "\n */\n";
    assert |doc| == 4 + |text| + 5;
    assert doc[4 + o..4 + o + |line|] == line;
  }

  /** A slice of the middle part of a concatenation. */
  lemma InnerSlice(a: string, b: string, c: string, lo: nat, hi: nat)
    requires lo <= hi <= |b|
    ensures (a + b + c)[|a| + lo..|a| + hi] == b[lo..hi]
  {
    var s := a + b + c;
    assert forall k :: lo <= k < hi ==> s[|a| + k] == b[k];
  }

  // ---------------------------------------------------------------------
  // Constructors

  /** `as_constructor`: the public constructor of the outer class (`inner`
      false), which creates the native class, or the private one of the inner
      class, which calls the user's constructor and passes the result on. */
  function AsConstructor(m: JavaMethod, className: string, inner: bool): (r: Result<string, string>)
    ensures r.Ok? <==> Declared(m.args).Ok?
  {
    var ds :- Declared(m.args);
    var code := if inner then "super(" + Strings.ToCamel(m.name) + "(" + NameList(ds) + "), referent);"
                else "inner = new " + className + "Native(" + OuterCallArgs(ds) + ");";
    Ok(GetComment(m).GetOr("") + (if inner then "private" else "public") + " " + className
       + "(" + ConstructorParams(ds, inner) + ")" + ThrowsClause(m) + " {\n        " + code + "\n        }\n        ")
  }

  /** The parameters of a constructor: the inner one takes `Object referent` last. */
  function ConstructorParams(ds: seq<(string, string)>, inner: bool): string {
    var params := ParamList(ds);
    if inner then (if params == "" then "" else params + ", ") + "Object referent" else params
  }

  /** The arguments the outer constructor passes to the inner one. */
  function OuterCallArgs(ds: seq<(string, string)>): string {
    var names := NameList(ds);
    (if names == "" then "" else names + ", ") + "this"
  }

  /** The outer constructor passes its own parameters in order and then itself
      as the referent, and the inner constructor takes those parameters and then
      `Object referent`: the two lists line up argument for argument. */
  lemma ConstructorsLineUp(ds: seq<(string, string)>)
    requires forall i :: 0 <= i < |ds| ==> |ds[i].0| > 0
    ensures OuterCallArgs(ds)
            == Strings.Join(seq(|ds|, i requires 0 <= i < |ds| => ds[i].0) + ["this"], ", ")
    ensures ConstructorParams(ds, true)
            == Strings.Join(seq(|ds|, i requires 0 <= i < |ds| => ds[i].1 + " " + ds[i].0) + ["Object referent"], ", ")
  {
    var names := seq(|ds|, i requires 0 <= i < |ds| => ds[i].0);
    var params := seq(|ds|, i requires 0 <= i < |ds| => ds[i].1 + " " + ds[i].0);
    Strings.JoinSnoc(names, "this", ", ");
    Strings.JoinSnoc(params, "Object referent", ", ");
    if |ds| > 0 {
      Strings.JoinAt(names, ", ", 0);
      Strings.JoinAt(params, ", ", 0);
    }
  }

  // ---------------------------------------------------------------------
  // The synthetic methods

  /** Lower-case letters only extend the current word. */
  lemma {:induction false} LowerWords(s: string, cur: string, prevLower: bool)
    requires forall k :: 0 <= k < |s| ==> Strings.IsLower(s[k])
    requires Strings.NoDelimiter(cur)
    ensures Strings.Words(s, cur, prevLower) == if cur + s == "" then [] else [cur + s]
    decreases |s|
  {
    if |s| > 0 {
      LowerWords(s[1..], cur + [s[0]], true);
      assert cur + [s[0]] + s[1..] == cur + s;
    } else {
      assert cur + s == cur;
    }
  }

  /** A run of lower-case letters is added to the current word. */
  lemma {:induction false} LowerPrefix(p: string, s: string, cur: string, prevLower: bool)
    requires |p| > 0 && forall k :: 0 <= k < |p| ==> Strings.IsLower(p[k])
    requires Strings.NoDelimiter(cur) && Strings.NoDelimiter(cur + p)
    ensures Strings.Words(p + s, cur, prevLower) == Strings.Words(s, cur + p, true)
    decreases |p|
  {
    assert (p + s)[1..] == p[1..] + s;
    if |p| == 1 {
      assert cur + [p[0]] == cur + p;
    } else {
      assert cur + [p[0]] + p[1..] == cur + p;
      assert cur + [p[0]] == (cur + p)[..|cur| + 1];
      LowerPrefix(p[1..], s, cur + [p[0]], true);
    }
  }

  /** `to_case(Case::Camel)` leaves a lower-case word unchanged. */
  lemma CamelOfLowerWord(w: string)
    requires |w| > 0 && forall k :: 0 <= k < |w| ==> Strings.IsLower(w[k])
    ensures Strings.ToCamel(w) == w
  {
    LowerWords(w, "", false);
    assert "" + w == w;
    assert Strings.LowerAll(w) == w;
  }

  /** The synthetic receiver of `drop` is declared as `long self`. */
  lemma DropDeclared()
    ensures Declared(DropMethod().args) == Ok([("self", "long")])
  {
    CamelOfLowerWord("self");
    var args := DropMethod().args;
    assert args[1..] == [];
    assert args[0].1.javaType == JavaTypes.This && args[0].0 == "self";
    assert JavaTypes.AsDeclaration(JavaTypes.This) == Ok(Some("long"));
    assert Declared(args[1..]) == Ok([]);
    assert [("self", "long")] + [] == [("self", "long")];
  }

  /** The inner class declares `drop` as `private static native void drop(long self);`. */
  lemma DropDeclaration(structName: string)
    ensures AsDeclaration(DropMethod(), structName, false) == Ok("\tprivate static native void drop(long self);")
  {
    DropDeclarationOf(DropMethod(), structName);
  }

  lemma DropDeclarationOf(m: JavaMethod, structName: string)
    requires m == DropMethod()
    ensures AsDeclaration(m, structName, false) == Ok("\tprivate static native void drop(long self);")
  {
    DropHeader(m);
    DropParamList();
    DropDeclared();
    DeclarationText(m, structName, false, "void", [("self", "long")]);
    DropText(Header(m, false), Strings.ToCamel(m.name), ParamList([("self", "long")]), ThrowsClause(m));
  }

  /** `drop` is a private static native method without comment, camel-case
      renaming or `throws` clause. */
  lemma DropHeader(m: JavaMethod)
    requires m == DropMethod()
    ensures Header(m, false) == "\tprivate static native "
    ensures Strings.ToCamel(m.name) == "drop" && ThrowsClause(m) == ""
  {
    assert GetComment(m) == None;
    PrivateNativeText();
    CamelOfLowerWord("drop");
  }

  lemma PrivateNativeText()
    ensures "\t" + "" + "private " + "static " + "native " == "\tprivate static native "
  {
    assert "\t" + "" == "\t";
    assert "\t" + "private " == "\tprivate ";
    assert "\tprivate " + "static " == "\tprivate static ";
  }

  lemma DropText(header: string, name: string, params: string, throws: string)
    requires header == "\tprivate static native " && name == "drop" && params == "long self" && throws == ""
    ensures header + "void" + " " + name + "(" + params + ")" + throws + ";"
            == "\tprivate static native void drop(long self);"
  {
  }

  /** `as_declaration` spelled out once its parts are known. */
  lemma DeclarationText(m: JavaMethod, structName: string, definition: bool, retTy: string, ds: seq<(string, string)>)
    requires ReturnTypeText(m.returnType) == Ok(retTy) && Declared(m.args) == Ok(ds)
    ensures AsDeclaration(m, structName, definition)
            == Ok(Header(m, definition) + retTy + " " + Strings.ToCamel(m.name) + "(" + ParamList(ds) + ")"
                  + ThrowsClause(m) + (if definition then Forward(m, structName, NameList(ds)) else ";"))
  {
  }

  lemma DropParamList()
    ensures ParamList([("self", "long")]) == "long self"
  {
    var ds := [("self", "long")];
    assert "long" + " " + "self" == "long self";
    assert seq(|ds|, i requires 0 <= i < |ds| => ds[i].1 + " " + ds[i].0) == ["long self"];
  }

  /** The bridge that destroys a struct is exported under the symbol of the
      declared `drop` method. */
  lemma DropSymbolAgrees(baseName: string, structName: string)
    ensures Quotes.DropStruct(baseName, structName).symbol
            == Quotes.MethodSymbol(baseName, Strings.ToCamel(DropMethod().name))
  {
    CamelOfLowerWord("drop");
    Quotes.JoinPair(baseName, "drop");
  }

  /** `getTypeHash` splits into the words get, Type and Hash. */
  lemma WordsOfGetTypeHash()
    ensures Strings.Words("getTypeHash", "", false) == ["get", "Type", "Hash"]
  {
    WordsOfCamel3("get", "Type", "Hash");
    assert "get" + "Type" + "Hash" == "getTypeHash";
  }

  /** A capitalised word: an upper-case letter followed by at least one
      lower-case letter. */
  predicate CapitalWord(w: string) {
    |w| > 1 && Strings.IsUpper(w[0]) && forall k :: 1 <= k < |w| ==> Strings.IsLower(w[k])
  }

  /** A lower-case word followed by two capitalised ones splits into exactly
      those three words. */
  lemma WordsOfCamel3(a: string, b: string, c: string)
    requires |a| > 0 && forall k :: 0 <= k < |a| ==> Strings.IsLower(a[k])
    requires CapitalWord(b) && CapitalWord(c)
    ensures Strings.Words(a + b + c, "", false) == [a, b, c]
  {
    var bc := b + c;
    assert a + b + c == a + bc;
    LowerStart(a, bc);
    TwoCapitalWords(a, b, c);
  }

  /** Two capitalised words after a lower-case letter close the current word
      and are the next two words. */
  lemma TwoCapitalWords(cur: string, b: string, c: string)
    requires Strings.NoDelimiter(cur) && |cur| > 0 && CapitalWord(b) && CapitalWord(c)
    ensures Strings.Words(b + c, cur, true) == [cur, b, c]
  {
    CapitalBreak(cur, b, c);
    LastCapitalWord(b, c);
  }

  /** A capitalised word at the end, after a lower-case letter, is the last word. */
  lemma LastCapitalWord(b: string, c: string)
    requires CapitalWord(b) && CapitalWord(c)
    ensures Strings.NoDelimiter(b)
    ensures Strings.Words(c, b, true) == [b, c]
  {
    CapitalBreak(b, c, "");
    assert c + "" == c;
    assert Strings.Words("", c, true) == [c];
  }

  /** A leading run of lower-case letters becomes the current word. */
  lemma LowerStart(a: string, s: string)
    requires |a| > 0 && forall k :: 0 <= k < |a| ==> Strings.IsLower(a[k])
    ensures Strings.NoDelimiter(a)
    ensures Strings.Words(a + s, "", false) == Strings.Words(s, a, true)
  {
    assert "" + a == a;
    LowerPrefix(a, s, "", false);
  }

  /** After a lower-case letter, a capitalised word closes the current word and
      becomes the next one. */
  lemma CapitalBreak(cur: string, b: string, c: string)
    requires Strings.NoDelimiter(cur) && CapitalWord(b)
    ensures Strings.NoDelimiter(b)
    ensures Strings.Words(b + c, cur, true) == [cur] + Strings.Words(c, b, true)
  {
    var s := b + c;
    assert s[0] == b[0] && s[1..] == b[1..] + c;
    assert Strings.Words(s, cur, true) == [cur] + Strings.Words(s[1..], [b[0]], false);
    WordsAfterCapital(b, c);
  }

  /** The lower-case tail of a capitalised word extends the word started by its capital. */
  lemma WordsAfterCapital(b: string, c: string)
    requires CapitalWord(b)
    ensures Strings.Words(b[1..] + c, [b[0]], false) == Strings.Words(c, b, true)
  {
    assert [b[0]] + b[1..] == b;
    LowerPrefix(b[1..], c, [b[0]], false);
  }

  /** A lower-case word is its own lower-case form. */
  lemma LowerAllOfLower(w: string)
    requires forall k :: 0 <= k < |w| ==> Strings.IsLower(w[k])
    requires Strings.NoDelimiter(w)
    ensures Strings.LowerAll(w) == w
  {
  }

  /** A capitalised word is its own capitalised form. */
  lemma CapitalizedOfCapital(w: string)
    requires |w| > 0 && Strings.IsUpper(w[0])
    requires forall k :: 1 <= k < |w| ==> Strings.IsLower(w[k])
    ensures Strings.NoDelimiter(w) && Strings.Capitalized(w) == w
  {
    LowerAllOfLower(w[1..]);
    assert [w[0]] + w[1..] == w;
  }

  /** `getTypeHash` is already camelCase. */
  lemma CamelGetTypeHash()
    ensures Strings.ToCamel("getTypeHash") == "getTypeHash"
  {
    WordsOfGetTypeHash();
    CamelTailTypeHash();
    LowerAllOfLower("get");
  }

  lemma CamelTailTypeHash()
    ensures Strings.CamelTail(["Type", "Hash"]) == "TypeHash"
  {
    CapitalizedOfCapital("Type");
    CapitalizedOfCapital("Hash");
    assert ["Type", "Hash"][1..] == ["Hash"];
    assert ["Hash"][1..] == [];
  }

  /** The type-hash bridge is exported under the symbol of the declared
      `getTypeHash` method. */
  lemma TypeHashSymbolAgrees(baseName: string, structName: string)
    ensures Quotes.GetTypeHash(baseName, structName).symbol
            == Quotes.MethodSymbol(baseName, Strings.ToCamel(TypeHashMethod().name))
  {
    CamelOfTypeHashName(TypeHashMethod().name);
    Quotes.JoinPair(baseName, "getTypeHash");
  }

  lemma CamelOfTypeHashName(name: string)
    requires name == "getTypeHash"
    ensures Strings.ToCamel(name) == "getTypeHash"
  {
    CamelGetTypeHash();
  }

  // ---------------------------------------------------------------------
  // The bridge function (`as_jni_method`)

  /** What the bridge of a method consists of: its exported symbol, its JNI
      return type, the receiver lookup with the value it returns on failure,
      one parameter slot per non-receiver argument (None for `JNIEnv`, which
      the bridge does not take), one getter per argument, the call of the
      user's method and the conversion of its result. */
  datatype Bridge = Bridge(
    symbol: string,
    jniReturn: Option<JavaTypes.JniType>,
    receiver: Option<JavaTypes.Sentinel>,
    params: seq<Option<JavaTypes.JniArgType>>,
    getters: seq<JavaTypes.ArgGetter>,
    call: Quotes.CallCode,
    returnCode: Option<JavaTypes.ReturnCode>)

  /** The arguments other than the receiver, in order (`filter(|a| !a.is_self())`). */
  function NonSelf(args: ArgMap): (r: seq<JavaArg>)
    ensures |r| <= |args|
    ensures forall a :: a in r <==> a in Values(args) && !JavaTypes.IsSelf(a)
    ensures (forall i :: 0 <= i < |args| ==> !JavaTypes.IsSelf(args[i].1)) ==> r == Values(args)
    ensures |args| == 1 ==> r == if JavaTypes.IsSelf(args[0].1) then [] else [args[0].1]
    decreases |args|
  {
    if |args| == 0 then []
    else
      assert Values(args) == [args[0].1] + Values(args[1..]);
      assert forall i :: 1 <= i < |args| ==> args[i] == args[1..][i - 1];
      (if JavaTypes.IsSelf(args[0].1) then [] else [args[0].1]) + NonSelf(args[1..])
  }

  /** Filtering distributes over concatenation, so together with the
      one-argument case `NonSelf` keeps the non-receiver arguments in their
      order. */
  lemma {:induction false} NonSelfAppend(a: ArgMap, b: ArgMap)
    ensures NonSelf(a + b) == NonSelf(a) + NonSelf(b)
    decreases |a|
  {
    if |a| > 0 {
      assert (a + b)[1..] == a[1..] + b;
      NonSelfAppend(a[1..], b);
    } else {
      assert a + b == b;
    }
  }

  /** The expression passed for argument `i`: the converted `arg_i`, or the
      environment itself. */
  function CallArg(g: JavaTypes.ArgGetter, i: nat): string {
    if g.Getter? then "arg_" + Strings.NatText(i) else g.name
  }

  function CallArgs(gs: seq<JavaTypes.ArgGetter>): string {
    Strings.Join(seq(|gs|, i requires 0 <= i < |gs| => CallArg(gs[i], i)), ", ")
  }

  /** `as_jni_method`: the bridge's name is built first and must be an
      identifier; then the return type is checked, then the receiver's failure
      value, then every argument's parameter type, then every argument's
      getter, then the conversion of the result. */
  function AsJniMethod(m: JavaMethod, baseName: string, structName: string): (r: Result<Bridge, string>)
    ensures !Quotes.IsAsciiIdent(Quotes.MethodSymbol(baseName, Strings.ToCamel(m.name))) ==> r == Err(Quotes.NotAnIdentifier)
    ensures Quotes.IsAsciiIdent(Quotes.MethodSymbol(baseName, Strings.ToCamel(m.name))) ==>
              r == BridgeNamed(m, Quotes.MethodSymbol(baseName, Strings.ToCamel(m.name)), structName)
    ensures r.Ok? ==> r.value.symbol == Quotes.MethodSymbol(baseName, Strings.ToCamel(m.name))
                      && Quotes.IsAsciiIdent(r.value.symbol)
  {
    var symbol := Quotes.MethodSymbol(baseName, Strings.ToCamel(m.name));
    if !Quotes.IsAsciiIdent(symbol) then Err(Quotes.NotAnIdentifier)
    else BridgeNamed(m, symbol, structName)
  }

  /** The rest of `as_jni_method` once the bridge's name is `symbol`. The
      return type is checked first, with its own error. */
  function BridgeNamed(m: JavaMethod, symbol: string, structName: string): (r: Result<Bridge, string>)
    ensures m.returnType.Some? && JavaTypes.AsJniReturnType(m.returnType.value).Err? ==>
              r == Err(JavaTypes.AsJniReturnType(m.returnType.value).error)
    ensures r.Ok? ==> r.value.symbol == symbol
    ensures r.Ok? ==> (r.value.receiver.Some? <==> !m.staticMethod) && r.value.call.onThis == !m.staticMethod
    ensures r.Ok? ==> r.value.call.methodName == m.originalName && r.value.call.structName == structName
    ensures r.Ok? ==> |r.value.params| == |NonSelf(m.args)| && |r.value.getters| == |NonSelf(m.args)|
    ensures r.Ok? ==> forall k :: 0 <= k < |r.value.params| ==>
              && JavaTypes.AsJniFnArg(NonSelf(m.args)[k]) == Ok(r.value.params[k])
              && JavaTypes.AsJniArgGetter(NonSelf(m.args)[k], m.returnType) == Ok(r.value.getters[k])
  {
    var rt := m.returnType;
    var jniReturn :- if rt.None? then Ok(None)
                   else (var t :- JavaTypes.AsJniReturnType(rt.value); Ok(Some(t)));
    assert rt.Some? ==> JavaTypes.ErrorReturnVal(rt.value).Ok? by {
      if rt.Some? {
        JavaTypes.SentinelFitsReturnType(rt.value);
      }
    }
    var receiver :- if m.staticMethod then Ok(None)
                    else (var v :- JavaTypes.ErrorReturnVal(rt.GetOr(JavaTypes.Void)); Ok(Some(v)));
    var xs := NonSelf(m.args);
    var params :- CollectAll(xs, JavaTypes.AsJniFnArg);
    var getters :- CollectAll(xs, GetterFor(rt));
    var call := Quotes.Call(receiver.Some?, jniReturn.Some? && !JavaTypes.IsVoid(rt.value, false),
                            m.originalName, structName, CallArgs(getters));
    var returnCode :- if rt.None? then Ok(None)
                      else (var c :- JavaTypes.AsJniReturnVal(rt.value); Ok(Some(c)));
    Ok(Bridge(symbol, jniReturn, receiver, params, getters, call, returnCode))
  }

  /** The name of a bridge decides only its symbol: under two names the same
      method gives the same bridge up to the symbol, or fails with the same
      error. */
  lemma BridgeNamedRenamed(m: JavaMethod, s1: string, s2: string, structName: string)
    ensures BridgeNamed(m, s1, structName).Ok? ==>
              BridgeNamed(m, s2, structName) == Ok(BridgeNamed(m, s1, structName).value.(symbol := s2))
    ensures BridgeNamed(m, s1, structName).Err? ==> BridgeNamed(m, s2, structName) == BridgeNamed(m, s1, structName)
  {
  }

  /** The getter conversion applied to every argument of a method returning `rt`. */
  function GetterFor(rt: Option<JavaTypes.JavaType>): JavaTypes.JavaArg -> Result<JavaTypes.ArgGetter, string>
  {
    a => JavaTypes.AsJniArgGetter(a, rt)
  }

  /** The conversions `as_jni_method` needs: the return type has a JNI type,
      every argument can be a bridge parameter and has a getter, and the result
      can be converted back. */
  predicate Convertible(m: JavaMethod) {
    && (m.returnType.Some? ==> JavaTypes.AsJniReturnType(m.returnType.value).Ok?)
    && (forall k :: 0 <= k < |NonSelf(m.args)| ==> JavaTypes.AsJniFnArg(NonSelf(m.args)[k]).Ok?)
    && (forall k :: 0 <= k < |NonSelf(m.args)| ==>
          JavaTypes.AsJniArgGetter(NonSelf(m.args)[k], m.returnType).Ok?)
    && (m.returnType.Some? ==> JavaTypes.AsJniReturnVal(m.returnType.value).Ok?)
  }

  /** Under a given name, the bridge exists exactly when every conversion it
      needs does; the receiver's failure value always exists. */
  lemma BridgeNamedAccepted(m: JavaMethod, symbol: string, structName: string)
    ensures BridgeNamed(m, symbol, structName).Ok? <==> Convertible(m)
  {
    var rt := m.returnType;
    var xs := NonSelf(m.args);
    if rt.Some? {
      JavaTypes.SentinelFitsReturnType(rt.value);
    }
    var gs := CollectAll(xs, GetterFor(rt));
    assert gs.Ok? <==> forall k :: 0 <= k < |xs| ==> JavaTypes.AsJniArgGetter(xs[k], rt).Ok?;
  }

  /** A bridge is generated exactly when its name is an identifier and every
      conversion it needs exists (`Convertible`). */
  lemma BridgeAccepted(m: JavaMethod, baseName: string, structName: string)
    ensures var r := AsJniMethod(m, baseName, structName);
            r.Ok? <==> Quotes.IsAsciiIdent(Quotes.MethodSymbol(baseName, Strings.ToCamel(m.name))) && Convertible(m)
  {
    BridgeNamedAccepted(m, Quotes.MethodSymbol(baseName, Strings.ToCamel(m.name)), structName);
  }

  /** Every early return of a bridge is well typed: the value returned when the
      receiver lookup or an argument conversion fails is a value of the
      bridge's return type (unit when the method returns nothing), and the
      result is bound exactly when the method returns something other than `()`. */
  lemma BridgeWellTyped(m: JavaMethod, baseName: string, structName: string)
    requires AsJniMethod(m, baseName, structName).Ok?
    ensures var b := AsJniMethod(m, baseName, structName).value;
            var ret := if b.jniReturn.Some? then b.jniReturn.value else JavaTypes.Unit;
            && (b.receiver.Some? ==> JavaTypes.Fits(b.receiver.value, ret))
            && (forall k :: (0 <= k < |b.getters| && b.getters[k].Getter? &&
                             (b.getters[k].code.Checked? || b.getters[k].code.NullChecked?)) ==>
                  JavaTypes.Fits(b.getters[k].code.sentinel, ret))
            && (b.call.bindsRes <==> m.returnType.Some? && m.returnType.value != JavaTypes.Void)
  {
    var rt := m.returnType.GetOr(JavaTypes.Void);
    JavaTypes.SentinelFitsReturnType(rt);
    var b := AsJniMethod(m, baseName, structName).value;
    assert JavaTypes.AsJniReturnType(rt) == Ok(if b.jniReturn.Some? then b.jniReturn.value else JavaTypes.Unit);
    assert b.receiver.Some? ==> b.receiver.value == JavaTypes.ErrorReturnVal(rt).value;
  }

  /** Types with no `JNIEnv` anywhere inside. */
  predicate EnvFree(jt: JavaType) {
    forall p :: p in JavaTypes.Parts(jt) ==> !p.Env?
  }

  /** A type without `JNIEnv` inside always has Java text when it has any. */
  lemma {:induction false} DeclaredWhenEnvFree(jt: JavaType)
    requires EnvFree(jt) && JavaTypes.AsDeclaration(jt).Ok?
    ensures JavaTypes.AsDeclaration(jt).value.Some?
  {
    assert jt in JavaTypes.Parts(jt);
    match jt {
      case Fallible(j, _) =>
        assert JavaTypes.Parts(j) <= JavaTypes.Parts(jt);
        DeclaredWhenEnvFree(j);
      case Vec(_, j) =>
        assert JavaTypes.Parts(j) <= JavaTypes.Parts(jt);
        DeclaredWhenEnvFree(j);
      case HashMap(_, _, k, v) =>
        assert JavaTypes.Parts(k) <= JavaTypes.Parts(jt) && JavaTypes.Parts(v) <= JavaTypes.Parts(jt);
        DeclaredWhenEnvFree(k);
        DeclaredWhenEnvFree(v);
      case Optional(j, _) =>
        assert JavaTypes.Parts(j) <= JavaTypes.Parts(jt);
        if j.Vec? {
          assert JavaTypes.Parts(j.javaType) <= JavaTypes.Parts(j);
          DeclaredWhenEnvFree(j.javaType);
        } else if j.HashMap? {
          assert JavaTypes.Parts(j.javaKey) <= JavaTypes.Parts(j) && JavaTypes.Parts(j.javaValue) <= JavaTypes.Parts(j);
          DeclaredWhenEnvFree(j.javaKey);
          DeclaredWhenEnvFree(j.javaValue);
        }
      case _ =>
    }
  }

  /** An argument has a bridge parameter exactly when it has a Java parameter. */
  lemma SlotAgrees(a: JavaArg)
    requires !JavaTypes.IsSelf(a)
    requires JavaTypes.AsJniFnArg(a).Ok? && JavaTypes.AsDeclaration(a.javaType).Ok?
    requires a.javaType.Env? || EnvFree(a.javaType)
    ensures JavaTypes.AsJniFnArg(a).value.Some? <==> JavaTypes.AsDeclaration(a.javaType).value.Some?
  {
    if !a.javaType.Env? {
      DeclaredWhenEnvFree(a.javaType);
    }
  }

  /** The number of parameter slots the bridge fills. */
  function SlotCount(ps: seq<Option<JavaTypes.JniArgType>>): nat
    decreases |ps|
  {
    if |ps| == 0 then 0 else (if ps[0].Some? then 1 else 0) + SlotCount(ps[1..])
  }

  lemma {:induction false} SlotCountAgrees(args: ArgMap, ps: seq<Option<JavaTypes.JniArgType>>)
    requires |ps| == |args|
    requires forall k :: 0 <= k < |args| ==>
               && !JavaTypes.IsSelf(args[k].1)
               && JavaTypes.AsJniFnArg(args[k].1) == Ok(ps[k])
               && JavaTypes.AsDeclaration(args[k].1.javaType).Ok?
               && (args[k].1.javaType.Env? || EnvFree(args[k].1.javaType))
    ensures DeclCount(args) == SlotCount(ps)
    decreases |args|
  {
    if |args| > 0 {
      SlotAgrees(args[0].1);
      assert forall k :: 1 <= k < |args| ==> args[k] == args[1..][k - 1] && ps[k] == ps[1..][k - 1];
      SlotCountAgrees(args[1..], ps[1..]);
    }
  }

  /** The private native declaration of a method and its bridge agree on the
      number of parameters, as long as `JNIEnv` only appears as a parameter of
      its own. */
  lemma BridgeArity(m: JavaMethod, baseName: string, structName: string)
    requires forall i :: 0 <= i < |m.args| ==> !JavaTypes.IsSelf(m.args[i].1)
    requires forall i :: 0 <= i < |m.args| ==> m.args[i].1.javaType.Env? || EnvFree(m.args[i].1.javaType)
    requires AsJniMethod(m, baseName, structName).Ok? && Declared(m.args).Ok?
    ensures |Declared(m.args).value| == SlotCount(AsJniMethod(m, baseName, structName).value.params)
  {
    var ps := AsJniMethod(m, baseName, structName).value.params;
    assert NonSelf(m.args) == Values(m.args);
    SlotCountAgrees(m.args, ps);
  }

  // ---------------------------------------------------------------------
  // Trait methods (`as_trait_method`)

  /** A call from Rust into a Java interface method: the Rust parameter names
      (the environment is `env`, argument `i` is `arg_i`), the positions of the
      arguments passed to Java, the Java method name and its descriptor. */
  datatype TraitCall = TraitCall(name: string, params: seq<string>, jArgs: seq<nat>, javaName: string, descriptor: string)

  /** The mutability of the first `JNIEnv` argument. */
  function FirstEnv(xs: seq<JavaArg>): (r: Option<bool>)
    ensures r.None? <==> forall k :: 0 <= k < |xs| ==> !xs[k].javaType.Env?
    decreases |xs|
  {
    if |xs| == 0 then None
    else if xs[0].javaType.Env? then Some(xs[0].javaType.mutable)
    else
      assert forall k :: 1 <= k < |xs| ==> xs[k] == xs[1..][k - 1];
      FirstEnv(xs[1..])
  }

  /** The arguments from position `i` on other than `JNIEnv`, in order. */
  function NonEnv(xs: seq<JavaArg>, i: nat): (r: seq<JavaArg>)
    requires i <= |xs|
    ensures forall k :: 0 <= k < |r| ==> !JavaTypes.IsEnv(r[k])
    decreases |xs| - i
  {
    if i == |xs| then []
    else (if JavaTypes.IsEnv(xs[i]) then [] else [xs[i]]) + NonEnv(xs, i + 1)
  }

  /** The positions from `i` on of the arguments other than `JNIEnv`. */
  function NonEnvPositions(xs: seq<JavaArg>, i: nat): (r: seq<nat>)
    requires i <= |xs|
    decreases |xs| - i
  {
    if i == |xs| then []
    else (if JavaTypes.IsEnv(xs[i]) then [] else [i]) + NonEnvPositions(xs, i + 1)
  }

  /** `r` lists, in order, the positions from `i` on of the arguments other
      than `JNIEnv`. */
  predicate PicksNonEnv(xs: seq<JavaArg>, i: nat, r: seq<nat>)
    requires i <= |xs|
  {
    && |r| == |NonEnv(xs, i)|
    && forall k :: 0 <= k < |r| ==> i <= r[k] < |xs| && xs[r[k]] == NonEnv(xs, i)[k]
  }

  /** Position `k` picks out the `k`-th argument other than `JNIEnv`. */
  lemma {:induction false} NonEnvPositionsPick(xs: seq<JavaArg>, i: nat)
    requires i <= |xs|
    ensures PicksNonEnv(xs, i, NonEnvPositions(xs, i))
    decreases |xs| - i
  {
    if i < |xs| {
      NonEnvPositionsPick(xs, i + 1);
      var rest := NonEnvPositions(xs, i + 1);
      var tail := NonEnv(xs, i + 1);
      var r := NonEnvPositions(xs, i);
      if !JavaTypes.IsEnv(xs[i]) {
        assert r == [i] + rest && NonEnv(xs, i) == [xs[i]] + tail;
        forall k | 0 < k < |r| ensures i <= r[k] < |xs| && xs[r[k]] == NonEnv(xs, i)[k] {
          assert r[k] == rest[k - 1] && NonEnv(xs, i)[k] == tail[k - 1];
        }
      }
    }
  }

  predicate Increasing(r: seq<nat>) {
    forall k, l :: 0 <= k < l < |r| ==> r[k] < r[l]
  }

  /** The positions are strictly increasing: Java receives the arguments in order. */
  lemma {:induction false} NonEnvPositionsIncrease(xs: seq<JavaArg>, i: nat)
    requires i <= |xs|
    ensures Increasing(NonEnvPositions(xs, i))
    decreases |xs| - i
  {
    if i < |xs| {
      NonEnvPositionsPick(xs, i + 1);
      NonEnvPositionsIncrease(xs, i + 1);
      var rest := NonEnvPositions(xs, i + 1);
      var r := NonEnvPositions(xs, i);
      assert PicksNonEnv(xs, i + 1, rest) && Increasing(rest);
      if !JavaTypes.IsEnv(xs[i]) {
        assert r == [i] + rest;
        forall k, l | 0 <= k < l < |r| ensures r[k] < r[l] {
          assert r[l] == rest[l - 1];
          if k > 0 {
            assert r[k] == rest[k - 1];
            assert 0 <= k - 1 < l - 1 < |rest|;
          } else {
            assert i + 1 <= rest[l - 1];
          }
        }
      } else {
        assert r == rest;
      }
    }
  }

  /** The JVM descriptor of an argument passed to Java. */
  function ArgDescriptor(a: JavaArg): Result<string, string> {
    JavaTypes.AsJniDeclaration(a.javaType)
  }

  /** The panics of `as_interface_val` on an argument passed to Java. */
  function ArgValCheck(a: JavaArg): Result<(), string> {
    JavaTypes.InterfaceValCheck(a.javaType)
  }

  /** The Rust parameter name of argument `i`. */
  function InterfaceParam(a: JavaArg, i: nat): string {
    if JavaTypes.IsEnv(a) then "env" else "arg_" + Strings.NatText(i)
  }

  /** `as_trait_method`: a trait method must take `&self`, return a Result and
      take a mutable `JNIEnv`; the arguments are converted for Java, the
      descriptor is built from their types, and the result is converted back.
      A panic is an Err. */
  function AsTraitMethod(m: JavaMethod): (r: Result<TraitCall, string>)
    ensures r.Ok? ==> m.decl.Some? && m.decl.value.TraitDecl?
    ensures r.Ok? ==> !m.staticMethod && m.returnType.Some? && m.returnType.value.Fallible?
    ensures r.Ok? ==> FirstEnv(Values(m.args)) == Some(true)
    ensures r.Ok? ==> r.value.javaName == Strings.ToCamel(m.name)
    ensures r.Ok? ==> |r.value.params| == |NonSelf(m.args)|
    ensures r.Ok? ==> r.value.jArgs == NonEnvPositions(NonSelf(m.args), 0)
  {
    if m.decl.None? then Err("called `Option::unwrap()` on a `None` value")
    else if !m.decl.value.TraitDecl? then Err("Expected trait method")
    else if m.staticMethod then Err("Trait methods cannot be static")
    else if m.returnType.None? || !m.returnType.value.Fallible? then Err("Trait methods must return a Result")
    else
      match FirstEnv(Values(m.args))
      case None => Err("Trait methods must take a JNIEnv")
      case Some(false) => Err("JNIEnv must be mutable in trait methods")
      case Some(true) =>
        var xs := NonSelf(m.args);
        var ys := NonEnv(xs, 0);
        var vals :- CollectAll(ys, ArgValCheck);
        var ps :- CollectAll(ys, ArgDescriptor);
        var ret :- JavaTypes.AsJniDeclaration(m.returnType.value);
        var retVal :- JavaTypes.RustReturnValCheck(m.returnType.value);
        Ok(TraitCall(m.name, seq(|xs|, i requires 0 <= i < |xs| => InterfaceParam(xs[i], i)),
                     NonEnvPositions(xs, 0), Strings.ToCamel(m.name), Descriptors.MethodDescriptor(ps, ret)))
  }

  /** The descriptor of a trait call is well formed and lists, in order, the
      descriptor of each argument handed to Java, followed by the descriptor of
      the result; so the JVM finds the method with exactly those types. */
  lemma TraitDescriptorParses(m: JavaMethod)
    requires AsTraitMethod(m).Ok?
    requires forall k :: 0 <= k < |NonSelf(m.args)| ==> JavaTypes.DescriptorNamesValid(NonSelf(m.args)[k].javaType)
    requires m.returnType.Some? ==> JavaTypes.DescriptorNamesValid(m.returnType.value)
    ensures var t := AsTraitMethod(m).value;
            var xs := NonSelf(m.args);
            var p := Descriptors.ParseMethod(t.descriptor);
            && p.Some?
            && |p.value.0| == |t.jArgs|
            && (forall k :: 0 <= k < |t.jArgs| ==>
                  t.jArgs[k] < |xs| && JavaTypes.AsJniDeclaration(xs[t.jArgs[k]].javaType) == Ok(p.value.0[k]))
            && JavaTypes.AsJniDeclaration(m.returnType.value) == Ok(p.value.1)
  {
    var xs := NonSelf(m.args);
    var ys := NonEnv(xs, 0);
    var rt := m.returnType.value;
    var ps := CollectAll(ys, ArgDescriptor).value;
    var ret := JavaTypes.AsJniDeclaration(rt).value;
    NonEnvPositionsPick(xs, 0);
    assert CollectAll(ys, ArgValCheck).Ok?;
    ParamDescriptorsValid(ys, ps);
    JavaTypes.DescriptorConforms(rt);
    Descriptors.ParseMethodDescriptor(ps, ret);
  }

  /** Arguments that may be passed to Java have field descriptors. */
  lemma ParamDescriptorsValid(ys: seq<JavaArg>, ps: seq<string>)
    requires |ps| == |ys|
    requires forall k :: 0 <= k < |ys| ==>
               && JavaTypes.DescriptorNamesValid(ys[k].javaType)
               && ArgValCheck(ys[k]).Ok? && ArgDescriptor(ys[k]) == Ok(ps[k])
    ensures forall k :: 0 <= k < |ps| ==> Descriptors.IsFieldDescriptor(ps[k])
  {
    forall k | 0 <= k < |ps| ensures Descriptors.IsFieldDescriptor(ps[k]) {
      JavaTypes.DescriptorConforms(ys[k].javaType);
    }
  }

}
