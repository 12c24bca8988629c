/** The naming scheme and code templates of the bridge functions
    (crates/jni-bindgen-macros/src/util/quotes.rs). Emitted Rust code is
    represented by what it does, not by its tokens. */
module Quotes {
  import opened Wrappers
  import Strings
  import JniError
  import JavaTypes
  import JniNames

  /** `base_name`: the symbol prefix of every bridge of one struct, for a
      namespace whose dots were already turned into '_'. */
  function BaseName(namespace: string, structName: string): string {
    Strings.Join(["Java", namespace, structName, "00024" + structName + "Native"], "_")
  }

  /** The prefix spelled out. */
  lemma BaseNameText(namespace: string, structName: string)
    ensures BaseName(namespace, structName)
            == "Java_" + namespace + "_" + structName + "_00024" + structName + "Native"
  {
    var last := "00024" + structName + "Native";
    var parts := ["Java", namespace, structName, last];
    assert parts[1..] == [namespace, structName, last];
    assert parts[1..][1..] == [structName, last];
    assert parts[1..][1..][1..] == [last];
    JoinPair(structName, last);
    assert Strings.Join(parts[1..][1..], "_") == structName + "_" + last;
    assert Strings.Join(parts[1..], "_") == namespace + "_" + (structName + "_" + last);
  }

  /** Without '_' in the namespace or the struct name, both can be read back
      from the prefix. */
  lemma BaseNameParts(namespace: string, structName: string)
    requires '_' !in namespace && '_' !in structName
    ensures Strings.Split(BaseName(namespace, structName), '_')
            == ["Java", namespace, structName, "00024" + structName + "Native"]
  {
    var parts := ["Java", namespace, structName, "00024" + structName + "Native"];
    assert '_' !in "00024" + structName + "Native";
    Strings.SplitJoin(parts, '_');
  }

  /** What the receiver lookup (`this`) does: it reads the `ptr` field, rejects
      0, and otherwise borrows the struct at that address. */
  datatype Receiver = Borrowed(ptr: int) | Returned(value: JavaTypes.Sentinel, thrown: JniError.Thrown)

  /** `this(struct_name, ret_val)` at run time, given what reading the long field
      `ptr` gave. A failure is a String error, so it has no class. */
  function ResolveReceiver(retVal: JavaTypes.Sentinel, field: Result<int, string>): (r: Receiver)
  {
    var looked: Result<int, string> :=
      if field.Err? then Err(field.error)
      else if field.value == 0 then Err("The pointer is null")
      else Ok(field.value);
    if looked.Ok? then Borrowed(looked.value)
    else
      var e := JniError.FromMessage(looked.error);
      Returned(retVal, JniError.Thrown(JniError.ThrownClass(e), e.message))
  }

  /** The method runs exactly when the handle is non-zero; otherwise the bridge
      throws RuntimeException and returns the sentinel it was given. */
  lemma ReceiverOutcome(retVal: JavaTypes.Sentinel, field: Result<int, string>)
    ensures ResolveReceiver(retVal, field).Borrowed? <==> field.Ok? && field.value != 0
    ensures ResolveReceiver(retVal, field).Borrowed? ==> ResolveReceiver(retVal, field).ptr == field.value
    ensures field == Ok(0) ==>
              ResolveReceiver(retVal, field)
              == Returned(retVal, JniError.Thrown("java/lang/RuntimeException", "The pointer is null"))
    ensures field.Err? ==>
              ResolveReceiver(retVal, field)
              == Returned(retVal, JniError.Thrown("java/lang/RuntimeException", field.error))
  {
  }

  /** The call of the user's method: on `this` or on the struct, binding `res`
      or not. */
  datatype CallCode = CallCode(onThis: bool, bindsRes: bool, methodName: string, structName: string, args: string)

  /** `call` */
  function Call(hasSelf: bool, hasRet: bool, methodName: string, structName: string, args: string): (r: CallCode)
    ensures r.methodName == methodName && r.structName == structName && r.args == args
  {
    if hasSelf && hasRet then CallCode(true, true, methodName, structName, args)
    else if hasSelf then CallCode(true, false, methodName, structName, args)
    else if hasRet then CallCode(false, true, methodName, structName, args)
    else CallCode(false, false, methodName, structName, args)
  }

  /** The statement as text (token spacing aside). */
  function CallText(c: CallCode): string {
    (if c.bindsRes then "let res = " else "")
    + (if c.onThis then "this." else c.structName + "::")
    + c.methodName + "(" + c.args + ")"
  }

  /** The call goes through `this` iff the method has a receiver, and binds
      `res` iff it returns a value; both can be read off the text. */
  lemma CallSelection(hasSelf: bool, hasRet: bool, m: string, s: string, args: string)
    requires |s| > 0 && ' ' !in s && '.' !in s
    ensures var t := CallText(Call(hasSelf, hasRet, m, s, args));
            && (Strings.IsPrefix("let res = ", t) <==> hasRet)
            && (Strings.IsPrefix("this.", if hasRet then t[10..] else t) <==> hasSelf)
  {
    var tail := m + "(" + args + ")";
    var body := if hasSelf then "this." + tail else s + "::" + tail;
    var t := CallText(Call(hasSelf, hasRet, m, s, args));
    assert t == (if hasRet then "let res = " + body else body);
    if hasRet {
      Strings.PrefixOf("let res = ", body);
      assert t[10..] == body;
    } else {
      BodyNotLetRes(hasSelf, s, tail);
    }
    if hasSelf {
      Strings.PrefixOf("this.", tail);
    } else {
      StaticNotThis(s, tail);
    }
  }

  /** The call itself never starts like a `let res = ` binding. */
  lemma BodyNotLetRes(hasSelf: bool, s: string, tail: string)
    requires |s| > 0 && ' ' !in s
    ensures !Strings.IsPrefix("let res = ", if hasSelf then "this." + tail else s + "::" + tail)
  {
    var body := if hasSelf then "this." + tail else s + "::" + tail;
    if |body| >= 10 {
      if hasSelf {
        assert body[4] == '.';
        Strings.NotPrefixAt("let res = ", body, 4);
      } else if |s| > 3 {
        assert body[3] == s[3] && s[3] in s;
        Strings.NotPrefixAt("let res = ", body, 3);
      } else {
        assert body[|s|] == ':';
        Strings.NotPrefixAt("let res = ", body, |s|);
      }
    }
  }

  /** A call on the struct never starts with `this.`. */
  lemma StaticNotThis(s: string, tail: string)
    requires |s| > 0 && '.' !in s
    ensures !Strings.IsPrefix("this.", s + "::" + tail)
  {
    var body := s + "::" + tail;
    if |body| >= 5 {
      if |s| >= 5 {
        assert body[4] == s[4] && s[4] in s;
        Strings.NotPrefixAt("this.", body, 4);
      } else {
        assert body[|s|] == ':';
        Strings.NotPrefixAt("this.", body, |s|);
      }
    }
  }

  /** `drop_struct`: the bridge that frees the struct behind a handle. */
  datatype DropBridge = DropBridge(symbol: string, structName: string)

  // That this is the JNI name of the native `drop` is proved by
  // JavaMethods.DropSymbolAgrees and JavaClasses.BridgeSymbolsCorrected.
  function DropStruct(baseName: string, structName: string): (r: DropBridge)
    ensures r.symbol == baseName + "_" + "drop" && r.structName == structName
  {
    DropBridge(baseName + "_" + "drop", structName)
  }

  /** The drop bridge at run time over the set of live boxed structs: 0 is
      ignored, any other handle's box is reclaimed. */
  function RunDrop(ptr: int, live: set<int>): (r: set<int>)
    ensures r <= live && (ptr != 0 ==> ptr !in r)
    ensures ptr == 0 ==> r == live
    ensures forall q :: q in live && q != ptr ==> q in r
  {
    if ptr != 0 then live - {ptr} else live
  }

  /** `get_type_hash`: the bridge reporting the hash of the struct's type. The
      hash is uninterpreted: a function of the struct's type alone. */
  datatype TypeHashBridge = TypeHashBridge(symbol: string, structName: string)

  // That this is the JNI name of the native `getTypeHash` is proved by
  // JavaMethods.TypeHashSymbolAgrees and JavaClasses.BridgeSymbolsCorrected.
  function GetTypeHash(baseName: string, structName: string): (r: TypeHashBridge)
    ensures r.symbol == baseName + "_" + "getTypeHash" && r.structName == structName
  {
    TypeHashBridge(baseName + "_" + "getTypeHash", structName)
  }

  function RunTypeHash(b: TypeHashBridge, typeHash: string -> int): int {
    typeHash(b.structName)
  }

  /** The symbol of the bridge of a user method: the base name, '_', and the
      camel-case method name (java_method.rs). */
  function MethodSymbol(baseName: string, javaName: string): string {
    Strings.Join([baseName, javaName], "_")
  }

  /** A name made of ASCII letters, digits and '_'. A bridge name starts with
      `Java_`, so it is one of these exactly when it lexes as a single
      identifier that `#[no_mangle] fn` accepts. */
  predicate IsAsciiIdent(s: string) {
    forall k :: 0 <= k < |s| ==> JniNames.IsAsciiAlnum(s[k]) || s[k] == '_'
  }

  /** The failure of a bridge whose name is not such an identifier: the name's
      `parse()` fails to lex, or the generated `fn` does not compile. */
  const NotAnIdentifier := "the bridge name is not an ASCII identifier"

  /** A concatenation is an identifier exactly when both parts are. */
  lemma IdentConcat(a: string, b: string)
    ensures IsAsciiIdent(a + b) <==> IsAsciiIdent(a) && IsAsciiIdent(b)
  {
    assert forall k :: 0 <= k < |a| ==> (a + b)[k] == a[k];
    assert forall k :: 0 <= k < |b| ==> (a + b)[|a| + k] == b[k];
  }

  /** A base name is an identifier exactly when the namespace part and the
      struct name are. */
  lemma BaseNameIdent(namespace: string, structName: string)
    ensures IsAsciiIdent(BaseName(namespace, structName)) <==> IsAsciiIdent(namespace) && IsAsciiIdent(structName)
  {
    BaseNameText(namespace, structName);
    var java, sep, dollar, native := "Java_", "_", "_00024", "Native";
    assert IsAsciiIdent(java) && IsAsciiIdent(sep) && IsAsciiIdent(dollar) && IsAsciiIdent(native);
    IdentConcat(java, namespace);
    IdentConcat(java + namespace, sep);
    IdentConcat(java + namespace + sep, structName);
    IdentConcat(java + namespace + sep + structName, dollar);
    IdentConcat(java + namespace + sep + structName + dollar, structName);
    IdentConcat(java + namespace + sep + structName + dollar + structName, native);
  }

  /** A bridge symbol is an identifier exactly when both of its parts are. */
  lemma MethodSymbolIdent(baseName: string, javaName: string)
    ensures IsAsciiIdent(MethodSymbol(baseName, javaName)) <==> IsAsciiIdent(baseName) && IsAsciiIdent(javaName)
  {
    var s := MethodSymbol(baseName, javaName);
    JoinPair(baseName, javaName);
    assert forall k :: 0 <= k < |baseName| ==> s[k] == baseName[k];
    assert forall k :: 0 <= k < |javaName| ==> s[|baseName| + 1 + k] == javaName[k];
  }

  lemma JoinPair(a: string, b: string)
    ensures Strings.Join([a, b], "_") == a + "_" + b
  {
    var parts := [a, b];
    assert parts[1..] == [b];
    assert Strings.Join(parts[1..], "_") == b;
  }

  /** Within one struct, a method bridge never shares its symbol with the drop or
      type-hash bridge unless the method is itself called `drop` or
      `getTypeHash`, and two methods share a symbol only when their Java names
      are equal. */
  lemma SymbolsDistinct(baseName: string, m1: string, m2: string)
    ensures MethodSymbol(baseName, m1) == DropStruct(baseName, "").symbol <==> m1 == "drop"
    ensures MethodSymbol(baseName, m1) == GetTypeHash(baseName, "").symbol <==> m1 == "getTypeHash"
    ensures MethodSymbol(baseName, m1) == MethodSymbol(baseName, m2) <==> m1 == m2
  {
    var p := baseName + "_";
    JoinPair(baseName, m1);
    JoinPair(baseName, m2);
    assert MethodSymbol(baseName, m1) == p + m1;
    assert MethodSymbol(baseName, m2) == p + m2;
    assert baseName + "_" + "drop" == p + "drop";
    assert baseName + "_" + "getTypeHash" == p + "getTypeHash";
    if p + m1 == p + "drop" { assert m1 == (p + m1)[|p|..]; }
    if p + m1 == p + "getTypeHash" { assert m1 == (p + m1)[|p|..]; }
    if p + m1 == p + m2 { assert m1 == (p + m1)[|p|..] && m2 == (p + m2)[|p|..]; }
  }
}
