# jni-bindgen, modelled in Dafny

jni-bindgen lets a Rust crate export structs and traits to Java. It has two halves.

- **Procedural macros** (`crates/jni-bindgen-macros`) run at build time. They read the `impl` blocks and traits marked `#[jni]` and do three things:
  - classify every Rust parameter and return type as a `JavaType`;
  - emit one `extern "system"` bridge per method, under the symbol the JVM looks up;
  - emit the text of the matching Java class or interface.
- **Runtime crate and Java library** (`crates/jni-bindgen`, `java/JNIBindgen`) do three things:
  - convert values between Rust and Java: boxed primitives, strings, lists and maps;
  - turn Rust errors into Java exceptions;
  - manage the native handle that each Java object holds.

The model has one Dafny module per source file of that core, plus three shared modules:

- `Wrappers`: `Option` and `Result`.
- `Strings`: join, replace, trim, and snake-to-camel case.
- `Syn`: the part of the `syn` syntax tree the macros inspect, and how `proc_macro2` prints it.

The macro code is pure tree-to-text transformation, so it is written as datatypes, functions and lemmas. A `syn::Result` becomes `Result<T, string>`, where the string is the error message. A `panic!` during generation becomes an `Err` as well, since both abort the build.

The generated Rust code is modelled by small datatypes: which conversion a parameter uses, and which value an early return gives. Functions give the run-time behaviour of the paths that matter: a null reference, a zero handle, and an `Err` result.

The runtime conversions run against a model of the JVM. Java objects are values: null, a boxed primitive, a string, a list or a map. The few JNI calls the converters make are answered as a correct JVM would answer them.

The loops of `into_vec`, `from_vec`, `into_hashmap` and `from_hashmap` are methods with loop invariants. Each is proved equal to a recursive specification function, and the round-trip and element-wise properties are lemmas about those functions.

`NativeClass.java` changes its handle in place, so it is a class with a `ptr` field. A ghost counter records how often `destruct` has run. Next to the class sits a state-machine version used for statements about whole sequences of releases.

Three properties run through the model:

- **Native names.** Chapter 2 of the Java Native Interface Specification, "Resolving Native Method Names", gives the rule for the name under which the JVM looks up a native method. As written, the generator escapes nothing: not the namespace, not the struct name and not the method's Java name. A `_` in the namespace or the struct name still gives a valid Rust name, but not the one the rule assigns, so the JVM does not find the bridge (`JavaClasses.AsWrittenMisses`); see "## Findings". A Java name that is not made of letters and digits (a rename such as `a$b` or `a"b`) gives no bridge at all: its name fails to lex, or the `#[no_mangle] fn` it names does not compile (`JavaClasses.MemberEscapeAsWritten`). When the namespace holds just letters, digits and dots and the struct name just letters and digits, every bridge that is built gets the name the rule assigns (`JavaClasses.BridgeSymbols`). With the escaping the rule requires, every name is a Rust identifier and every bridge gets that name (`JavaClasses.EscapedNamesBuild`, `JavaClasses.BridgeSymbolsCorrected`).
- **Descriptors.** Every descriptor produced is well formed under sections 4.3.2 and 4.3.3 of the Java Virtual Machine Specification, and a method descriptor reads back as the arguments and return type it was built from.
- **Round trips.** Every supported Rust value converts to Java and reads back as itself.

Where the source files disagree with each other, the model follows each file's own code:

- `java_method.rs` passes three arguments to `quotes::this`, which takes two. The model uses the two-argument version.
- `java_class.rs` calls `get_type_name`, but only `get_type_hash` is defined. The model uses `get_type_hash`.
- `java_class.rs` passes an import set to `outer_class`, which takes `throws: bool`. The model passes "the imports contain `NativeExecutionException`" as `throws`.
- `java_class.rs` calls an `inner_class` template that `code.rs` does not define. The model takes it as a parameter (`JavaClasses.InnerTemplate`).
- `java_method.rs:532-540` calls `get_rename` on a trait function (`TraitItemFn`). `util/traits.rs` implements `get_rename` only for impl functions (`ImplItemFn`, line 15). The model applies the impl-function rule to trait functions as well (`JavaMethods.FromTraitFn` uses `Traits.GetRename`).
- `java_type.rs:1278` calls `get_jni_attr` on the attribute list of a typed argument (`PatType`). `util/traits.rs` implements `get_jni_attr` only for impl functions (`ImplItemFn`, lines 15-21). The model applies the impl-function rule to the argument's attributes: the arguments of the first `jni` attribute, when they parse (`JavaTypes.ClassifyArg` uses `Traits.GetJniAttr`).
- `java_interface.rs` imports `crate::util::traits::GetComment` and calls `get_comment` on the trait's attributes (line 91), but `util/traits.rs` defines no `GetComment`. The model reuses the doc-comment rule of `java_method.rs:455-478` for the trait (`JavaInterfaces.InterfaceComment`).
- `java_interface.rs` calls `as_interface_declaration`, which `java_method.rs` does not define, and uses an `interface` template that `code.rs` does not have. The model takes the method declaration as a parameter and returns the values handed to the template (`JavaInterfaces.InterfaceDecl`).

The model follows the code in four places where the intended behaviour might be read differently:

- The namespace attribute's keyword is `package`, as `attrs.rs` parses it. Only the error message says `namespace`.
- A zero receiver handle makes the bridge throw `java/lang/RuntimeException`, not a NullPointerException. The message is "The pointer is null", built from a plain string whose error has no class (`Quotes.ReceiverOutcome`).
- `bail!` is documented as raising `java.lang.RuntimeException`, and that is what `JNIError::throw` raises for a classless error. But a `bail!` inside a `#[jni]` method that returns `Result` reaches Java through the generated bridge, which first sets the class to `NativeExecutionException` with `or_class` (`ResultMacros.BailReturnsEarly`).
- The raw-identifier branch of the attribute keyword parser never matches, because it compares `r#name` with plain keywords. An `r#`-prefixed keyword is refused as unknown (`Attrs.RawKeywordRejected`).

The module `JniNames` is not a model of the source. It is the reference for the names the JVM looks up: the mangling of chapter 2 of the Java Native Interface Specification (`_` as `_1`, `;` as `_2`, `[` as `_3`, other non-alphanumeric characters as `_0xxxx`, `/` as `_`) and the short symbol `Java_<class>_<method>`. It proves that mangling is undone by demangling, is injective and distributes over concatenation, and that distinct (class, method) pairs get distinct short symbols. The corrected bridge names of "## Findings" are stated against it, as the descriptors are stated against `Descriptors` (sections 4.3.2 and 4.3.3 of the Java Virtual Machine Specification).

## Model

| member | source | states |
|---|---|---|
| Attrs.Default | crates/jni-bindgen-macros/src/util/attrs.rs:60-72 | the default argument set has no attributes and is not marked present |
| Attrs.FirstValue | crates/jni-bindgen-macros/src/util/attrs.rs:17-19 | `get_attr` finds nothing exactly when no attribute has the keyword; otherwise it returns the value of the first attribute that has it |
| Attrs.GetClassName | crates/jni-bindgen-macros/src/util/attrs.rs:21-26 | there is no class name exactly when no `class_name` attribute is given |
| Attrs.GetNamespace | crates/jni-bindgen-macros/src/util/attrs.rs:28-37 | it fails exactly when no `package` attribute is given, with "Missing namespace = \"...\" attribute" |
| Attrs.GetRename | crates/jni-bindgen-macros/src/util/attrs.rs:39-44 | there is no rename exactly when no `rename` attribute is given; otherwise it is the value of the first one |
| Attrs.IsConstructor | crates/jni-bindgen-macros/src/util/attrs.rs:46-50 | true exactly when some attribute is `constructor` |
| Attrs.LoadLibName | crates/jni-bindgen-macros/src/util/attrs.rs:52-57 | there is no library name exactly when no `load_lib` attribute is given |
| Attrs.FirstWins | crates/jni-bindgen-macros/src/util/attrs.rs:17-19 | when a keyword is given more than once, the first value wins |
| Attrs.KeywordOf | crates/jni-bindgen-macros/src/util/attrs.rs:126-139 | an identifier selects a keyword only when it is spelled exactly like that keyword |
| Attrs.ParseOne | crates/jni-bindgen-macros/src/util/attrs.rs:120-180 | a parsed attribute starts with its keyword; every keyword except `constructor` takes exactly `=` and then a string literal or an identifier holding its value |
| Attrs.Parse | crates/jni-bindgen-macros/src/util/attrs.rs:74-85 | empty input gives the default argument set; a parsed set is never marked present |
| Attrs.ParseStream.ParseAttr | crates/jni-bindgen-macros/src/util/attrs.rs:120-230 | the cursor moves past the tokens of one attribute exactly as `ParseOne` consumes them, and the error is `ParseOne`'s |
| Attrs.ParseStream.ParseComma | crates/jni-bindgen-macros/src/util/attrs.rs:81 | the comma is consumed exactly when the next token is a comma |
| Attrs.ParseAttrs | crates/jni-bindgen-macros/src/util/attrs.rs:74-85 | the parse loop over the cursor computes `Parse` |
| Attrs.ParseListStep | crates/jni-bindgen-macros/src/util/attrs.rs:81 | after one attribute, the list ends, or needs a comma followed by the rest of the list |
| Attrs.ParseOneTokens | crates/jni-bindgen-macros/src/util/attrs.rs:170-180 | the rendered tokens of an attribute parse back to that attribute and consume exactly those tokens |
| Attrs.ParseRender | crates/jni-bindgen-macros/src/util/attrs.rs:81-83 | a comma-separated list of rendered attributes parses back to the same attributes, in the same order |
| Attrs.TrailingComma | crates/jni-bindgen-macros/src/util/attrs.rs:81 | a trailing comma is accepted and changes nothing |
| Attrs.TrailingCommaList | crates/jni-bindgen-macros/src/util/attrs.rs:81 | a list with a trailing comma parses to the same attributes |
| Attrs.IdentValue | crates/jni-bindgen-macros/src/util/attrs.rs:170-180 | a string-valued keyword also takes a bare identifier as its value |
| Attrs.UnknownKeyword | crates/jni-bindgen-macros/src/util/attrs.rs:229 | any identifier other than the five keywords is rejected with "unknown attribute" |
| Attrs.RawKeywordRejected | crates/jni-bindgen-macros/src/util/attrs.rs:127-132 | the `r#` spelling of a keyword is rejected too: the source adds `r#` to the identifier and compares the result with the plain keyword |
| Attrs.ConstructorTakesNoValue | crates/jni-bindgen-macros/src/util/attrs.rs:141-143 | `constructor = "..."` is rejected at the `=` |
| Traits.JniPathText | crates/jni-bindgen-macros/src/util/traits.rs:19 | a path prints as `jni` exactly when it is the single segment `jni` |
| Traits.FindJni | crates/jni-bindgen-macros/src/util/traits.rs:17-19 | finds the first `jni` attribute, and finds none only when there is none |
| Traits.ParseArgs | crates/jni-bindgen-macros/src/util/traits.rs:20 | a list attribute's arguments are parsed as the macro arguments; any other attribute form fails |
| Traits.GetJniAttr | crates/jni-bindgen-macros/src/util/traits.rs:16-21 | there are arguments exactly when the first `jni` attribute has arguments that parse |
| Traits.HasJni | crates/jni-bindgen-macros/src/util/traits.rs:27-31 | true exactly when some attribute is `jni` |
| Traits.GetRename | crates/jni-bindgen-macros/src/util/traits.rs:23-25 | there is no rename exactly when there is no parsable `jni` attribute or it has no `rename` argument; otherwise the rename is the value of its first `rename` argument |
| Traits.IsConstructor | crates/jni-bindgen-macros/src/util/traits.rs:33-37 | true exactly when the `jni` arguments parse and contain `constructor`; this implies `has_jni` |
| Traits.BareJni | crates/jni-bindgen-macros/src/util/traits.rs:16-37 | a bare `#[jni]` marks a function for export, but it is no constructor and has no rename |
| Traits.ConstructorAttr | crates/jni-bindgen-macros/src/util/traits.rs:33-37 | `#[jni(constructor)]` marks a constructor |
| MethodVec.JavaArgsAt | crates/jni-bindgen-macros/src/util/method.rs:16-23 | the i-th parameter declaration sits at the i-th slot of the ", "-joined text |
| MethodVec.CallArgsAt | crates/jni-bindgen-macros/src/util/method.rs:25-32 | the i-th argument name sits at the i-th slot of the ", "-joined text |
| MethodVec.ArgGettersAt | crates/jni-bindgen-macros/src/util/method.rs:34-41 | the i-th getter sits at the i-th line of the newline-joined text |
| Quotes.BaseNameText | crates/jni-bindgen-macros/src/util/quotes.rs:26-34 | the symbol prefix is `Java_<namespace>_<struct>_00024<struct>Native` |
| Quotes.BaseNameParts | crates/jni-bindgen-macros/src/util/quotes.rs:26-34 | when neither the namespace nor the struct name contains '_', splitting the prefix at '_' gives back its four parts |
| Quotes.ReceiverOutcome | crates/jni-bindgen-macros/src/util/quotes.rs:4-24 | the method runs exactly when the `ptr` field reads as a non-zero handle, and then on that handle; a zero handle throws "The pointer is null", a failed read throws its own message, both as RuntimeException, and the bridge returns its failure value |
| Quotes.Call | crates/jni-bindgen-macros/src/util/quotes.rs:36-52 | the call names the given method, struct and arguments |
| Quotes.CallSelection | crates/jni-bindgen-macros/src/util/quotes.rs:36-52 | the call text binds `res` exactly when the method returns a value, and goes through `this.` exactly when the method has a receiver |
| Quotes.DropStruct | crates/jni-bindgen-macros/src/util/quotes.rs:54-56 | the drop bridge is exported as `<base>_drop` and frees the named struct |
| Quotes.RunDrop | crates/jni-bindgen-macros/src/util/quotes.rs:65-69 | a zero handle frees nothing; any other handle is freed, and nothing else is |
| Quotes.GetTypeHash | crates/jni-bindgen-macros/src/util/quotes.rs:74-76 | the type-hash bridge is exported as `<base>_getTypeHash` for the named struct |
| Quotes.JoinPair | crates/jni-bindgen-macros/src/codegen/java_method.rs:211-212 | joining two parts with '_' puts exactly one '_' between them |
| Quotes.SymbolsDistinct | crates/jni-bindgen-macros/src/codegen/java_method.rs:211-213 | within one struct, a method bridge shares its symbol with the drop or type-hash bridge only when the method is named `drop` or `getTypeHash`, and two method bridges share a symbol only when the method names are equal |
| JavaTypes.NonCrateIdents | crates/jni-bindgen-macros/src/codegen/java_type.rs:1146-1153 | the trait's class name is built from the path segments other than `crate` |
| JavaTypes.FirstTraitName | crates/jni-bindgen-macros/src/codegen/java_type.rs:1139-1145 | the class name candidate is absent exactly when no bound of the trait object is a trait |
| JavaTypes.FirstLifetime | crates/jni-bindgen-macros/src/codegen/java_type.rs:1156-1160 | the first lifetime bound is found, and is absent exactly when no bound is a lifetime |
| JavaTypes.BoxInterface | crates/jni-bindgen-macros/src/codegen/java_type.rs:1134-1214 | `Box<...>` is an interface type only around a `dyn Trait` with a lifetime; the two error messages for the missing parts; an explicit `class_name` attribute wins over the trait's name |
| JavaTypes.ClassifyArg | crates/jni-bindgen-macros/src/codegen/java_type.rs:1274-1287 | a receiver argument is always `Self` |
| JavaTypes.ClassifyCanon | crates/jni-bindgen-macros/src/codegen/java_type.rs:1291-1322 | every Java type is recognised back from the Rust type a user writes for it (classification is a left inverse of spelling) |
| JavaTypes.ClassifyArgCanon | crates/jni-bindgen-macros/src/codegen/java_type.rs:1274-1287 | a typed argument whose type is a canonical spelling classifies to that Java type |
| JavaTypes.StaticStr | crates/jni-bindgen-macros/src/codegen/java_type.rs:1243-1263 | `&'static str` is a `String` as a bare type but a reference type as an argument, since the argument path looks at references first |
| JavaTypes.MutableReferenceRejected | crates/jni-bindgen-macros/src/codegen/java_type.rs:1254-1258 | a `&mut` reference to anything but `JNIEnv` is refused with "Mutable references are not supported" |
| JavaTypes.EnvReference | crates/jni-bindgen-macros/src/codegen/java_type.rs:1244-1251 | a reference whose last path segment is `JNIEnv` is the environment, keeping its mutability |
| JavaTypes.UnknownName | crates/jni-bindgen-macros/src/codegen/java_type.rs:1311-1319 | an unrecognised type name fails with "Unsupported type: '<type>'" |
| JavaTypes.HashMapOneArgument | crates/jni-bindgen-macros/src/codegen/java_type.rs:1221-1234 | `HashMap<K>` with one argument is taken as a map from K to K, since first and last argument coincide |
| JavaTypes.Throws | crates/jni-bindgen-macros/src/codegen/java_type.rs:529-535 | a Java declaration throws `NativeExecutionException` exactly when the type is a `Result` |
| JavaTypes.Imports | crates/jni-bindgen-macros/src/codegen/java_type.rs:537-565 | imports are among `java.util.List`, `java.util.Map` and the exception class; lists, maps and results import theirs |
| JavaTypes.ImportsOfParts | crates/jni-bindgen-macros/src/codegen/java_type.rs:537-565 | a type imports exactly what each of its nested parts needs by itself |
| JavaTypes.AsDeclaration | crates/jni-bindgen-macros/src/codegen/java_type.rs:567-622 | primitives are declared by their Java keyword; the environment has no Java declaration |
| JavaTypes.OptionalPrimitive | crates/jni-bindgen-macros/src/codegen/java_type.rs:580-589 | an optional primitive is declared, and described, as its boxed class |
| JavaTypes.NestedOptionPanics | crates/jni-bindgen-macros/src/codegen/java_type.rs:580-604 | an `Option` of an `Option` has no Java declaration (the generator panics) |
| JavaTypes.SentinelFitsReturnType | crates/jni-bindgen-macros/src/codegen/java_type.rs:624-701 | the error sentinel exists exactly when the bridge return type does, fails with the same message, and is a value of that return type |
| JavaTypes.VoidMeansUnit | crates/jni-bindgen-macros/src/codegen/java_type.rs:1071-1077 | a type is void (results unwrapped) exactly when its bridge returns unit and its sentinel is "no value"; without unwrapping only `()` is void |
| JavaTypes.DescriptorConforms | crates/jni-bindgen-macros/src/codegen/java_type.rs:741-789 | every JNI descriptor produced is a field descriptor of the JVM grammar, or `V` for a type made of `()` |
| JavaTypes.OptionalDescriptorConforms | crates/jni-bindgen-macros/src/codegen/java_type.rs:756-778 | the descriptor of an optional type is a field descriptor (or `V` around `()`) |
| JavaTypes.ThisArg | crates/jni-bindgen-macros/src/codegen/java_type.rs:23-29 | the synthetic `this` argument is a receiver of type `Self` |
| JavaTypes.ArgFromDeclaration | crates/jni-bindgen-macros/src/codegen/java_type.rs:474-481 | an argument reads exactly when its type classifies, and keeps that type and its declaration |
| JavaTypes.AsJniFnArg | crates/jni-bindgen-macros/src/codegen/java_type.rs:46-86 | the bridge takes no parameter for the environment; receivers, `Self`, `()` and results are refused; primitive parameters have the primitive's JNI type |
| JavaTypes.AsJniArgGetter | crates/jni-bindgen-macros/src/codegen/java_type.rs:87-236 | receivers are refused; the environment is passed as `&env`/`&mut env`; every checked conversion returns the sentinel of the method's return type |
| JavaTypes.MatchError | crates/jni-bindgen-macros/src/codegen/java_type.rs:1079-1096 | a checked conversion exists exactly when the return type has a sentinel, and returns that sentinel on error |
| JavaTypes.NullReferenceArgument | crates/jni-bindgen-macros/src/codegen/java_type.rs:198-206 | a null reference argument throws NullPointerException "The pointer is null" and returns the sentinel |
| JavaTypes.ReferenceGetterNeedsSentinel | crates/jni-bindgen-macros/src/codegen/java_type.rs:197-199 | a reference argument can be read exactly when the return type has a sentinel |
| JavaTypes.AsJniReturnVal | crates/jni-bindgen-macros/src/codegen/java_type.rs:931-1070 | a returned value can be converted only when the bridge has a return type; a result's conversion returns the sentinel of its type |
| JavaTypes.ResultErrorThrown | crates/jni-bindgen-macros/src/codegen/java_type.rs:959-980 | an `Err` result with no exception pending is thrown, as NativeExecutionException when it names no class, and the sentinel is returned |
| JavaTypes.InterfaceValCheck | crates/jni-bindgen-macros/src/codegen/java_type.rs:238-464 | a value handed to a Java interface method is never a reference, the environment, a result, `Self` or `()` |
| JavaMethods.KeyIndex | crates/jni-bindgen-macros/src/codegen/java_method.rs:21 | the position of a key in the argument map: the first entry with that key, or the length when there is none |
| JavaMethods.Insert | crates/jni-bindgen-macros/src/codegen/java_method.rs:486 | `IndexMap` insertion keeps keys distinct; a new key is appended; a key already present keeps its position and the keys stay as they were |
| JavaMethods.CollectArgs | crates/jni-bindgen-macros/src/codegen/java_method.rs:481-486 | collecting the parameters succeeds exactly when every typed parameter classifies |
| JavaMethods.CollectArgsError | crates/jni-bindgen-macros/src/codegen/java_method.rs:481-486 | on failure, the error is the error of the first typed parameter that does not classify |
| JavaMethods.CollectArgsKeys | crates/jni-bindgen-macros/src/codegen/java_method.rs:481-486 | the collected keys are distinct; they are exactly the patterns of the typed parameters; the receiver is never among the arguments |
| JavaMethods.CollectOrder | crates/jni-bindgen-macros/src/codegen/java_method.rs:481-486 | with distinct patterns, the keys follow the parameters' order |
| JavaMethods.SamePatternMerges | crates/jni-bindgen-macros/src/codegen/java_method.rs:486 | two parameters with the same pattern give one entry, which holds the later type |
| JavaMethods.SelfArg | crates/jni-bindgen-macros/src/codegen/java_method.rs:491-508 | no receiver gives None; the first receiver decides: a reference gives its mutability, a receiver by value fails with "self argument must be a reference" |
| JavaMethods.FromSig | crates/jni-bindgen-macros/src/codegen/java_method.rs:480-519 | the parameters are checked first, then the return type, then the receiver. A method is static exactly when it has no receiver, and only a method with a receiver can be `mut_self`. The return type is present exactly when the signature has one. The argument keys are distinct and never the receiver |
| JavaMethods.FromImplFn | crates/jni-bindgen-macros/src/codegen/java_method.rs:522-530 | the Java name is the `rename` value, or the Rust name when there is none; the original name is the Rust name |
| JavaMethods.FromTraitFn | crates/jni-bindgen-macros/src/codegen/java_method.rs:532-540 | the same as for an impl function, for a trait function |
| JavaMethods.ArgImports | crates/jni-bindgen-macros/src/codegen/java_method.rs:71-75 | the imports of the argument types: an import is in the set exactly when some argument type needs it |
| JavaMethods.GetImports | crates/jni-bindgen-macros/src/codegen/java_method.rs:70-82 | an import is in the set exactly when some argument type or the return type needs it |
| JavaMethods.ThrowsImported | crates/jni-bindgen-macros/src/codegen/java_method.rs:196-200 | a method that returns a Result declares `throws NativeExecutionException` and imports the exception class |
| JavaMethods.Declared | crates/jni-bindgen-macros/src/codegen/java_method.rs:91-103 | the parameter declarations succeed exactly when every argument type has a declaration; there is one per argument with Java text |
| JavaMethods.ReturnTypeText | crates/jni-bindgen-macros/src/codegen/java_method.rs:162-165 | no return type gives "void"; a `JNIEnv` return type panics |
| JavaMethods.AsDeclaration | crates/jni-bindgen-macros/src/codegen/java_method.rs:160-208 | the declaration exists exactly when the return type and every parameter have Java text |
| JavaMethods.DeclarationText | crates/jni-bindgen-macros/src/codegen/java_method.rs:160-208 | the declaration is the comment, the modifiers, the return type, the camel-case name, the parameter list, the `throws` clause, and either `;` or a body that forwards the call |
| JavaMethods.ForwardReturns | crates/jni-bindgen-macros/src/codegen/java_method.rs:168-190 | the public wrapper returns a value exactly when the native bridge returns something other than unit, and then its body starts with `return` |
| JavaMethods.DocLines | crates/jni-bindgen-macros/src/codegen/java_method.rs:459-474 | every doc line starts with "* " |
| JavaMethods.GetComment | crates/jni-bindgen-macros/src/codegen/java_method.rs:455-478 | there is no comment exactly when the method has no declaration or no doc lines; otherwise the comment is the Javadoc block of those lines |
| JavaMethods.JavadocLine | crates/jni-bindgen-macros/src/codegen/java_method.rs:474-477 | each doc line appears, in order, on its own line of the Javadoc block |
| JavaMethods.AsConstructor | crates/jni-bindgen-macros/src/codegen/java_method.rs:119-158 | a constructor exists exactly when every parameter has a declaration |
| JavaMethods.ConstructorsLineUp | crates/jni-bindgen-macros/src/codegen/java_method.rs:119-142 | the outer constructor passes its parameters in order and then `this`; the inner constructor takes the same parameters and then `Object referent`, so the two lists line up argument for argument |
| JavaMethods.DropDeclared | crates/jni-bindgen-macros/src/codegen/java_method.rs:44-56 | the drop method's only parameter is declared as `long self` |
| JavaMethods.DropDeclaration | crates/jni-bindgen-macros/src/codegen/java_method.rs:44-56 | the drop method is declared `private static native void drop(long self);` |
| JavaMethods.DropSymbolAgrees | crates/jni-bindgen-macros/src/codegen/java_method.rs:44-56 | the symbol the drop method's declaration resolves to is the symbol of the drop bridge |
| JavaMethods.CamelGetTypeHash | crates/jni-bindgen-macros/src/codegen/java_method.rs:58-68 | camel case leaves `getTypeHash` unchanged |
| JavaMethods.TypeHashSymbolAgrees | crates/jni-bindgen-macros/src/codegen/java_method.rs:58-68 | the symbol the type-hash method's declaration resolves to is the symbol of the type-hash bridge |
| JavaMethods.NonSelf | crates/jni-bindgen-macros/src/codegen/java_method.rs:235-239 | an argument is kept exactly when it is not `self`; with no `self`, all arguments in order; one argument is kept exactly when it is not `self` |
| JavaMethods.NonSelfAppend | crates/jni-bindgen-macros/src/codegen/java_method.rs:235-239 | filtering distributes over concatenation, so the kept arguments stay in their order |
| JavaMethods.AsJniMethod | crates/jni-bindgen-macros/src/codegen/java_method.rs:210-332 | the bridge's name `<base>_<camelName>` is built first: when it is not an ASCII identifier (letters, digits, `_`) the method gets no bridge, before any other check; otherwise the bridge is `BridgeNamed` under that name, so its symbol is that name |
| JavaMethods.BridgeNamed | crates/jni-bindgen-macros/src/codegen/java_method.rs:214-332 | under a given name, the bridge reads the receiver exactly when the method is not static, calls the original Rust name, and has one parameter type and one getter per non-self argument, in order. An unsupported return type fails first, with its own error |
| JavaMethods.BridgeNamedRenamed | crates/jni-bindgen-macros/src/codegen/java_method.rs:210-213 | the name decides only the bridge's symbol: under another name the same method gives the same bridge, or the same error |
| JavaMethods.BridgeNamedAccepted | crates/jni-bindgen-macros/src/codegen/java_method.rs:214-332 | under a given name, the bridge exists exactly when the return type, every parameter type, every getter and the result conversion are supported (`Convertible`) |
| JavaMethods.BridgeAccepted | crates/jni-bindgen-macros/src/codegen/java_method.rs:210-332 | the bridge exists exactly when its name is an ASCII identifier and every conversion it needs is supported (`Convertible`) |
| JavaMethods.BridgeWellTyped | crates/jni-bindgen-macros/src/codegen/java_method.rs:225-233 | every early return (a null receiver, a null argument) returns a value of the bridge's return type, and the result is bound exactly when the method returns something other than `()` |
| JavaMethods.DeclaredWhenEnvFree | crates/jni-bindgen-macros/src/codegen/java_method.rs:91-103 | a type without `JNIEnv` inside has Java text whenever its declaration succeeds |
| JavaMethods.SlotAgrees | crates/jni-bindgen-macros/src/codegen/java_method.rs:240-243 | an argument takes a slot of the native bridge exactly when it takes a parameter of the Java declaration |
| JavaMethods.SlotCountAgrees | crates/jni-bindgen-macros/src/codegen/java_method.rs:235-252 | the number of bridge parameters is the number of Java parameters |
| JavaMethods.BridgeArity | crates/jni-bindgen-macros/src/codegen/java_method.rs:210-252 | the private native declaration and the bridge agree on the number of parameters |
| JavaMethods.FirstEnv | crates/jni-bindgen-macros/src/codegen/java_method.rs:356-359 | finds the mutability of the first `JNIEnv` argument, and finds nothing only when there is none |
| JavaMethods.NonEnv | crates/jni-bindgen-macros/src/codegen/java_method.rs:405-410 | the arguments handed to Java are none of them `JNIEnv` |
| JavaMethods.NonEnvPositionsPick | crates/jni-bindgen-macros/src/codegen/java_method.rs:405-416 | the `j_arg_i` positions are exactly the non-`JNIEnv` arguments |
| JavaMethods.NonEnvPositionsIncrease | crates/jni-bindgen-macros/src/codegen/java_method.rs:405-416 | the positions are strictly increasing, so Java receives the arguments in order |
| JavaMethods.AsTraitMethod | crates/jni-bindgen-macros/src/codegen/java_method.rs:334-453 | a trait method must come from a trait, take `&self`, return a Result and take a mutable `JNIEnv` (each violation has its own error). The call goes to the camel-case name, with one parameter per non-self argument and the non-`JNIEnv` arguments passed to Java |
| JavaMethods.TraitDescriptorParses | crates/jni-bindgen-macros/src/codegen/java_method.rs:418-431 | the descriptor is a well-formed method descriptor; it lists the descriptors of exactly the arguments passed to Java, in order, and then the descriptor of the result |
| JavaMethods.ParamDescriptorsValid | crates/jni-bindgen-macros/src/codegen/java_method.rs:418-424 | every argument passed to Java has a field descriptor |
| Code.OuterClass | crates/jni-bindgen-macros/src/codegen/code.rs:8-43 | the class text starts with the package declaration of the namespace |
| Code.OuterClassImports | crates/jni-bindgen-macros/src/codegen/code.rs:16-42 | after the fixed imports comes the exception import when the class throws, and the class header directly otherwise |
| Code.ImportedWhenThrows | crates/jni-bindgen-macros/src/codegen/code.rs:37-39 | a throwing class imports `NativeExecutionException` |
| Code.NotImportedOtherwise | crates/jni-bindgen-macros/src/codegen/code.rs:39-41 | a class that does not throw has no exception import |
| Code.OuterClassShape | crates/jni-bindgen-macros/src/codegen/code.rs:22-32 | the class implements `NativeClassImpl<{S}.{S}Native>` and overrides `getInner` returning the `{S}Native` |
| Code.LoadLibraryName | crates/jni-bindgen-macros/src/codegen/code.rs:45-51 | the static block loads exactly the library named, which can be read back from between its quotes |
| Descriptors.ObjectDescriptorValid | crates/jni-bindgen-macros/src/codegen/java_type.rs:786-788 | a dotted class name with '.' replaced by '/' gives a valid object field descriptor |
| Descriptors.ParseMethod | crates/jni-bindgen-macros/src/codegen/java_method.rs:425-431 | whatever a method descriptor ends in is a valid return descriptor |
| Descriptors.ParseFieldPrefix | crates/jni-bindgen-macros/src/codegen/java_method.rs:418-424 | a field descriptor is read back exactly from the front of a concatenation, so the joined argument descriptors can be split again |
| Descriptors.ParseMethodDescriptor | crates/jni-bindgen-macros/src/codegen/java_method.rs:418-431 | the method descriptor `(args)ret` built from field descriptors reads back as the same arguments and return type |
| JniError.ClassName | crates/jni-bindgen/src/errors/jni_error.rs:45-51 | an `Any` class is thrown under its own name |
| JniError.ClassOfKind | crates/jni-bindgen/src/errors/jni_error.rs:31-43 | each JNI crate error kind maps to its exception class, both directions: method-not-found kinds to NoSuchMethod, null kinds to NullPointer, field-not-found to NoSuchField, invalid argument lists to IllegalArgument, all others to Runtime |
| JniError.New | crates/jni-bindgen/src/errors/jni_error.rs:61-66 | an error keeps the message and class given |
| JniError.RuntimeError | crates/jni-bindgen/src/errors/jni_error.rs:68-70 | a runtime error has no class and so is thrown as `java/lang/RuntimeException` |
| JniError.OrClass | crates/jni-bindgen/src/errors/jni_error.rs:80-88 | `or_class` sets the class only when none is set and never changes the message |
| JniError.OrClassIdempotent | crates/jni-bindgen/src/errors/jni_error.rs:80-88 | a second `or_class` changes nothing: the first class set wins |
| JniError.ThrownClass | crates/jni-bindgen/src/errors/jni_error.rs:72-78 | an error without class is thrown as `java/lang/RuntimeException` (the default class), otherwise as its class's name |
| JniError.ThrownAfterOrClass | crates/jni-bindgen/src/errors/jni_error.rs:72-88 | after `or_class(c)` the thrown class is the error's own class if it had one, otherwise c |
| JniError.Display | crates/jni-bindgen/src/errors/jni_error.rs:91-95 | an error displays as its message |
| JniError.FromMessage | crates/jni-bindgen/src/errors/jni_error.rs:99-121 | errors from strings and `anyhow` keep the message and have no class |
| JniError.FromJniCrate | crates/jni-bindgen/src/errors/jni_error.rs:105-109 | a JNI crate error keeps its text and takes the class of its kind |
| JniError.Env.ThrowNew | crates/jni-bindgen/src/errors/jni_error.rs:74-77 | `throw_new` leaves that exception pending in the environment |
| JniError.Throw | crates/jni-bindgen/src/errors/jni_error.rs:72-78 | `throw` leaves pending an exception of the error's thrown class with its message |
| ResultMacros.IntoJNIError | crates/jni-bindgen/src/errors/jni_error.rs:99-121 | each source error type converts as its `From` impl says: messages without class, JNI crate errors with the class of their kind, a `JNIError` unchanged |
| ResultMacros.IntoJniResult | crates/jni-bindgen/src/errors/result.rs:11-15 | `into_jni_result` keeps `Ok` values and converts only the error |
| ResultMacros.Error | crates/jni-bindgen/src/errors/result.rs:83-91 | `error!` builds a classless error, thrown as RuntimeException |
| ResultMacros.ErrorWithClass | crates/jni-bindgen/src/errors/result.rs:109-116 | `error_class!` builds an error thrown as the given class |
| ResultMacros.Bail | crates/jni-bindgen/src/errors/result.rs:17-40 | `bail!` returns an error with the message and no class, which `throw` raises as java/lang/RuntimeException |
| ResultMacros.BailClass | crates/jni-bindgen/src/errors/result.rs:42-66 | `bail_class!` returns an error with the message and the given class, which `throw` raises as that class |
| ResultMacros.BailReturnsEarly | crates/jni-bindgen/src/errors/result.rs:32-40 | a bridged method whose body starts with `bail!` makes the bridge return the sentinel without running the rest of the body, throwing the message as NativeExecutionException (or the class `bail_class!` gave), or nothing more when an exception is already pending |
| JavaClasses.Filter | crates/jni-bindgen-macros/src/codegen/java_class.rs:25-37 | filtering keeps, in order, only elements that satisfy the test |
| JavaClasses.FilterMembers | crates/jni-bindgen-macros/src/codegen/java_class.rs:25-37 | an element is kept exactly when it is in the input and satisfies the test |
| JavaClasses.JniFnsMembers | crates/jni-bindgen-macros/src/codegen/java_class.rs:28-51 | a function is exported as a method (a constructor) exactly when it is in the impl block, has a `jni` attribute and is not (is) a constructor |
| JavaClasses.Partition | crates/jni-bindgen-macros/src/codegen/java_class.rs:28-51 | every function with a `jni` attribute is exported as exactly one of method or constructor; one without is not exported |
| JavaClasses.FromDeclaration | crates/jni-bindgen-macros/src/codegen/java_class.rs:23-63 | the class's name is the printed self type, its methods and constructors are the selected functions read in order, its namespace the attribute's |
| JavaClasses.FromDeclarationAccepts | crates/jni-bindgen-macros/src/codegen/java_class.rs:23-63 | reading succeeds exactly when every selected function reads and the namespace is given; with all read, a missing namespace is the error |
| JavaClasses.MethodsAndConstructorsDisjoint | crates/jni-bindgen-macros/src/codegen/java_class.rs:30-45 | no method of the class is also one of its constructors |
| JavaClasses.MethodsImports | crates/jni-bindgen-macros/src/codegen/java_class.rs:107-111 | the imports of the methods are the union of each method's imports |
| JavaClasses.GetImports | crates/jni-bindgen-macros/src/codegen/java_class.rs:106-116 | the class imports exactly what some method or constructor imports |
| JavaClasses.NamespaceEscapeAsWritten | crates/jni-bindgen-macros/src/codegen/java_class.rs:66-67 | as written, namespaces `com.my_app` and `com.my.app` get the same prefix; the symbols generated for `com.my_app.Point` and for `com.example.Foo_Bar` are not the JNI names the JVM looks up |
| JavaClasses.AsWrittenMisses | crates/jni-bindgen-macros/src/codegen/java_class.rs:66-67 | as written, a namespace or struct name containing `_` never yields the JNI name the JVM looks up |
| JavaClasses.NamespacePrefixAgrees | crates/jni-bindgen-macros/src/codegen/java_class.rs:66 | for namespaces of letters, digits and dots the corrected prefix equals the prefix as written |
| JavaClasses.BaseNameAgrees | crates/jni-bindgen-macros/src/codegen/java_class.rs:66-67 | for such namespaces and alphanumeric struct names the corrected base name is the one the source builds |
| JavaClasses.MangleLength | crates/jni-bindgen-macros/src/codegen/java_class.rs:66 | a name containing `_` gets longer under mangling, so for such namespaces the prefix as written cannot be the JNI one |
| JavaClasses.BaseNameIsJniPrefix | crates/jni-bindgen-macros/src/codegen/java_class.rs:66-67 | base name plus mangled member is the short JNI name of that member of the inner class `{ns}/{S}${S}Native` |
| JavaClasses.BaseNameInjective | crates/jni-bindgen-macros/src/codegen/java_class.rs:66-67 | with the corrected prefix, distinct (inner class, member) pairs get distinct symbols |
| Quotes.IdentConcat | crates/jni-bindgen-macros/src/codegen/java_method.rs:211-213 | a concatenation is an ASCII identifier exactly when both parts are |
| Quotes.MethodSymbolIdent | crates/jni-bindgen-macros/src/codegen/java_method.rs:211-213 | a bridge name is an ASCII identifier exactly when the base name and the Java name are |
| Quotes.BaseNameIdent | crates/jni-bindgen-macros/src/util/quotes.rs:26-34 | a base name is an ASCII identifier exactly when the namespace part and the struct name are |
| JavaClasses.JavaNameIdent | crates/jni-bindgen-macros/src/codegen/java_method.rs:211 | a camel-case Java name is an ASCII identifier exactly when it is made of letters and digits, since camel case leaves no `_` |
| JavaClasses.BuiltNamesAlnum | crates/jni-bindgen-macros/src/codegen/java_method.rs:210-213 | as written, a bridge is built only for a method whose Java name is made of letters and digits, under any prefix |
| JavaClasses.AsWrittenNamesAlnum | crates/jni-bindgen-macros/src/codegen/java_class.rs:65-88 | as written, a struct's bridges are built only when every method and constructor has a Java name of letters and digits |
| JavaClasses.MangleIdent | crates/jni-bindgen-macros/src/codegen/java_method.rs:211-213 | every mangled name is an ASCII identifier |
| JavaClasses.ClassBaseNameIdent | crates/jni-bindgen-macros/src/codegen/java_class.rs:66-67 | the corrected base name is always an ASCII identifier |
| JavaClasses.EscapedNamesBuild | crates/jni-bindgen-macros/src/codegen/java_method.rs:211-213 | with escaping, every bridge name is an ASCII identifier, so a bridge is built for every method whose conversions exist, whatever its name, and it carries the short JNI name the JVM looks up |
| JavaClasses.MemberEscapeAsWritten | crates/jni-bindgen-macros/src/codegen/java_method.rs:211-213 | as written, with a namespace and struct name that need no escaping, a method gets a bridge exactly when its Java name is made of letters and digits and its conversions exist; any other Java name (a rename `a$b` or `a"b`) is refused with the identifier error; a bridge that is built carries the JNI name the JVM looks up |
| JavaClasses.MemberBridge | crates/jni-bindgen-macros/src/codegen/java_method.rs:210-332 | the bridge of one method: as written, `as_jni_method` itself; escaped, the bridge named by the mangled Java name, which exists exactly when the method's conversions do; in both, the bridge is `BridgeNamed` under its symbol |
| JavaClasses.MethodBridgesAlnum | crates/jni-bindgen-macros/src/codegen/java_class.rs:68-77 | under a prefix that is an ASCII identifier, escaping Java names of letters and digits changes no bridge |
| JavaClasses.MethodBridges | crates/jni-bindgen-macros/src/codegen/java_class.rs:68-77 | the bridges of the methods, one per method in order (`MemberBridge`); the list fails exactly when some method's bridge fails |
| JavaClasses.BridgesWith | crates/jni-bindgen-macros/src/codegen/java_class.rs:65-104 | the method and constructor bridges, a `drop` bridge exactly when there are constructors, and the type-hash bridge; nothing is built when a method fails or when the prefix, which also names `drop` and `getTypeHash`, is not an ASCII identifier |
| JavaClasses.AsJniMethods | crates/jni-bindgen-macros/src/codegen/java_class.rs:65-104 | a missing namespace is the error; otherwise it succeeds exactly when every method and constructor bridge does, all named by the unescaped base name `base_name(ns.replace('.', "_"), S)` and the unescaped Java name, and that base name is an ASCII identifier, with a `drop` bridge exactly when there are constructors and the type-hash bridge |
| JavaClasses.AsJniMethodsCorrected | crates/jni-bindgen-macros/src/codegen/java_class.rs:65-104 | the same bridges, with the base name and the Java names escaped as the JNI naming rule requires; the escaped base name is always an ASCII identifier |
| JavaClasses.AsWrittenAgrees | crates/jni-bindgen-macros/src/codegen/java_class.rs:66-67 | for a namespace of letters, digits and dots, an alphanumeric struct name and alphanumeric Java names, the bridges as written are the corrected ones |
| JavaClasses.BridgeSymbols | crates/jni-bindgen-macros/src/codegen/java_class.rs:65-104 | as written, for such a namespace and struct name, every bridge that is built (method, constructor, `drop`, type hash) is exported under the short JNI name of the matching native method of the inner class |
| JavaClasses.BridgeSymbolsCorrected | crates/jni-bindgen-macros/src/codegen/java_class.rs:65-104 | with the corrected base name and escaped Java names, every bridge is exported under that short JNI name, whatever the namespace, struct name and method names |
| JavaClasses.NativesMatchBridges | crates/jni-bindgen-macros/src/codegen/java_class.rs:65-141 | as written, for such a namespace and struct name, when the struct's bridges are built the symbols exported are exactly the short JNI names of the natives the inner class declares |
| JavaClasses.NativesMatchBridgesCorrected | crates/jni-bindgen-macros/src/codegen/java_class.rs:65-141 | with the corrected base name and escaped Java names, the same holds for every namespace, struct name and method names |
| JavaClasses.InnerMethodsOrder | crates/jni-bindgen-macros/src/codegen/java_class.rs:121-126 | the inner class declares the methods, `drop` exactly when there are constructors, `getTypeHash`, then the constructors |
| JavaClasses.ClassText | crates/jni-bindgen-macros/src/codegen/java_class.rs:119-159 | the class text starts with the package declaration of the namespace |
| JavaClasses.AsDeclaration | crates/jni-bindgen-macros/src/codegen/java_class.rs:119-159 | building the class step by step yields the class text |
| JavaClasses.ExceptionImported | crates/jni-bindgen-macros/src/codegen/java_class.rs:143-158 | a class with a method or constructor returning a Result imports `NativeExecutionException` |
| JavaClasses.DestructDropsHandle | crates/jni-bindgen-macros/src/codegen/code.rs:1-6 | the `destruct` override calls the native `drop` on the handle |
| JavaInterfaces.ItemMethod | crates/jni-bindgen-macros/src/codegen/java_interface.rs:26-29 | a trait item that is not a function is refused with "Only functions are supported"; a function is read with its declaration kept |
| JavaInterfaces.FromDeclaration | crates/jni-bindgen-macros/src/codegen/java_interface.rs:21-39 | reading succeeds exactly when every item is a readable function and the namespace is given; name, namespace, declaration and methods in order |
| JavaInterfaces.OnlyFunctionsRefused | crates/jni-bindgen-macros/src/codegen/java_interface.rs:23-30 | a trait whose first failing item is not a function is refused with that message whatever the arguments |
| JavaInterfaces.AsJniMethods | crates/jni-bindgen-macros/src/codegen/java_interface.rs:41-59 | the proxy is `{Name}Impl` implementing the trait by one call per method, and fails exactly when some method's call fails, with that error |
| JavaInterfaces.ProxyCallsResolve | crates/jni-bindgen-macros/src/codegen/java_interface.rs:45-58 | each call goes to the camel-case Java method with a descriptor that parses and lists one parameter per argument passed |
| JavaInterfaces.ProxyFromJni | crates/jni-bindgen-macros/src/codegen/java_interface.rs:62-69 | a boxed trait object is always made and wraps the reference unchanged, null included |
| JavaInterfaces.AllImports | crates/jni-bindgen-macros/src/codegen/java_interface.rs:81-84 | the imports of all methods, as a union |
| JavaInterfaces.ImportsWithoutException | crates/jni-bindgen-macros/src/codegen/java_interface.rs:81-86 | filtering out names containing `NativeExecutionException` removes exactly the exception import and leaves at most the list and map imports |
| JavaInterfaces.InterfaceComment | crates/jni-bindgen-macros/src/codegen/java_interface.rs:91 | the comment is empty exactly when the trait has no doc lines, and the Javadoc of those lines otherwise |
| JavaInterfaces.AsJavaDeclaration | crates/jni-bindgen-macros/src/codegen/java_interface.rs:73-95 | the interface has the namespace and name, its imports are the methods' imports without the exception class, and a comment exactly when there are doc lines |
| NativeClasses.Step | java/JNIBindgen/src/main/java/com/github/markusjx/jnibindgen/NativeClass.java:12-17 | releasing a valid object runs `destruct` once and clears the handle; a released object is left alone |
| NativeClasses.DestroyOutcome | java/JNIBindgen/src/main/java/com/github/markusjx/jnibindgen/NativeClass.java:29-35 | `destroyNative` fails with "Native object already destroyed" exactly on a released object |
| NativeClasses.RunAtMostOnce | java/JNIBindgen/src/main/java/com/github/markusjx/jnibindgen/NativeClass.java:12-35 | whatever sequence of drops and destroys, `destruct` runs at most once |
| NativeClasses.RunFromFresh | java/JNIBindgen/src/main/java/com/github/markusjx/jnibindgen/NativeClass.java:7-35 | from a fresh object, `destruct` runs exactly once if the handle was set and the object was released at all, and the handle ends 0 |
| NativeClasses.ReleasedStays | java/JNIBindgen/src/main/java/com/github/markusjx/jnibindgen/NativeClass.java:12-17 | a released object is unchanged by any further operation |
| NativeClasses.NativeClass.constructor | java/JNIBindgen/src/main/java/com/github/markusjx/jnibindgen/NativeClass.java:7-10 | a new object holds the handle given and has not been destructed |
| NativeClasses.NativeClass.IsValid | java/JNIBindgen/src/main/java/com/github/markusjx/jnibindgen/NativeClass.java:21-23 | valid exactly when the handle is not 0 |
| NativeClasses.NativeClass.GetPtr | java/JNIBindgen/src/main/java/com/github/markusjx/jnibindgen/NativeClass.java:25-27 | the current handle, which is 0 exactly when the object is released |
| NativeClasses.NativeClass.DropNative | java/JNIBindgen/src/main/java/com/github/markusjx/jnibindgen/NativeClass.java:12-17 | the new state is one release step from the old, keeping "destructed at most once" |
| NativeClasses.NativeClass.DestroyNative | java/JNIBindgen/src/main/java/com/github/markusjx/jnibindgen/NativeClass.java:29-35 | the error exactly on a released object; otherwise one release step, keeping "destructed at most once" |
| JniValues.CallStatic | crates/jni-bindgen/src/conversion/option_convert.rs:6-14 | a successful `valueOf` call yields a boxed value of the named class holding the value given |
| JniValues.CallGetter | crates/jni-bindgen/src/conversion/option_convert.rs:27-28 | a successful unboxing getter reads the value held by a boxed object |
| JniValues.NewObject | crates/jni-bindgen/src/conversion/object_convert.rs:152 | only `ArrayList` and `HashMap` with the no-argument constructor descriptor `()V` are created |
| JniValues.CallAdd | crates/jni-bindgen/src/conversion/object_convert.rs:188-193 | a successful `add` appends the element at the end of the list |
| JniValues.CallPut | crates/jni-bindgen/src/conversion/object_convert.rs:157-162 | a successful `put` updates the map as `Put` does |
| JniValues.Put | crates/jni-bindgen/src/conversion/object_convert.rs:142 | inserting replaces the value of an existing key and appends a new key; other entries are unchanged |
| JniValues.PutKeys | crates/jni-bindgen/src/conversion/object_convert.rs:142 | after inserting, the keys are the old keys plus the inserted one |
| JniValues.PutDistinct | crates/jni-bindgen/src/conversion/object_convert.rs:142 | inserting keeps the keys distinct |
| JniValues.PutHolds | crates/jni-bindgen/src/conversion/object_convert.rs:142 | after inserting, the map holds the inserted pair |
| OptionConvert.IntoJni | crates/jni-bindgen/src/conversion/option_convert.rs:4-17 | `Some(v)` becomes the boxed `v` of the primitive's class |
| OptionConvert.FromJni | crates/jni-bindgen/src/conversion/option_convert.rs:19-31 | a value read back comes from a boxed object and is the value it holds |
| OptionConvert.RoundTrip | crates/jni-bindgen/src/conversion/option_convert.rs:4-31 | converting an optional primitive to Java always succeeds, gives null exactly for `None`, and reads back as the same optional value |
| OptionConvert.FromJniCases | crates/jni-bindgen/src/conversion/option_convert.rs:23-30 | `None` is read exactly from null, and a boxed object of the right class is read as its value |
| OptionConvert.DescriptorsParse | crates/jni-bindgen/src/conversion/option_convert.rs:10-27 | the `valueOf` descriptor takes the primitive and returns the boxed class; the getter takes nothing and returns the primitive |
| OptionConvert.StringIntoJni | crates/jni-bindgen/src/conversion/option_convert.rs:108-116 | always succeeds, giving null exactly for `None` |
| OptionConvert.StringFromJni | crates/jni-bindgen/src/conversion/option_convert.rs:118-127 | `None` exactly from null; succeeds exactly on null and strings |
| OptionConvert.StringRoundTrip | crates/jni-bindgen/src/conversion/option_convert.rs:108-127 | an optional string reads back as itself |
| ObjectConvert.IntoVec | crates/jni-bindgen/src/conversion/object_convert.rs:168-181 | the loop that reads a Java list computes the conversion of the list to `Vec` |
| ObjectConvert.IntoHashMap | crates/jni-bindgen/src/conversion/object_convert.rs:133-146 | the loop that reads a Java map computes the conversion of the map to `HashMap` |
| ObjectConvert.FromVec | crates/jni-bindgen/src/conversion/object_convert.rs:183-197 | the loop that fills an `ArrayList` computes the conversion of the `Vec` to Java |
| ObjectConvert.FromHashMap | crates/jni-bindgen/src/conversion/object_convert.rs:148-166 | the loop that fills a `HashMap` computes the conversion of the map to Java |
| ObjectConvert.NullHandling | crates/jni-bindgen/src/conversion/object_convert.rs:9-130 | null is refused for scalars and strings ("The value is null"), is `None` for options, is an error for lists and maps, and `None` becomes null |
| ObjectConvert.AddFromAll | crates/jni-bindgen/src/conversion/object_convert.rs:186-194 | when every element converts, the list ends with all converted elements in order |
| ObjectConvert.AddFromFails | crates/jni-bindgen/src/conversion/object_convert.rs:186-194 | the first element that fails to convert decides the error |
| ObjectConvert.IntoVecElements | crates/jni-bindgen/src/conversion/object_convert.rs:168-181 | a Java list converts exactly when every element does, element by element in order; the error is that of the first element that fails |
| ObjectConvert.FromJniList | crates/jni-bindgen/src/conversion/object_convert.rs:103-107 | reading a `Vec` is collecting the element conversions |
| ObjectConvert.FromVecElements | crates/jni-bindgen/src/conversion/object_convert.rs:183-197 | a `Vec` converts exactly when every element does, into a list of the converted elements in order; the error is that of the first failure |
| ObjectConvert.InsertFromKeys | crates/jni-bindgen/src/conversion/object_convert.rs:141-143 | inserting converted entries succeeds exactly when all keys and values convert, keeps keys distinct, and ends with the old keys plus the converted ones |
| ObjectConvert.InsertFromFresh | crates/jni-bindgen/src/conversion/object_convert.rs:141-143 | inserting entries whose converted keys are all new appends them in order |
| ObjectConvert.PutFromInsert | crates/jni-bindgen/src/conversion/object_convert.rs:154-163 | filling a Java map with `put` is the same insertion loop as reading one into a Rust map |
| ObjectConvert.FromHashMapEntries | crates/jni-bindgen/src/conversion/object_convert.rs:148-166 | a map converts exactly when every key and value does; the Java map has distinct keys, which are exactly the converted keys |
| ObjectConvert.FromJniMap | crates/jni-bindgen/src/conversion/object_convert.rs:133-146 | reading a `HashMap` is the insertion loop over the converted entries |
| ObjectConvert.IntoHashMapEntries | crates/jni-bindgen/src/conversion/object_convert.rs:133-146 | a Java map converts exactly when every key and value does; the result has distinct keys, exactly the converted ones |
| ObjectConvert.RoundTrip | crates/jni-bindgen/src/conversion/object_convert.rs:9-131 | every value of a supported type converts to Java and reads back as itself |
| ObjectConvert.RoundTripOption | crates/jni-bindgen/src/conversion/object_convert.rs:23-130 | an optional value (scalar, string, `Vec` or map) converts to Java and reads back as itself |
| ObjectConvert.RoundTripVec | crates/jni-bindgen/src/conversion/object_convert.rs:103-113 | a `Vec` converts to Java and reads back as itself |
| ObjectConvert.RoundTripMap | crates/jni-bindgen/src/conversion/object_convert.rs:71-81 | a map with distinct keys converts to Java and reads back as itself, in the same order |
| ObjectConvert.MapToJava | crates/jni-bindgen/src/conversion/object_convert.rs:148-166 | entries that convert one by one to distinct Java keys give exactly those pairs |
| ObjectConvert.MapFromJava | crates/jni-bindgen/src/conversion/object_convert.rs:133-146 | Java pairs that read one by one into distinct Rust keys give exactly those entries |

## Left out

- BridgeSymbols: as written, stated only for namespaces of letters, digits and dots and struct names of letters and digits, because a `_` there gives symbols that are not the JNI names (`JavaClasses.AsWrittenMisses`, "## Findings"); `JavaClasses.BridgeSymbolsCorrected` states it for every name. No restriction on Java names is needed: only names of letters and digits build (`JavaClasses.AsWrittenNamesAlnum`).
- NativesMatchBridges: the same restriction on the namespace and struct name, for the same reason; `JavaClasses.NativesMatchBridgesCorrected` states it for every name.
- JavaMethods.AsJniMethod: the Rust lexer and compiler are not modelled. The name's `.parse()?` (`java_method.rs:211-213`) failing to lex and the `#[no_mangle] fn #name` (`java_method.rs:318-319`) failing to compile are one model error, `Quotes.NotAnIdentifier`, with the model's own message, raised exactly when the name is not made of ASCII letters, digits and `_`. The same holds for the prefix of the `drop` and type-hash bridges (`JavaClasses.BridgesWith`). `JavaMethods.BridgeAccepted` and `JavaClasses.MemberEscapeAsWritten` rest on this rule.
- The JVM is modelled as a correct JVM, so a JNI call fails only when its class, name or descriptor is wrong. Out-of-memory, a local reference table overflow and an exception thrown by Java code inside `valueOf`, `add` or `put` are not modelled.
- Java objects are values, so aliasing between references is not modelled. A `JObject`/`JString` that passes through unchanged is the same value.
- Rust `HashMap` iteration order is unspecified; the model iterates in sequence order. A Java `HashMap` is modelled as its pairs in insertion order (`JniValues.Put`), while `java.util.HashMap` keeps no insertion order, so "in the same order" of `ObjectConvert.RoundTripMap` is the model's order, not the JVM's. `JavaClasses.GetImports` and the import sets are sets, so order does not arise there.
- `f32`/`f64` values are opaque bit patterns, and their casts and boxing are not modelled. 0.0 appears only as a sentinel.
- Unboxing getters (`intValue` and the others) are answered only for the class they belong to. The JVM's widening on a boxed value of another class is not modelled.
- The bodies of `as_interface_arg`, `as_interface_val` and `as_rust_return_val` (`java_type.rs`) are not modelled. They are token streams that run only inside a Java call-back, and their execution semantics are out of scope. Only their panics and errors are modelled (`JavaTypes.InterfaceValCheck`, `JavaTypes.RustReturnValCheck`).
- `JavaTypes.AsJniArgGetter` states the sentinel and the environment cases, but not the exact token text of each getter.
- The DefaultHasher value of `get_type_hash` is not modelled. The type-hash bridge is modelled by its name and struct only.
- `convert_case` camel-casing is an external library. `Strings.ToCamel` implements only its ASCII word rule: words split at `_`, `-`, spaces and lower-to-upper changes, the first word in lower case and the rest capitalised. The acronym boundary is not modelled: `convert_case` turns `getURLValue` into `getUrlValue`, the model into `getUrlvalue`. Digit boundaries and non-ASCII letters are not modelled either.
- The whitespace and indentation of the Java templates are kept as in the source, but no lemma speaks about them.
- Spans and diagnostic positions are not modelled. Errors are known by their message.
- The debug `println!` calls in `jni_error.rs` (in `throw` and `or_class`) are I/O and are not modelled.
- `NativeClass.java` is modelled sequentially. Its `synchronized`/`volatile` and the `NativeDrop` destructor thread are not modelled. `destroyNative` runs `dropNative` directly, which is what `NativeDrop.destruct` does.
- NativeClasses.NativeClass.constructor: the registration of the object with the destructor thread (the `referent` argument) is not modelled.
- `util/expand.rs` (file output and environment variables), the `cli` crate (spawns cargo), `class_convert.rs` and `wrapped.rs` (raw pointer casts behind `getPtr`), and the trait and module wiring files are not part of this model.

## Findings

| source | as written | input that shows it | evidently intended | confidence | as-written member | corrected member |
|---|---|---|---|---|---|---|
| crates/jni-bindgen-macros/src/codegen/java_class.rs:66-67 | the bridge symbol prefix is the namespace with `.` replaced by `_`, and `base_name` adds the struct name; nothing else is escaped | namespace `com.my_app`, struct `Point`: the bridge is named `Java_com_my_app_Point_00024PointNative_m`, the same as for namespace `com.my.app`; the JVM looks up `Java_com_my_1app_Point_00024PointNative_m`. Struct `Foo_Bar` in `com.example` misses in the same way | the namespace and struct name mangled as chapter 2 of the Java Native Interface Specification requires (`_` as `_1`), so that every bridge is found and distinct classes get distinct symbols | not executed | JavaClasses.NamespaceEscapeAsWritten | JavaClasses.BaseNameInjective |
| crates/jni-bindgen-macros/src/codegen/java_method.rs:211-213 | the bridge's name ends with the method's camel-case or renamed Java name, unescaped | a method with `rename = "a$b"`: the name `Java_..._a$b` lexes as several tokens and `#[no_mangle] pub extern "system" fn #name` (`java_method.rs:318-319`) does not compile; with `rename = "a"b"` the name fails to lex and the macro returns that error. Either way nothing is exported | the Java name mangled as chapter 2 of the Java Native Interface Specification requires (`$` as `_00024`), so that every name is a Rust identifier and every bridge is built and found whatever its method's name | not executed | JavaClasses.MemberEscapeAsWritten | JavaClasses.EscapedNamesBuild |
