/** The per-argument pieces of a bridge function and their three ordered joins
    (crates/jni-bindgen-macros/src/util/method.rs). */
module MethodVec {
  import Strings

  /** One bridge argument: the name passed to the user function, the parameter
      declaration and the conversion statement, each as printed text. */
  datatype Method = Method(argName: string, jArg: string, argGetter: string)

  function JArgs(ms: seq<Method>): (r: seq<string>)
    ensures |r| == |ms| && forall i :: 0 <= i < |ms| ==> r[i] == ms[i].jArg
  {
    seq(|ms|, i requires 0 <= i < |ms| => ms[i].jArg)
  }

  function ArgNames(ms: seq<Method>): (r: seq<string>)
    ensures |r| == |ms| && forall i :: 0 <= i < |ms| ==> r[i] == ms[i].argName
  {
    seq(|ms|, i requires 0 <= i < |ms| => ms[i].argName)
  }

  function ArgGetterTexts(ms: seq<Method>): (r: seq<string>)
    ensures |r| == |ms| && forall i :: 0 <= i < |ms| ==> r[i] == ms[i].argGetter
  {
    seq(|ms|, i requires 0 <= i < |ms| => ms[i].argGetter)
  }

  /** `java_args`: parameter declarations joined by ", " */
  function JavaArgs(ms: seq<Method>): string {
    Strings.Join(JArgs(ms), ", ")
  }

  /** `call_args`: argument names joined by ", " */
  function CallArgs(ms: seq<Method>): string {
    Strings.Join(ArgNames(ms), ", ")
  }

  /** `arg_getters`: conversion statements joined by "\n" */
  function ArgGetters(ms: seq<Method>): string {
    Strings.Join(ArgGetterTexts(ms), "\n")
  }

  /** The i-th parameter declaration sits at the i-th slot of `java_args`. */
  lemma JavaArgsAt(ms: seq<Method>, i: nat)
    requires i < |ms|
    ensures Strings.Offset(JArgs(ms), ", ", i) + |ms[i].jArg| <= |JavaArgs(ms)|
    ensures JavaArgs(ms)[Strings.Offset(JArgs(ms), ", ", i)..][..|ms[i].jArg|] == ms[i].jArg
  {
    Strings.JoinAt(JArgs(ms), ", ", i);
  }

  /** The i-th argument name sits at the i-th slot of `call_args`. */
  lemma CallArgsAt(ms: seq<Method>, i: nat)
    requires i < |ms|
    ensures Strings.Offset(ArgNames(ms), ", ", i) + |ms[i].argName| <= |CallArgs(ms)|
    ensures CallArgs(ms)[Strings.Offset(ArgNames(ms), ", ", i)..][..|ms[i].argName|] == ms[i].argName
  {
    Strings.JoinAt(ArgNames(ms), ", ", i);
  }

  /** The i-th conversion sits at the i-th slot of `arg_getters`. */
  lemma ArgGettersAt(ms: seq<Method>, i: nat)
    requires i < |ms|
    ensures Strings.Offset(ArgGetterTexts(ms), "\n", i) + |ms[i].argGetter| <= |ArgGetters(ms)|
    ensures ArgGetters(ms)[Strings.Offset(ArgGetterTexts(ms), "\n", i)..][..|ms[i].argGetter|] == ms[i].argGetter
  {
    Strings.JoinAt(ArgGetterTexts(ms), "\n", i);
  }
}
