/** `into_jni_result` and the error-building macros
    (crates/jni-bindgen/src/errors/result.rs). */
module ResultMacros {
  import opened Wrappers
  import opened JniError
  import JavaTypes

  /** The error types user code hands to `into_jni_result`, each with its
      `Into<JNIError>` conversion. */
  datatype SourceError =
    | Message(text: string)          // String or &str
    | Anyhow(text: string)           // anyhow::Error, by its display text
    | JniCrate(err: JniCrateError)   // jni::errors::Error
    | Native(native: JNIError)       // already a JNIError

  function IntoJNIError(e: SourceError): (r: JNIError)
    ensures e.Message? || e.Anyhow? ==> r == JNIError(e.text, None)
    ensures e.JniCrate? ==> r.message == e.err.text && r.errorClass == Some(ClassOfKind(e.err.kind))
    ensures e.Native? ==> r == e.native
  {
    match e
    case Message(t) => FromMessage(t)
    case Anyhow(t) => FromMessage(t)
    case JniCrate(x) => FromJniCrate(x)
    case Native(x) => x
  }

  /** `into_jni_result`: the value is untouched, only the error is converted. */
  function IntoJniResult<T>(r: Result<T, SourceError>): (out: Result<T, JNIError>)
    ensures out.Ok? <==> r.Ok?
    ensures r.Ok? ==> out.value == r.value
    ensures r.Err? ==> out.error == IntoJNIError(r.error)
  {
    match r
    case Ok(v) => Ok(v)
    case Err(e) => Err(IntoJNIError(e))
  }

  /** `error!(...)`: a message-only error, thrown as java/lang/RuntimeException. */
  function Error(message: string): (r: JNIError)
    ensures r.message == message && r.errorClass.None?
    ensures ThrownClass(r) == "java/lang/RuntimeException"
  {
    New(message, None)
  }

  /** `error_class!(cls, ...)` */
  function ErrorWithClass(cls: ErrorClass, message: string): (r: JNIError)
    ensures r.message == message && r.errorClass == Some(cls)
    ensures ThrownClass(r) == ClassName(cls)
  {
    New(message, Some(cls))
  }

  /** `bail!(...)`: returns an error holding the message and no class, so
      that `throw` raises it as java/lang/RuntimeException. */
  function Bail<T>(message: string): (r: Result<T, JNIError>)
    ensures r.Err? && r.error.message == message && r.error.errorClass.None?
    ensures r.Err? && ThrownClass(r.error) == "java/lang/RuntimeException"
  {
    Err(Error(message))
  }

  /** `bail_class!(cls, ...)`: returns an error holding the message and `cls`,
      so that `throw` raises it as that class. */
  function BailClass<T>(cls: ErrorClass, message: string): (r: Result<T, JNIError>)
    ensures r.Err? && r.error.message == message && r.error.errorClass == Some(cls)
    ensures r.Err? && ThrownClass(r.error) == ClassName(cls)
  {
    Err(ErrorWithClass(cls, message))
  }

  /** A user function body `step?; rest`: the statements of `rest` run only
      when `step` succeeded. */
  function Then(step: Result<(), JNIError>, rest: () -> Result<(), JNIError>): Result<(), JNIError> {
    var _ :- step;
    rest()
  }

  /** A `#[jni]` method whose body starts with `bail!(...)` returns from the
      bridge at once: the rest of the body never runs, the bridge throws the
      message (as NativeExecutionException, which the bridge fills in for a
      classless error; `bail_class!` keeps its class) and returns the
      sentinel; when an exception is already pending, nothing more is thrown. */
  lemma BailReturnsEarly(jt: JavaTypes.JavaType, message: string, cls: ErrorClass,
                         rest: () -> Result<(), JNIError>, pending: bool)
    requires jt.Fallible? && JavaTypes.AsJniReturnVal(jt).Ok?
    ensures var code := JavaTypes.AsJniReturnVal(jt).value;
            var sentinel := JavaTypes.ErrorReturnVal(jt).value;
            && code.ResultCode?
            && JavaTypes.RunResult(code, Then(Bail(message), rest), pending)
               == JavaTypes.EarlyReturn(sentinel,
                    if pending then None
                    else Some(Thrown("com/github/markusjx/jnibindgen/NativeExecutionException", message)))
            && JavaTypes.RunResult(code, Then(BailClass(cls, message), rest), pending)
               == JavaTypes.EarlyReturn(sentinel, if pending then None else Some(Thrown(ClassName(cls), message)))
  {
    JavaTypes.ResultErrorThrown(jt, Error(message));
    JavaTypes.ResultErrorThrown(jt, ErrorWithClass(cls, message));
  }
}
