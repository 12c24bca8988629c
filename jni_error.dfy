/** Runtime errors and the Java exceptions they become
    (crates/jni-bindgen/src/errors/jni_error.rs). */
module JniError {
  import opened Wrappers

  /** The exception class an error is thrown as. */
  datatype ErrorClass =
    | NullPointer
    | IllegalArgument
    | IllegalState
    | UnsupportedOperation
    | Runtime
    | Exception
    | NoSuchMethod
    | NoSuchField
    | NativeExecutionException
    | Any(className: string)

  /** `ErrorClass::default()` */
  function DefaultClass(): ErrorClass { Runtime }

  /** `into_error_class`: the JVM internal name of the class. */
  function ClassName(c: ErrorClass): (r: string)
    ensures c.Any? ==> r == c.className
  {
    match c
    case NullPointer => "java/lang/NullPointerException"
    case IllegalArgument => "java/lang/IllegalArgumentException"
    case IllegalState => "java/lang/IllegalStateException"
    case UnsupportedOperation => "java/lang/UnsupportedOperationException"
    case Runtime => "java/lang/RuntimeException"
    case Exception => "java/lang/Exception"
    case NoSuchMethod => "java/lang/NoSuchMethodException"
    case NoSuchField => "java/lang/NoSuchFieldException"
    case NativeExecutionException => "com/github/markusjx/jnibindgen/NativeExecutionException"
    case Any(s) => s
  }

  /** The errors of the `jni` crate, by kind; `text` is how they display. */
  datatype JniErrorKind =
    | MethodNotFound
    | JavaVMMethodNotFound
    | JNIEnvMethodNotFound
    | NullPtr
    | NullDeref
    | FieldNotFound
    | InvalidArgList
    | OtherKind(kindName: string)

  datatype JniCrateError = JniCrateError(kind: JniErrorKind, text: string)

  /** `From<jni::errors::Error> for ErrorClass` */
  function ClassOfKind(k: JniErrorKind): (r: ErrorClass)
    ensures r in {NoSuchMethod, NullPointer, NoSuchField, IllegalArgument, Runtime}
    ensures r == NoSuchMethod <==> k in {MethodNotFound, JavaVMMethodNotFound, JNIEnvMethodNotFound}
    ensures r == NullPointer <==> k in {NullPtr, NullDeref}
    ensures r == NoSuchField <==> k == FieldNotFound
    ensures r == IllegalArgument <==> k == InvalidArgList
    ensures r == Runtime <==> k.OtherKind?
  {
    match k
    case MethodNotFound | JavaVMMethodNotFound | JNIEnvMethodNotFound => NoSuchMethod
    case NullPtr | NullDeref => NullPointer
    case FieldNotFound => NoSuchField
    case InvalidArgList => IllegalArgument
    case OtherKind(_) => Runtime
  }

  /** `JNIError { message, class }` */
  datatype JNIError = JNIError(message: string, errorClass: Option<ErrorClass>)

  /** `JNIError::new` */
  function New(message: string, errorClass: Option<ErrorClass>): (r: JNIError)
    ensures r.message == message && r.errorClass == errorClass
  {
    JNIError(message, errorClass)
  }

  /** `JNIError::runtime_error`: no class, so it is thrown with the default class. */
  function RuntimeError(message: string): (r: JNIError)
    ensures r.message == message && ThrownClass(r) == "java/lang/RuntimeException"
  {
    New(message, None)
  }

  /** `or_class`: fills in `c` only when no class is set. */
  function OrClass(e: JNIError, c: ErrorClass): (r: JNIError)
    ensures r.message == e.message
    ensures e.errorClass.Some? ==> r.errorClass == e.errorClass
    ensures e.errorClass.None? ==> r.errorClass == Some(c)
  {
    if e.errorClass.None? then e.(errorClass := Some(c)) else e
  }

  /** The first class set wins: a second `or_class` changes nothing. */
  lemma OrClassIdempotent(e: JNIError, c1: ErrorClass, c2: ErrorClass)
    ensures OrClass(OrClass(e, c1), c2) == OrClass(e, c1)
  {
  }

  /** The class name `throw` raises: the error's class, else the default. */
  function ThrownClass(e: JNIError): (r: string)
    ensures e.errorClass.None? ==> r == "java/lang/RuntimeException"
    ensures e.errorClass.Some? ==> r == ClassName(e.errorClass.value)
  {
    ClassName(e.errorClass.GetOr(DefaultClass()))
  }

  /** `Display`: exactly the message. */
  function Display(e: JNIError): (r: string)
    ensures r == e.message
  {
    e.message
  }

  /** `From<String>`, `From<&str>` and `From<anyhow::Error>`: the message is kept,
      no class is set. */
  function FromMessage(message: string): (r: JNIError)
    ensures r.message == message && r.errorClass.None?
  {
    New(message, None)
  }

  /** `From<jni::errors::Error>`: the displayed text, and the class of its kind. */
  function FromJniCrate(e: JniCrateError): (r: JNIError)
    ensures r.message == e.text && r.errorClass == Some(ClassOfKind(e.kind))
  {
    New(e.text, Some(ClassOfKind(e.kind)))
  }

  /** A pending Java exception: its class name and message. */
  datatype Thrown = Thrown(className: string, message: string)

  /** The part of the JNI environment the runtime touches: at most one pending
      exception. */
  class Env {
    var pending: Option<Thrown>

    constructor ()
      ensures pending.None?
    {
      pending := None;
    }

    /** `env.throw_new(class, message)`; the result is ignored by every caller. */
    method ThrowNew(className: string, message: string)
      modifies this
      ensures pending == Some(Thrown(className, message))
    {
      pending := Some(Thrown(className, message));
    }

    /** `env.exception_check()` */
    function ExceptionCheck(): bool
      reads this
    {
      pending.Some?
    }
  }

  /** `JNIError::throw` */
  method Throw(e: JNIError, env: Env)
    modifies env
    ensures env.pending == Some(Thrown(ThrownClass(e), e.message))
  {
    var cls := e.errorClass.GetOr(DefaultClass());
    env.ThrowNew(ClassName(cls), e.message);
  }

  /** A message-only error, once `or_class(c)` ran, is thrown as `c`; an error that
      already had a class keeps it. */
  lemma ThrownAfterOrClass(e: JNIError, c: ErrorClass)
    ensures ThrownClass(OrClass(e, c)) == if e.errorClass.Some? then ClassName(e.errorClass.value) else ClassName(c)
  {
  }
}
