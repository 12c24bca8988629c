/** The Java base class of every exported struct
    (java/JNIBindgen/src/main/java/com/github/markusjx/jnibindgen/NativeClass.java):
    it holds the native handle `ptr`, runs the subclass's `destruct` when the
    handle is released and clears the handle, so that `destruct` runs at most
    once however often the object is released. */
module NativeClasses {
  import opened Wrappers

  /** The message of the exception `destroyNative` throws on a released object. */
  const AlreadyDestroyed := "Native object already destroyed"

  /** The state of an object: its handle and how often `destruct` has run. */
  datatype State = State(ptr: int, destructs: nat)

  /** The operations that change the state: `dropNative`, which the
      destructor thread also runs, and `destroyNative`. */
  datatype Op = Drop | Destroy

  /** `isValid`: the handle is not 0. */
  predicate Valid(s: State) {
    s.ptr != 0
  }

  /** The state after an operation: a valid object runs `destruct` once and
      clears its handle; a released one stays as it is. */
  function Step(s: State, op: Op): (r: State)
    ensures Valid(s) ==> r == State(0, s.destructs + 1)
    ensures !Valid(s) ==> r == s
  {
    if s.ptr != 0 then State(0, s.destructs + 1) else s
  }

  /** What `destroyNative` reports: an IllegalStateException on a released
      object. */
  function DestroyOutcome(s: State): (r: Result<(), string>)
    ensures r.Err? <==> !Valid(s)
    ensures r.Err? ==> r.error == AlreadyDestroyed
  {
    if s.ptr == 0 then Err(AlreadyDestroyed) else Ok(())
  }

  /** The state after a sequence of operations. */
  function Run(s: State, ops: seq<Op>): State
    decreases |ops|
  {
    if |ops| == 0 then s else Run(Step(s, ops[0]), ops[1..])
  }

  /** `destruct` has run at most once, and only on an object that is no
      longer valid. */
  predicate AtMostOnce(s: State) {
    s.destructs <= 1 && (s.destructs == 1 ==> s.ptr == 0)
  }

  /** However the object is released, and however often, `destruct` runs at
      most once: every sequence of operations keeps `AtMostOnce`. */
  lemma {:induction false} RunAtMostOnce(s: State, ops: seq<Op>)
    requires AtMostOnce(s)
    ensures AtMostOnce(Run(s, ops))
    decreases |ops|
  {
    if |ops| > 0 {
      RunAtMostOnce(Step(s, ops[0]), ops[1..]);
    }
  }

  /** Starting from a fresh object, `destruct` runs exactly once when the
      handle was not 0 and the object was released at least once, and never
      otherwise; afterwards the handle is 0 if it was released at all. */
  lemma {:induction false} RunFromFresh(p: int, ops: seq<Op>)
    ensures Run(State(p, 0), ops).destructs == (if p != 0 && |ops| > 0 then 1 else 0)
    ensures Run(State(p, 0), ops).ptr == (if |ops| > 0 then 0 else p)
  {
    if |ops| > 0 {
      var s := Step(State(p, 0), ops[0]);
      ReleasedStays(s, ops[1..]);
    }
  }

  /** A released object is left alone by every further operation. */
  lemma {:induction false} ReleasedStays(s: State, ops: seq<Op>)
    requires !Valid(s)
    ensures Run(s, ops) == s
    decreases |ops|
  {
    if |ops| > 0 {
      ReleasedStays(Step(s, ops[0]), ops[1..]);
    }
  }

  /** `NativeClass`: `ptr` is the handle of the Rust value; `destructs`
      counts the runs of the subclass's `destruct`. */
  class NativeClass {
    var ptr: int
    ghost var destructs: nat

    ghost function Current(): State
      reads this
    {
      State(ptr, destructs)
    }

    ghost predicate Inv()
      reads this
    {
      AtMostOnce(Current())
    }

    /** `NativeClass(ptr, referent)`: the handle is the one given; the
        registration with the destructor thread is not modelled. */
    constructor(ptr: int)
      ensures this.ptr == ptr && destructs == 0
      ensures Inv()
    {
      this.ptr := ptr;
      destructs := 0;
    }

    /** `isValid`. */
    method IsValid() returns (b: bool)
      ensures b <==> Valid(Current())
    {
      b := ptr != 0;
    }

    /** `getPtr`: the current handle, 0 once released. */
    method GetPtr() returns (p: int)
      ensures p == ptr
      ensures p == 0 <==> !Valid(Current())
    {
      p := ptr;
    }

    /** The subclass's `destruct`: frees the Rust value behind the handle. */
    method Destruct()
      modifies this
      ensures destructs == old(destructs) + 1 && ptr == old(ptr)
    {
      destructs := destructs + 1;
    }

    /** `dropNative`: on a valid object, `destruct` and then clear the handle;
        otherwise nothing. */
    method DropNative()
      modifies this
      ensures Current() == Step(old(Current()), Drop)
      ensures old(Inv()) ==> Inv()
    {
      var valid := IsValid();
      if valid {
        Destruct();
        ptr := 0;
      }
    }

    /** `destroyNative`: an IllegalStateException on a released object;
        otherwise the destructor runs `dropNative`. */
    method DestroyNative() returns (r: Result<(), string>)
      modifies this
      ensures r == DestroyOutcome(old(Current()))
      ensures Current() == Step(old(Current()), Destroy)
      ensures old(Inv()) ==> Inv()
    {
      var valid := IsValid();
      if !valid {
        return Err(AlreadyDestroyed);
      }
      DropNative();
      return Ok(());
    }
  }
}
