/** Field and method descriptors as sections 4.3.2 and 4.3.3 of the Java Virtual
    Machine Specification define them, with a reader that takes a method
    descriptor apart again. */
module Descriptors {
  import opened Wrappers
  import Strings

  /** The BaseType characters of Table 4.3-A. */
  predicate IsBaseType(c: char) {
    c in {'B', 'C', 'D', 'F', 'I', 'J', 'S', 'Z'}
  }

  /** A binary class name in internal form (section 4.2.1): '/'-separated
      identifiers, none empty, and none of '.', ';' or '['. */
  predicate IsInternalName(s: string) {
    && |s| > 0 && s[0] != '/' && s[|s| - 1] != '/'
    && (forall k :: 0 <= k < |s| ==> s[k] != '.' && s[k] != ';' && s[k] != '[')
    && (forall k :: 0 < k < |s| ==> !(s[k - 1] == '/' && s[k] == '/'))
  }

  /** A class name in source form: '.'-separated identifiers, none empty, and
      none of '/', ';' or '['. */
  predicate IsDottedName(s: string) {
    && |s| > 0 && s[0] != '.' && s[|s| - 1] != '.'
    && (forall k :: 0 <= k < |s| ==> s[k] != '/' && s[k] != ';' && s[k] != '[')
    && (forall k :: 0 < k < |s| ==> !(s[k - 1] == '.' && s[k] == '.'))
  }

  /** FieldDescriptor: a BaseType, an ObjectType `L ClassName ;`, or an ArrayType. */
  predicate IsFieldDescriptor(d: string)
    decreases |d|
  {
    || (|d| == 1 && IsBaseType(d[0]))
    || (|d| >= 3 && d[0] == 'L' && d[|d| - 1] == ';' && IsInternalName(d[1..|d| - 1]))
    || (|d| >= 2 && d[0] == '[' && IsFieldDescriptor(d[1..]))
  }

  /** ReturnDescriptor: a FieldDescriptor or VoidDescriptor `V`. */
  predicate IsReturnDescriptor(d: string) {
    d == "V" || IsFieldDescriptor(d)
  }

  /** The ObjectType descriptor of a class given in source form. */
  function ObjectDescriptor(dotted: string): string {
    "L" + Strings.Replace(dotted, '.', '/') + ";"
  }

  /** Turning a source-form name into internal form gives a valid ObjectType. */
  lemma ObjectDescriptorValid(dotted: string)
    requires IsDottedName(dotted)
    ensures IsFieldDescriptor(ObjectDescriptor(dotted))
  {
    var d := ObjectDescriptor(dotted);
    var n := Strings.Replace(dotted, '.', '/');
    assert d[1..|d| - 1] == n;
    assert forall k :: 0 < k < |n| ==> !(n[k - 1] == '/' && n[k] == '/') by {
      forall k | 0 < k < |n| ensures !(n[k - 1] == '/' && n[k] == '/') {
        assert !(dotted[k - 1] == '.' && dotted[k] == '.');
      }
    }
  }

  /** `L`, a valid internal name and `;` form an ObjectType descriptor. */
  lemma ReferenceDescriptorValid(internal: string)
    requires IsInternalName(internal)
    ensures IsFieldDescriptor("L" + internal + ";")
  {
    var d := "L" + internal + ";";
    assert d[1..|d| - 1] == internal;
  }

  /** The JDK classes the generated code names are valid internal names. */
  lemma JdkClassNames()
    ensures IsInternalName("java/lang/String") && IsInternalName("java/lang/Object")
    ensures IsInternalName("java/util/List") && IsInternalName("java/util/Map")
  {
    LangClassNames();
    UtilClassNames();
  }

  lemma LangClassNames()
    ensures IsInternalName("java/lang/String") && IsInternalName("java/lang/Object")
  {
  }

  lemma UtilClassNames()
    ensures IsInternalName("java/util/List") && IsInternalName("java/util/Map")
  {
  }

  /** The box classes of the eight primitive types are valid internal names. */
  lemma BoxedClassNames()
    ensures IsInternalName("java/lang/Integer") && IsInternalName("java/lang/Long")
    ensures IsInternalName("java/lang/Boolean") && IsInternalName("java/lang/Float")
    ensures IsInternalName("java/lang/Double") && IsInternalName("java/lang/Short")
    ensures IsInternalName("java/lang/Character") && IsInternalName("java/lang/Byte")
  {
    IntegralBoxNames();
    OtherBoxNames();
  }

  lemma IntegralBoxNames()
    ensures IsInternalName("java/lang/Integer") && IsInternalName("java/lang/Long")
    ensures IsInternalName("java/lang/Short") && IsInternalName("java/lang/Byte")
  {
  }

  lemma OtherBoxNames()
    ensures IsInternalName("java/lang/Boolean") && IsInternalName("java/lang/Float")
    ensures IsInternalName("java/lang/Double") && IsInternalName("java/lang/Character")
  {
  }

  /** `MethodDescriptor: ( {ParameterDescriptor} ) ReturnDescriptor` */
  function MethodDescriptor(params: seq<string>, ret: string): string {
    "(" + Strings.Join(params, "") + ")" + ret
  }

  /** Index of the first `c` in `s`, or |s| when there is none. */
  function IndexOf(s: string, c: char): (r: nat)
    ensures r <= |s|
    decreases |s|
  {
    if |s| == 0 || s[0] == c then 0 else 1 + IndexOf(s[1..], c)
  }

  lemma {:induction false} IndexOfFirst(s: string, c: char, j: nat)
    requires j < |s| && s[j] == c
    requires forall k :: 0 <= k < j ==> s[k] != c
    ensures IndexOf(s, c) == j
    decreases j
  {
    if j > 0 {
      IndexOfFirst(s[1..], c, j - 1);
    }
  }

  /** Reads one FieldDescriptor off the front of `s`. */
  function ParseField(s: string): (r: Option<(string, string)>)
    ensures r.Some? ==> |r.value.1| < |s| && r.value.0 + r.value.1 == s
    decreases |s|
  {
    if |s| == 0 then None
    else if IsBaseType(s[0]) then Some((s[..1], s[1..]))
    else if s[0] == 'L' then
      var i := IndexOf(s, ';');
      if i == |s| then None else Some((s[..i + 1], s[i + 1..]))
    else if s[0] == '[' then
      match ParseField(s[1..])
      case None => None
      case Some((d, rest)) => Some(("[" + d, rest))
    else None
  }

  /** Reads FieldDescriptors up to the closing parenthesis. */
  function ParseParams(s: string): Option<(seq<string>, string)>
    decreases |s|
  {
    if |s| == 0 then None
    else if s[0] == ')' then Some(([], s[1..]))
    else
      match ParseField(s)
      case None => None
      case Some((d, rest)) =>
        match ParseParams(rest)
        case None => None
        case Some((ds, ret)) => Some(([d] + ds, ret))
  }

  /** Splits a method descriptor into its parameter descriptors and its return
      descriptor. */
  function ParseMethod(s: string): (r: Option<(seq<string>, string)>)
    ensures r.Some? ==> IsReturnDescriptor(r.value.1)
  {
    if |s| > 0 && s[0] == '(' then
      match ParseParams(s[1..])
      case None => None
      case Some((ps, ret)) => if IsReturnDescriptor(ret) then Some((ps, ret)) else None
    else None
  }

  /** A FieldDescriptor is read back exactly, whatever follows it. */
  lemma {:induction false} ParseFieldPrefix(d: string, rest: string)
    requires IsFieldDescriptor(d)
    ensures ParseField(d + rest) == Some((d, rest))
    decreases |d|
  {
    var s := d + rest;
    if |d| == 1 && IsBaseType(d[0]) {
      assert s[..1] == d && s[1..] == rest;
    } else if |d| >= 3 && d[0] == 'L' && d[|d| - 1] == ';' && IsInternalName(d[1..|d| - 1]) {
      assert !IsBaseType('L');
      var name := d[1..|d| - 1];
      forall k | 0 <= k < |d| - 1 ensures s[k] != ';' {
        if k > 0 {
          assert s[k] == name[k - 1];
        }
      }
      IndexOfFirst(s, ';', |d| - 1);
      assert s[..|d|] == d && s[|d|..] == rest;
    } else {
      assert |d| >= 2 && d[0] == '[' && IsFieldDescriptor(d[1..]);
      assert !IsBaseType('[');
      ParseFieldPrefix(d[1..], rest);
      assert s[1..] == d[1..] + rest;
      assert "[" + d[1..] == d;
    }
  }

  lemma JoinEmptyCons(ps: seq<string>)
    requires |ps| > 0
    ensures Strings.Join(ps, "") == ps[0] + Strings.Join(ps[1..], "")
  {
    if |ps| == 1 {
      assert Strings.Join(ps[1..], "") == "";
    }
  }

  lemma {:induction false} ParseParamsJoin(ps: seq<string>, tail: string)
    requires forall i :: 0 <= i < |ps| ==> IsFieldDescriptor(ps[i])
    ensures ParseParams(Strings.Join(ps, "") + ")" + tail) == Some((ps, tail))
    decreases |ps|
  {
    var s := Strings.Join(ps, "") + ")" + tail;
    if |ps| == 0 {
      assert s == ")" + tail;
    } else {
      JoinEmptyCons(ps);
      var more := Strings.Join(ps[1..], "") + ")" + tail;
      assert s == ps[0] + more;
      ParseFieldPrefix(ps[0], more);
      assert s[0] == ps[0][0];
      assert ps[0][0] != ')';
      ParseParamsJoin(ps[1..], tail);
      assert [ps[0]] + ps[1..] == ps;
    }
  }

  /** A method descriptor built from valid parts reads back into exactly those
      parts: the concatenation of parameter descriptors is unambiguous. */
  lemma ParseMethodDescriptor(ps: seq<string>, ret: string)
    requires forall i :: 0 <= i < |ps| ==> IsFieldDescriptor(ps[i])
    requires IsReturnDescriptor(ret)
    ensures ParseMethod(MethodDescriptor(ps, ret)) == Some((ps, ret))
  {
    var m := MethodDescriptor(ps, ret);
    assert m[1..] == Strings.Join(ps, "") + ")" + ret;
    ParseParamsJoin(ps, ret);
  }
}
