/** Native method names as chapter 2 of the Java Native Interface Specification
    ("Resolving Native Method Names") defines them: the prefix `Java_`, the
    mangled fully-qualified class name, `_`, and the mangled method name. */
module JniNames {
  import opened Wrappers

  predicate IsDigit(c: char) { '0' <= c <= '9' }

  predicate IsAsciiAlnum(c: char) {
    IsDigit(c) || 'a' <= c <= 'z' || 'A' <= c <= 'Z'
  }

  /** Lower-case hexadecimal digit of a value below 16. */
  function HexDigit(n: nat): char
    requires n < 16
  {
    if n < 10 then ('0' as int + n) as char else ('a' as int + n - 10) as char
  }

  function HexValue(c: char): Option<nat> {
    if IsDigit(c) then Some(c as int - '0' as int)
    else if 'a' <= c <= 'f' then Some(c as int - 'a' as int + 10)
    else None
  }

  lemma HexDigitValue(n: nat)
    requires n < 16
    ensures HexValue(HexDigit(n)) == Some(n)
  {
  }

  /** Four lower-case hexadecimal digits of a UTF-16 code unit. */
  function Hex4(n: nat): (r: string)
    requires n < 0x1_0000
    ensures |r| == 4
  {
    [HexDigit(n / 0x1000), HexDigit(n / 0x100 % 16), HexDigit(n / 16 % 16), HexDigit(n % 16)]
  }

  function ParseHex4(s: string): Option<nat>
    requires |s| == 4
  {
    var a :- HexValue(s[0]);
    var b :- HexValue(s[1]);
    var c :- HexValue(s[2]);
    var d :- HexValue(s[3]);
    Some(a * 0x1000 + b * 0x100 + c * 16 + d)
  }

  lemma DigitsOf(n: nat)
    requires n < 0x1_0000
    ensures n / 0x1000 < 16
    ensures n == n / 0x1000 * 0x1000 + n / 0x100 % 16 * 0x100 + n / 16 % 16 * 16 + n % 16
  {
    var q := n / 16;
    assert n == q * 16 + n % 16;
    var q2 := q / 16;
    assert q == q2 * 16 + q % 16;
    assert q2 == n / 0x100;
    var q3 := q2 / 16;
    assert q2 == q3 * 16 + q2 % 16;
    assert q3 == n / 0x1000;
  }

  lemma ParseHex4Inverse(n: nat)
    requires n < 0x1_0000
    ensures ParseHex4(Hex4(n)) == Some(n)
  {
    DigitsOf(n);
    HexDigitValue(n / 0x1000);
    HexDigitValue(n / 0x100 % 16);
    HexDigitValue(n / 16 % 16);
    HexDigitValue(n % 16);
  }

  /** The escape of one character of a class or method name. Characters outside
      the Basic Multilingual Plane are written as a surrogate pair. */
  function MangleChar(c: char): (r: string)
    ensures |r| > 0
    ensures r[0] == '_' || (r == [c] && IsAsciiAlnum(c))
  {
    if IsAsciiAlnum(c) then [c]
    else if c == '/' then "_"
    else if c == '_' then "_1"
    else if c == ';' then "_2"
    else if c == '[' then "_3"
    else if c as int < 0x1_0000 then "_0" + Hex4(c as int)
    else
      var v := c as int - 0x1_0000;
      "_0" + Hex4(0xD800 + v / 0x400) + "_0" + Hex4(0xDC00 + v % 0x400)
  }

  /** The mangled form of a name in internal form ('/'-separated). */
  function Mangle(s: string): (r: string)
    ensures |s| > 0 ==> |r| > 0 && (r[0] == '_' || (r[0] == s[0] && IsAsciiAlnum(s[0])))
    decreases |s|
  {
    if |s| == 0 then "" else MangleChar(s[0]) + Mangle(s[1..])
  }

  /** Reads a mangled name back; None where no name mangles to it. */
  function Demangle(t: string): (r: Option<string>)
    decreases |t|
  {
    if |t| == 0 then Some("")
    else if t[0] != '_' then
      var rest :- Demangle(t[1..]);
      Some([t[0]] + rest)
    else if |t| >= 2 && t[1] == '1' then
      var rest :- Demangle(t[2..]);
      Some("_" + rest)
    else if |t| >= 2 && t[1] == '2' then
      var rest :- Demangle(t[2..]);
      Some(";" + rest)
    else if |t| >= 2 && t[1] == '3' then
      var rest :- Demangle(t[2..]);
      Some("[" + rest)
    else if |t| >= 6 && t[1] == '0' then
      var v :- ParseHex4(t[2..6]);
      if 0xD800 <= v < 0xE000 then None
      else
        var rest :- Demangle(t[6..]);
        Some([v as char] + rest)
    else
      var rest :- Demangle(t[1..]);
      Some("/" + rest)
  }

  /** Characters the round trip covers: those of the Basic Multilingual Plane. */
  predicate InBmp(s: string) {
    forall k :: 0 <= k < |s| ==> s[k] as int < 0x1_0000
  }

  /** No '/' is followed by a digit: in a class name a package or class
      identifier never starts with one. */
  predicate NoDigitAfterSlash(s: string) {
    forall k :: 0 <= k < |s| - 1 ==> s[k] == '/' ==> !IsDigit(s[k + 1])
  }

  lemma DemangleStep(c: char, rest: string, tail: string)
    requires c as int < 0x1_0000
    requires c == '/' && |rest| > 0 ==> rest[0] == '_' || !IsDigit(rest[0])
    requires Demangle(rest) == Some(tail)
    ensures Demangle(MangleChar(c) + rest) == Some([c] + tail)
  {
    if IsAsciiAlnum(c) {
      DemangleKept(c, rest, tail);
    } else if c == '/' {
      DemangleSlash(rest, tail);
    } else if c == '_' || c == ';' || c == '[' {
      DemangleEscape(c, rest, tail);
    } else {
      DemangleHex(c, rest, tail);
    }
  }

  lemma DemangleKept(c: char, rest: string, tail: string)
    requires IsAsciiAlnum(c)
    requires Demangle(rest) == Some(tail)
    ensures Demangle(MangleChar(c) + rest) == Some([c] + tail)
  {
    var t := [c] + rest;
    assert MangleChar(c) + rest == t;
    assert t[0] != '_' && t[1..] == rest;
  }

  lemma DemangleSlash(rest: string, tail: string)
    requires |rest| > 0 ==> rest[0] == '_' || !IsDigit(rest[0])
    requires Demangle(rest) == Some(tail)
    ensures Demangle(MangleChar('/') + rest) == Some("/" + tail)
  {
    assert MangleChar('/') == "_";
    var t := "_" + rest;
    assert t[1..] == rest;
    if |t| >= 2 {
      assert t[1] == rest[0];
      assert t[1] !in "0123";
    }
    assert Demangle(t) == Some("/" + tail);
  }

  lemma DemangleEscape(c: char, rest: string, tail: string)
    requires c == '_' || c == ';' || c == '['
    requires Demangle(rest) == Some(tail)
    ensures Demangle(MangleChar(c) + rest) == Some([c] + tail)
  {
    var t := MangleChar(c) + rest;
    assert |MangleChar(c)| == 2;
    assert t[2..] == rest;
  }

  lemma DemangleHex(c: char, rest: string, tail: string)
    requires c as int < 0x1_0000 && !IsAsciiAlnum(c) && c !in "/_;["
    requires Demangle(rest) == Some(tail)
    ensures Demangle(MangleChar(c) + rest) == Some([c] + tail)
  {
    var h := Hex4(c as int);
    var t := "_0" + h + rest;
    assert MangleChar(c) + rest == t;
    assert t[2..6] == h && t[6..] == rest;
    ParseHex4Inverse(c as int);
  }

  /** Mangling is undone by `Demangle`: distinct names get distinct mangled
      forms. */
  lemma {:induction false} DemangleMangle(s: string)
    requires InBmp(s) && NoDigitAfterSlash(s)
    ensures Demangle(Mangle(s)) == Some(s)
    decreases |s|
  {
    if |s| > 0 {
      assert InBmp(s[1..]) && NoDigitAfterSlash(s[1..]) by {
        assert forall k :: 0 <= k < |s| - 1 ==> s[1..][k] == s[k + 1];
      }
      DemangleMangle(s[1..]);
      if s[0] == '/' && |s| > 1 {
        assert !IsDigit(s[1]);
      }
      DemangleStep(s[0], Mangle(s[1..]), s[1..]);
      assert [s[0]] + s[1..] == s;
    }
  }

  lemma MangleInjective(a: string, b: string)
    requires InBmp(a) && NoDigitAfterSlash(a)
    requires InBmp(b) && NoDigitAfterSlash(b)
    requires Mangle(a) == Mangle(b)
    ensures a == b
  {
    DemangleMangle(a);
    DemangleMangle(b);
  }

  lemma {:induction false} MangleConcat(a: string, b: string)
    ensures Mangle(a + b) == Mangle(a) + Mangle(b)
    decreases |a|
  {
    if |a| > 0 {
      assert (a + b)[0] == a[0] && (a + b)[1..] == a[1..] + b;
      MangleConcat(a[1..], b);
      calc {
        Mangle(a + b);
        MangleChar(a[0]) + Mangle(a[1..] + b);
        MangleChar(a[0]) + (Mangle(a[1..]) + Mangle(b));
        (MangleChar(a[0]) + Mangle(a[1..])) + Mangle(b);
      }
    } else {
      assert a + b == b;
    }
  }

  /** The short native method name `Java_<class>_<method>` of a class given in
      internal form. */
  function ShortSymbol(cls: string, member: string): string {
    "Java_" + Mangle(cls) + "_" + Mangle(member)
  }

  /** A class and method whose names the JVM can spell. */
  predicate ValidPair(cls: string, member: string) {
    InBmp(cls + "/" + member) && NoDigitAfterSlash(cls + "/" + member) && '/' !in member
  }

  lemma SymbolAsMangled(cls: string, member: string)
    ensures ShortSymbol(cls, member) == "Java_" + Mangle(cls + "/" + member)
  {
    MangleSlash(member);
    MangleConcat(cls, "/" + member);
    assert cls + "/" + member == cls + ("/" + member);
    Regroup("Java_", Mangle(cls), "_", Mangle(member));
  }

  /** The separator '/' mangles to a single underscore. */
  lemma MangleSlash(member: string)
    ensures Mangle("/" + member) == "_" + Mangle(member)
  {
    var t := "/" + member;
    assert t[0] == '/' && t[1..] == member;
    assert MangleChar('/') == "_";
  }

  lemma Regroup(p: string, a: string, b: string, c: string)
    ensures p + a + b + c == p + (a + (b + c))
  {
  }

  /** A path whose last component has no '/' splits uniquely at its last '/'. */
  lemma LastSlash(a1: string, m1: string, a2: string, m2: string)
    requires '/' !in m1 && '/' !in m2
    requires a1 + "/" + m1 == a2 + "/" + m2
    ensures a1 == a2 && m1 == m2
  {
    var x := a1 + "/" + m1;
    SlashInside(a1, m1, a2, m2);
    SlashInside(a2, m2, a1, m1);
    if |m1| < |m2| {
      assert false;
    } else if |m2| < |m1| {
      assert false;
    }
    assert m1 == x[|x| - |m1|..];
    assert m2 == x[|x| - |m2|..];
    assert a1 == x[..|a1|];
    assert a2 == x[..|a2|];
  }

  /** When the second last component is longer, the first separator falls inside it. */
  lemma SlashInside(a1: string, m1: string, a2: string, m2: string)
    ensures a1 + "/" + m1 == a2 + "/" + m2 && |m1| < |m2| ==> '/' in m2
  {
    if a1 + "/" + m1 == a2 + "/" + m2 && |m1| < |m2| {
      var x := a1 + "/" + m1;
      var k := |m2| - |m1| - 1;
      assert x[|a1|] == '/';
      assert x[|a2| + 1 + k] == m2[k];
      assert m2[k] in m2;
    }
  }

  /** Distinct native methods get distinct symbols. */
  lemma ShortSymbolInjective(c1: string, m1: string, c2: string, m2: string)
    requires ValidPair(c1, m1) && ValidPair(c2, m2)
    requires ShortSymbol(c1, m1) == ShortSymbol(c2, m2)
    ensures c1 == c2 && m1 == m2
  {
    SymbolAsMangled(c1, m1);
    SymbolAsMangled(c2, m2);
    var p := "Java_";
    assert Mangle(c1 + "/" + m1) == ShortSymbol(c1, m1)[|p|..];
    assert Mangle(c2 + "/" + m2) == ShortSymbol(c2, m2)[|p|..];
    MangleInjective(c1 + "/" + m1, c2 + "/" + m2);
    LastSlash(c1, m1, c2, m2);
  }
}
