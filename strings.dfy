/** String helpers used by the code generator: joining, character replacement,
    whitespace trimming (Rust's `str::trim`) and the snake-to-camel conversion that
    the generator delegates to the `convert_case` crate. */
module Strings {

  /** `parts.join(sep)` */
  function Join(parts: seq<string>, sep: string): string
    decreases |parts|
  {
    if |parts| == 0 then ""
    else if |parts| == 1 then parts[0]
    else parts[0] + sep + Join(parts[1..], sep)
  }

  /** Position at which `parts[i]` starts inside `Join(parts, sep)`. */
  function Offset(parts: seq<string>, sep: string, i: nat): nat
    requires i <= |parts|
    decreases i
  {
    if i == 0 then 0 else Offset(parts, sep, i - 1) + |parts[i - 1]| + |sep|
  }

  /** Every part sits, in order, at its offset inside the joined string: the i-th
      entry of the joined text is the i-th element of the list. */
  lemma {:induction false} JoinAt(parts: seq<string>, sep: string, i: nat)
    requires i < |parts|
    ensures Offset(parts, sep, i) + |parts[i]| <= |Join(parts, sep)|
    ensures Join(parts, sep)[Offset(parts, sep, i)..Offset(parts, sep, i) + |parts[i]|] == parts[i]
    decreases i
  {
    if i == 0 {
      if |parts| > 1 {
        assert Join(parts, sep) == parts[0] + (sep + Join(parts[1..], sep));
      }
    } else {
      var tail := parts[1..];
      JoinAt(tail, sep, i - 1);
      OffsetShift(parts, sep, i);
      var j := Join(tail, sep);
      assert Join(parts, sep) == (parts[0] + sep) + j;
      var o := Offset(tail, sep, i - 1);
      assert Offset(parts, sep, i) == |parts[0] + sep| + o;
      assert tail[i - 1] == parts[i];
    }
  }

  lemma {:induction false} OffsetShift(parts: seq<string>, sep: string, i: nat)
    requires 0 < i <= |parts|
    ensures Offset(parts, sep, i) == |parts[0]| + |sep| + Offset(parts[1..], sep, i - 1)
    decreases i
  {
    if i > 1 {
      OffsetShift(parts, sep, i - 1);
    }
  }

  /** Joining one more part appends the separator and the part. */
  lemma {:induction false} JoinSnoc(parts: seq<string>, last: string, sep: string)
    ensures Join(parts + [last], sep) == if |parts| == 0 then last else Join(parts, sep) + sep + last
    decreases |parts|
  {
    if |parts| == 0 {
      assert parts + [last] == [last];
    } else if |parts| == 1 {
      assert (parts + [last])[1..] == [last];
    } else {
      assert (parts + [last])[1..] == parts[1..] + [last];
      JoinSnoc(parts[1..], last, sep);
    }
  }

  /** Splits `s` at every occurrence of the character `c`; never empty. */
  function Split(s: string, c: char): (r: seq<string>)
    ensures |r| >= 1
    decreases |s|
  {
    if |s| == 0 then [""]
    else if s[0] == c then [""] + Split(s[1..], c)
    else
      var rest := Split(s[1..], c);
      [[s[0]] + rest[0]] + rest[1..]
  }

  lemma {:induction false} SplitNoSeparator(a: string, c: char)
    requires c !in a
    ensures Split(a, c) == [a]
    decreases |a|
  {
    if |a| > 0 {
      SplitNoSeparator(a[1..], c);
      assert [a[0]] + a[1..] == a;
    }
  }

  lemma {:induction false} SplitPrefix(a: string, c: char, b: string)
    requires c !in a
    ensures Split(a + [c] + b, c) == [a] + Split(b, c)
    decreases |a|
  {
    var s := a + [c] + b;
    if |a| == 0 {
      assert s[0] == c && s[1..] == b;
    } else {
      assert s[0] == a[0] && s[1..] == a[1..] + [c] + b;
      SplitPrefix(a[1..], c, b);
      assert [a[0]] + a[1..] == a;
    }
  }

  /** Joining with a one-character separator that no part contains, then splitting
      at that character, gives the parts back. */
  lemma {:induction false} SplitJoin(parts: seq<string>, c: char)
    requires |parts| >= 1
    requires forall i :: 0 <= i < |parts| ==> c !in parts[i]
    ensures Split(Join(parts, [c]), c) == parts
    decreases |parts|
  {
    if |parts| == 1 {
      SplitNoSeparator(parts[0], c);
    } else {
      SplitJoin(parts[1..], c);
      SplitPrefix(parts[0], c, Join(parts[1..], [c]));
      assert [parts[0]] + parts[1..] == parts;
    }
  }

  /** `s.replace(from, to)` for single characters. */
  function Replace(s: string, from: char, to: char): (r: string)
    ensures |r| == |s|
    ensures forall i :: 0 <= i < |s| ==> r[i] == if s[i] == from then to else s[i]
  {
    seq(|s|, i requires 0 <= i < |s| => if s[i] == from then to else s[i])
  }

  predicate IsPrefix(p: string, s: string) {
    |p| <= |s| && s[..|p|] == p
  }

  /** A string is a prefix of itself followed by anything. */
  lemma PrefixOf(p: string, x: string)
    ensures IsPrefix(p, p + x)
  {
    assert (p + x)[..|p|] == p;
  }

  /** A string that differs from `p` at a position both have does not start with `p`. */
  lemma NotPrefixAt(p: string, t: string, k: nat)
    requires k < |p| && k < |t| && t[k] != p[k]
    ensures !IsPrefix(p, t)
  {
    assert |p| <= |t| ==> t[..|p|][k] == t[k];
  }

  /** `s.contains(sub)` */
  predicate Contains(s: string, sub: string)
    decreases |s|
  {
    IsPrefix(sub, s) || (|s| > 0 && Contains(s[1..], sub))
  }

  /** A string contains every slice of itself. */
  lemma {:induction false} ContainsAt(s: string, sub: string, i: nat)
    requires i + |sub| <= |s| && s[i..i + |sub|] == sub
    ensures Contains(s, sub)
    decreases i
  {
    if i > 0 {
      assert s[1..][i - 1..i - 1 + |sub|] == sub;
      ContainsAt(s[1..], sub, i - 1);
    }
  }

  /** A string contains nothing longer than itself. */
  lemma {:induction false} ContainsBound(s: string, sub: string)
    requires Contains(s, sub)
    ensures |sub| <= |s|
    decreases |s|
  {
    if !IsPrefix(sub, s) {
      ContainsBound(s[1..], sub);
    }
  }

  /** A string contains the middle part of a concatenation. */
  lemma ContainsMiddle(a: string, sub: string, b: string)
    ensures Contains(a + sub + b, sub)
  {
    var s := a + sub + b;
    assert s[|a|..|a| + |sub|] == sub;
    ContainsAt(s, sub, |a|);
  }

  /** ASCII white space, the part of Unicode White_Space that `str::trim` removes
      which this model represents. */
  predicate IsSpace(c: char) {
    c == ' ' || c == '\t' || c == '\n' || c == '\r' || c == '\U{0B}' || c == '\U{0C}'
  }

  function TrimStart(s: string): (r: string)
    ensures |r| <= |s| && r == s[|s| - |r|..]
    ensures |r| == 0 || !IsSpace(r[0])
    decreases |s|
  {
    if |s| > 0 && IsSpace(s[0]) then TrimStart(s[1..]) else s
  }

  function TrimEnd(s: string): (r: string)
    ensures |r| <= |s| && r == s[..|r|]
    ensures |r| == 0 || !IsSpace(r[|r| - 1])
    decreases |s|
  {
    if |s| > 0 && IsSpace(s[|s| - 1]) then TrimEnd(s[..|s| - 1]) else s
  }

  /** `s.trim()` */
  function Trim(s: string): string {
    TrimEnd(TrimStart(s))
  }

  predicate IsUpper(c: char) { 'A' <= c <= 'Z' }
  predicate IsLower(c: char) { 'a' <= c <= 'z' }

  function ToLower(c: char): char {
    if IsUpper(c) then (c as int + 32) as char else c
  }

  function ToUpper(c: char): char {
    if IsLower(c) then (c as int - 32) as char else c
  }

  /** Word separators of the snake/kebab/space conventions. */
  predicate IsDelimiter(c: char) { c == '_' || c == '-' || c == ' ' }

  predicate NoDelimiter(w: string) {
    forall k :: 0 <= k < |w| ==> !IsDelimiter(w[k])
  }

  /** Splits an identifier into words at delimiters and at a lower-to-upper case change. */
  function Words(s: string, cur: string, prevLower: bool): (r: seq<string>)
    requires NoDelimiter(cur)
    ensures forall i :: 0 <= i < |r| ==> NoDelimiter(r[i])
    decreases |s|
  {
    if |s| == 0 then (if cur == "" then [] else [cur])
    else if IsDelimiter(s[0]) then (if cur == "" then [] else [cur]) + Words(s[1..], "", false)
    else if IsUpper(s[0]) && prevLower then [cur] + Words(s[1..], [s[0]], false)
    else Words(s[1..], cur + [s[0]], IsLower(s[0]))
  }

  function LowerAll(w: string): (r: string)
    requires NoDelimiter(w)
    ensures NoDelimiter(r)
  {
    seq(|w|, i requires 0 <= i < |w| => ToLower(w[i]))
  }

  function Capitalized(w: string): (r: string)
    requires NoDelimiter(w)
    ensures NoDelimiter(r)
  {
    if |w| == 0 then "" else [ToUpper(w[0])] + LowerAll(w[1..])
  }

  function CamelTail(words: seq<string>): (r: string)
    requires forall i :: 0 <= i < |words| ==> NoDelimiter(words[i])
    ensures NoDelimiter(r)
  {
    if |words| == 0 then "" else Capitalized(words[0]) + CamelTail(words[1..])
  }

  /** `s.to_case(Case::Camel)`: first word in lower case, every further word capitalised,
      delimiters dropped. The result never contains a delimiter. */
  function ToCamel(s: string): (r: string)
    ensures NoDelimiter(r)
  {
    var words := Words(s, "", false);
    if |words| == 0 then "" else LowerAll(words[0]) + CamelTail(words[1..])
  }

  /** The decimal digit of `d`. */
  function DigitChar(d: nat): char
    requires d < 10
  {
    ('0' as int + d) as char
  }

  /** `format!("{n}")` for a natural number: decimal digits, no leading zero. */
  function NatText(n: nat): (r: string)
    ensures |r| >= 1 && (|r| > 1 ==> r[0] != '0')
    ensures forall k :: 0 <= k < |r| ==> '0' <= r[k] <= '9'
    decreases n
  {
    if n < 10 then [DigitChar(n)] else NatText(n / 10) + [DigitChar(n % 10)]
  }
}
