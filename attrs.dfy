/** The `#[jni(...)]` attribute: its five keywords, the lookups over a parsed
    attribute list, and the comma-separated keyword parser
    (crates/jni-bindgen-macros/src/util/attrs.rs). */
module Attrs {
  import opened Wrappers
  import opened Syn

  /** One parsed keyword; spans are not modelled. */
  datatype BindgenAttr =
    | Namespace(name: string)
    | Rename(name: string)
    | Constructor
    | LoadLib(name: string)
    | ClassName(name: string)
  {
    function Key(): Keyword {
      match this
      case Namespace(_) => PackageKey
      case Rename(_) => RenameKey
      case Constructor => ConstructorKey
      case LoadLib(_) => LoadLibKey
      case ClassName(_) => ClassNameKey
    }
  }

  datatype Keyword = PackageKey | RenameKey | ConstructorKey | LoadLibKey | ClassNameKey

  /** The parsed contents of one `#[jni(...)]`. `present` models the `exists` flag, which the parser never sets. */
  datatype BindgenAttrs = BindgenAttrs(present: bool, attrs: seq<BindgenAttr>)

  /** `BindgenAttrs::default()` */
  function Default(): (r: BindgenAttrs)
    ensures !r.present && r.attrs == []
  {
    BindgenAttrs(false, [])
  }

  /** The value carried by a string-valued keyword. */
  function ValueOf(a: BindgenAttr): string {
    if a.Constructor? then "" else a.name
  }

  /** The string-valued attribute with keyword `k` and value `v`. */
  function Make(k: Keyword, v: string): BindgenAttr {
    match k
    case PackageKey => Namespace(v)
    case RenameKey => Rename(v)
    case ConstructorKey => Constructor
    case LoadLibKey => LoadLib(v)
    case ClassNameKey => ClassName(v)
  }

  /** `get_attr` specialised to one keyword: the value of the first attribute
      with that keyword, if any. */
  function FirstValue(attrs: seq<BindgenAttr>, k: Keyword): (r: Option<string>)
    requires k != ConstructorKey
    ensures r.None? <==> forall i :: 0 <= i < |attrs| ==> attrs[i].Key() != k
    ensures r.Some? ==> exists i :: 0 <= i < |attrs| && attrs[i] == Make(k, r.value)
                                   && forall j :: 0 <= j < i ==> attrs[j].Key() != k
    decreases |attrs|
  {
    if |attrs| == 0 then None
    else if attrs[0].Key() == k then Some(ValueOf(attrs[0]))
    else
      var r := FirstValue(attrs[1..], k);
      assert forall i :: 1 <= i < |attrs| ==> attrs[i] == attrs[1..][i - 1];
      if r.Some? then
        ghost var i :| 0 <= i < |attrs[1..]| && attrs[1..][i] == Make(k, r.value)
                      && forall j :: 0 <= j < i ==> attrs[1..][j].Key() != k;
        assert attrs[i + 1] == Make(k, r.value);
        r
      else r
  }

  function GetClassName(a: BindgenAttrs): (r: Option<string>)
    ensures r.None? <==> forall i :: 0 <= i < |a.attrs| ==> !a.attrs[i].ClassName?
  {
    FirstValue(a.attrs, ClassNameKey)
  }

  function GetNamespace(a: BindgenAttrs): (r: Result<string, string>)
    ensures r.Err? <==> forall i :: 0 <= i < |a.attrs| ==> !a.attrs[i].Namespace?
    ensures r.Err? ==> r.error == "Missing namespace = \"...\" attribute"
  {
    match FirstValue(a.attrs, PackageKey)
    case Some(v) => Ok(v)
    case None => Err("Missing namespace = \"...\" attribute")
  }

  function GetRename(a: BindgenAttrs): (r: Option<string>)
    ensures r.None? <==> forall i :: 0 <= i < |a.attrs| ==> !a.attrs[i].Rename?
    ensures r.Some? ==> exists i :: 0 <= i < |a.attrs| && a.attrs[i] == Rename(r.value)
                                   && forall j :: 0 <= j < i ==> !a.attrs[j].Rename?
  {
    FirstValue(a.attrs, RenameKey)
  }

  function LoadLibName(a: BindgenAttrs): (r: Option<string>)
    ensures r.None? <==> forall i :: 0 <= i < |a.attrs| ==> !a.attrs[i].LoadLib?
  {
    FirstValue(a.attrs, LoadLibKey)
  }

  function IsConstructor(a: BindgenAttrs): (r: bool)
    ensures r <==> exists i :: 0 <= i < |a.attrs| && a.attrs[i].Constructor?
  {
    exists i :: 0 <= i < |a.attrs| && a.attrs[i].Constructor?
  }

  /** The first value wins: a later attribute with the same keyword is ignored. */
  lemma FirstWins(a: BindgenAttrs, k: Keyword, v: string)
    requires k != ConstructorKey
    requires |a.attrs| > 0 && a.attrs[0] == Make(k, v)
    ensures FirstValue(a.attrs, k) == Some(v)
  {
  }

  // ---------------------------------------------------------------------
  // The keyword parser

  /** The keyword an identifier selects: it is compared with the plain keyword and
      with its `r#`-prefixed spelling, exactly as written. */
  function KeywordOf(ident: string): (r: Option<Keyword>)
    ensures r.Some? ==> ident == KeywordText(r.value)
  {
    var raw := "r#" + ident;
    // no keyword has '#' as its second character, so `raw` matches none
    assert raw[1] == '#';
    if ident == "package" || raw == "package" then Some(PackageKey)
    else if ident == "rename" || raw == "rename" then Some(RenameKey)
    else if ident == "constructor" || raw == "constructor" then Some(ConstructorKey)
    else if ident == "load_lib" || raw == "load_lib" then Some(LoadLibKey)
    else if ident == "class_name" || raw == "class_name" then Some(ClassNameKey)
    else None
  }

  function KeywordText(k: Keyword): string {
    match k
    case PackageKey => "package"
    case RenameKey => "rename"
    case ConstructorKey => "constructor"
    case LoadLibKey => "load_lib"
    case ClassNameKey => "class_name"
  }

  /** `BindgenAttr::parse`: one keyword at the front of `toks`, and how many
      tokens it consumed. `constructor` takes no value; the other keywords need
      `=` followed by a string literal or a bare identifier. */
  function ParseOne(toks: seq<Token>): (r: Result<(BindgenAttr, nat), string>)
    ensures r.Ok? ==> 0 < r.value.1 <= |toks|
    ensures r.Ok? ==> toks[0] == Ident(KeywordText(r.value.0.Key()))
    ensures r.Ok? && !r.value.0.Constructor? ==>
              r.value.1 == 3 && toks[1] == Punct('=')
              && toks[2] in {LitStr(r.value.0.name), Ident(r.value.0.name)}
  {
    if |toks| == 0 || !toks[0].Ident? then Err("expected an identifier")
    else
      match KeywordOf(toks[0].name)
      case None => Err("unknown attribute")
      case Some(k) =>
        if k == ConstructorKey then Ok((Constructor, 1))
        else if |toks| < 2 || toks[1] != Punct('=') then Err("expected `=`")
        else if |toks| >= 3 && toks[2].LitStr? then Ok((Make(k, toks[2].value), 3))
        else if |toks| >= 3 && toks[2].Ident? then Ok((Make(k, toks[2].name), 3))
        else Err("expected an identifier")
  }

  /** `Punctuated::parse_terminated`: keywords separated by commas, a trailing
      comma allowed. */
  function ParseList(toks: seq<Token>): (r: Result<seq<BindgenAttr>, string>)
    decreases |toks|
  {
    if |toks| == 0 then Ok([])
    else
      match ParseOne(toks)
      case Err(e) => Err(e)
      case Ok((a, n)) =>
        if n == |toks| then Ok([a])
        else if toks[n] != Punct(',') then Err("expected `,`")
        else
          match ParseList(toks[n + 1..])
          case Err(e) => Err(e)
          case Ok(rest) => Ok([a] + rest)
  }

  /** `BindgenAttrs::parse` */
  function Parse(toks: seq<Token>): (r: Result<BindgenAttrs, string>)
    ensures |toks| == 0 ==> r == Ok(Default())
    ensures r.Ok? ==> !r.value.present
  {
    if |toks| == 0 then Ok(Default())
    else
      match ParseList(toks)
      case Err(e) => Err(e)
      case Ok(opts) => Ok(BindgenAttrs(Default().present, opts))
  }

  /** The result of parsing the remaining tokens, with `opts` parsed before them. */
  function Prepend(opts: seq<BindgenAttr>, r: Result<seq<BindgenAttr>, string>): Result<seq<BindgenAttr>, string> {
    match r
    case Ok(rest) => Ok(opts + rest)
    case Err(e) => Err(e)
  }

  lemma PrependEmpty(r: Result<seq<BindgenAttr>, string>)
    ensures Prepend([], r) == r
  {
    if r.Ok? {
      assert [] + r.value == r.value;
    }
  }

  /** One step of `ParseList` after a keyword was parsed. */
  lemma ParseListStep(toks: seq<Token>, a: BindgenAttr, n: nat)
    requires ParseOne(toks) == Ok((a, n))
    ensures ParseList(toks) == if n == |toks| then Ok([a])
                               else if toks[n] != Punct(',') then Err("expected `,`")
                               else Prepend([a], ParseList(toks[n + 1..]))
  {
  }

  lemma PrependAssoc(opts: seq<BindgenAttr>, a: BindgenAttr, r: Result<seq<BindgenAttr>, string>)
    ensures Prepend(opts, Prepend([a], r)) == Prepend(opts + [a], r)
  {
    if r.Ok? {
      assert opts + ([a] + r.value) == (opts + [a]) + r.value;
    }
  }

  /** The ParseStream cursor the parser consumes. */
  class ParseStream {
    const tokens: seq<Token>
    var pos: nat

    ghost predicate Valid()
      reads this
    {
      pos <= |tokens|
    }

    function Rest(): seq<Token>
      reads this
      requires Valid()
    {
      tokens[pos..]
    }

    constructor (toks: seq<Token>)
      ensures Valid() && tokens == toks && pos == 0
    {
      tokens := toks;
      pos := 0;
    }

    function IsEmpty(): (r: bool)
      reads this
      requires Valid()
      ensures r <==> Rest() == []
    {
      pos == |tokens|
    }

    /** `input.parse::<BindgenAttr>()`: advances past the keyword on success. */
    method ParseAttr() returns (r: Result<BindgenAttr, string>)
      requires Valid()
      modifies this
      ensures Valid()
      ensures match ParseOne(old(Rest()))
              case Ok((a, n)) => r == Ok(a) && pos == old(pos) + n
              case Err(e) => r == Err(e)
    {
      var res := ParseOne(tokens[pos..]);
      match res {
        case Ok((a, n)) =>
          pos := pos + n;
          r := Ok(a);
        case Err(e) =>
          r := Err(e);
      }
    }

    /** `input.parse::<Token![,]>()` */
    method ParseComma() returns (ok: bool)
      requires Valid()
      modifies this
      ensures Valid()
      ensures ok <==> (old(Rest()) != [] && old(Rest())[0] == Punct(','))
      ensures pos == if ok then old(pos) + 1 else old(pos)
    {
      ok := pos < |tokens| && tokens[pos] == Punct(',');
      if ok {
        pos := pos + 1;
      }
    }
  }

  /** `BindgenAttrs::parse` as the source runs it: start from the default, walk
      the cursor, and assign the collected attributes. */
  method ParseAttrs(toks: seq<Token>) returns (r: Result<BindgenAttrs, string>)
    ensures r == Parse(toks)
  {
    var attrs := Default();
    if |toks| == 0 {
      return Ok(attrs);
    }
    var input := new ParseStream(toks);
    var opts: seq<BindgenAttr> := [];
    assert input.Rest() == toks;
    PrependEmpty(ParseList(toks));
    while !input.IsEmpty()
      invariant input.Valid() && input.tokens == toks
      invariant ParseList(toks) == Prepend(opts, ParseList(input.Rest()))
      decreases |toks| - input.pos
    {
      ghost var before := input.Rest();
      ghost var p0 := input.pos;
      var a := input.ParseAttr();
      if a.Err? {
        return Err(a.error);
      }
      ghost var n := input.pos - p0;
      assert ParseOne(before) == Ok((a.value, n));
      ParseListStep(before, a.value, n);
      ghost var old_opts := opts;
      opts := opts + [a.value];
      if input.IsEmpty() {
        assert n == |before|;
        assert ParseList(toks) == Ok(opts);
        assert input.Rest() == [];
        assert opts + [] == opts;
        break;
      }
      assert before[n] == toks[input.pos];
      var comma := input.ParseComma();
      if !comma {
        return Err("expected `,`");
      }
      assert input.Rest() == before[n + 1..];
      PrependAssoc(old_opts, a.value, ParseList(input.Rest()));
    }
    assert input.Rest() == [];
    assert ParseList(toks) == Ok(opts + []);
    assert opts + [] == opts;
    attrs := attrs.(attrs := opts);
    r := Ok(attrs);
  }

  // ---------------------------------------------------------------------
  // Rendering back to tokens

  /** The tokens of one keyword, its value written as a string literal. */
  function Tokens(a: BindgenAttr): (r: seq<Token>)
    ensures |r| > 0
  {
    if a.Constructor? then [Ident("constructor")]
    else [Ident(KeywordText(a.Key())), Punct('='), LitStr(a.name)]
  }

  /** Keywords separated by commas. */
  function Render(attrs: seq<BindgenAttr>): seq<Token>
    decreases |attrs|
  {
    if |attrs| == 0 then []
    else if |attrs| == 1 then Tokens(attrs[0])
    else Tokens(attrs[0]) + [Punct(',')] + Render(attrs[1..])
  }

  lemma ParseOneTokens(a: BindgenAttr, more: seq<Token>)
    ensures ParseOne(Tokens(a) + more) == Ok((a, |Tokens(a)|))
  {
    var t := Tokens(a) + more;
    assert t[0] == Ident(KeywordText(a.Key()));
    if !a.Constructor? {
      assert t[1] == Punct('=') && t[2] == LitStr(a.name);
    }
  }

  /** Parsing the rendered keywords gives them back, in order. */
  lemma {:induction false} ParseRender(attrs: seq<BindgenAttr>)
    ensures ParseList(Render(attrs)) == Ok(attrs)
    decreases |attrs|
  {
    if |attrs| == 1 {
      assert Tokens(attrs[0]) + [] == Tokens(attrs[0]);
      ParseOneTokens(attrs[0], []);
      assert [attrs[0]] == attrs;
    } else if |attrs| > 1 {
      var t := Render(attrs);
      var rest := [Punct(',')] + Render(attrs[1..]);
      assert t == Tokens(attrs[0]) + rest;
      ParseOneTokens(attrs[0], rest);
      var n := |Tokens(attrs[0])|;
      assert t[n] == Punct(',');
      assert t[n + 1..] == Render(attrs[1..]);
      ParseRender(attrs[1..]);
      assert [attrs[0]] + attrs[1..] == attrs;
    }
  }

  /** A trailing comma is accepted and changes nothing. */
  lemma TrailingComma(attrs: seq<BindgenAttr>)
    requires |attrs| > 0
    ensures Parse(Render(attrs) + [Punct(',')]) == Parse(Render(attrs))
  {
    TrailingCommaList(attrs);
    ParseRender(attrs);
  }

  lemma {:induction false} TrailingCommaList(attrs: seq<BindgenAttr>)
    requires |attrs| > 0
    ensures ParseList(Render(attrs) + [Punct(',')]) == Ok(attrs)
    decreases |attrs|
  {
    var t := Render(attrs) + [Punct(',')];
    var n := |Tokens(attrs[0])|;
    if |attrs| == 1 {
      assert t == Tokens(attrs[0]) + [Punct(',')];
      ParseOneTokens(attrs[0], [Punct(',')]);
      assert t[n] == Punct(',');
      assert t[n + 1..] == [];
      assert [attrs[0]] + [] == attrs;
    } else {
      var rest := [Punct(',')] + (Render(attrs[1..]) + [Punct(',')]);
      assert t == Tokens(attrs[0]) + rest;
      ParseOneTokens(attrs[0], rest);
      assert t[n] == Punct(',');
      assert t[n + 1..] == Render(attrs[1..]) + [Punct(',')];
      TrailingCommaList(attrs[1..]);
      assert [attrs[0]] + attrs[1..] == attrs;
    }
  }

  /** A string-valued keyword also takes a bare identifier as its value. */
  lemma IdentValue(k: Keyword, v: string)
    requires k != ConstructorKey
    ensures Parse([Ident(KeywordText(k)), Punct('='), Ident(v)]) == Ok(BindgenAttrs(false, [Make(k, v)]))
  {
  }

  /** Any identifier other than the five keywords is rejected. */
  lemma UnknownKeyword(name: string, more: seq<Token>)
    requires name !in {"package", "rename", "constructor", "load_lib", "class_name"}
    ensures Parse([Ident(name)] + more) == Err("unknown attribute")
  {
    var t := [Ident(name)] + more;
    assert t[0] == Ident(name);
    assert KeywordOf(name).None?;
  }

  /** The `r#`-prefixed spelling of a keyword is rejected too: the comparison
      prepends `r#` to the identifier, never strips it. */
  lemma RawKeywordRejected(k: Keyword, more: seq<Token>)
    ensures Parse([Ident("r#" + KeywordText(k))] + more) == Err("unknown attribute")
  {
    var name := "r#" + KeywordText(k);
    assert name[0] == 'r';
    UnknownKeyword(name, more);
  }

  /** `constructor` takes no value: `constructor = x` stops at the `=`. */
  lemma ConstructorTakesNoValue(v: string)
    ensures Parse([Ident("constructor"), Punct('='), LitStr(v)]) == Err("expected `,`")
  {
  }
}
