/** Lookups of the `#[jni(...)]` attribute on a function
    (crates/jni-bindgen-macros/src/util/traits.rs). */
module Traits {
  import opened Wrappers
  import opened Syn
  import Strings
  import Attrs

  /** The attribute's path prints as `jni`. */
  predicate IsJni(a: Attribute) {
    AttrPathText(a) == "jni"
  }

  /** Printing a path gives `jni` exactly when the path is the single segment `jni`. */
  lemma JniPathText(a: Attribute)
    ensures IsJni(a) <==> a.path == ["jni"]
  {
    if |a.path| >= 2 {
      assert AttrPathText(a) == a.path[0] + " :: " + Strings.Join(a.path[1..], " :: ");
    }
  }

  /** `attrs.iter().find(...)`: the first `jni` attribute. */
  function FindJni(attrs: seq<Attribute>): (r: Option<Attribute>)
    ensures r.None? <==> forall i :: 0 <= i < |attrs| ==> !IsJni(attrs[i])
    ensures r.Some? ==> exists i :: 0 <= i < |attrs| && attrs[i] == r.value && IsJni(attrs[i])
                                   && forall j :: 0 <= j < i ==> !IsJni(attrs[j])
    decreases |attrs|
  {
    if |attrs| == 0 then None
    else if IsJni(attrs[0]) then Some(attrs[0])
    else
      var r := FindJni(attrs[1..]);
      assert forall i :: 1 <= i < |attrs| ==> attrs[i] == attrs[1..][i - 1];
      if r.Some? then
        ghost var i :| 0 <= i < |attrs[1..]| && attrs[1..][i] == r.value && IsJni(attrs[1..][i])
                      && forall j :: 0 <= j < i ==> !IsJni(attrs[1..][j]);
        assert attrs[i + 1] == r.value;
        r
      else r
  }

  /** `Attribute::parse_args::<BindgenAttrs>()`: only the parenthesised form has
      arguments to parse. */
  function ParseArgs(a: Attribute): (r: Result<Attrs.BindgenAttrs, string>)
    ensures a.meta.MetaList? ==> r == Attrs.Parse(a.meta.tokens)
    ensures !a.meta.MetaList? ==> r.Err?
  {
    match a.meta
    case MetaList(toks) => Attrs.Parse(toks)
    case MetaPath => Err("expected attribute arguments in parentheses: #[jni(...)]")
    case MetaNameValue(_) => Err("expected parentheses: #[jni(...)]")
  }

  /** `get_jni_attr`: the arguments of the first `jni` attribute, or None when
      there is none or its arguments do not parse. */
  function GetJniAttr(attrs: seq<Attribute>): (r: Option<Attrs.BindgenAttrs>)
    ensures r.Some? ==> HasJni(attrs)
    ensures r.Some? <==> exists i :: 0 <= i < |attrs| && IsJni(attrs[i])
                                   && (forall j :: 0 <= j < i ==> !IsJni(attrs[j]))
                                   && ParseArgs(attrs[i]).Ok?
  {
    match FindJni(attrs)
    case None => None
    case Some(a) =>
      ghost var i :| 0 <= i < |attrs| && attrs[i] == a && IsJni(attrs[i])
                    && forall j :: 0 <= j < i ==> !IsJni(attrs[j]);
      assert forall k :: 0 <= k < |attrs| && IsJni(attrs[k]) && (forall j :: 0 <= j < k ==> !IsJni(attrs[j])) ==> k == i;
      match ParseArgs(a)
      case Ok(v) => Some(v)
      case Err(_) => None
  }

  /** `has_jni` */
  function HasJni(attrs: seq<Attribute>): (r: bool)
    ensures r <==> FindJni(attrs).Some?
  {
    exists i :: 0 <= i < |attrs| && IsJni(attrs[i])
  }

  /** `get_rename` */
  function GetRename(attrs: seq<Attribute>): (r: Option<string>)
    ensures r.None? <==> || GetJniAttr(attrs).None?
                         || forall i :: 0 <= i < |GetJniAttr(attrs).value.attrs| ==> !GetJniAttr(attrs).value.attrs[i].Rename?
    ensures r.Some? ==> && GetJniAttr(attrs).Some?
                        && exists i :: && 0 <= i < |GetJniAttr(attrs).value.attrs|
                                       && GetJniAttr(attrs).value.attrs[i] == Attrs.Rename(r.value)
                                       && forall j :: 0 <= j < i ==> !GetJniAttr(attrs).value.attrs[j].Rename?
  {
    match GetJniAttr(attrs)
    case None => None
    case Some(a) => Attrs.GetRename(a)
  }

  /** `is_constructor`: false unless a parsable `jni` attribute says `constructor`. */
  function IsConstructor(attrs: seq<Attribute>): (r: bool)
    ensures r <==> GetJniAttr(attrs).Some? && Attrs.IsConstructor(GetJniAttr(attrs).value)
    ensures r ==> HasJni(attrs)
  {
    match GetJniAttr(attrs)
    case None => false
    case Some(a) => Attrs.IsConstructor(a)
  }

  /** A bare `#[jni]` marks a function for export, but has no arguments: it is
      never a constructor and carries no rename. */
  lemma BareJni(attrs: seq<Attribute>)
    requires |attrs| > 0 && attrs[0] == Attribute(["jni"], MetaPath)
    ensures HasJni(attrs) && GetJniAttr(attrs).None?
    ensures !IsConstructor(attrs) && GetRename(attrs).None?
  {
    JniPathText(attrs[0]);
    assert FindJni(attrs) == Some(attrs[0]);
  }

  /** `#[jni(constructor)]` as the first `jni` attribute marks a constructor. */
  lemma ConstructorAttr(attrs: seq<Attribute>)
    requires |attrs| > 0 && attrs[0] == Attribute(["jni"], MetaList([Ident("constructor")]))
    ensures IsConstructor(attrs)
  {
    JniPathText(attrs[0]);
    assert FindJni(attrs) == Some(attrs[0]);
    var toks := [Ident("constructor")];
    assert Attrs.ParseOne(toks) == Ok((Attrs.Constructor, 1));
    assert Attrs.ParseList(toks) == Ok([Attrs.Constructor]);
    assert Attrs.Parse(toks).value.attrs[0].Constructor?;
  }
}
