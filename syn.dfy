/** The part of the `syn` syntax tree the generator inspects, and the text that
    `proc_macro2` prints for a token stream (tokens separated by single spaces,
    `::` and lifetimes kept together). */
module Syn {
  import opened Wrappers
  import Strings

  /** A Rust type expression. */
  datatype SynType =
    | Path(segments: seq<Segment>)
    | Reference(lifetime: Option<string>, mutable: bool, elem: SynType)
    | TraitObject(bounds: seq<Bound>)
    | Tuple(elems: seq<SynType>)
      /** any other form (slice, array, pointer, fn pointer, ...), by its printed text */
    | Verbatim(text: string)

  datatype Segment = Segment(ident: string, arguments: PathArguments)

  datatype PathArguments = NoArguments | AngleBracketed(args: seq<GenericArgument>)

  datatype GenericArgument = TypeArg(ty: SynType) | LifetimeArg(name: string)

  /** Bounds of a `dyn` trait object; a lifetime is kept without its leading quote. */
  datatype Bound = TraitBound(path: seq<Segment>) | LifetimeBound(name: string)

  /** A single token of an attribute's argument list. */
  datatype Token = Ident(name: string) | Punct(ch: char) | LitStr(value: string) | OtherLit(text: string)

  datatype Expr = ExprLitStr(value: string) | ExprOther

  datatype Meta = MetaPath | MetaList(tokens: seq<Token>) | MetaNameValue(value: Expr)

  /** `#[path(...)]`, `#[path]` or `#[path = value]`; a doc comment is `#[doc = "..."]`. */
  datatype Attribute = Attribute(path: seq<string>, meta: Meta)

  datatype FnArg =
    | Receiver(reference: bool, mutable: bool)
    | Typed(attrs: seq<Attribute>, pat: string, ty: SynType)

  datatype Signature = Signature(ident: string, inputs: seq<FnArg>, output: Option<SynType>)

  datatype ImplItemFn = ImplItemFn(attrs: seq<Attribute>, sig: Signature)

  datatype ImplItem = ImplFn(fn: ImplItemFn) | ImplOther

  datatype TraitItemFn = TraitItemFn(attrs: seq<Attribute>, sig: Signature)

  datatype TraitItem = TraitFn(fn: TraitItemFn) | TraitOther

  datatype ItemImpl = ItemImpl(selfTy: SynType, items: seq<ImplItem>)

  datatype ItemTrait = ItemTrait(ident: string, attrs: seq<Attribute>, items: seq<TraitItem>)

  /** `attr.path().into_token_stream().to_string()` */
  function AttrPathText(a: Attribute): string {
    Strings.Join(a.path, " :: ")
  }

  /** `ty.into_token_stream().to_string()` */
  function TypeText(t: SynType): string
    decreases t
  {
    match t
    case Path(segs) => PathText(segs)
    case Reference(lt, m, elem) =>
      "& " + (if lt.Some? then "'" + lt.value + " " else "") + (if m then "mut " else "") + TypeText(elem)
    case TraitObject(bounds) => "dyn " + BoundsText(bounds)
    case Tuple(elems) =>
      if |elems| == 0 then "()"
      else if |elems| == 1 then "(" + TypeText(elems[0]) + " ,)"
      else "(" + TypesText(elems) + ")"
    case Verbatim(text) => text
  }

  function TypesText(ts: seq<SynType>): string
    decreases ts
  {
    if |ts| == 0 then ""
    else if |ts| == 1 then TypeText(ts[0])
    else TypeText(ts[0]) + " , " + TypesText(ts[1..])
  }

  function PathText(segs: seq<Segment>): string
    decreases segs
  {
    if |segs| == 0 then ""
    else if |segs| == 1 then SegmentText(segs[0])
    else SegmentText(segs[0]) + " :: " + PathText(segs[1..])
  }

  function SegmentText(s: Segment): string
    decreases s
  {
    match s.arguments
    case NoArguments => s.ident
    case AngleBracketed(args) => s.ident + " < " + ArgsText(args) + " >"
  }

  function ArgsText(args: seq<GenericArgument>): string
    decreases args
  {
    if |args| == 0 then ""
    else
      if |args| == 1 then ArgText(args[0]) else ArgText(args[0]) + " , " + ArgsText(args[1..])
  }

  function ArgText(a: GenericArgument): string
    decreases a
  {
    match a
    case TypeArg(ty) => TypeText(ty)
    case LifetimeArg(name) => "'" + name
  }

  function BoundsText(bounds: seq<Bound>): string
    decreases bounds
  {
    if |bounds| == 0 then ""
    else
      var first := match bounds[0]
        case TraitBound(path) => PathText(path)
        case LifetimeBound(name) => "'" + name;
      if |bounds| == 1 then first else first + " + " + BoundsText(bounds[1..])
  }

  /** A plain one-segment path such as `i32`. */
  function Named(ident: string): SynType {
    Path([Segment(ident, NoArguments)])
  }

  /** A one-segment generic path such as `Vec<T>`. */
  function Generic(ident: string, args: seq<SynType>): SynType {
    Path([Segment(ident, AngleBracketed(seq(|args|, i requires 0 <= i < |args| => TypeArg(args[i]))))])
  }
}
