/** The abstract syntax the three expansions read and write.

    Only the parts of a Rust declaration that the macros look at or emit
    are kept; everything else (attributes, visibility, generics, spans,
    the token-level layout) is absent. Types, return types and function
    bodies are carried verbatim: the macros copy them without looking
    inside. */
module Syntax {

  type Ident = string

  datatype Option<T> = None | Some(value: T)

  /** The outcome of a parsing step done by a library the model does not
      contain (`darling`'s attribute parsing, syn's struct parsing): a
      value, or the error as text (rendered diagnostics, or the error's
      debug rendering where the source panics with it). */
  datatype Result<T> = Ok(value: T) | Err(diagnostics: string)

  /** One segment of a path; `hasArguments` records generic arguments
      such as the `<T>` in `Vec<T>`. */
  datatype PathSegment = PathSegment(ident: Ident, hasArguments: bool)

  /** A path such as `Query`, `a::b` or `::std::String`. */
  datatype Path = Path(leadingColon: bool, segments: seq<PathSegment>)

  /** A path made of one plain identifier. */
  function IdentPath(name: Ident): Path {
    Path(false, [PathSegment(name, false)])
  }

  /** The identifier a path consists of, if it is nothing but one plain
      identifier (syn's `Path::get_ident`): it succeeds exactly on the
      paths `IdentPath` builds, and gives back the identifier. */
  function GetIdent(p: Path): (r: Option<Ident>)
    ensures r.Some? <==> |p.segments| > 0 && p == IdentPath(p.segments[0].ident)
    ensures r.Some? ==> p == IdentPath(r.value)
  {
    if !p.leadingColon && |p.segments| == 1 && !p.segments[0].hasArguments
    then Some(p.segments[0].ident)
    else None
  }

  /** Types: a path type, a shared reference `&T`, an `impl Trait`
      argument type, the placeholder `_`, or any other type written out. */
  datatype Ty =
    | TyPath(path: Path)
    | TyRef(elem: Ty)
    | TyImpl(bound: Ident)
    | TyInfer
    | TyOther(text: string)

  /** The type named by one identifier, such as an alias `__Query__Name__Type`. */
  function NamedTy(name: Ident): Ty {
    TyPath(IdentPath(name))
  }

  /** A struct field; tuple-struct fields have no identifier. */
  datatype Field = Field(ident: Option<Ident>, ty: Ty)

  /** `fn name(&self) -> ret`: every accessor takes `&self` and nothing else. */
  datatype MethodSig = MethodSig(name: Ident, ret: Ty)

  /** The one expression an accessor body consists of: `&self.field`. */
  datatype Expr = RefSelfField(field: Ident)

  datatype MethodImpl = MethodImpl(sig: MethodSig, body: Expr)

  /** A function's return type: none written, or `-> T`. */
  datatype ReturnType = DefaultReturn | Returns(ty: Ty)

  /** A function body, copied without being looked into. */
  datatype Block = Block(text: string)

  datatype FnParam = FnParam(name: Ident, ty: Ty)

  /** The declarations the expansions emit.
      - `TraitDef`: `trait name: s1 + s2 { methods }`
      - `ImplDef`: `impl traitName for selfTy { members }`
      - `TypeAlias`: `type name = ty;`
      - `StructDef`: `struct name { fields }`
      - `BlanketImpl`: `impl<T: b1 + b2> traitName for T {}`
      - `FnDef`: `fn name(params) output body` */
  datatype Item =
    | TraitDef(name: Ident, supertraits: seq<Ident>, methods: seq<MethodSig>)
    | ImplDef(traitName: Ident, selfTy: Ident, members: seq<MethodImpl>)
    | TypeAlias(name: Ident, ty: Ty)
    | StructDef(name: Ident, fields: seq<Field>)
    | BlanketImpl(traitName: Ident, bounds: seq<Ident>)
    | FnDef(name: Ident, params: seq<FnParam>, output: ReturnType, body: Block)

  /** Some item of `items` implements trait `t` for type `self`. */
  predicate Implements(items: seq<Item>, self: Ident, t: Ident) {
    exists i :: 0 <= i < |items| && items[i].ImplDef? && items[i].traitName == t && items[i].selfTy == self
  }

  /** What one macro invocation hands back to the compiler: declarations,
      the diagnostics `write_errors` renders as compiler errors, or a panic
      of the macro with its message. */
  datatype Expansion =
    | Emitted(items: seq<Item>)
    | CompileError(diagnostics: string)
    | Panic(message: string)

  /** The message of `Option::unwrap` on `None`. */
  const UnwrapOnNone: string := "called `Option::unwrap()` on a `None` value"
}
