/** The function adapter (`#[substruct_use(root = R, fields(a, b))]`,
    src/lib.rs:145-202): it declares a requirement trait whose supertraits
    are the root's capability traits of the listed fields, implements it for
    every type that has them all, and rewrites the function to take any
    such type. */
module FunctionAdapter {

  import opened Syntax
  import opened Naming

  /** The attribute's arguments: the root's path and the listed fields. */
  datatype SubstructUse = SubstructUse(root: Path, fields: seq<Path>)

  /** The annotated function: its name, parameters, return type and body. */
  datatype ItemFn = ItemFn(ident: Ident, inputs: seq<FnParam>, output: ReturnType, block: Block)

  const NoRootIdent: string := "Could not get root ident"

  /** The name of the one parameter of the rewritten function. */
  const QueryParam: string := "query"

  /** Every listed field path has a first segment. */
  predicate AllHaveFirstSegment(paths: seq<Path>) {
    forall i :: 0 <= i < |paths| ==> |paths[i].segments| > 0
  }

  /** The trait a listed field stands for: the root's capability trait of
      the path's first segment. */
  function FieldBound(root: Ident, p: Path): Ident
    requires |p.segments| > 0
  {
    TraitName(root, p.segments[0].ident)
  }

  /** The bound list, one trait per listed field, in order (the `map` over
      the field list). */
  function Bounds(root: Ident, paths: seq<Path>): seq<Ident>
    requires AllHaveFirstSegment(paths)
  {
    seq(|paths|, i requires 0 <= i < |paths| => FieldBound(root, paths[i]))
  }

  /** What the adapter hands back. A malformed attribute gives its
      diagnostics; a root that is not a plain identifier panics; a field path
      without segments panics when the bound list is written out; otherwise
      the requirement trait, its blanket implementation and the rewritten
      function. */
  function UseExpansion(parsedArgs: Result<SubstructUse>, itemFn: ItemFn): (out: Expansion)
    ensures out.Emitted?
        <==> parsedArgs.Ok? && GetIdent(parsedArgs.value.root).Some?
             && AllHaveFirstSegment(parsedArgs.value.fields)
    ensures parsedArgs.Err? ==> out == CompileError(parsedArgs.diagnostics)
    ensures parsedArgs.Ok? && GetIdent(parsedArgs.value.root).None? ==> out == Panic(NoRootIdent)
    ensures parsedArgs.Ok? && GetIdent(parsedArgs.value.root).Some?
             && !AllHaveFirstSegment(parsedArgs.value.fields)
        ==> out == Panic(UnwrapOnNone)
  {
    match parsedArgs
    case Err(d) => CompileError(d)
    case Ok(attr) =>
      var fnTraitName := RequirementTraitName(itemFn.ident);
      match GetIdent(attr.root)
      case None => Panic(NoRootIdent)
      case Some(root) =>
        if !AllHaveFirstSegment(attr.fields) then Panic(UnwrapOnNone)
        else
          var bounds := Bounds(root, attr.fields);
          Emitted([
            TraitDef(fnTraitName, bounds, []),
            BlanketImpl(fnTraitName, bounds),
            FnDef(itemFn.ident, [FnParam(QueryParam, TyImpl(fnTraitName))], itemFn.output, itemFn.block)
          ])
  }

  /** When every step succeeds the adapter emits exactly three items: the
      method-less trait `FnNameInput` whose supertraits are, in order, the
      root's capability traits of the listed fields (named by their first
      segments); a blanket implementation of it with the same bound list;
      and the function under its own name, with its own return type and
      body, taking the single parameter `query: impl FnNameInput`. */
  lemma UseGenerated(attr: SubstructUse, itemFn: ItemFn)
    requires GetIdent(attr.root).Some? && AllHaveFirstSegment(attr.fields)
    ensures UseExpansion(Ok(attr), itemFn).Emitted?
    ensures var items := UseExpansion(Ok(attr), itemFn).items;
      var root := GetIdent(attr.root).value;
      var t := RequirementTraitName(itemFn.ident);
      && |items| == 3
      && items[0].TraitDef? && items[0].name == t && items[0].methods == []
      && |items[0].supertraits| == |attr.fields|
      && (forall k :: 0 <= k < |attr.fields|
            ==> items[0].supertraits[k] == TraitName(root, attr.fields[k].segments[0].ident))
      && items[1].BlanketImpl? && items[1].traitName == t
      && items[1].bounds == items[0].supertraits
      && items[2].FnDef?
      && items[2].name == itemFn.ident
      && items[2].params == [FnParam(QueryParam, TyImpl(t))]
      && items[2].output == itemFn.output
      && items[2].body == itemFn.block
  {
  }

  /** The parameters the function was written with are replaced, whatever
      they were. */
  lemma UseIgnoresParams(parsedArgs: Result<SubstructUse>, ident: Ident, p1: seq<FnParam>, p2: seq<FnParam>,
                         output: ReturnType, block: Block)
    ensures UseExpansion(parsedArgs, ItemFn(ident, p1, output, block))
         == UseExpansion(parsedArgs, ItemFn(ident, p2, output, block))
  {
  }

  /** Only a field path's first segment counts: `a::b` and `::a` stand for `a`. */
  lemma UseFirstSegmentOnly(root: Ident, leadingColon: bool, a: PathSegment, rest: seq<PathSegment>)
    ensures FieldBound(root, Path(leadingColon, [a] + rest)) == FieldBound(root, IdentPath(a.ident))
  {
  }
}
