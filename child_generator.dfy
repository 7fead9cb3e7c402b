/** The child generator (`#[substruct_child(root = R, fields(a, b))]`,
    src/lib.rs:77-138): it replaces the annotated struct by one whose
    fields are the listed ones, each typed by the root's alias for it, and
    implements the root's capability trait of each listed field for it. */
module ChildGenerator {

  import opened Syntax
  import opened Naming

  /** The attribute's arguments: the root's path and the listed fields. */
  datatype SubstructChild = SubstructChild(root: Path, fields: seq<Path>)

  /** The annotated struct as parsed: its identifier and its fields. */
  datatype ItemStruct = ItemStruct(ident: Ident, fields: seq<Field>)

  /** `Result::expect` panics with its message, `": "`, and the error. */
  const ParseStructFailed: string := "Failed to parse struct"
  const NoRootIdent: string := "Failed to get root struct ident"
  const NoFieldIdent: string := "Expected ident"

  /** Every listed field is a plain identifier. */
  predicate AllIdents(paths: seq<Path>) {
    forall i :: 0 <= i < |paths| ==> GetIdent(paths[i]).Some?
  }

  function FieldNames(paths: seq<Path>): seq<Ident>
    requires AllIdents(paths)
  {
    seq(|paths|, i requires 0 <= i < |paths| => GetIdent(paths[i]).value)
  }

  /** The generated field `name: __Root__Name__Type`. */
  function ChildField(root: Ident, name: Ident): Field {
    Field(Some(name), NamedTy(TypeName(root, name)))
  }

  /** `impl __Root__Name for Child { fn name(&self) -> &__Root__Name__Type { &self.name } }` */
  function ChildImpl(root: Ident, child: Ident, name: Ident): Item {
    ImplDef(TraitName(root, name), child,
      [MethodImpl(MethodSig(ToSnake(name), TyRef(NamedTy(TypeName(root, name)))), RefSelfField(name))])
  }

  /** What the generator hands back. The attribute is parsed before the
      struct, so a malformed attribute gives its diagnostics whatever the
      struct is. Then the struct must parse, the root must be a plain
      identifier and so must every listed field; each failure is a panic
      with its own message, and there is no other failure. */
  function ChildExpansion(parsedArgs: Result<SubstructChild>, input: Result<ItemStruct>): (out: Expansion)
    ensures out.Emitted?
        <==> parsedArgs.Ok? && input.Ok? && GetIdent(parsedArgs.value.root).Some?
             && AllIdents(parsedArgs.value.fields)
    ensures parsedArgs.Err? ==> out == CompileError(parsedArgs.diagnostics)
    ensures parsedArgs.Ok? && input.Err? ==> out == Panic(ParseStructFailed + ": " + input.diagnostics)
    ensures parsedArgs.Ok? && input.Ok? && GetIdent(parsedArgs.value.root).None?
        ==> out == Panic(NoRootIdent)
    ensures parsedArgs.Ok? && input.Ok? && GetIdent(parsedArgs.value.root).Some?
             && !AllIdents(parsedArgs.value.fields)
        ==> out == Panic(NoFieldIdent)
  {
    match parsedArgs
    case Err(d) => CompileError(d)
    case Ok(attr) =>
      if input.Err? then Panic(ParseStructFailed + ": " + input.diagnostics)
      else match GetIdent(attr.root)
        case None => Panic(NoRootIdent)
        case Some(root) =>
          if !AllIdents(attr.fields) then Panic(NoFieldIdent)
          else
            var names := FieldNames(attr.fields);
            var child := input.value.ident;
            Emitted([StructDef(child, seq(|names|, i requires 0 <= i < |names| => ChildField(root, names[i])))]
              + seq(|names|, i requires 0 <= i < |names| => ChildImpl(root, child, names[i])))
  }

  /** The generator as the source runs it: one pass over the listed fields
      that appends a field and an impl for each. */
  method GenerateChild(parsedArgs: Result<SubstructChild>, input: Result<ItemStruct>) returns (out: Expansion)
    ensures out == ChildExpansion(parsedArgs, input)
  {
    if parsedArgs.Err? {
      return CompileError(parsedArgs.diagnostics);
    }
    var attr := parsedArgs.value;
    if input.Err? {
      return Panic(ParseStructFailed + ": " + input.diagnostics);
    }
    var structIdent := input.value.ident;
    var rootIdent := GetIdent(attr.root);
    if rootIdent.None? {
      return Panic(NoRootIdent);
    }
    var root := rootIdent.value;
    var fields: seq<Field> := [];
    var impls: seq<Item> := [];
    for j := 0 to |attr.fields|
      invariant |fields| == j && |impls| == j
      invariant forall k :: 0 <= k < j ==> GetIdent(attr.fields[k]).Some?
      invariant forall k :: 0 <= k < j ==> fields[k] == ChildField(root, GetIdent(attr.fields[k]).value)
      invariant forall k :: 0 <= k < j ==> impls[k] == ChildImpl(root, structIdent, GetIdent(attr.fields[k]).value)
    {
      var fieldIdent := GetIdent(attr.fields[j]);
      if fieldIdent.None? {
        return Panic(NoFieldIdent);
      }
      var name := fieldIdent.value;
      var typeName := TypeName(root, name);
      fields := fields + [Field(Some(name), NamedTy(typeName))];
      var methodName := ToSnake(name);
      var traitName := TraitName(root, name);
      impls := impls + [ImplDef(traitName, structIdent,
        [MethodImpl(MethodSig(methodName, TyRef(NamedTy(typeName))), RefSelfField(name))])];
    }
    var names := FieldNames(attr.fields);
    assert fields == seq(|names|, i requires 0 <= i < |names| => ChildField(root, names[i]));
    assert impls == seq(|names|, i requires 0 <= i < |names| => ChildImpl(root, structIdent, names[i]));
    out := Emitted([StructDef(structIdent, fields)] + impls);
  }

  /** When every step succeeds the output is the struct followed by one impl
      per listed field, in order. The struct keeps the input's identifier
      and has exactly the listed fields, field `k` typed by the root's alias
      for it; impl `k` implements the root's trait for that field with the
      snake-cased accessor returning `&self.k`. */
  lemma ChildGenerated(attr: SubstructChild, input: ItemStruct)
    requires GetIdent(attr.root).Some? && AllIdents(attr.fields)
    ensures ChildExpansion(Ok(attr), Ok(input)).Emitted?
    ensures var items := ChildExpansion(Ok(attr), Ok(input)).items;
      && |items| == 1 + |attr.fields|
      && items[0].StructDef?
      && items[0].name == input.ident
      && |items[0].fields| == |attr.fields|
    ensures var items := ChildExpansion(Ok(attr), Ok(input)).items;
      var root := GetIdent(attr.root).value;
      forall k :: 0 <= k < |attr.fields| ==>
        var f := GetIdent(attr.fields[k]).value;
        && items[0].fields[k] == Field(Some(f), NamedTy(TypeName(root, f)))
        && items[1 + k].ImplDef?
        && items[1 + k].traitName == TraitName(root, f)
        && items[1 + k].selfTy == input.ident
        && items[1 + k].members
           == [MethodImpl(MethodSig(ToSnake(f), TyRef(NamedTy(TypeName(root, f)))), RefSelfField(f))]
  {
  }

  /** An empty field list gives the empty struct and nothing else. */
  lemma ChildNoFields(root: Path, input: ItemStruct)
    requires GetIdent(root).Some?
    ensures ChildExpansion(Ok(SubstructChild(root, [])), Ok(input)) == Emitted([StructDef(input.ident, [])])
  {
    var out := ChildExpansion(Ok(SubstructChild(root, [])), Ok(input));
    ChildGenerated(SubstructChild(root, []), input);
    assert out.items == [out.items[0]];
  }

  /** Fields the annotated struct already declares are dropped: only its
      identifier matters. */
  lemma ChildIgnoresInputFields(parsedArgs: Result<SubstructChild>, ident: Ident, f1: seq<Field>, f2: seq<Field>)
    ensures ChildExpansion(parsedArgs, Ok(ItemStruct(ident, f1)))
         == ChildExpansion(parsedArgs, Ok(ItemStruct(ident, f2)))
  {
  }

  /** The child implements exactly the capability traits of the listed
      fields: no more, no less. */
  lemma ChildImplementsExactly(attr: SubstructChild, input: ItemStruct, t: Ident)
    requires GetIdent(attr.root).Some? && AllIdents(attr.fields)
    ensures ChildExpansion(Ok(attr), Ok(input)).Emitted?
    ensures Implements(ChildExpansion(Ok(attr), Ok(input)).items, input.ident, t)
        <==> exists m :: 0 <= m < |attr.fields|
               && t == TraitName(GetIdent(attr.root).value, GetIdent(attr.fields[m]).value)
  {
    var items := ChildExpansion(Ok(attr), Ok(input)).items;
    var root := GetIdent(attr.root).value;
    ChildGenerated(attr, input);
    if Implements(items, input.ident, t) {
      var i :| 0 <= i < |items| && items[i].ImplDef? && items[i].traitName == t && items[i].selfTy == input.ident;
      ChildImplAt(attr, input, i - 1);
    }
    if exists m :: 0 <= m < |attr.fields| && t == TraitName(root, GetIdent(attr.fields[m]).value) {
      var m :| 0 <= m < |attr.fields| && t == TraitName(root, GetIdent(attr.fields[m]).value);
      ChildImplAt(attr, input, m);
    }
  }

  /** Item `1 + k` is the child's impl of the root's trait for listed field `k`. */
  lemma ChildImplAt(attr: SubstructChild, input: ItemStruct, k: int)
    requires GetIdent(attr.root).Some? && AllIdents(attr.fields)
    requires -1 <= k < |attr.fields|
    ensures ChildExpansion(Ok(attr), Ok(input)).Emitted?
    ensures var items := ChildExpansion(Ok(attr), Ok(input)).items;
      && 1 + k < |items|
      && (k == -1 ==> items[0].StructDef?)
      && (0 <= k ==> items[1 + k].ImplDef? && items[1 + k].selfTy == input.ident
                     && items[1 + k].traitName == TraitName(GetIdent(attr.root).value, GetIdent(attr.fields[k]).value))
  {
    ChildGenerated(attr, input);
  }

}
