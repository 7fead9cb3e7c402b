/** The root deriver (`#[derive(SubstructRoot)]`, src/lib.rs:35-68): for
    every named field of a struct it emits a one-method capability trait,
    the implementation of that trait for the struct, and an alias of the
    field's type. */
module RootDeriver {

  import opened Syntax
  import opened Naming

  /** The parsed derive input: the struct's identifier and what kind of
      type it declares. */
  datatype Data = DataStruct(fields: seq<Field>) | DataEnum | DataUnion

  datatype DeriveInput = DeriveInput(ident: Ident, data: Data)

  const OnlyStructs: string := "Only structs are supported"

  /** Every field has a name (none is a tuple-struct field). */
  predicate AllNamed(fields: seq<Field>) {
    forall i :: 0 <= i < |fields| ==> fields[i].ident.Some?
  }

  /** What is emitted for field `name: ty` of struct `root`, in order: the
      capability trait, its implementation for `root`, the type alias. */
  function FieldItems(root: Ident, name: Ident, ty: Ty): seq<Item> {
    var sig := MethodSig(ToSnake(name), TyRef(ty));
    [ TraitDef(TraitName(root, name), [], [sig]),
      ImplDef(TraitName(root, name), root, [MethodImpl(sig, RefSelfField(name))]),
      TypeAlias(TypeName(root, name), ty) ]
  }

  /** The items for all fields, in declaration order. */
  function RootItems(root: Ident, fields: seq<Field>): seq<Item>
    requires AllNamed(fields)
  {
    if fields == [] then []
    else
      var last := fields[|fields| - 1];
      RootItems(root, fields[..|fields| - 1]) + FieldItems(root, last.ident.value, last.ty)
  }

  /** What the deriver hands back for `input`: a panic for anything but a
      struct, a panic when a field has no name, otherwise the items. It
      fails exactly in those two cases, and no other way. */
  function RootExpansion(input: DeriveInput): (out: Expansion)
    ensures out.Emitted? <==> input.data.DataStruct? && AllNamed(input.data.fields)
    ensures !input.data.DataStruct? ==> out == Panic(OnlyStructs)
    ensures input.data.DataStruct? && !AllNamed(input.data.fields) ==> out == Panic(UnwrapOnNone)
    ensures !out.Emitted? ==> out.Panic?
  {
    match input.data
    case DataStruct(fields) =>
      if AllNamed(fields) then Emitted(RootItems(input.ident, fields)) else Panic(UnwrapOnNone)
    case _ => Panic(OnlyStructs)
  }

  /** The deriver as the source runs it: one pass over the fields that
      appends each field's three items. */
  method DeriveRoot(input: DeriveInput) returns (out: Expansion)
    ensures out == RootExpansion(input)
  {
    if !input.data.DataStruct? {
      return Panic(OnlyStructs);
    }
    var fields := input.data.fields;
    var structIdent := input.ident;
    var impls: seq<Item> := [];
    var i := 0;
    while i < |fields|
      invariant 0 <= i <= |fields|
      invariant AllNamed(fields[..i])
      invariant impls == RootItems(structIdent, fields[..i])
    {
      var field := fields[i];
      if field.ident.None? {
        return Panic(UnwrapOnNone);
      }
      var ident := field.ident.value;
      var methodName := ToSnake(ident);
      var traitName := TraitName(structIdent, ident);
      var typeName := TypeName(structIdent, ident);
      var ty := field.ty;
      impls := impls + [
        TraitDef(traitName, [], [MethodSig(methodName, TyRef(ty))]),
        ImplDef(traitName, structIdent, [MethodImpl(MethodSig(methodName, TyRef(ty)), RefSelfField(ident))]),
        TypeAlias(typeName, ty)
      ];
      assert fields[..i + 1][..i] == fields[..i];
      i := i + 1;
    }
    assert fields[..i] == fields;
    out := Emitted(impls);
  }

  /** Three items per field, and those of field `k` are items `3k` to `3k+2`. */
  lemma {:induction false} RootItemsGroups(root: Ident, fields: seq<Field>, k: nat)
    requires AllNamed(fields)
    requires k < |fields|
    ensures |RootItems(root, fields)| == 3 * |fields|
    ensures RootItems(root, fields)[3 * k..3 * k + 3]
         == FieldItems(root, fields[k].ident.value, fields[k].ty)
  {
    var n := |fields|;
    var init := fields[..n - 1];
    var last := fields[n - 1];
    var items := RootItems(root, fields);
    assert items == RootItems(root, init) + FieldItems(root, last.ident.value, last.ty);
    if k < n - 1 {
      RootItemsGroups(root, init, k);
      assert items[3 * k..3 * k + 3] == RootItems(root, init)[3 * k..3 * k + 3];
    } else if n > 1 {
      RootItemsGroups(root, init, 0);
    }
  }

  /** A struct without fields gives no items. */
  lemma RootNoFields(name: Ident)
    ensures RootExpansion(DeriveInput(name, DataStruct([]))) == Emitted([])
  {
  }

  /** For a struct with named fields the deriver emits three items per
      field, in field order. For field `k`, called `f` with type `T`:
      item `3k` is the trait `__Root__F` with one method `f'(&self) -> &T`
      (`f'` the snake-cased field name) and no supertraits; item `3k+1`
      implements that trait for the root with a method of the same
      signature returning `&self.f`; item `3k+2` is the alias
      `__Root__F__Type = T`. */
  lemma RootDerivedField(input: DeriveInput, k: nat)
    requires input.data.DataStruct? && AllNamed(input.data.fields)
    requires k < |input.data.fields|
    ensures RootExpansion(input).Emitted?
    ensures var items := RootExpansion(input).items;
      var root := input.ident;
      var f := input.data.fields[k].ident.value;
      var t := input.data.fields[k].ty;
      && |items| == 3 * |input.data.fields|
      && items[3 * k].TraitDef?
      && items[3 * k].name == TraitName(root, f)
      && items[3 * k].supertraits == []
      && |items[3 * k].methods| == 1
      && items[3 * k].methods[0].name == ToSnake(f)
      && items[3 * k].methods[0].ret == TyRef(t)
      && items[3 * k + 1].ImplDef?
      && items[3 * k + 1].traitName == TraitName(root, f)
      && items[3 * k + 1].selfTy == root
      && items[3 * k + 1].members == [MethodImpl(items[3 * k].methods[0], RefSelfField(f))]
      && items[3 * k + 2] == TypeAlias(TypeName(root, f), t)
  {
    var fields := input.data.fields;
    RootItemsGroups(input.ident, fields, k);
    var items := RootItems(input.ident, fields);
    assert items[3 * k] == items[3 * k..3 * k + 3][0];
    assert items[3 * k + 1] == items[3 * k..3 * k + 3][1];
    assert items[3 * k + 2] == items[3 * k..3 * k + 3][2];
  }

  /** The group `i` falls in. */
  lemma GroupOf(i: nat, n: nat) returns (j: nat)
    requires i < 3 * n
    ensures j < n && 3 * j <= i < 3 * j + 3
  {
    j := i / 3;
  }

  /** Every implementation the root deriver emits is that of a field's
      capability trait, for the root. */
  lemma RootImplIsFieldImpl(input: DeriveInput, i: nat) returns (j: nat)
    requires input.data.DataStruct? && AllNamed(input.data.fields)
    requires i < |RootExpansion(input).items| && RootExpansion(input).items[i].ImplDef?
    ensures j < |input.data.fields|
    ensures RootExpansion(input).items[i].traitName == TraitName(input.ident, input.data.fields[j].ident.value)
    ensures RootExpansion(input).items[i].selfTy == input.ident
  {
    var fields := input.data.fields;
    RootItemsGroups(input.ident, fields, 0);
    j := GroupOf(i, |fields|);
    RootDerivedField(input, j);
  }

  /** The root implements exactly the capability traits of its fields. */
  lemma RootImplementsExactly(input: DeriveInput, t: Ident)
    requires input.data.DataStruct? && AllNamed(input.data.fields)
    ensures RootExpansion(input).Emitted?
    ensures Implements(RootExpansion(input).items, input.ident, t)
        <==> exists j :: 0 <= j < |input.data.fields| && t == TraitName(input.ident, input.data.fields[j].ident.value)
  {
    var fields := input.data.fields;
    var items := RootExpansion(input).items;
    if Implements(items, input.ident, t) {
      var i :| 0 <= i < |items| && items[i].ImplDef? && items[i].traitName == t && items[i].selfTy == input.ident;
      var j := RootImplIsFieldImpl(input, i);
    }
    if exists j :: 0 <= j < |fields| && t == TraitName(input.ident, fields[j].ident.value) {
      var j :| 0 <= j < |fields| && t == TraitName(input.ident, fields[j].ident.value);
      RootDerivedField(input, j);
      assert items[3 * j + 1].ImplDef?;
    }
  }
}
