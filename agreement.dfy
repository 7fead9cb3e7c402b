/** How the three expansions fit together. They run separately and share
    no state; what makes a child struct or an adapted function work with a
    root is that all three derive the same trait and alias names from the
    same (root, field) identifiers. */
module Agreement {

  import opened Syntax
  import opened Naming
  import opened RootDeriver
  import CG = ChildGenerator
  import FA = FunctionAdapter

  /** The root declares a field called `name`. */
  predicate RootHasField(fields: seq<Field>, name: Ident) {
    exists j :: 0 <= j < |fields| && fields[j].ident == Some(name)
  }

  /** The child's attribute lists a field called `name`. */
  predicate ChildListsField(paths: seq<Path>, name: Ident) {
    exists m :: 0 <= m < |paths| && GetIdent(paths[m]) == Some(name)
  }

  /** A child generated against a root, listing field `k` that is the root's
      field `j`, implements the trait the root deriver declared for that
      field, with the method the trait declares, whose body is the one the
      root's own implementation has (`&self.f`); the child's field and the
      accessor's return type name the alias the root deriver declared, and
      that alias is the field's declared type. */
  lemma ChildMatchesRoot(rootInput: DeriveInput, attr: CG.SubstructChild, input: CG.ItemStruct, k: nat, j: nat)
    requires rootInput.data.DataStruct? && AllNamed(rootInput.data.fields)
    requires GetIdent(attr.root) == Some(rootInput.ident) && CG.AllIdents(attr.fields)
    requires k < |attr.fields| && j < |rootInput.data.fields|
    requires GetIdent(attr.fields[k]) == rootInput.data.fields[j].ident
    ensures RootExpansion(rootInput).Emitted? && CG.ChildExpansion(Ok(attr), Ok(input)).Emitted?
    ensures var r := RootExpansion(rootInput).items;
      var c := CG.ChildExpansion(Ok(attr), Ok(input)).items;
      && 3 * j + 2 < |r| && 1 + k < |c|
      && r[3 * j].TraitDef? && r[3 * j + 1].ImplDef? && r[3 * j + 2].TypeAlias?
      && c[0].StructDef? && k < |c[0].fields| && c[1 + k].ImplDef?
      && c[1 + k].traitName == r[3 * j].name
      && |c[1 + k].members| == 1 && |r[3 * j].methods| == 1 && |r[3 * j + 1].members| == 1
      && c[1 + k].members[0].sig.name == r[3 * j].methods[0].name
      && c[1 + k].members[0].body == r[3 * j + 1].members[0].body
      && c[1 + k].members[0].sig.ret == TyRef(NamedTy(r[3 * j + 2].name))
      && c[0].fields[k].ty == NamedTy(r[3 * j + 2].name)
      && r[3 * j + 2].ty == rootInput.data.fields[j].ty
  {
    RootDerivedField(rootInput, j);
    CG.ChildGenerated(attr, input);
  }

  /** The bound of listed field `k` of an adapted function is the trait the
      root deriver declared for the root field of that name. */
  lemma UseBoundMatchesRoot(rootInput: DeriveInput, attr: FA.SubstructUse, itemFn: FA.ItemFn, k: nat, j: nat)
    requires rootInput.data.DataStruct? && AllNamed(rootInput.data.fields)
    requires GetIdent(attr.root) == Some(rootInput.ident) && FA.AllHaveFirstSegment(attr.fields)
    requires k < |attr.fields| && j < |rootInput.data.fields|
    requires rootInput.data.fields[j].ident == Some(attr.fields[k].segments[0].ident)
    ensures RootExpansion(rootInput).Emitted? && FA.UseExpansion(Ok(attr), itemFn).Emitted?
    ensures var r := RootExpansion(rootInput).items;
      var u := FA.UseExpansion(Ok(attr), itemFn).items;
      && 3 * j < |r| && r[3 * j].TraitDef?
      && k < |u[0].supertraits| && k < |u[1].bounds|
      && u[0].supertraits[k] == r[3 * j].name
      && u[1].bounds[k] == r[3 * j].name
  {
    RootDerivedField(rootInput, j);
    FA.UseGenerated(attr, itemFn);
  }

  /** The root struct has every bound of an adapted function whose listed
      fields are all fields of the root, so the blanket implementation makes
      it satisfy the requirement trait. */
  lemma RootMeetsRequirement(rootInput: DeriveInput, attr: FA.SubstructUse, itemFn: FA.ItemFn)
    requires rootInput.data.DataStruct? && AllNamed(rootInput.data.fields)
    requires GetIdent(attr.root) == Some(rootInput.ident) && FA.AllHaveFirstSegment(attr.fields)
    requires forall k :: 0 <= k < |attr.fields| ==> RootHasField(rootInput.data.fields, attr.fields[k].segments[0].ident)
    ensures RootExpansion(rootInput).Emitted? && FA.UseExpansion(Ok(attr), itemFn).Emitted?
    ensures forall b :: b in FA.UseExpansion(Ok(attr), itemFn).items[1].bounds
                  ==> Implements(RootExpansion(rootInput).items, rootInput.ident, b)
  {
    FA.UseGenerated(attr, itemFn);
    var fields := rootInput.data.fields;
    var bounds := FA.UseExpansion(Ok(attr), itemFn).items[1].bounds;
    forall b | b in bounds
      ensures Implements(RootExpansion(rootInput).items, rootInput.ident, b)
    {
      var k :| 0 <= k < |bounds| && bounds[k] == b;
      var name := attr.fields[k].segments[0].ident;
      assert RootHasField(fields, name);
      var j :| 0 <= j < |fields| && fields[j].ident == Some(name);
      RootImplementsExactly(rootInput, b);
    }
  }

  /** A child generated against the same root that lists every field an
      adapted function lists has every bound of that function, so the
      blanket implementation makes it satisfy the requirement trait. */
  lemma ChildMeetsRequirement(childAttr: CG.SubstructChild, input: CG.ItemStruct, attr: FA.SubstructUse, itemFn: FA.ItemFn)
    requires GetIdent(childAttr.root).Some? && CG.AllIdents(childAttr.fields)
    requires GetIdent(attr.root) == GetIdent(childAttr.root) && FA.AllHaveFirstSegment(attr.fields)
    requires forall k :: 0 <= k < |attr.fields| ==> ChildListsField(childAttr.fields, attr.fields[k].segments[0].ident)
    ensures CG.ChildExpansion(Ok(childAttr), Ok(input)).Emitted? && FA.UseExpansion(Ok(attr), itemFn).Emitted?
    ensures forall b :: b in FA.UseExpansion(Ok(attr), itemFn).items[1].bounds
                  ==> Implements(CG.ChildExpansion(Ok(childAttr), Ok(input)).items, input.ident, b)
  {
    FA.UseGenerated(attr, itemFn);
    var bounds := FA.UseExpansion(Ok(attr), itemFn).items[1].bounds;
    forall b | b in bounds
      ensures Implements(CG.ChildExpansion(Ok(childAttr), Ok(input)).items, input.ident, b)
    {
      var k :| 0 <= k < |bounds| && bounds[k] == b;
      var name := attr.fields[k].segments[0].ident;
      assert ChildListsField(childAttr.fields, name);
      var m :| 0 <= m < |childAttr.fields| && GetIdent(childAttr.fields[m]) == Some(name);
      CG.ChildImplementsExactly(childAttr, input, b);
    }
  }

  /** A child that lists a field the root does not have (up to Pascal
      case) is still generated, with an implementation of a trait the root
      does not implement: the generator never checks the fields against the
      root, so the mistake surfaces only when the compiler resolves that
      trait name. */
  lemma ChildUnknownFieldUnchecked(rootInput: DeriveInput, attr: CG.SubstructChild, input: CG.ItemStruct, k: nat)
    requires rootInput.data.DataStruct? && AllNamed(rootInput.data.fields)
    requires GetIdent(attr.root) == Some(rootInput.ident) && CG.AllIdents(attr.fields)
    requires k < |attr.fields|
    requires forall j :: 0 <= j < |rootInput.data.fields|
                   ==> ToPascal(rootInput.data.fields[j].ident.value) != ToPascal(GetIdent(attr.fields[k]).value)
    ensures CG.ChildExpansion(Ok(attr), Ok(input)).Emitted?
    ensures var t := CG.ChildExpansion(Ok(attr), Ok(input)).items[1 + k];
      t.ImplDef? && !Implements(RootExpansion(rootInput).items, rootInput.ident, t.traitName)
  {
    CG.ChildGenerated(attr, input);
    var t := CG.ChildExpansion(Ok(attr), Ok(input)).items[1 + k].traitName;
    var f := GetIdent(attr.fields[k]).value;
    RootImplementsExactly(rootInput, t);
    forall j | 0 <= j < |rootInput.data.fields|
      ensures t != TraitName(rootInput.ident, rootInput.data.fields[j].ident.value)
    {
      TraitNameInjective(rootInput.ident, f, rootInput.ident, rootInput.data.fields[j].ident.value);
    }
  }
}
