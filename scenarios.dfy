/** Concrete expansions: the crate's own unit tests (src/lib.rs:216-271)
    and the integration scenario of tests/base.rs, a root `Query` with
    fields `name: String` and `age: i32` and a function `get_name` that
    needs only `name`. */
module Scenarios {

  import opened Syntax
  import opened Naming
  import opened RootDeriver
  import CG = ChildGenerator
  import FA = FunctionAdapter
  import Agreement

  function StringTy(): Ty { NamedTy("String") }

  function I32Ty(): Ty { NamedTy("i32") }

  /** `struct Query { name: String, age: i32 }` */
  function QueryRoot(): DeriveInput {
    DeriveInput("Query", DataStruct([Field(Some("name"), StringTy()), Field(Some("age"), I32Ty())]))
  }

  /** `#[substruct_use(root = Query, fields(name))] fn get_name(query: _) -> String { … }` */
  function GetNameArgs(): FA.SubstructUse {
    FA.SubstructUse(IdentPath("Query"), [IdentPath("name")])
  }

  function GetNameFn(): FA.ItemFn {
    FA.ItemFn("get_name", [FnParam("query", TyInfer)], Returns(StringTy()), Block("query.name().clone()"))
  }

  lemma PascalWords()
    ensures ToPascal("name") == "Name" && ToPascal("age") == "Age" && ToPascal("id") == "Id"
  {
  }

  lemma PascalGetName()
    ensures ToPascal("get_name") == "GetName"
  {
  }

  lemma PascalPrintName()
    ensures ToPascal("print_name") == "PrintName"
  {
  }

  lemma QueryNameTrait()
    ensures TraitName("Query", "name") == "__Query__Name"
    ensures TypeName("Query", "name") == "__Query__Name__Type"
  {
    PascalWords();
  }

  lemma QueryAgeTrait()
    ensures TraitName("Query", "age") == "__Query__Age"
  {
    PascalWords();
  }

  lemma QueryIdTrait()
    ensures TraitName("Query", "id") == "__Query__Id"
  {
    PascalWords();
  }

  lemma QueryAccessorNames()
    ensures ToSnake("name") == "name" && ToSnake("age") == "age"
  {
    SnakeOfSnakeCase("name");
    SnakeOfSnakeCase("age");
  }

  lemma GetNameRequirement()
    ensures RequirementTraitName("get_name") == "GetNameInput"
  {
    PascalGetName();
  }

  lemma PrintNameRequirement()
    ensures RequirementTraitName("print_name") == "PrintNameInput"
  {
    PascalPrintName();
  }

  /** The names the scenarios below meet. */
  lemma QueryNames()
    ensures TraitName("Query", "name") == "__Query__Name"
    ensures TraitName("Query", "age") == "__Query__Age"
    ensures TraitName("Query", "id") == "__Query__Id"
    ensures TypeName("Query", "name") == "__Query__Name__Type"
    ensures ToSnake("name") == "name" && ToSnake("age") == "age"
    ensures RequirementTraitName("get_name") == "GetNameInput"
    ensures RequirementTraitName("print_name") == "PrintNameInput"
  {
    QueryNameTrait();
    QueryAgeTrait();
    QueryIdTrait();
    QueryAccessorNames();
    GetNameRequirement();
    PrintNameRequirement();
  }

  /** The unit test `test_simple_use`: deriving on `struct Query { name:
      String }` gives three items, the trait among them being
      `__Query__Name` with the one method `name(&self) -> &String`. */
  lemma SimpleUseScenario()
    ensures var out := RootExpansion(DeriveInput("Query", DataStruct([Field(Some("name"), StringTy())])));
      && out.Emitted?
      && |out.items| == 3
      && out.items[0] == TraitDef("__Query__Name", [], [MethodSig("name", TyRef(StringTy()))])
      && (forall i :: 0 <= i < 3 && out.items[i].TraitDef? ==> i == 0)
  {
    var input := DeriveInput("Query", DataStruct([Field(Some("name"), StringTy())]));
    RootDerivedField(input, 0);
    QueryNames();
  }

  /** tests/base.rs, the root: it implements `__Query__Name` and
      `__Query__Age` with accessors `name()` and `age()`. */
  lemma BaseRootScenario()
    ensures var r := RootExpansion(QueryRoot());
      && r.Emitted? && |r.items| == 6
      && r.items[1] == ImplDef("__Query__Name", "Query",
           [MethodImpl(MethodSig("name", TyRef(StringTy())), RefSelfField("name"))])
      && r.items[4] == ImplDef("__Query__Age", "Query",
           [MethodImpl(MethodSig("age", TyRef(I32Ty())), RefSelfField("age"))])
  {
    QueryNames();
    RootDerivedField(QueryRoot(), 0);
    RootDerivedField(QueryRoot(), 1);
  }

  /** tests/base.rs, the function: `get_name` becomes a function of any
      `impl GetNameInput`, `GetNameInput` requiring `__Query__Name`, which
      the root has. */
  lemma BaseUseScenario()
    ensures FA.UseExpansion(Ok(GetNameArgs()), GetNameFn()) == Emitted([
        TraitDef("GetNameInput", ["__Query__Name"], []),
        BlanketImpl("GetNameInput", ["__Query__Name"]),
        FnDef("get_name", [FnParam("query", TyImpl("GetNameInput"))], Returns(StringTy()), Block("query.name().clone()"))
      ])
    ensures Implements(RootExpansion(QueryRoot()).items, "Query", "__Query__Name")
  {
    QueryNames();
    var bounds := FA.Bounds("Query", GetNameArgs().fields);
    assert bounds == ["__Query__Name"];
    BaseRootScenario();
    assert RootExpansion(QueryRoot()).items[1].ImplDef?;
  }

  /** The unit test `test_substruct_use`: `print_name` with `fields(id, name)`
      becomes `PrintNameInput: __Query__Id + __Query__Name`. */
  lemma SubstructUseScenario()
    ensures var u := FA.UseExpansion(Ok(FA.SubstructUse(IdentPath("Query"), [IdentPath("id"), IdentPath("name")])),
                                     FA.ItemFn("print_name", [FnParam("query", TyInfer)], Returns(StringTy()),
                                               Block("query.name().clone()")));
      && u.Emitted? && |u.items| == 3
      && u.items[0] == TraitDef("PrintNameInput", ["__Query__Id", "__Query__Name"], [])
      && u.items[1] == BlanketImpl("PrintNameInput", ["__Query__Id", "__Query__Name"])
      && u.items[2] == FnDef("print_name", [FnParam("query", TyImpl("PrintNameInput"))], Returns(StringTy()),
                             Block("query.name().clone()"))
  {
    QueryNames();
    var bounds := FA.Bounds("Query", [IdentPath("id"), IdentPath("name")]);
    assert bounds == ["__Query__Id", "__Query__Name"];
  }

  /** An illustration beyond the crate's tests: a child `struct QueryName {}` with `root = Query, fields(name)`: its only
      field is `name: __Query__Name__Type`, it implements `__Query__Name`
      with `name(&self) -> &__Query__Name__Type`, and so it meets
      `get_name`'s requirement. */
  lemma ChildScenario()
    ensures CG.ChildExpansion(Ok(CG.SubstructChild(IdentPath("Query"), [IdentPath("name")])),
                              Ok(CG.ItemStruct("QueryName", []))) == Emitted([
        StructDef("QueryName", [Field(Some("name"), NamedTy("__Query__Name__Type"))]),
        ImplDef("__Query__Name", "QueryName",
          [MethodImpl(MethodSig("name", TyRef(NamedTy("__Query__Name__Type"))), RefSelfField("name"))])
      ])
    ensures Implements(CG.ChildExpansion(Ok(CG.SubstructChild(IdentPath("Query"), [IdentPath("name")])),
                                         Ok(CG.ItemStruct("QueryName", []))).items, "QueryName", "__Query__Name")
  {
    var attr := CG.SubstructChild(IdentPath("Query"), [IdentPath("name")]);
    var input := CG.ItemStruct("QueryName", []);
    QueryNames();
    CG.ChildGenerated(attr, input);
    var out := CG.ChildExpansion(Ok(attr), Ok(input));
    assert out.items[0].fields == [Field(Some("name"), NamedTy("__Query__Name__Type"))];
    assert out.items[1].ImplDef?;
  }
}
