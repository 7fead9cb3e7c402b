# substruct: a Dafny model of its code generation

substruct is a Rust procedural-macro crate with three macros. They let a
function ask for a subset of a struct's fields, and let a smaller struct
supply exactly that subset:

- `#[derive(SubstructRoot)]` on a struct (the *root deriver*) emits, for
  every named field `f: T` of a struct `R`:
  - a capability trait `__R__F` with one accessor `f(&self) -> &T`;
  - the implementation of that trait for `R`, which returns `&self.f`;
  - a type alias `__R__F__Type = T`.

  `F` is the field name in Pascal case. The accessor name is the field name
  in snake case.
- `#[substruct_child(root = R, fields(a, b))]` on a struct `C` (the *child
  generator*) replaces `C` by a struct whose only fields are `a` and `b`.
  Each field is typed by the root's alias for it. The generator also
  implements the root's capability trait of each listed field for `C`.
- `#[substruct_use(root = R, fields(a, b))]` on a function `f` (the
  *function adapter*) emits three items:
  - a method-less requirement trait `FInput` whose supertraits are the root's
    capability traits of the listed fields;
  - a blanket implementation of `FInput` for every type that has those
    traits;
  - the function rewritten to take the single parameter
    `query: impl FInput`.

The three macros run independently and share no state. They work together
only because each one builds the same names from the same identifiers.

## How the model is built

The model is built on an abstract syntax that stands in for the macros'
token streams (module `Syntax`). Each expansion is a pure function to an
`Expansion`, which is one of:

- `Emitted(items)`;
- `CompileError(diagnostics)`, for diagnostics about a malformed attribute;
- `Panic(message)`, carrying the exact panic message of the source. Where
  the source panics with a library error appended, the error's text is an
  input to the model.

The crate's own code is modelled as follows:

- The root deriver and the child generator each build their output in a
  loop. Each is modelled twice: as a specification function
  (`RootExpansion`, `ChildExpansion`) and as a method with that loop
  (`DeriveRoot`, `GenerateChild`). Each method is proved equal to its
  function.
- The function adapter builds its output with a `map` and no loop, so it is
  a function only (`UseExpansion`).
- Module `Naming` holds the name builders, their inverses, and the
  round-trip and injectivity lemmas.
- Module `Agreement` proves that the names fit together. A child, or the
  root, that has the listed fields implements every bound of an adapted
  function. A child that lists an unknown field is still generated, with
  an implementation of a trait the root does not implement.
- Module `Scenarios` states what the crate's unit tests and
  `tests/base.rs` expect of the expansions. The expansions of `get_name`
  and `print_name` are stated in full. The others are stated only in the
  parts the tests look at. `ChildScenario` is an illustration of the child
  generator; no test of the crate uses a child struct. `tests/base.rs` still uses
  the older names `Smooth`/`smooth_use` for
  `SubstructRoot`/`substruct_use`.

Some of the code's behaviour is not what a user might expect, and the model
follows the code:

- One might expect the child generator to check the listed fields against
  the root. It never does.
  A wrong field is caught only when the compiler later resolves the trait
  name (`Agreement.ChildUnknownFieldUnchecked`).
- The child generator discards any fields the annotated struct already has,
  without error.
- The function adapter discards the function's parameter list, whatever it
  is.
- A tuple struct with at least one field does not get its own error
  message from the root deriver. It panics through `Option::unwrap` on the
  missing field name. A tuple struct with no fields emits nothing, like a
  unit struct.

As a consequence of the naming scheme:

- Fields whose Pascal forms agree share a trait name
  (`Naming.TraitNameInjective`). Examples are `a_b` and `a__b`
  (`Naming.UnderscoreVariantsShareTraitName`), or `name` and `Name`.
- An alias name can coincide with a trait name of a root whose identifier
  contains `__`.

The model states both as lemmas; the second is
`Naming.TypeNameMeetsTraitName`.

## Model

| member | source | states |
|---|---|---|
| Naming.PascalAt | src/lib.rs:16 | The Pascal-case conversion of any suffix of an identifier contains no underscore. |
| Naming.ToPascal | src/lib.rs:16 | A Pascal-cased identifier contains no underscore. |
| Naming.SnakeAt | src/lib.rs:47 | The snake-case conversion of any suffix contains no upper-case letter. |
| Naming.ToSnake | src/lib.rs:47 | An accessor name contains no upper-case letter. |
| Naming.SnakeOfSnakeCase | src/lib.rs:47 | Under the ASCII stand-in for snake case, a field name with no upper-case letter is its own accessor name (`name` gives `name()`). |
| Naming.TraitName | src/lib.rs:11-20 | A trait name is `__`, the root, `__`, then a word with no underscore that does not start with a lower-case letter. |
| Naming.RequirementTraitName | src/lib.rs:168-172 | A requirement trait name ends in `Input` and has no underscore. |
| Naming.TypeName | src/lib.rs:22-31 | The alias name is the trait name followed by `__Type`: the trait name is a proper prefix of it and the two always differ. |
| Naming.TraitNameRoundTrip | src/lib.rs:11-20 | Splitting the trait name of (root, field) gives back exactly the root and the Pascal-cased field. |
| Naming.SplitTraitNameSound | src/lib.rs:11-20 | Whatever splits into (root, word) is exactly `TraitName(root, word)`, where the word is its own Pascal case. So the inverse accepts only names the builder can produce. |
| Naming.TypeNameRoundTrip | src/lib.rs:22-31 | Splitting the alias name of (root, field) gives back exactly the root and the Pascal-cased field. |
| Naming.TraitNameInjective | src/lib.rs:11-20 | Two (root, field) pairs give the same trait name if and only if the roots are equal and the Pascal-cased fields are equal. |
| Naming.TypeNameInjective | src/lib.rs:22-31 | Two (root, field) pairs give the same alias name if and only if the roots are equal and the Pascal-cased fields are equal. |
| Naming.TypeNameNotTraitName | src/lib.rs:11-31 | No alias name equals the trait name of a root whose identifier has no two underscores in a row. |
| Naming.TypeNameMeetsTraitName | src/lib.rs:11-31 | Without that condition the two collide: the alias of field `f` of `R` is the trait of field `type` of a root named `R__F`. |
| Naming.UnderscoreVariantsShareTraitName | src/lib.rs:11-20 | Fields `a_b` and `a__b` of `Query` both get the trait `__Query__AB`. |
| Naming.RequirementNameDistinct | src/lib.rs:168-172 | A requirement trait name `FnInput` never equals a capability trait name or an alias name. |
| RootDeriver.DeriveRoot | src/lib.rs:35-68 | The deriver's loop over the fields produces exactly `RootExpansion(input)`: the panic, or the items of every field in order. |
| RootDeriver.RootItemsGroups | src/lib.rs:43-67 | The output has three items per field, and the items of field `k` are positions `3k..3k+3`. |
| RootDeriver.RootExpansion | src/lib.rs:35-68 | Output is emitted if and only if the input is a struct with all fields named. A non-struct panics with "Only structs are supported". An unnamed field panics through `unwrap`. No other failure exists. |
| RootDeriver.RootNoFields | src/lib.rs:43-67 | A struct without fields gives an empty expansion. |
| RootDeriver.RootDerivedField | src/lib.rs:47-61 | Field `k` (`f: T`) gives, at positions `3k`, `3k+1` and `3k+2`: the trait `TraitName(R, f)` with the one method `ToSnake(f)(&self) -> &T` and no supertraits; its implementation for `R` returning `&self.f`; and the alias `TypeName(R, f) = T`. |
| RootDeriver.RootImplIsFieldImpl | src/lib.rs:56-60 | Every implementation the deriver emits is, for the root, the capability trait of one of its fields. |
| RootDeriver.RootImplementsExactly | src/lib.rs:44-63 | The root implements a trait if and only if that trait is the capability trait of one of its fields. |
| ChildGenerator.GenerateChild | src/lib.rs:84-138 | The generator's loop over the listed fields produces exactly `ChildExpansion(parsedArgs, input)`. |
| ChildGenerator.ChildGenerated | src/lib.rs:108-137 | On success, for any number of listed fields including none: one struct under the input's name, with exactly the listed fields, field `k` typed by `TypeName(R, k)`; then, for every `k`, impl `k` of `TraitName(R, k)` for the child, whose accessor `ToSnake(k)` returns `&self.k` as `&TypeName(R, k)`. |
| ChildGenerator.ChildNoFields | src/lib.rs:108-137 | An empty field list gives the empty struct under the input's name and no implementation. |
| ChildGenerator.ChildExpansion | src/lib.rs:84-138 | Output is emitted if and only if the attribute parses, the struct parses, the root is a plain identifier and every field is one. A bad attribute gives its diagnostics, even when the struct is also malformed. An unparseable struct panics with "Failed to parse struct: " followed by the parser's error. A non-identifier root panics with "Failed to get root struct ident", and a non-identifier field with "Expected ident". The checks run in the source's order. |
| ChildGenerator.ChildIgnoresInputFields | src/lib.rs:99-135 | The fields the annotated struct already declares make no difference to the output. |
| ChildGenerator.ChildImplementsExactly | src/lib.rs:110-130 | The child implements a trait if and only if that trait is the root's capability trait of a listed field. |
| FunctionAdapter.UseGenerated | src/lib.rs:168-201 | On success: exactly three items. First, the method-less trait `RequirementTraitName(fn)`, whose supertraits are, in order, the root's traits for the first segments of the listed fields. Second, a blanket implementation of it with the same bounds. Third, the function under its own name, with its own return type and body, taking only `query: impl FnInput`. |
| FunctionAdapter.UseExpansion | src/lib.rs:153-202 | Output is emitted if and only if the attribute parses, the root is a plain identifier and every field path has a segment. A bad attribute gives its diagnostics. A non-identifier root panics with "Could not get root ident". A path with no segment panics through `unwrap`. |
| FunctionAdapter.UseIgnoresParams | src/lib.rs:191-200 | The function's original parameters make no difference to the output. |
| FunctionAdapter.UseFirstSegmentOnly | src/lib.rs:180-182 | A listed field path `a::b…` stands for the field `a`, with or without a leading `::`. |
| Syntax.GetIdent | src/lib.rs:102-106 | `get_ident` succeeds exactly on a path that is one plain identifier (no leading `::`, one segment, no arguments), and gives back that identifier. |
| ChildGenerator.SubstructChild | src/lib.rs:77-82 | The child attribute's arguments: the root's path and the list of field paths. |
| FunctionAdapter.SubstructUse | src/lib.rs:145-151 | The adapter attribute's arguments: the root's path and the list of field paths. |
| Agreement.ChildMatchesRoot | src/lib.rs:110-129 | A child listing the root's field `j` implements the very trait the root deriver declared for it, with the same accessor name and body. The accessor's return type and the child's field type are the root's alias for that field, which is the field's own type. |
| Agreement.UseBoundMatchesRoot | src/lib.rs:180-187 | The bound an adapted function gets for a listed field is the trait the root deriver declared for that root field. |
| Agreement.RootMeetsRequirement | src/lib.rs:195-197 | When every field an adapted function lists is a field of the root, the root implements every bound of the requirement trait. |
| Agreement.ChildMeetsRequirement | src/lib.rs:195-197 | When a child lists every field an adapted function lists, the child implements every bound of the requirement trait. |
| Agreement.ChildUnknownFieldUnchecked | src/lib.rs:108-130 | A child listing a field that does not match any root field in Pascal case is still emitted. It implements a trait that the root does not implement. |
| Scenarios.SimpleUseScenario | src/lib.rs:216-257 | `struct Query { name: String }` derives three items. The only trait among them is `__Query__Name`, with the single method `name -> &String`. |
| Scenarios.SubstructUseScenario | src/lib.rs:259-271 | `print_name` with `fields(id, name)` gives the requirement trait `PrintNameInput: __Query__Id + __Query__Name`, its blanket implementation, and `fn print_name(query: impl PrintNameInput) -> String` with the original body: the whole expansion. |
| Scenarios.BaseRootScenario | tests/base.rs:3-7 | `Query { name: String, age: i32 }` derives six items, among them the implementations of `__Query__Name` and `__Query__Age` with accessors `name` and `age`. |
| Scenarios.BaseUseScenario | tests/base.rs:9-12 | `get_name` expands to `GetNameInput: __Query__Name`, its blanket implementation, and `fn get_name(query: impl GetNameInput) -> String` with the same body. The root `Query` implements `__Query__Name`. |
| Scenarios.ChildScenario | src/lib.rs:84-138 | An illustration, not one of the crate's tests: the child `QueryName` of `Query` with `fields(name)` is the struct `{ name: __Query__Name__Type }` plus the implementation of `__Query__Name` for it. |

## Left out

- The `proc_macro` entry points (`substruct_root`, `substruct_child`, `substruct_use`) are left out. They only convert token streams and call the modelled functions.
- Parsing by syn and darling is taken as an input to the model. A parsed attribute, or its diagnostics, is a `Result`. So is the annotated struct, whose error is the debug rendering of syn's error. The model does not build the text of either.
- The printing of the generated tokens by quote is left out. The output is the abstract items, not a token stream.
- Spans are left out.
- Visibility, attributes and generics of the annotated items are not modelled, and neither are a function's qualifiers (`const`, `async`, `unsafe`, `extern`). The source does not carry any of them into its output: src/lib.rs:191-200 copies only the function's name, return type and body, so `async fn f` comes out as a plain `fn f`.
- `syn::Ident::new` panics on a string that is not a valid identifier, for example a Pascal-cased raw identifier such as `r#type`. The model has no notion of identifier validity.
- Naming.ToPascal: this is an ASCII stand-in for the case-conversion library. It splits words only at underscores and keeps the rest of each word as written. The library also splits at case changes and digits, and lower-cases the rest of each word.
- Naming.ToSnake: this is an ASCII stand-in for the case-conversion library. It splits only before upper-case letters, and keeps underscores as written. The library also treats runs of capitals and digits as boundaries. It also treats `_` as a boundary: it drops empty words and joins the rest with a single `_`, so `_name` gives `name` and `a__b` gives `a_b`.
  - As a result, a child that lists `a__b` against a root field `a_b` gets the root's trait name. Under the stand-in it gets a different accessor name (`a__b` instead of `a_b`); under the library the two accessor names agree.
- The host compiler's work is left out: type checking, trait resolution and rejection of duplicate names. The model states only which items are emitted and which traits each type implements among them.
- `trait SubstructRoot {}` (src/lib.rs:33) is not modelled. Nothing uses it.
- The unit test `test_substruct_use` only prints its output. The scenario states what that output is.
- The runtime behaviour of the generated accessors (`query.name()` returning the field) is left out. It would belong to the compiled program, not to the macros.
