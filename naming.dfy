/** The naming scheme shared by the three expansions. The root deriver,
    the child generator and the function adapter run independently of one
    another and agree only because each derives the same names from the
    same identifiers (src/lib.rs:11-31, src/lib.rs:168-172).

    Case conversion comes from a library the model does not contain; the
    two conversions here are stand-ins on ASCII identifiers, described at
    each. */
module Naming {

  import opened Syntax

  predicate IsUpper(c: char) { 'A' <= c <= 'Z' }

  predicate IsLower(c: char) { 'a' <= c <= 'z' }

  function UpperChar(c: char): char {
    if IsLower(c) then (c as int - 32) as char else c
  }

  function LowerChar(c: char): char {
    if IsUpper(c) then (c as int + 32) as char else c
  }

  /** No character of `s` is an underscore. */
  predicate NoUnderscore(s: string) {
    forall i :: 0 <= i < |s| ==> s[i] != '_'
  }

  /** No character of `s` is an upper-case ASCII letter. */
  predicate NoUpper(s: string) {
    forall i :: 0 <= i < |s| ==> !IsUpper(s[i])
  }

  /** Pascal case: underscores separate words and are dropped, and the first
      letter of each word is upper-cased (`first_name` becomes `FirstName`).
      `PascalAt(s, i, capitalize)` converts `s[i..]`; `capitalize` says
      whether `s[i]` starts a word. */
  function PascalAt(s: string, i: nat, capitalize: bool): (r: string)
    requires i <= |s|
    ensures NoUnderscore(r)
    ensures capitalize && |r| > 0 ==> !IsLower(r[0])
    decreases |s| - i
  {
    if i == |s| then []
    else if s[i] == '_' then PascalAt(s, i + 1, true)
    else [if capitalize then UpperChar(s[i]) else s[i]] + PascalAt(s, i + 1, false)
  }

  /** A Pascal-cased identifier has no underscore and does not start with a
      lower-case letter. */
  function ToPascal(s: string): (r: string)
    ensures NoUnderscore(r)
    ensures |r| > 0 ==> !IsLower(r[0])
  {
    PascalAt(s, 0, true)
  }

  /** Snake case: an upper-case letter is lower-cased, and preceded by an
      underscore unless it starts the identifier or follows an underscore
      (`firstName` becomes `first_name`). `SnakeAt(s, i, atBoundary)`
      converts `s[i..]`; `atBoundary` says whether `s[i]` is the first
      character or follows an underscore. */
  function SnakeAt(s: string, i: nat, atBoundary: bool): (r: string)
    requires i <= |s|
    ensures NoUpper(r)
    decreases |s| - i
  {
    if i == |s| then []
    else if IsUpper(s[i]) then
      (if atBoundary then [] else ['_']) + [LowerChar(s[i])] + SnakeAt(s, i + 1, false)
    else [s[i]] + SnakeAt(s, i + 1, s[i] == '_')
  }

  function ToSnake(s: string): (r: string)
    ensures NoUpper(r)
  {
    SnakeAt(s, 0, true)
  }

  lemma {:induction false} SnakeAtIdentity(s: string, i: nat, atBoundary: bool)
    requires NoUpper(s)
    requires i <= |s|
    ensures SnakeAt(s, i, atBoundary) == s[i..]
    decreases |s| - i
  {
    if i < |s| {
      assert !IsUpper(s[i]);
      SnakeAtIdentity(s, i + 1, s[i] == '_');
      assert s[i..] == [s[i]] + s[i + 1..];
    }
  }

  /** An identifier already in snake case is its own accessor name: the
      accessor for field `name` is `name()`. */
  lemma SnakeOfSnakeCase(s: string)
    requires NoUpper(s)
    ensures ToSnake(s) == s
  {
    SnakeAtIdentity(s, 0, true);
  }

  /** A word with no underscore that does not start with a lower-case
      letter is its own Pascal case. */
  lemma {:induction false} PascalAtIdentity(s: string, i: nat)
    requires NoUnderscore(s)
    requires i <= |s|
    ensures PascalAt(s, i, false) == s[i..]
    decreases |s| - i
  {
    if i < |s| {
      PascalAtIdentity(s, i + 1);
      assert s[i..] == [s[i]] + s[i + 1..];
    }
  }

  lemma PascalOfWord(s: string)
    requires NoUnderscore(s)
    requires |s| > 0 ==> !IsLower(s[0])
    ensures ToPascal(s) == s
  {
    if |s| > 0 {
      PascalAtIdentity(s, 1);
      assert s == [s[0]] + s[1..];
    }
  }

  /** The capability trait for field `field` of root `root`:
      `__Root__Field` (src/lib.rs:11-20). It is made of `__`, the root,
      `__`, and a last word with no underscore that does not start with a
      lower-case letter. */
  function TraitName(root: string, field: string): (r: string)
    ensures |r| >= 4 + |root|
    ensures r[..2] == "__" && r[2..2 + |root|] == root && r[2 + |root|..4 + |root|] == "__"
    ensures NoUnderscore(r[4 + |root|..])
    ensures |r| > 4 + |root| ==> !IsLower(r[4 + |root|])
  {
    var r := "__" + root + "__" + ToPascal(field);
    assert r[4 + |root|..] == ToPascal(field);
    r
  }

  /** The alias of the type of field `field` of root `root`:
      `__Root__Field__Type` (src/lib.rs:22-31). */
  function TypeName(root: string, field: string): (r: string)
    ensures r == TraitName(root, field) + "__Type"
    ensures |TraitName(root, field)| < |r| && r[..|TraitName(root, field)|] == TraitName(root, field)
    ensures r != TraitName(root, field)
  {
    "__" + root + "__" + ToPascal(field) + "__Type"
  }

  /** The requirement trait of function `fnName`: `FnNameInput`
      (src/lib.rs:168-172). */
  function RequirementTraitName(fnName: string): (r: string)
    ensures |r| >= 5 && r[|r| - 5..] == "Input"
    ensures NoUnderscore(r)
  {
    ToPascal(fnName) + "Input"
  }

  /** Where the longest underscore-free suffix of `s` starts. */
  function SuffixStart(s: string): (k: nat)
    ensures k <= |s|
    ensures forall i :: k <= i < |s| ==> s[i] != '_'
    ensures k > 0 ==> s[k - 1] == '_'
  {
    if s == [] then 0
    else if s[|s| - 1] == '_' then |s|
    else SuffixStart(s[..|s| - 1])
  }

  /** A suffix free of underscores that follows an underscore (or the start)
      is the longest one. */
  lemma SuffixStartOf(a: string, p: string)
    requires NoUnderscore(p)
    requires |a| > 0 ==> a[|a| - 1] == '_'
    ensures SuffixStart(a + p) == |a|
  {
    var s := a + p;
    var k := SuffixStart(s);
    assert k >= |a| by {
      if |a| > 0 { assert s[|a| - 1] == '_'; }
    }
    assert forall j :: |a| <= j < |s| ==> s[j] != '_' by {
      forall j | |a| <= j < |s| ensures s[j] != '_' { assert s[j] == p[j - |a|]; }
    }
  }

  /** The inverse of `TraitName`: the root and the Pascal-cased field a
      trait name was built from, if it has that form. */
  function SplitTraitName(n: string): Option<(string, string)> {
    if |n| < 4 || n[..2] != "__" then None
    else
      var k := SuffixStart(n);
      if k < 4 || n[k - 2..k] != "__" then None
      else if k < |n| && IsLower(n[k]) then None
      else Some((n[2..k - 2], n[k..]))
  }

  /** The inverse of `TypeName`. */
  function SplitTypeName(n: string): Option<(string, string)> {
    if |n| < 6 || n[|n| - 6..] != "__Type" then None
    else SplitTraitName(n[..|n| - 6])
  }

  lemma SplitJoined(root: string, p: string)
    requires NoUnderscore(p)
    requires |p| > 0 ==> !IsLower(p[0])
    ensures SplitTraitName("__" + root + "__" + p) == Some((root, p))
  {
    var n := "__" + root + "__" + p;
    var a := "__" + root + "__";
    assert n == a + p;
    SuffixStartOf(a, p);
    assert n[..2] == "__";
    assert n[|a| - 2..|a|] == "__";
    assert n[2..|a| - 2] == root;
    assert n[|a|..] == p;
  }

  /** Splitting a trait name gives back the root and the Pascal-cased field. */
  lemma TraitNameRoundTrip(root: string, field: string)
    ensures SplitTraitName(TraitName(root, field)) == Some((root, ToPascal(field)))
  {
    SplitJoined(root, ToPascal(field));
  }

  /** Whatever splits as a trait name is one: it is the trait name of the
      root it splits into and of the word as a field, a word that is its own
      Pascal case. */
  lemma SplitTraitNameSound(n: string)
    requires SplitTraitName(n).Some?
    ensures var (root, p) := SplitTraitName(n).value;
      ToPascal(p) == p && n == TraitName(root, p)
  {
    var k := SuffixStart(n);
    var (root, p) := SplitTraitName(n).value;
    PascalOfWord(p);
    assert n == n[..2] + n[2..k - 2] + n[k - 2..k] + n[k..];
  }

  /** Splitting an alias name gives back the root and the Pascal-cased field. */
  lemma TypeNameRoundTrip(root: string, field: string)
    ensures SplitTypeName(TypeName(root, field)) == Some((root, ToPascal(field)))
  {
    var n := TypeName(root, field);
    assert n[|n| - 6..] == "__Type";
    assert n[..|n| - 6] == TraitName(root, field);
    TraitNameRoundTrip(root, field);
  }

  /** Two (root, field) pairs name the same trait exactly when the roots are
      equal and the fields agree once Pascal-cased. */
  lemma TraitNameInjective(r1: string, f1: string, r2: string, f2: string)
    ensures TraitName(r1, f1) == TraitName(r2, f2) <==> r1 == r2 && ToPascal(f1) == ToPascal(f2)
  {
    TraitNameRoundTrip(r1, f1);
    TraitNameRoundTrip(r2, f2);
  }

  /** Two (root, field) pairs name the same alias exactly when the roots are
      equal and the fields agree once Pascal-cased. */
  lemma TypeNameInjective(r1: string, f1: string, r2: string, f2: string)
    ensures TypeName(r1, f1) == TypeName(r2, f2) <==> r1 == r2 && ToPascal(f1) == ToPascal(f2)
  {
    TypeNameRoundTrip(r1, f1);
    TypeNameRoundTrip(r2, f2);
  }

  /** `s` has no two underscores in a row. */
  predicate NoDoubleUnderscore(s: string) {
    forall i :: 0 <= i < |s| - 1 ==> !(s[i] == '_' && s[i + 1] == '_')
  }

  /** An alias name never coincides with a trait name of a root whose
      identifier has no two underscores in a row. */
  lemma TypeNameNotTraitName(r1: string, f1: string, r2: string, f2: string)
    requires NoDoubleUnderscore(r2)
    ensures TypeName(r1, f1) != TraitName(r2, f2)
  {
    var inner := r1 + "__" + ToPascal(f1);
    assert TypeName(r1, f1) == "__" + inner + "__" + "Type";
    SplitJoined(inner, "Type");
    TraitNameRoundTrip(r2, f2);
    assert inner[|r1|] == '_' && inner[|r1| + 1] == '_';
    assert inner != r2;
  }

  /** Without that condition they can coincide: the alias of field `f` of
      root `R` is the trait of field `type` of a root called `R__F`. */
  lemma TypeNameMeetsTraitName(root: string, field: string)
    ensures TypeName(root, field) == TraitName(root + "__" + ToPascal(field), "type")
  {
    assert ToPascal("type") == "Type";
  }

  /** Fields whose Pascal forms agree share a trait name (`TraitNameInjective`);
      `a_b` and `a__b` are one such pair. */
  lemma UnderscoreVariantsShareTraitName()
    ensures TraitName("Query", "a_b") == TraitName("Query", "a__b") == "__Query__AB"
  {
    assert ToPascal("a_b") == "AB";
    assert ToPascal("a__b") == "AB";
  }

  /** A requirement trait never has the name of a capability trait or of an
      alias: those start with an underscore, a requirement trait does not. */
  lemma RequirementNameDistinct(fnName: string, root: string, field: string)
    ensures RequirementTraitName(fnName) != TraitName(root, field)
    ensures RequirementTraitName(fnName) != TypeName(root, field)
  {
    var r := RequirementTraitName(fnName);
    assert r[0] != '_';
  }
}
