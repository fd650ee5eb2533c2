/**
 * The categorical formula generators (src/mcp_logic/categorical_helpers.py):
 * fixed axiom lists for categories, monoids and groups, the functor and
 * naturality templates, and the two builders that turn morphism paths into
 * premises — the chain of `compose` facts for one path and the premises
 * and conclusion that state that two paths commute.
 */
module Categorical {
  import opened Text

  // =====================================================================
  // Fixed axiom lists and templates
  // =====================================================================

  const IdentityExists := "all x (object(x) -> exists i (morphism(i) & source(i,x) & target(i,x) & identity(i,x)))"
  const IdentityUnique := "all x all i1 all i2 ((identity(i1,x) & identity(i2,x)) -> i1 = i2)"
  const CompositionExists :=
    "all f all g ((morphism(f) & morphism(g) & target(f) = source(g)) -> exists h (morphism(h) & compose(g,f,h)))"
  const CompositionAssociative :=
    "all f all g all h all fg all gh all fgh all gfh ((compose(g,f,fg) & compose(h,g,gh) & compose(h,fg,fgh) & compose(gh,f,gfh)) -> fgh = gfh)"
  const LeftIdentity := "all f all a all id ((morphism(f) & source(f,a) & identity(id,a) & compose(f,id,comp)) -> comp = f)"
  const RightIdentity := "all f all b all id ((morphism(f) & target(f,b) & identity(id,b) & compose(id,f,comp)) -> comp = f)"

  /** `category_axioms`. */
  function CategoryAxioms(): seq<string>
  {
    [IdentityExists, IdentityUnique, CompositionExists, CompositionAssociative, LeftIdentity, RightIdentity]
  }

  /** Preservation of identities and of composition by the functor symbol `f`. */
  function FunctorLaws(f: string): seq<string>
  {
    [ "all x all id (identity(id,x) -> identity(" + f + "(id), " + f + "(x)))",
      "all g all h all gh ((compose(g,h,gh)) -> compose(" + f + "(g), " + f + "(h), " + f + "(gh)))" ]
  }

  /** `functor_axioms`: the laws under the lower-cased name. */
  function FunctorAxioms(functorName: string): seq<string>
  {
    FunctorLaws(Lower(functorName))
  }

  const NaturalityHead :=
    "all morph all a all b ((morphism(morph) & source(morph,a) & target(morph,b)) -> exists comp1 exists comp2 (compose("

  /** The naturality square for functor symbols `f` and `g` and the component symbol. */
  function NaturalitySquare(f: string, g: string, component: string): seq<string>
  {
    [ NaturalityHead + g + "(morph)" + ", " + component + "(a)" + ", comp1) & compose("
      + component + "(b)" + ", " + f + "(morph)" + ", comp2) & comp1 = comp2))" ]
  }

  /** `natural_transformation_condition`: the square under the lower-cased functor names. */
  function NaturalityCondition(functorF: string, functorG: string, component: string): seq<string>
  {
    NaturalitySquare(Lower(functorF), Lower(functorG), component)
  }

  const MultTotal := "all x all y exists z (mult(x,y,z))"
  const MultAssociative :=
    "all x all y all z all xy all yz all xyz all ybc ((mult(x,y,xy) & mult(y,z,yz) & mult(xy,z,xyz) & mult(x,yz,xyz2)) -> xyz = xyz2)"
  const MultIdentity := "exists e (all x (mult(e,x,x) & mult(x,e,x)))"
  const MultInverse := "all x exists y (mult(x,y,e) & mult(y,x,e))"

  /** `monoid_axioms`. */
  function MonoidAxioms(): seq<string>
  {
    [MultTotal, MultAssociative, MultIdentity]
  }

  /** `group_axioms`: the monoid axioms and inverses. */
  function GroupAxioms(): seq<string>
  {
    MonoidAxioms() + [MultInverse]
  }

  /** Six category axioms, three monoid axioms, and a group is a monoid with exactly one axiom more. */
  lemma AxiomListSizes()
    ensures |CategoryAxioms()| == 6 && |MonoidAxioms()| == 3
    ensures |GroupAxioms()| == |MonoidAxioms()| + 1 && GroupAxioms()[..|MonoidAxioms()|] == MonoidAxioms()
  {
    ConcatSplit(MonoidAxioms(), [MultInverse]);
  }

  /**
   * The functor axioms depend on the name only through its lower-cased
   * form, so the case it is given in makes no difference; that lower-cased
   * form, the symbol the axioms use, holds no upper-case letter.
   */
  lemma FunctorNameCase(functorName: string)
    ensures |FunctorAxioms(functorName)| == 2
    ensures FunctorAxioms(functorName) == FunctorAxioms(Lower(functorName))
    ensures forall i :: 0 <= i < |Lower(functorName)| ==> !IsUpper(Lower(functorName)[i])
  {
    LowerIdempotent(functorName);
  }

  /**
   * The naturality condition depends on the functor names only through
   * their lower-cased forms. It opens with the quantifiers over `morph`, `a`
   * and `b`, applies each lower-cased functor to `morph`, and applies the
   * component, written as given, to `a` and to `b`.
   */
  lemma NaturalityNameCase(functorF: string, functorG: string, component: string)
    ensures |NaturalityCondition(functorF, functorG, component)| == 1
    ensures NaturalityCondition(functorF, functorG, component)
      == NaturalityCondition(Lower(functorF), Lower(functorG), component)
    ensures var s := NaturalityCondition(functorF, functorG, component)[0];
      && StartsWith(s, NaturalityHead)
      && Contains(s, Lower(functorF) + "(morph)") && Contains(s, Lower(functorG) + "(morph)")
      && Contains(s, component + "(a)") && Contains(s, component + "(b)")
  {
    LowerIdempotent(functorF);
    LowerIdempotent(functorG);
    SquareMentions(Lower(functorF), Lower(functorG), component);
  }

  /** Where the functor and component symbols sit in the naturality square. */
  lemma SquareMentions(f: string, g: string, component: string)
    ensures var s := NaturalitySquare(f, g, component)[0];
      && StartsWith(s, NaturalityHead)
      && Contains(s, f + "(morph)") && Contains(s, g + "(morph)")
      && Contains(s, component + "(a)") && Contains(s, component + "(b)")
  {
    var s := NaturalitySquare(f, g, component)[0];
    assert s[..|NaturalityHead|] == NaturalityHead;
    SquareMentionsG(f, g, component);
    SquareMentionsA(f, g, component);
    SquareMentionsB(f, g, component);
    SquareMentionsF(f, g, component);
  }

  lemma SquareMentionsG(f: string, g: string, component: string)
    ensures Contains(NaturalitySquare(f, g, component)[0], g + "(morph)")
  {
    var after := ", " + component + "(a)" + ", comp1) & compose(" + component + "(b)" + ", " + f + "(morph)" + ", comp2) & comp1 = comp2))";
    assert NaturalitySquare(f, g, component)[0] == NaturalityHead + (g + "(morph)") + after;
    OccursBetween(NaturalityHead, g + "(morph)", after);
  }

  lemma SquareMentionsA(f: string, g: string, component: string)
    ensures Contains(NaturalitySquare(f, g, component)[0], component + "(a)")
  {
    var before := NaturalityHead + g + "(morph)" + ", ";
    var after := ", comp1) & compose(" + component + "(b)" + ", " + f + "(morph)" + ", comp2) & comp1 = comp2))";
    assert NaturalitySquare(f, g, component)[0] == before + (component + "(a)") + after;
    OccursBetween(before, component + "(a)", after);
  }

  lemma SquareMentionsB(f: string, g: string, component: string)
    ensures Contains(NaturalitySquare(f, g, component)[0], component + "(b)")
  {
    var before := NaturalityHead + g + "(morph)" + ", " + component + "(a)" + ", comp1) & compose(";
    var after := ", " + f + "(morph)" + ", comp2) & comp1 = comp2))";
    assert NaturalitySquare(f, g, component)[0] == before + (component + "(b)") + after;
    OccursBetween(before, component + "(b)", after);
  }

  lemma SquareMentionsF(f: string, g: string, component: string)
    ensures Contains(NaturalitySquare(f, g, component)[0], f + "(morph)")
  {
    var before := NaturalityHead + g + "(morph)" + ", " + component + "(a)" + ", comp1) & compose(" + component + "(b)" + ", ";
    var after := ", comp2) & comp1 = comp2))";
    assert NaturalitySquare(f, g, component)[0] == before + (f + "(morph)") + after;
    OccursBetween(before, f + "(morph)", after);
  }

  // =====================================================================
  // Composing a path
  // =====================================================================

  /** What `_compose_path_helper` returns: the `compose` facts and the name of the composite. */
  datatype Composition = Composition(premises: seq<string>, result: string)

  function ComposeFact(morphism: string, current: string, name: string): string
  {
    "compose(" + morphism + ", " + current + ", " + name + ")"
  }

  /** The `i`-th intermediate name, `{result_name}_temp_{i}`. */
  function TempName(resultName: string, i: nat): string
  {
    resultName + "_temp_" + NatToString(i)
  }

  /**
   * The name of the composite of `path[0..i]`: the first morphism itself,
   * then the intermediate names, and `resultName` for the whole path.
   */
  function LinkName(path: seq<string>, resultName: string, i: nat): string
    requires i < |path|
  {
    if i == 0 then path[0] else if i < |path| - 1 then TempName(resultName, i) else resultName
  }

  /** One `compose` fact per morphism after the first, each composing it with the composite so far. */
  function ChainFacts(path: seq<string>, resultName: string): (r: seq<string>)
    requires |path| > 0
    ensures |r| == |path| - 1
  {
    seq(|path| - 1, j requires 0 <= j < |path| - 1 =>
      ComposeFact(path[j + 1], LinkName(path, resultName, j), LinkName(path, resultName, j + 1)))
  }

  /** What `_compose_path_helper` yields; `None` for the empty path, where `path[0]` raises. */
  function Compose(path: seq<string>, resultName: string): Option<Composition>
  {
    if |path| == 0 then None
    else Some(Composition(ChainFacts(path, resultName), LinkName(path, resultName, |path| - 1)))
  }

  /** `_compose_path_helper`. */
  method ComposePath(path: seq<string>, resultName: string) returns (r: Option<Composition>)
    ensures r == Compose(path, resultName)
  {
    if |path| == 1 {
      return Some(Composition([], path[0]));
    }
    if |path| == 0 {
      return None;
    }
    ghost var expected := ChainFacts(path, resultName);
    var premises: seq<string> := [];
    var current := path[0];
    for i := 1 to |path|
      invariant premises == expected[..i - 1]
      invariant current == LinkName(path, resultName, i - 1)
    {
      var tempName := if i < |path| - 1 then TempName(resultName, i) else resultName;
      ChainStep(path, resultName, i);
      premises := premises + [ComposeFact(path[i], current, tempName)];
      current := tempName;
    }
    assert expected[..|path| - 1] == expected;
    r := Some(Composition(premises, current));
  }

  /** One more turn of the loop adds the fact composing `path[i]` with the composite so far. */
  lemma ChainStep(path: seq<string>, resultName: string, i: nat)
    requires 1 <= i < |path|
    ensures ChainFacts(path, resultName)[..i]
      == ChainFacts(path, resultName)[..i - 1]
         + [ComposeFact(path[i], LinkName(path, resultName, i - 1), LinkName(path, resultName, i))]
  {
    PrefixStep(ChainFacts(path, resultName), i - 1);
  }

  /**
   * A one-morphism path composes to itself with no facts. A longer path of
   * `n` morphisms yields `n - 1` facts that form a chain: each fact's
   * composite is the next fact's second argument, the first fact starts
   * from `path[0]`, and the last composite, the result, is `resultName`.
   */
  lemma ComposeChain(path: seq<string>, resultName: string)
    requires |path| > 0
    ensures var c := Compose(path, resultName).value;
      && (|path| == 1 ==> c.premises == [] && c.result == path[0])
      && (|path| >= 2 ==>
        && |c.premises| == |path| - 1
        && c.result == resultName
        && c.premises[0] == ComposeFact(path[1], path[0], LinkName(path, resultName, 1))
        && c.premises[|path| - 2] == ComposeFact(path[|path| - 1], LinkName(path, resultName, |path| - 2), resultName)
        && forall j :: 0 < j < |path| - 1 ==>
          && c.premises[j - 1] == ComposeFact(path[j], LinkName(path, resultName, j - 1), TempName(resultName, j))
          && c.premises[j] == ComposeFact(path[j + 1], TempName(resultName, j), LinkName(path, resultName, j + 1)))
  {
  }

  /** `NatToString` is injective, so distinct steps get distinct intermediate names. */
  lemma TempNamesDistinct(resultName: string, i: nat, j: nat)
    ensures TempName(resultName, i) != resultName
    ensures TempName(resultName, i) == TempName(resultName, j) <==> i == j
  {
    if TempName(resultName, i) == TempName(resultName, j) {
      var prefix := resultName + "_temp_";
      assert NatToString(i) == TempName(resultName, i)[|prefix|..];
      assert NatToString(j) == TempName(resultName, j)[|prefix|..];
      NatToStringInjective(i, j);
    }
  }

  // =====================================================================
  // Commuting paths
  // =====================================================================

  function MorphismFact(morphism: string): string
  {
    "morphism(" + morphism + ")"
  }

  function SourceFact(morphism: string, objectName: string): string
  {
    "source(" + morphism + ", " + objectName + ")"
  }

  function TargetFact(morphism: string, objectName: string): string
  {
    "target(" + morphism + ", " + objectName + ")"
  }

  /** What one turn of the loop over a path adds for `path[i]`. */
  function ElementFacts(path: seq<string>, i: nat, objectStart: string, objectEnd: string): seq<string>
    requires i < |path|
  {
    (if i == 0 then [MorphismFact(path[0]), SourceFact(path[0], objectStart)] else [MorphismFact(path[i])])
    + (if i == |path| - 1 then [TargetFact(path[i], objectEnd)] else [])
  }

  /** The facts the loop over a path has added after its first `k` turns. */
  function PathFactsUpTo(path: seq<string>, objectStart: string, objectEnd: string, k: nat): seq<string>
    requires k <= |path|
  {
    if k == 0 then [] else PathFactsUpTo(path, objectStart, objectEnd, k - 1) + ElementFacts(path, k - 1, objectStart, objectEnd)
  }

  function PathFacts(path: seq<string>, objectStart: string, objectEnd: string): seq<string>
  {
    PathFactsUpTo(path, objectStart, objectEnd, |path|)
  }

  /** The loop of `verify_commutativity` over one path, appending to `premises`. */
  method AppendPathFacts(premises: seq<string>, path: seq<string>, objectStart: string, objectEnd: string)
    returns (r: seq<string>)
    ensures r == premises + PathFacts(path, objectStart, objectEnd)
  {
    r := premises;
    for i := 0 to |path|
      invariant r == premises + PathFactsUpTo(path, objectStart, objectEnd, i)
    {
      ghost var before := r;
      var morph := path[i];
      if i == 0 {
        r := r + ["morphism(" + morph + ")"];
        r := r + ["source(" + morph + ", " + objectStart + ")"];
      } else {
        r := r + ["morphism(" + morph + ")"];
      }
      if i == |path| - 1 {
        r := r + ["target(" + morph + ", " + objectEnd + ")"];
      }
      assert r == before + ElementFacts(path, i, objectStart, objectEnd);
      AppendAssoc(premises, PathFactsUpTo(path, objectStart, objectEnd, i), ElementFacts(path, i, objectStart, objectEnd));
    }
  }

  /** The `morphism` facts of `path[1..k + 1]`. */
  function LaterMorphisms(path: seq<string>, k: nat): (r: seq<string>)
    requires k < |path|
    ensures |r| == k
  {
    seq(k, j requires 0 <= j < k => MorphismFact(path[j + 1]))
  }

  lemma {:induction false} PathFactsPrefix(path: seq<string>, objectStart: string, objectEnd: string, k: nat)
    requires 1 <= k < |path|
    ensures PathFactsUpTo(path, objectStart, objectEnd, k)
      == [MorphismFact(path[0]), SourceFact(path[0], objectStart)] + LaterMorphisms(path, k - 1)
  {
    if k > 1 {
      PathFactsPrefix(path, objectStart, objectEnd, k - 1);
      var head := [MorphismFact(path[0]), SourceFact(path[0], objectStart)];
      assert LaterMorphisms(path, k - 1) == LaterMorphisms(path, k - 2) + [MorphismFact(path[k - 1])];
      AppendAssoc(head, LaterMorphisms(path, k - 2), [MorphismFact(path[k - 1])]);
    }
  }

  /**
   * A path contributes its first morphism with its `source`, then a
   * `morphism` fact for every later morphism in order, then the `target` of
   * its last morphism: `len + 2` facts, and a one-morphism path gets both
   * its `source` and its `target`.
   */
  lemma PathFactsShape(path: seq<string>, objectStart: string, objectEnd: string)
    requires |path| > 0
    ensures PathFacts(path, objectStart, objectEnd)
      == [MorphismFact(path[0]), SourceFact(path[0], objectStart)]
         + LaterMorphisms(path, |path| - 1) + [TargetFact(path[|path| - 1], objectEnd)]
    ensures |PathFacts(path, objectStart, objectEnd)| == |path| + 2
  {
    var n := |path|;
    var head := [MorphismFact(path[0]), SourceFact(path[0], objectStart)];
    var last := TargetFact(path[n - 1], objectEnd);
    if n == 1 {
      assert LaterMorphisms(path, 0) == [];
      assert PathFactsUpTo(path, objectStart, objectEnd, 1) == ElementFacts(path, 0, objectStart, objectEnd);
      assert ElementFacts(path, 0, objectStart, objectEnd) == head + [last];
    } else {
      PathFactsPrefix(path, objectStart, objectEnd, n - 1);
      assert LaterMorphisms(path, n - 1) == LaterMorphisms(path, n - 2) + [MorphismFact(path[n - 1])];
      assert ElementFacts(path, n - 1, objectStart, objectEnd) == [MorphismFact(path[n - 1])] + [last];
      AppendAssoc(head + LaterMorphisms(path, n - 2), [MorphismFact(path[n - 1])], [last]);
      AppendAssoc(head, LaterMorphisms(path, n - 2), [MorphismFact(path[n - 1])]);
    }
  }

  /** What `verify_commutativity` returns: the premises and the conclusion. */
  datatype Commutation = Commutation(premises: seq<string>, conclusion: string)

  /**
   * The facts of path A, then of path B, then A's `compose` chain, then
   * B's; the conclusion equates the two composites. `None` when either path
   * is empty, where composing it raises.
   */
  function Commute(pathA: seq<string>, pathB: seq<string>, objectStart: string, objectEnd: string)
    : Option<Commutation>
  {
    match (Compose(pathA, "comp_a"), Compose(pathB, "comp_b"))
    case (Some(a), Some(b)) =>
      Some(Commutation(PathFacts(pathA, objectStart, objectEnd) + PathFacts(pathB, objectStart, objectEnd)
        + a.premises + b.premises, a.result + " = " + b.result))
    case _ => None
  }

  /** `verify_commutativity`. */
  method VerifyCommutativity(pathA: seq<string>, pathB: seq<string>, objectStart: string, objectEnd: string)
    returns (r: Option<Commutation>)
    ensures r == Commute(pathA, pathB, objectStart, objectEnd)
  {
    var premises := AppendPathFacts([], pathA, objectStart, objectEnd);
    assert premises == PathFacts(pathA, objectStart, objectEnd);
    premises := AppendPathFacts(premises, pathB, objectStart, objectEnd);
    var compA := ComposePath(pathA, "comp_a");
    if compA.None? {
      return None;
    }
    var compB := ComposePath(pathB, "comp_b");
    if compB.None? {
      return None;
    }
    premises := premises + compA.value.premises;
    premises := premises + compB.value.premises;
    r := Some(Commutation(premises, compA.value.result + " = " + compB.value.result));
  }

  /**
   * Both paths non-empty is exactly what is needed; then each path
   * contributes `2 * len + 1` premises, and the conclusion names each
   * composite — `comp_a` / `comp_b`, or the morphism itself for a path of
   * one.
   */
  lemma CommutationCount(pathA: seq<string>, pathB: seq<string>, objectStart: string, objectEnd: string)
    ensures Commute(pathA, pathB, objectStart, objectEnd).Some? <==> |pathA| > 0 && |pathB| > 0
    ensures Commute(pathA, pathB, objectStart, objectEnd).Some? ==>
      var c := Commute(pathA, pathB, objectStart, objectEnd).value;
      && |c.premises| == (2 * |pathA| + 1) + (2 * |pathB| + 1)
      && c.conclusion == (if |pathA| == 1 then pathA[0] else "comp_a") + " = "
                         + (if |pathB| == 1 then pathB[0] else "comp_b")
  {
    if |pathA| > 0 && |pathB| > 0 {
      PathFactsShape(pathA, objectStart, objectEnd);
      PathFactsShape(pathB, objectStart, objectEnd);
    }
  }

  lemma ExamplePathA()
    ensures PathFacts(["f", "g"], "A", "C") == ["morphism(f)", "source(f, A)", "morphism(g)", "target(g, C)"]
  {
    PathFactsShape(["f", "g"], "A", "C");
    assert LaterMorphisms(["f", "g"], 1) == [MorphismFact("g")];
    assert MorphismFact("f") == "morphism(f)" && MorphismFact("g") == "morphism(g)";
    assert SourceFact("f", "A") == "source(f, A)" && TargetFact("g", "C") == "target(g, C)";
  }

  lemma ExamplePathB()
    ensures PathFacts(["h"], "A", "C") == ["morphism(h)", "source(h, A)", "target(h, C)"]
  {
    PathFactsShape(["h"], "A", "C");
    assert LaterMorphisms(["h"], 0) == [];
    assert MorphismFact("h") == "morphism(h)";
    assert SourceFact("h", "A") == "source(h, A)" && TargetFact("h", "C") == "target(h, C)";
  }

  lemma ExampleChains()
    ensures Compose(["f", "g"], "comp_a") == Some(Composition(["compose(g, f, comp_a)"], "comp_a"))
    ensures Compose(["h"], "comp_b") == Some(Composition([], "h"))
  {
    assert ChainFacts(["f", "g"], "comp_a") == [ComposeFact("g", "f", "comp_a")];
    assert ComposeFact("g", "f", "comp_a") == "compose(g, f, comp_a)";
    assert ChainFacts(["h"], "comp_b") == [];
  }

  /** The paths `f; g` and `h` from `A` to `C`: eight premises, and the conclusion `comp_a = h`. */
  lemma CommutationExample()
    ensures var c := Commute(["f", "g"], ["h"], "A", "C").value;
      && |c.premises| == 8 && c.conclusion == "comp_a = h"
      && c.premises == ["morphism(f)", "source(f, A)", "morphism(g)", "target(g, C)",
                        "morphism(h)", "source(h, A)", "target(h, C)", "compose(g, f, comp_a)"]
  {
    ExamplePathA();
    ExamplePathB();
    ExampleChains();
  }
}
