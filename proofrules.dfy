/** The inference rules of the calculus and the table of them by name (src/proofrules.py). */
module ProofRules {
  import opened Logic

  const P: Formula := Variable("P")
  const Q: Formula := Variable("Q")
  const R: Formula := Variable("R")
  const A: Formula := Variable("A")
  const B: Formula := Variable("B")
  const PK: Formula := Variable("pk")

  function Implies(p: Formula, q: Formula): Formula { App(IMPLIES, 2, [p, q]) }
  function Says(a: Formula, p: Formula): Formula { App(SAYS, 2, [a, p]) }
  function IsKey(a: Formula, k: Formula): Formula { App(ISKEY, 2, [a, k]) }
  function Sign(p: Formula, k: Formula): Formula { App(SIGN, 2, [p, k]) }
  function IsCa(a: Formula): Formula { App(ISCA, 1, [a]) }

  /** A template hole `f(x)`. */
  function Hole(f: string, x: string): Formula { App(OTHER, 2, [Variable(f), Variable(x)]) }

  const identityRule := Rule([], Sequent([Proposition(P)], Proposition(P)), "id")

  const falseLeftRule := Rule([], Sequent([Proposition(App(FALSE, 0, []))], Proposition(P)), "botL")

  const impRightRule :=
    Rule([Sequent([Proposition(P)], Proposition(Q))], Sequent([], Proposition(Implies(P, Q))), "->R")

  const impLeftRule :=
    Rule([Sequent([], Proposition(P)), Sequent([Proposition(Q)], Proposition(R))],
         Sequent([Proposition(Implies(P, Q))], Proposition(R)), "->L")

  const impLeftAffRule :=
    Rule([Sequent([], Proposition(P)), Sequent([Proposition(Q)], Affirmation(A, R))],
         Sequent([Proposition(Implies(P, Q))], Affirmation(A, R)), "->Laff")

  const forallRightRule :=
    Rule([Sequent([], Proposition(Hole("P", "y")))], Sequent([], Proposition(Forall("x", Hole("P", "x")))), "@R")

  const forallLeftRule :=
    Rule([Sequent([Proposition(Hole("P", "e"))], Proposition(Q))],
         Sequent([Proposition(Forall("x", Hole("P", "x")))], Proposition(Q)), "@L")

  const forallLeftAffRule :=
    Rule([Sequent([Proposition(Hole("P", "e"))], Affirmation(A, Q))],
         Sequent([Proposition(Forall("x", Hole("P", "x")))], Affirmation(A, Q)), "@Laff")

  const weakenRule :=
    Rule([Sequent([Proposition(Q)], Proposition(R))], Sequent([Proposition(P), Proposition(Q)], Proposition(R)), "W")

  const cutRule :=
    Rule([Sequent([], Proposition(P)), Sequent([Proposition(P)], Proposition(Q))], Sequent([], Proposition(Q)), "cut")

  const affCutRule :=
    Rule([Sequent([], Proposition(P)), Sequent([Proposition(P)], Affirmation(A, Q))],
         Sequent([], Affirmation(A, Q)), "affcut")

  const affRule := Rule([Sequent([], Proposition(P))], Sequent([], Affirmation(A, P)), "aff")

  const saysLeftRule :=
    Rule([Sequent([Proposition(P)], Affirmation(A, Q))], Sequent([Proposition(Says(A, P))], Affirmation(A, Q)), "saysL")

  const saysRightRule := Rule([Sequent([], Affirmation(A, P))], Sequent([], Proposition(Says(A, P))), "saysR")

  const signRule :=
    Rule([Sequent([], Proposition(IsKey(A, PK))), Sequent([], Proposition(Sign(P, PK)))],
         Sequent([], Proposition(Says(A, P))), "sign")

  const certRule :=
    Rule([Sequent([], Proposition(IsCa(A))), Sequent([], Proposition(Says(A, IsKey(B, PK))))],
         Sequent([], Proposition(IsKey(B, PK))), "cert")

  /** Every rule, in the order the source defines them. */
  const Rules: seq<Rule> :=
    [identityRule, falseLeftRule, impRightRule, impLeftRule, impLeftAffRule, forallRightRule,
     forallLeftRule, forallLeftAffRule, weakenRule, cutRule, affCutRule, affRule, saysLeftRule,
     saysRightRule, signRule, certRule]

  /** The rule table, keyed by rule name. */
  const Calculus: map<string, Rule> :=
    map["id" := identityRule, "botL" := falseLeftRule, "->R" := impRightRule, "->L" := impLeftRule,
        "->Laff" := impLeftAffRule, "@R" := forallRightRule, "@L" := forallLeftRule,
        "@Laff" := forallLeftAffRule, "W" := weakenRule, "cut" := cutRule, "affcut" := affCutRule,
        "aff" := affRule, "saysL" := saysLeftRule, "saysR" := saysRightRule, "sign" := signRule,
        "cert" := certRule]

  /** The rule table's entries for rules 0 to 3. */
  lemma CalculusEntries0()
    ensures forall i :: 0 <= i < 4 ==> Rules[i].name in Calculus && Calculus[Rules[i].name] == Rules[i]
  {
    assert Calculus["id"] == identityRule && Calculus["botL"] == falseLeftRule;
    assert Calculus["->R"] == impRightRule && Calculus["->L"] == impLeftRule;
  }

  /** The rule table's entries for rules 4 to 7. */
  lemma CalculusEntries1()
    ensures forall i :: 4 <= i < 8 ==> Rules[i].name in Calculus && Calculus[Rules[i].name] == Rules[i]
  {
    assert Calculus["->Laff"] == impLeftAffRule && Calculus["@R"] == forallRightRule;
    assert Calculus["@L"] == forallLeftRule && Calculus["@Laff"] == forallLeftAffRule;
  }

  /** The rule table's entries for rules 8 to 11. */
  lemma CalculusEntries2()
    ensures forall i :: 8 <= i < 12 ==> Rules[i].name in Calculus && Calculus[Rules[i].name] == Rules[i]
  {
    assert Calculus["W"] == weakenRule && Calculus["cut"] == cutRule;
    assert Calculus["affcut"] == affCutRule && Calculus["aff"] == affRule;
  }

  /** The rule table's entries for rules 12 to 15. */
  lemma CalculusEntries3()
    ensures forall i :: 12 <= i < 16 ==> Rules[i].name in Calculus && Calculus[Rules[i].name] == Rules[i]
  {
    assert Calculus["saysL"] == saysLeftRule && Calculus["saysR"] == saysRightRule;
    assert Calculus["sign"] == signRule && Calculus["cert"] == certRule;
  }

  /** The table holds each of the sixteen rules under its own name. */
  lemma CalculusByName()
    ensures |Rules| == 16
    ensures forall i :: 0 <= i < |Rules| ==> Rules[i].name in Calculus && Calculus[Rules[i].name] == Rules[i]
  {
    CalculusEntries0(); CalculusEntries1(); CalculusEntries2(); CalculusEntries3();
  }

  /**
    * Premise counts and the shapes the verifier and the tactics rely on:
    * the cuts add their first premise's goal to the second premise's
    * context; sign needs `iskey(A, pk)` and `sign(P, pk)` for `A says P`;
    * cert needs `ca(A)` and `A says iskey(B, pk)` for `iskey(B, pk)`.
    */
  lemma RuleShapes()
    ensures |identityRule.premises| == 0 && |falseLeftRule.premises| == 0
    ensures |impRightRule.premises| == 1 && |affRule.premises| == 1 && |weakenRule.premises| == 1
    ensures |forallRightRule.premises| == 1 && |forallLeftRule.premises| == 1 && |forallLeftAffRule.premises| == 1
    ensures |saysLeftRule.premises| == 1 && |saysRightRule.premises| == 1
    ensures |impLeftRule.premises| == 2 && |impLeftAffRule.premises| == 2
    ensures |cutRule.premises| == 2 && |affCutRule.premises| == 2 && |signRule.premises| == 2 && |certRule.premises| == 2
    ensures forall c :: c in {cutRule, affCutRule} ==>
      c.premises[0].delta in c.premises[1].gamma && c.premises[1].delta == c.conclusion.delta
    ensures signRule.premises[0].delta.p == IsKey(A, PK) && signRule.premises[1].delta.p == Sign(P, PK)
    ensures signRule.conclusion.delta.p == Says(A, P)
    ensures certRule.premises[0].delta.p == IsCa(A) && certRule.premises[1].delta.p == Says(A, IsKey(B, PK))
    ensures certRule.conclusion.delta.p == IsKey(B, PK)
  {
  }

  /** The rules whose conclusions the matcher handles exactly (no quantifier, no hole). */
  lemma FirstOrderConclusions()
    ensures forall i :: 0 <= i < |Rules| && i !in {5, 6, 7} ==> TemplateSequent(Rules[i].conclusion)
    ensures TemplateSequent(identityRule.conclusion) && TemplateSequent(impLeftRule.conclusion)
  {
    PropositionalConclusions();
    StructuralConclusions();
    AuthorizationConclusions();
  }

  /** The conclusions of the identity, falsehood and implication rules are templates. */
  lemma PropositionalConclusions()
    ensures forall i :: 0 <= i < 5 ==> TemplateSequent(Rules[i].conclusion)
  {
    assert TemplateSequent(identityRule.conclusion) && TemplateSequent(falseLeftRule.conclusion);
    assert TemplateSequent(impRightRule.conclusion) && TemplateSequent(impLeftRule.conclusion);
  }

  /** So are those of weakening, the cuts and the affirmation rule. */
  lemma StructuralConclusions()
    ensures forall i :: 8 <= i < 12 ==> TemplateSequent(Rules[i].conclusion)
  {
    assert TemplateSequent(weakenRule.conclusion) && TemplateSequent(cutRule.conclusion);
  }

  /** And those of the rules for `says`, `sign` and certificates. */
  lemma AuthorizationConclusions()
    ensures forall i :: 12 <= i < 16 ==> TemplateSequent(Rules[i].conclusion)
  {
    assert TemplateSequent(saysLeftRule.conclusion) && TemplateSequent(saysRightRule.conclusion);
  }
}
