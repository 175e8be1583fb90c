/**
  * The proof search (src/prover.py): tactics that propose proof steps for
  * a goal, the combinators that sequence and choose between them, the
  * splicing of sub-proofs into the open branches of a proof, and the
  * search for a first closed proof.
  *
  * A tactic's result is a set in the source; here it is a sequence without
  * repetitions in the order the source inserts into the set.
  */
module Prover {
  import opened Wrappers
  import opened Logic
  import opened Verifier
  import ProofRules

  /**
    * A tactic. A sign tactic is built from a credential with at least two
    * arguments, and a rule tactic from a rule other than `@L` and `@R`
    * (MakeSignTactic, MakeRuleTactic); `passOn` is the source's `pass_on`.
    */
  datatype Tactic =
    | InstantiateForallTactic(grounds: seq<Formula>)
    | SignTactic(cred: Formula, agent: Formula)
    | RuleTactic(rule: Rule)
    | ThenTactic(ts: seq<Tactic>, passOn: bool)
    | OrElseTactic(ts: seq<Tactic>)

  /** A measure for the search's recursion; a sign tactic runs an identity rule tactic inside. */
  function TacticSize(t: Tactic): nat
  {
    match t
    case ThenTactic(ts, _) => 1 + TacticsSize(ts)
    case OrElseTactic(ts) => 1 + TacticsSize(ts)
    case SignTactic(_, _) => 2
    case _ => 1
  }

  function TacticsSize(ts: seq<Tactic>): nat
  {
    if |ts| == 0 then 0 else TacticSize(ts[0]) + TacticsSize(ts[1..])
  }

  /** The rule tactic's constructor refuses the quantifier rules `@L` and `@R`. */
  function MakeRuleTactic(r: Rule): (t: Option<Tactic>)
    ensures t.None? <==> r.name in {"@L", "@R"}
    ensures t.Some? ==> t.value == RuleTactic(r)
  {
    if r.name == "@L" || r.name == "@R" then None else Some(RuleTactic(r))
  }

  /** The sign tactic's constructor reads the signed formula and the key of the credential. */
  function MakeSignTactic(cred: Formula, agent: Formula): (t: Option<Tactic>)
    ensures t.Some? <==> cred.App? && |cred.args| >= 2
    ensures t.Some? ==> t.value == SignTactic(cred, agent)
  {
    if cred.App? && |cred.args| >= 2 then Some(SignTactic(cred, agent)) else None
  }

  // ---------------------------------------------------------------------
  // Sets as sequences
  // ---------------------------------------------------------------------

  predicate Distinct<T(==, !new)>(xs: seq<T>)
  {
    forall i, j :: 0 <= i < j < |xs| ==> xs[i] != xs[j]
  }

  /** Insertion into a set: `x` joins `acc` unless it is already there. */
  function Add<T(==, !new)>(acc: seq<T>, x: T): (r: seq<T>)
    ensures forall y :: y in r <==> y in acc || y == x
    ensures Distinct(acc) ==> Distinct(r)
  {
    if x in acc then acc else acc + [x]
  }

  /** Insert each of `xs` in turn. */
  function AddAll<T(==, !new)>(acc: seq<T>, xs: seq<T>): (r: seq<T>)
    ensures forall y :: y in r <==> y in acc || y in xs
    ensures Distinct(acc) ==> Distinct(r)
  {
    if |xs| == 0 then acc
    else
      var front := xs[..|xs| - 1];
      assert forall y :: y in xs <==> y in front || y == xs[|xs| - 1];
      Add(AddAll(acc, front), xs[|xs| - 1])
  }

  /** `list(set(xs))`: the elements of `xs`, each once. */
  function Dedup<T(==, !new)>(xs: seq<T>): (r: seq<T>)
    ensures forall y :: y in r <==> y in xs
    ensures Distinct(r)
  {
    AddAll([], xs)
  }

  lemma AddAllSnoc<T(!new)>(acc: seq<T>, xs: seq<T>, x: T)
    ensures AddAll(acc, xs + [x]) == Add(AddAll(acc, xs), x)
  {
    assert (xs + [x])[..|xs|] == xs;
  }

  // ---------------------------------------------------------------------
  // Instantiating a quantified assumption
  // ---------------------------------------------------------------------

  /** `[r for r in g if r != p]` */
  function Without(g: seq<Judgement>, p: Judgement): (r: seq<Judgement>)
    ensures forall j :: j in r <==> j in g && j != p
  {
    if |g| == 0 then []
    else
      var front := g[..|g| - 1];
      assert forall j :: j in g <==> j in front || j == g[|g| - 1];
      Without(front, p) + (if g[|g| - 1] != p then [g[|g| - 1]] else [])
  }

  /** `@L` for a truth goal, `@Laff` for an affirmation. */
  function InstanceRule(s: Sequent): Rule
  {
    if s.delta.Proposition? then ProofRules.forallLeftRule else ProofRules.forallLeftAffRule
  }

  /** The body of the quantified formula of `p` with `e` for its variable, as a truth judgement. */
  function Instance(p: Judgement, e: Formula): Judgement
    requires p.p.Forall?
  {
    Proposition(ApplyFormula(p.p.p, map[p.p.x := e]))
  }

  /** The step that trades assumption `p` for its instance at `e`. */
  function InstanceStep(s: Sequent, p: Judgement, e: Formula): Proof
    requires p.p.Forall?
  {
    Proof([Obligation(Sequent(Without(s.gamma, p) + [Instance(p, e)], s.delta))], s, InstanceRule(s))
  }

  /** The steps for assumption `p`, one per ground whose instance is not assumed yet. */
  function InstancesOf(gs: seq<Formula>, s: Sequent, p: Judgement): seq<Proof>
  {
    if |gs| == 0 || !p.p.Forall? then []
    else
      var rest := InstancesOf(gs[..|gs| - 1], s, p);
      var e := gs[|gs| - 1];
      if Instance(p, e) in s.gamma then rest else rest + [InstanceStep(s, p, e)]
  }

  /** The set the tactic builds from the first `n` assumptions. */
  function InstantiateUpTo(gs: seq<Formula>, s: Sequent, n: nat): seq<Proof>
    requires n <= |s.gamma|
  {
    if n == 0 then [] else AddAll(InstantiateUpTo(gs, s, n - 1), InstancesOf(gs, s, s.gamma[n - 1]))
  }

  function InstantiateProofs(gs: seq<Formula>, s: Sequent): seq<Proof>
  {
    InstantiateUpTo(gs, s, |s.gamma|)
  }

  // ---------------------------------------------------------------------
  // Applying one rule
  // ---------------------------------------------------------------------

  /** `[p for p in g if p not in used]` */
  function Unused(g: seq<Judgement>, used: seq<Judgement>): (r: seq<Judgement>)
    ensures forall j :: j in r <==> j in g && j !in used
  {
    if |g| == 0 then []
    else
      var front := g[..|g| - 1];
      assert forall j :: j in g <==> j in front || j == g[|g| - 1];
      Unused(front, used) + (if g[|g| - 1] !in used then [g[|g| - 1]] else [])
  }

  /**
    * The step for one match `rho` of the rule's conclusion: each premise is
    * the rule's premise under `rho`, its context joined with the
    * assumptions of `s` that the match did not use.
    */
  function RuleStep(r: Rule, s: Sequent, rho: Substitution): Proof
  {
    var red := Unused(s.gamma, ApplySequent(r.conclusion, rho).gamma);
    Proof(seq(|r.premises|, i requires 0 <= i < |r.premises| =>
            var prem := ApplySequent(r.premises[i], rho);
            Obligation(Sequent(Dedup(prem.gamma + red), prem.delta))),
          s, r)
  }

  function RuleStepsOf(r: Rule, s: Sequent, rhos: seq<Substitution>): seq<Proof>
  {
    if |rhos| == 0 then [] else Add(RuleStepsOf(r, s, rhos[..|rhos| - 1]), RuleStep(r, s, rhos[|rhos| - 1]))
  }

  function RuleProofs(r: Rule, s: Sequent): seq<Proof>
  {
    RuleStepsOf(r, s, MatchsSequent(r.conclusion, s, Some(map[])))
  }

  // ---------------------------------------------------------------------
  // Splicing proofs into open branches
  // ---------------------------------------------------------------------

  /**
    * `chain`: a sub-proof (or bare premise) whose conclusion has an entry
    * in `chains` is replaced by that entry; every other step is kept with
    * its premises spliced in turn.
    */
  function Chain(pf: Proof, chains: map<Sequent, Proof>): Proof
    decreases pf
  {
    if Conclusion(pf) in chains then chains[Conclusion(pf)]
    else
      match pf
      case Obligation(_) => pf
      case Proof(prems, c, r) =>
        Proof(seq(|prems|, i requires 0 <= i < |prems| => Chain(prems[i], chains)), c, r)
  }

  method ChainBranches(pf: Proof, chains: map<Sequent, Proof>) returns (r: Proof)
    ensures r == Chain(pf, chains)
    decreases pf
  {
    if Conclusion(pf) in chains {
      return chains[Conclusion(pf)];
    }
    if pf.Obligation? {
      return pf;
    }
    var prems: seq<Proof> := [];
    var i := 0;
    while i < |pf.premises|
      invariant 0 <= i <= |pf.premises|
      invariant |prems| == i && forall k :: 0 <= k < i ==> prems[k] == Chain(pf.premises[k], chains)
    {
      var p := ChainBranches(pf.premises[i], chains);
      prems := prems + [p];
      i := i + 1;
    }
    r := Proof(prems, pf.conclusion, pf.rule);
  }

  /** `{ob: comb[i] for i, ob in enumerate(obs)}`: the map keeps the entry of the last occurrence. */
  function ChainMap(obs: seq<Sequent>, comb: seq<Proof>): map<Sequent, Proof>
    requires |comb| == |obs|
  {
    if |obs| == 0 then map[]
    else
      var n := |obs| - 1;
      ChainMap(obs[..n], comb[..n])[obs[n] := comb[n]]
  }

  /** The map files each obligation under a proof supplied for one of its occurrences, the last one winning. */
  lemma {:induction false} ChainMapMembers(obs: seq<Sequent>, comb: seq<Proof>)
    requires |comb| == |obs|
    ensures forall k :: k in ChainMap(obs, comb) <==> k in obs
    ensures forall k :: k in ChainMap(obs, comb) ==>
      exists i :: 0 <= i < |obs| && obs[i] == k && ChainMap(obs, comb)[k] == comb[i]
    ensures |obs| > 0 ==> ChainMap(obs, comb)[obs[|obs| - 1]] == comb[|obs| - 1]
  {
    if |obs| > 0 {
      var n := |obs| - 1;
      ChainMapMembers(obs[..n], comb[..n]);
      assert forall k :: k in obs <==> k in obs[..n] || k == obs[n];
      assert forall i :: 0 <= i < n ==> obs[..n][i] == obs[i] && comb[..n][i] == comb[i];
    }
  }

  /** `[ob for ob in obs if ob != s]` */
  function DropGoal(obs: seq<Sequent>, s: Sequent): (r: seq<Sequent>)
    ensures forall ob :: ob in r <==> ob in obs && ob != s
  {
    if |obs| == 0 then []
    else
      var front := obs[..|obs| - 1];
      assert forall ob :: ob in obs <==> ob in front || ob == obs[|obs| - 1];
      DropGoal(front, s) + (if obs[|obs| - 1] != s then [obs[|obs| - 1]] else [])
  }

  /** Nothing is left once the goal is dropped exactly when every obligation is the goal. */
  lemma DropGoalEmpty(obs: seq<Sequent>, s: Sequent)
    ensures DropGoal(obs, s) == [] <==> forall ob :: ob in obs ==> ob == s
  {
    var r := DropGoal(obs, s);
    assert |r| > 0 ==> r[0] in r;
  }


  /** Each of `xs` in front of each of `tails`, `xs`-major. */
  function Prepend<T>(xs: seq<T>, tails: seq<seq<T>>): seq<seq<T>>
  {
    if |xs| == 0 then []
    else seq(|tails|, i requires 0 <= i < |tails| => [xs[0]] + tails[i]) + Prepend(xs[1..], tails)
  }

  /** `itertools.product(*ls)`: every choice of one element from each list, in lexicographic order. */
  function Product<T>(ls: seq<seq<T>>): seq<seq<T>>
  {
    if |ls| == 0 then [[]] else Prepend(ls[0], Product(ls[1..]))
  }

  lemma {:induction false} PrependMembers<T(!new)>(xs: seq<T>, tails: seq<seq<T>>)
    ensures forall c :: c in Prepend(xs, tails) <==> |c| > 0 && c[0] in xs && c[1..] in tails
    ensures |xs| > 0 && |tails| > 0 ==> |Prepend(xs, tails)| > 0
  {
    if |xs| > 0 {
      var here := seq(|tails|, i requires 0 <= i < |tails| => [xs[0]] + tails[i]);
      assert forall c :: c in here <==> |c| > 0 && c[0] == xs[0] && c[1..] in tails by {
        forall c | |c| > 0 && c[0] == xs[0] && c[1..] in tails
          ensures c in here
        {
          var i :| 0 <= i < |tails| && tails[i] == c[1..];
          assert here[i] == c;
        }
      }
      PrependMembers(xs[1..], tails);
      assert forall x :: x in xs <==> x == xs[0] || x in xs[1..];
    }
  }

  /**
    * A combination is in the product exactly when it picks one element
    * from each list; when no list is empty the product is not empty.
    */
  lemma {:induction false} ProductMembers<T(!new)>(ls: seq<seq<T>>)
    ensures forall c :: c in Product(ls) <==> |c| == |ls| && forall i :: 0 <= i < |ls| ==> c[i] in ls[i]
    ensures (forall i :: 0 <= i < |ls| ==> |ls[i]| > 0) ==> |Product(ls)| > 0
  {
    if |ls| > 0 {
      var tails := Product(ls[1..]);
      ProductMembers(ls[1..]);
      PrependMembers(ls[0], tails);
      forall c
        ensures c in Product(ls) <==> |c| == |ls| && forall i :: 0 <= i < |ls| ==> c[i] in ls[i]
      {
        if |c| > 0 {
          assert forall i :: 1 <= i < |c| ==> c[1..][i - 1] == c[i];
          assert forall i :: 0 <= i < |ls| - 1 ==> ls[1..][i] == ls[i + 1];
        }
      }
      assert forall i :: 0 <= i < |ls| - 1 ==> ls[1..][i] == ls[i + 1];
    }
  }

  /** Every combination has one entry per list. */
  lemma ProductLengths<T(!new)>(ls: seq<seq<T>>)
    ensures forall c :: c in Product(ls) ==> |c| == |ls|
  {
    ProductMembers(ls);
  }

  /** Insert into `acc` the splice of each combination into `pf1`. */
  function ChainInto(acc: seq<Proof>, pf1: Proof, obs: seq<Sequent>, combs: seq<seq<Proof>>): seq<Proof>
    requires forall c :: c in combs ==> |c| == |obs|
  {
    if |combs| == 0 then acc
    else
      var n := |combs| - 1;
      Add(ChainInto(acc, pf1, obs, combs[..n]), Chain(pf1, ChainMap(obs, combs[n])))
  }

  // ---------------------------------------------------------------------
  // Applying tactics
  // ---------------------------------------------------------------------

  /** The proofs a tactic proposes for `s`. */
  function Apply(t: Tactic, s: Sequent): seq<Proof>
    decreases TacticSize(t), 2, 0
  {
    match t
    case InstantiateForallTactic(gs) => InstantiateProofs(gs, s)
    case SignTactic(cred, ag) => SignProofs(cred, ag, s)
    case RuleTactic(r) => RuleProofs(r, s)
    case ThenTactic(ts, pass) => ThenProofs(ts, pass, s)
    case OrElseTactic(ts) => OrElseProofs(ts, s)
  }

  /** The first element of `xs` that satisfies `p`. */
  function FirstWhere<T>(xs: seq<T>, p: T -> bool): Option<T>
  {
    if |xs| == 0 then None
    else if p(xs[0]) then Some(xs[0])
    else FirstWhere(xs[1..], p)
  }

  predicate LeavesNothing(pf: Proof)
  {
    Verify(pf) == []
  }

  /** The first proof of the list that leaves no obligation. */
  function FirstClosed(pfs: seq<Proof>): Option<Proof>
  {
    FirstWhere(pfs, LeavesNothing)
  }

  /** `get_one_proof`: the first closed proof among those the tactic proposes. */
  function GetOneProof(s: Sequent, t: Tactic): Option<Proof>
    decreases TacticSize(t), 3, 0
  {
    FirstClosed(Apply(t, s))
  }

  /**
    * The sign tactic: with the credential and `iskey(agent, k)` assumed and
    * `agent says P` not yet assumed, cut in `agent says P`, proved by
    * `sign` from two identity steps.
    */
  function SignProofs(cred: Formula, ag: Formula, s: Sequent): seq<Proof>
    decreases 2, 1, 0
  {
    if !(cred.App? && |cred.args| >= 2) then []
    else
      var says := App(SAYS, 2, [ag, cred.args[0]]);
      var iskey := App(ISKEY, 2, [ag, cred.args[1]]);
      if !(Proposition(cred) in s.gamma && Proposition(iskey) in s.gamma) then []
      else if Proposition(says) in s.gamma then []
      else
        IdentityFinds(s.gamma, iskey);
        IdentityFinds(s.gamma, cred);
        var pfIsKey := GetOneProof(Sequent(s.gamma, Proposition(iskey)), RuleTactic(ProofRules.identityRule)).value;
        var pfCred := GetOneProof(Sequent(s.gamma, Proposition(cred)), RuleTactic(ProofRules.identityRule)).value;
        var cutGoal := Proof([pfIsKey, pfCred], Sequent(s.gamma, Proposition(says)), ProofRules.signRule);
        var newGoal := Sequent(s.gamma + [Proposition(says)], s.delta);
        var rule := if s.delta.Proposition? then ProofRules.cutRule else ProofRules.affCutRule;
        [Proof([cutGoal, Obligation(newGoal)], s, rule)]
  }

  /**
    * The sequence combinator: the first tactic's proofs, with the rest of
    * the sequence applied to their open branches; when the first tactic
    * finds nothing, the rest applies to `s` itself if `pass` is set.
    */
  function ThenProofs(ts: seq<Tactic>, pass: bool, s: Sequent): seq<Proof>
    decreases 1 + TacticsSize(ts), 1, 0
  {
    if |ts| == 0 then []
    else
      var rest := ThenTactic(ts[1..], pass);
      var pfs1 := Apply(ts[0], s);
      if |pfs1| == 0 then (if pass then Apply(rest, s) else [])
      else ThenEach(pfs1, rest, s, [])
  }

  /**
    * The loop over the first tactic's proofs: a proof with no obligation
    * other than `s` is the whole answer; otherwise each combination of
    * proofs for its obligations is spliced in and collected.
    */
  function ThenEach(pfs1: seq<Proof>, rest: Tactic, s: Sequent, acc: seq<Proof>): seq<Proof>
    decreases TacticSize(rest), 4, |pfs1|
  {
    if |pfs1| == 0 then acc
    else
      var pf1 := pfs1[0];
      var obs := DropGoal(Verify(pf1), s);
      if |obs| == 0 then [pf1]
      else ThenEach(pfs1[1..], rest, s, ThenSplices(acc, pf1, obs, rest))
  }

  /** `acc` with the splice into `pf1` of every combination of proofs for its obligations `obs`. */
  function ThenSplices(acc: seq<Proof>, pf1: Proof, obs: seq<Sequent>, rest: Tactic): seq<Proof>
    decreases TacticSize(rest), 3, 1
  {
    ProductLengths(Choices(obs, rest));
    ChainInto(acc, pf1, obs, Product(Choices(obs, rest)))
  }

  /** For each obligation, the proofs the remaining tactics find, or the obligation itself. */
  function Choices(obs: seq<Sequent>, rest: Tactic): (r: seq<seq<Proof>>)
    ensures |r| == |obs| && forall i :: 0 <= i < |obs| ==> |r[i]| > 0
    decreases TacticSize(rest), 3, 0
  {
    seq(|obs|, i requires 0 <= i < |obs| =>
      var a := Apply(rest, obs[i]);
      if |a| > 0 then a else [Obligation(obs[i])])
  }

  /** The choice combinator: the proofs of the first tactic that finds any. */
  function OrElseProofs(ts: seq<Tactic>, s: Sequent): seq<Proof>
    decreases 1 + TacticsSize(ts), 1, 0
  {
    if |ts| == 0 then []
    else
      var pfs := Apply(ts[0], s);
      if |pfs| == 0 then Apply(OrElseTactic(ts[1..]), s) else pfs
  }

  /** `prove`: `->L` followed by identity steps, passing on when `->L` does not apply. */
  function Prove(s: Sequent): Option<Proof>
  {
    GetOneProof(s, ThenTactic([RuleTactic(ProofRules.impLeftRule), RuleTactic(ProofRules.identityRule)], true))
  }

  // ---------------------------------------------------------------------
  // The identity rule tactic closes an assumed goal
  // ---------------------------------------------------------------------

  /** The conclusion of `id` matches a goal among the assumptions, binding `P` to the goal. */
  lemma IdentityMatches(g: seq<Judgement>, f: Formula)
    requires Proposition(f) in g
    ensures map["P" := f] in MatchsSequent(ProofRules.identityRule.conclusion, Sequent(g, Proposition(f)), Some(map[]))
  {
    var s := Sequent(g, Proposition(f));
    var id := ProofRules.identityRule;
    var i :| 0 <= i < |g| && g[i] == Proposition(f);
    var rhoP: Substitution := map["P" := f];
    // The goals match, binding `P` to `f`.
    var deltaEqs := [(id.conclusion.delta, s.delta)];
    var pEqs: Equations := [(ProofRules.P, f)];
    assert FormulaEquations(deltaEqs) == pEqs;
    assert AffirmationBindings(deltaEqs, map[]) == map[];
    assert EqsSize(pEqs) == 1;
    MatchsStepVariable(pEqs, map[], 1);
    assert pEqs[1..] == [];
    assert Matchs(pEqs, Some(map[])) == Some(rhoP);
    assert MatchsJudgement(deltaEqs, Some(map[])) == Some(rhoP);
    // The one template assumption matches the target assumption `i`.
    var q: seq<nat> := [i];
    assert Assignment(q, 1, |g|);
    var eqs := Zip(id.conclusion.gamma, Pick(g, q));
    assert eqs == [(Proposition(ProofRules.P), Proposition(f))];
    assert FormulaEquations(eqs) == pEqs;
    assert AffirmationBindings(eqs, rhoP) == rhoP;
    MatchsStepVariable(pEqs, rhoP, 1);
    assert Matchs(pEqs, Some(rhoP)) == Some(rhoP);
    assert MatchsJudgement(eqs, Some(rhoP)) == Some(rhoP);
    PermutationMatchFound(id.conclusion.gamma, g, Some(rhoP), q, rhoP);
  }

  /** The rule tactic for `id` on an assumed truth goal yields the closed identity step first. */
  lemma IdentityFinds(g: seq<Judgement>, f: Formula)
    requires Proposition(f) in g
    ensures GetOneProof(Sequent(g, Proposition(f)), RuleTactic(ProofRules.identityRule)) ==
            Some(Proof([], Sequent(g, Proposition(f)), ProofRules.identityRule))
    decreases 1, 4, 0
  {
    IdentityProposes(g, f);
    IdentityLeafClosed(g, f);
  }

  /** The identity rule's tactic proposes the one premise-free step for an assumed goal. */
  lemma IdentityProposes(g: seq<Judgement>, f: Formula)
    requires Proposition(f) in g
    ensures Apply(RuleTactic(ProofRules.identityRule), Sequent(g, Proposition(f))) ==
            [Proof([], Sequent(g, Proposition(f)), ProofRules.identityRule)]
    decreases 1, 3, 0
  {
    var s := Sequent(g, Proposition(f));
    var id := ProofRules.identityRule;
    var step := Proof([], s, id);
    IdentityMatches(g, f);
    var rhos := MatchsSequent(id.conclusion, s, Some(map[]));
    assert map["P" := f] in rhos;
    IdentityStepUnique(s);
    RuleStepsOfSame(id, s, rhos, step);
  }

  /** Whatever the match, the identity rule yields the same premise-free step. */
  lemma IdentityStepUnique(s: Sequent)
    ensures forall rho :: RuleStep(ProofRules.identityRule, s, rho) == Proof([], s, ProofRules.identityRule)
  {
    forall rho ensures RuleStep(ProofRules.identityRule, s, rho) == Proof([], s, ProofRules.identityRule) {
      assert |RuleStep(ProofRules.identityRule, s, rho).premises| == 0;
    }
  }

  lemma {:induction false} RuleStepsOfSame(r: Rule, s: Sequent, rhos: seq<Substitution>, step: Proof)
    requires |rhos| > 0 && forall rho :: RuleStep(r, s, rho) == step
    ensures RuleStepsOf(r, s, rhos) == [step]
  {
    if |rhos| > 1 {
      RuleStepsOfSame(r, s, rhos[..|rhos| - 1], step);
    }
  }

  // ---------------------------------------------------------------------
  // The loops of the source
  // ---------------------------------------------------------------------

  method ApplyTactic(t: Tactic, s: Sequent) returns (pfs: seq<Proof>)
    ensures pfs == Apply(t, s)
    decreases TacticSize(t), 2, 0
  {
    match t
    case InstantiateForallTactic(gs) => pfs := ApplyInstantiate(gs, s);
    case SignTactic(cred, ag) => pfs := ApplySign(cred, ag, s);
    case RuleTactic(r) => pfs := ApplyRule(r, s);
    case ThenTactic(ts, pass) => pfs := ApplyThen(ts, pass, s);
    case OrElseTactic(ts) => pfs := ApplyOrElse(ts, s);
  }

  lemma SequenceSmaller(ts: seq<Tactic>, pass: bool)
    requires |ts| > 0
    ensures TacticSize(ts[0]) < 1 + TacticsSize(ts)
    ensures TacticSize(ThenTactic(ts[1..], pass)) < 1 + TacticsSize(ts)
    ensures TacticSize(OrElseTactic(ts[1..])) < 1 + TacticsSize(ts)
  {
  }

  /** The quantifier tactic's two loops: over the assumptions, then over the grounds. */
  method ApplyInstantiate(gs: seq<Formula>, s: Sequent) returns (pfs: seq<Proof>)
    ensures pfs == InstantiateProofs(gs, s)
  {
    pfs := [];
    var i := 0;
    while i < |s.gamma|
      invariant 0 <= i <= |s.gamma|
      invariant pfs == InstantiateUpTo(gs, s, i)
    {
      pfs := InstantiateAssumption(gs, s, s.gamma[i], pfs);
      i := i + 1;
    }
  }

  /** The inner loop: the steps for one assumption, over every ground. */
  method InstantiateAssumption(gs: seq<Formula>, s: Sequent, p: Judgement, before: seq<Proof>) returns (pfs: seq<Proof>)
    ensures pfs == AddAll(before, InstancesOf(gs, s, p))
  {
    pfs := before;
    if p.p.Forall? {
      var j := 0;
      while j < |gs|
        invariant 0 <= j <= |gs|
        invariant pfs == AddAll(before, InstancesOf(gs[..j], s, p))
      {
        var e := gs[j];
        assert gs[..j + 1][..j] == gs[..j];
        var inst := Proposition(ApplyFormula(p.p.p, map[p.p.x := e]));
        if inst !in s.gamma {
          var newGamma := Without(s.gamma, p) + [inst];
          var rule := if s.delta.Proposition? then ProofRules.forallLeftRule else ProofRules.forallLeftAffRule;
          AddAllSnoc(before, InstancesOf(gs[..j], s, p), InstanceStep(s, p, e));
          pfs := Add(pfs, Proof([Obligation(Sequent(newGamma, s.delta))], s, rule));
        }
        j := j + 1;
      }
      assert gs[..j] == gs;
    }
  }

  method ApplySign(cred: Formula, ag: Formula, s: Sequent) returns (pfs: seq<Proof>)
    ensures pfs == SignProofs(cred, ag, s)
    decreases 2, 1, 0
  {
    if !(cred.App? && |cred.args| >= 2) {
      return [];
    }
    var says := App(SAYS, 2, [ag, cred.args[0]]);
    var iskey := App(ISKEY, 2, [ag, cred.args[1]]);
    if !(Proposition(cred) in s.gamma && Proposition(iskey) in s.gamma) {
      return [];
    }
    if Proposition(says) in s.gamma {
      return [];
    }
    IdentityFinds(s.gamma, iskey);
    IdentityFinds(s.gamma, cred);
    var pfIsKey := FindClosedProof(Sequent(s.gamma, Proposition(iskey)), RuleTactic(ProofRules.identityRule));
    var pfCred := FindClosedProof(Sequent(s.gamma, Proposition(cred)), RuleTactic(ProofRules.identityRule));
    var cutGoal := Proof([pfIsKey.value, pfCred.value], Sequent(s.gamma, Proposition(says)), ProofRules.signRule);
    var newGoal := Sequent(s.gamma + [Proposition(says)], s.delta);
    var rule := if s.delta.Proposition? then ProofRules.cutRule else ProofRules.affCutRule;
    pfs := [Proof([cutGoal, Obligation(newGoal)], s, rule)];
  }

  /** One more match adds its step to those of the matches before it. */
  lemma RuleStepsOfSnoc(r: Rule, s: Sequent, rhos: seq<Substitution>, i: nat)
    requires i < |rhos|
    ensures RuleStepsOf(r, s, rhos[..i + 1]) == Add(RuleStepsOf(r, s, rhos[..i]), RuleStep(r, s, rhos[i]))
  {
    assert rhos[..i + 1][..i] == rhos[..i];
  }

  /** The rule tactic's loop over the matches of the rule's conclusion. */
  method ApplyRule(r: Rule, s: Sequent) returns (pfs: seq<Proof>)
    ensures pfs == RuleProofs(r, s)
  {
    var rhos := EnumerateSequentMatches(r.conclusion, s, Some(map[]));
    pfs := [];
    var i := 0;
    while i < |rhos|
      invariant 0 <= i <= |rhos|
      invariant pfs == RuleStepsOf(r, s, rhos[..i])
    {
      RuleStepsOfSnoc(r, s, rhos, i);
      pfs := Add(pfs, RuleStep(r, s, rhos[i]));
      i := i + 1;
    }
    assert rhos[..i] == rhos;
  }

  method ApplyThen(ts: seq<Tactic>, pass: bool, s: Sequent) returns (pfs: seq<Proof>)
    ensures pfs == ThenProofs(ts, pass, s)
    decreases 1 + TacticsSize(ts), 1, 0
  {
    if |ts| == 0 {
      return [];
    }
    var rest := ThenTactic(ts[1..], pass);
    SequenceSmaller(ts, pass);
    var pfs1 := ApplyTactic(ts[0], s);
    if |pfs1| == 0 {
      if pass {
        pfs := ApplyTactic(rest, s);
      } else {
        pfs := [];
      }
      return;
    }
    pfs := [];
    var i := 0;
    while i < |pfs1|
      invariant 0 <= i <= |pfs1|
      invariant ThenEach(pfs1, rest, s, []) == ThenEach(pfs1[i..], rest, s, pfs)
    {
      var pf1 := pfs1[i];
      assert pfs1[i..][0] == pf1 && pfs1[i..][1..] == pfs1[i + 1..];
      var all := VerifyObligations(pf1);
      var obs := DropGoal(all, s);
      if |obs| == 0 {
        return [pf1];
      }
      var choices := ApplyChoices(obs, rest);
      ProductLengths(choices);
      assert ThenSplices(pfs, pf1, obs, rest) == ChainInto(pfs, pf1, obs, Product(choices));
      pfs := ChainEach(pfs, pf1, obs, Product(choices));
      i := i + 1;
    }
  }

  /** The loop over the combinations, splicing each into `pf1`. */
  method ChainEach(acc: seq<Proof>, pf1: Proof, obs: seq<Sequent>, combs: seq<seq<Proof>>) returns (pfs: seq<Proof>)
    requires forall c :: c in combs ==> |c| == |obs|
    ensures pfs == ChainInto(acc, pf1, obs, combs)
  {
    pfs := acc;
    var j := 0;
    while j < |combs|
      invariant 0 <= j <= |combs|
      invariant pfs == ChainInto(acc, pf1, obs, combs[..j])
    {
      assert combs[..j + 1][..j] == combs[..j];
      var pf := ChainBranches(pf1, ChainMap(obs, combs[j]));
      pfs := Add(pfs, pf);
      j := j + 1;
    }
    assert combs[..j] == combs;
  }

  /** What the rest of the sequence proposes for each obligation. */
  method ApplyChoices(obs: seq<Sequent>, rest: Tactic) returns (choices: seq<seq<Proof>>)
    ensures choices == Choices(obs, rest)
    decreases TacticSize(rest), 3, 0
  {
    choices := [];
    var j := 0;
    while j < |obs|
      invariant 0 <= j <= |obs|
      invariant |choices| == j && forall k :: 0 <= k < j ==> choices[k] == Choices(obs, rest)[k]
    {
      var a := ApplyTactic(rest, obs[j]);
      choices := choices + [if |a| > 0 then a else [Obligation(obs[j])]];
      j := j + 1;
    }
  }

  method ApplyOrElse(ts: seq<Tactic>, s: Sequent) returns (pfs: seq<Proof>)
    ensures pfs == OrElseProofs(ts, s)
    decreases 1 + TacticsSize(ts), 1, 0
  {
    if |ts| == 0 {
      return [];
    }
    pfs := ApplyTactic(ts[0], s);
    if |pfs| == 0 {
      pfs := ApplyTactic(OrElseTactic(ts[1..]), s);
    }
  }

  /** `get_one_proof`'s loop. */
  method FindClosedProof(s: Sequent, t: Tactic) returns (r: Option<Proof>)
    ensures r == GetOneProof(s, t)
    decreases TacticSize(t), 3, 0
  {
    var pfs := ApplyTactic(t, s);
    var i := 0;
    while i < |pfs|
      invariant 0 <= i <= |pfs|
      invariant FirstClosed(pfs) == FirstClosed(pfs[i..])
    {
      assert pfs[i..][0] == pfs[i] && pfs[i..][1..] == pfs[i + 1..];
      var obs := VerifyObligations(pfs[i]);
      if |obs| == 0 {
        return Some(pfs[i]);
      }
      i := i + 1;
    }
    return None;
  }

  // ---------------------------------------------------------------------
  // Every proposed proof concludes the goal
  // ---------------------------------------------------------------------

  predicate ConcludeAll(pfs: seq<Proof>, s: Sequent)
  {
    forall pf :: pf in pfs ==> Conclusion(pf) == s
  }

  lemma {:induction false} InstancesOfConclude(gs: seq<Formula>, s: Sequent, p: Judgement)
    ensures ConcludeAll(InstancesOf(gs, s, p), s)
  {
    if |gs| > 0 && p.p.Forall? {
      InstancesOfConclude(gs[..|gs| - 1], s, p);
    }
  }

  lemma {:induction false} InstantiateUpToConclude(gs: seq<Formula>, s: Sequent, n: nat)
    requires n <= |s.gamma|
    ensures ConcludeAll(InstantiateUpTo(gs, s, n), s)
  {
    if n > 0 {
      InstantiateUpToConclude(gs, s, n - 1);
      InstancesOfConclude(gs, s, s.gamma[n - 1]);
    }
  }

  lemma {:induction false} RuleStepsOfConclude(r: Rule, s: Sequent, rhos: seq<Substitution>)
    ensures ConcludeAll(RuleStepsOf(r, s, rhos), s)
  {
    if |rhos| > 0 {
      RuleStepsOfConclude(r, s, rhos[..|rhos| - 1]);
    }
  }

  lemma {:induction false} ChainIntoConclude(acc: seq<Proof>, pf1: Proof, obs: seq<Sequent>, combs: seq<seq<Proof>>, s: Sequent)
    requires forall c :: c in combs ==> |c| == |obs|
    requires ConcludeAll(acc, s) && Conclusion(pf1) == s && s !in obs
    ensures ConcludeAll(ChainInto(acc, pf1, obs, combs), s)
  {
    if |combs| > 0 {
      ChainIntoConclude(acc, pf1, obs, combs[..|combs| - 1], s);
      ChainMapMembers(obs, combs[|combs| - 1]);
    }
  }

  lemma {:induction false} ThenEachConclude(pfs1: seq<Proof>, rest: Tactic, s: Sequent, acc: seq<Proof>)
    requires ConcludeAll(pfs1, s) && ConcludeAll(acc, s)
    ensures ConcludeAll(ThenEach(pfs1, rest, s, acc), s)
    decreases |pfs1|
  {
    if |pfs1| > 0 {
      var pf1 := pfs1[0];
      var obs := DropGoal(Verify(pf1), s);
      if |obs| > 0 {
        var combs := Product(Choices(obs, rest));
        ProductLengths(Choices(obs, rest));
        ChainIntoConclude(acc, pf1, obs, combs, s);
        assert ThenSplices(acc, pf1, obs, rest) == ChainInto(acc, pf1, obs, combs);
        ThenEachConclude(pfs1[1..], rest, s, ThenSplices(acc, pf1, obs, rest));
      }
    }
  }

  /** Whatever a tactic proposes for `s` is a proof of `s`. */
  lemma {:induction false} ApplyConcludes(t: Tactic, s: Sequent)
    ensures ConcludeAll(Apply(t, s), s)
    decreases TacticSize(t), 2, 0
  {
    match t
    case InstantiateForallTactic(gs) => InstantiateUpToConclude(gs, s, |s.gamma|);
    case SignTactic(cred, ag) =>
    case RuleTactic(r) => RuleStepsOfConclude(r, s, MatchsSequent(r.conclusion, s, Some(map[])));
    case ThenTactic(ts, pass) => ThenConcludes(ts, pass, s);
    case OrElseTactic(ts) => OrElseConcludes(ts, s);
  }

  lemma {:induction false} ThenConcludes(ts: seq<Tactic>, pass: bool, s: Sequent)
    ensures ConcludeAll(ThenProofs(ts, pass, s), s)
    decreases 1 + TacticsSize(ts), 1, 0
  {
    if |ts| > 0 {
      SequenceSmaller(ts, pass);
      var rest := ThenTactic(ts[1..], pass);
      ApplyConcludes(ts[0], s);
      if |Apply(ts[0], s)| == 0 {
        if pass {
          ApplyConcludes(rest, s);
        }
      } else {
        ThenEachConclude(Apply(ts[0], s), rest, s, []);
      }
    }
  }

  lemma {:induction false} OrElseConcludes(ts: seq<Tactic>, s: Sequent)
    ensures ConcludeAll(OrElseProofs(ts, s), s)
    decreases 1 + TacticsSize(ts), 1, 0
  {
    if |ts| > 0 {
      SequenceSmaller(ts, true);
      ApplyConcludes(ts[0], s);
      ApplyConcludes(OrElseTactic(ts[1..]), s);
    }
  }

  // ---------------------------------------------------------------------
  // The choice combinator
  // ---------------------------------------------------------------------

  /** Tactics that propose nothing are skipped. */
  lemma {:induction false} OrElseSkips(ts: seq<Tactic>, s: Sequent, i: nat)
    requires i <= |ts| && forall j :: 0 <= j < i ==> Apply(ts[j], s) == []
    ensures Apply(OrElseTactic(ts), s) == Apply(OrElseTactic(ts[i..]), s)
  {
    if i > 0 {
      OrElseSkips(ts, s, i - 1);
      var tail := ts[i - 1..];
      assert tail[0] == ts[i - 1] && tail[1..] == ts[i..];
      assert Apply(OrElseTactic(tail), s) == OrElseProofs(tail, s);
    }
  }

  /** `OrElse` answers with the proofs of its first tactic that finds any, and with nothing if none does. */
  lemma OrElseFirstSuccess(ts: seq<Tactic>, s: Sequent)
    ensures (forall i :: 0 <= i < |ts| ==> Apply(ts[i], s) == []) ==> Apply(OrElseTactic(ts), s) == []
    ensures forall i :: 0 <= i < |ts| && Apply(ts[i], s) != [] && (forall j :: 0 <= j < i ==> Apply(ts[j], s) == []) ==>
      Apply(OrElseTactic(ts), s) == Apply(ts[i], s)
  {
    if forall i :: 0 <= i < |ts| ==> Apply(ts[i], s) == [] {
      OrElseSkips(ts, s, |ts|);
      assert ts[|ts|..] == [];
    }
    forall i | 0 <= i < |ts| && Apply(ts[i], s) != [] && (forall j :: 0 <= j < i ==> Apply(ts[j], s) == [])
      ensures Apply(OrElseTactic(ts), s) == Apply(ts[i], s)
    {
      OrElseSkips(ts, s, i);
      assert ts[i..][0] == ts[i];
    }
  }

  // ---------------------------------------------------------------------
  // Splicing
  // ---------------------------------------------------------------------

  /** Each entry of the map proves the sequent it is filed under. */
  predicate ConcludesKeys(chains: map<Sequent, Proof>)
  {
    forall k :: k in chains ==> Conclusion(chains[k]) == k
  }

  /** Splicing with no entries changes nothing. */
  lemma {:induction false} ChainNothing(pf: Proof)
    ensures Chain(pf, map[]) == pf
    decreases pf
  {
    match pf
    case Obligation(_) =>
    case Proof(prems, c, r) =>
      forall i | 0 <= i < |prems|
        ensures Chain(prems[i], map[]) == prems[i]
      {
        ChainNothing(prems[i]);
      }
      assert seq(|prems|, i requires 0 <= i < |prems| => Chain(prems[i], map[])) == prems;
  }

  /** Splicing in proofs of the right sequents keeps every conclusion, so every step's verdict. */
  lemma ChainConclusion(pf: Proof, chains: map<Sequent, Proof>)
    requires ConcludesKeys(chains)
    ensures Conclusion(Chain(pf, chains)) == Conclusion(pf)
    ensures pf.Proof? && Conclusion(pf) !in chains ==>
      Chain(pf, chains).Proof? && Chain(pf, chains).rule == pf.rule &&
      |Chain(pf, chains).premises| == |pf.premises| &&
      Conclusions(Chain(pf, chains).premises) == Conclusions(pf.premises) &&
      VerifyStep(Chain(pf, chains)) == VerifyStep(pf)
  {
    if pf.Proof? && Conclusion(pf) !in chains {
      var r := Chain(pf, chains);
      forall i | 0 <= i < |pf.premises|
        ensures Conclusion(r.premises[i]) == Conclusion(pf.premises[i])
      {
        if Conclusion(pf.premises[i]) !in chains {
          assert Conclusion(Chain(pf.premises[i], chains)) == Conclusion(pf.premises[i]);
        }
      }
      assert Conclusions(r.premises) == Conclusions(pf.premises);
    }
  }

  /**
    * The obligations of a spliced proof: those of the original proof that
    * were not replaced, and those of the proofs spliced in.
    */
  lemma {:induction false} ChainObligations(pf: Proof, chains: map<Sequent, Proof>)
    requires ConcludesKeys(chains)
    ensures forall ob :: ob in Verify(Chain(pf, chains)) ==>
      (ob in Verify(pf) && ob !in chains) || exists k :: k in chains && ob in Verify(chains[k])
    decreases pf
  {
    if Conclusion(pf) in chains || pf.Obligation? {
      return;
    }
    var r := Chain(pf, chains);
    ChainConclusion(pf, chains);
    if !VerifyStep(pf) {
      return;
    }
    var prems, prems' := pf.premises, r.premises;
    forall ob | ob in Verify(r)
      ensures (ob in Verify(pf) && ob !in chains) || exists k :: k in chains && ob in Verify(chains[k])
    {
      var subs, subs' := SubObligations(pf), SubObligations(r);
      assert Verify(r) == BareObligations(prems') + Flatten(subs');
      assert Verify(pf) == BareObligations(prems) + Flatten(subs);
      if ob in BareObligations(prems') {
        BareObligationsMembers(prems', ob);
        var i :| 0 <= i < |prems'| && prems'[i] == Obligation(ob);
        if Conclusion(prems[i]) in chains {
          assert chains[Conclusion(prems[i])] == Obligation(ob);
        } else {
          assert prems[i] == Obligation(ob);
          BareObligationsMembers(prems, ob);
        }
      } else {
        FlattenMembers(subs', ob);
        var i :| 0 <= i < |subs'| && ob in subs'[i];
        assert prems'[i].Proof? && ob in Verify(Chain(prems[i], chains));
        ChainObligations(prems[i], chains);
        if ob in Verify(prems[i]) && ob !in chains {
          FlattenMembers(subs, ob);
        }
      }
    }
  }

  /** The obligations of a premise of an accepted step are obligations of the step. */
  lemma PremiseObligations(pf: Proof, i: nat)
    requires pf.Proof? && VerifyStep(pf) && i < |pf.premises|
    ensures forall ob :: ob in Verify(pf.premises[i]) ==> ob in Verify(pf)
  {
    var prems := pf.premises;
    var subs := SubObligations(pf);
    forall ob | ob in Verify(prems[i])
      ensures ob in Verify(pf)
    {
      if prems[i].Obligation? {
        BareObligationsMembers(prems, ob);
      } else {
        FlattenMembers(subs, ob);
      }
    }
  }

  /** Closed proofs for all of a proof's obligations close it once spliced in. */
  lemma {:induction false} ChainCloses(pf: Proof, chains: map<Sequent, Proof>)
    requires ConcludesKeys(chains)
    requires forall k :: k in chains ==> Closed(chains[k])
    requires forall ob :: ob in Verify(pf) ==> ob in chains
    ensures Closed(Chain(pf, chains))
    decreases pf
  {
    assert pf.Obligation? ==> pf.sequent in Verify(pf);
    assert pf.Proof? && !VerifyStep(pf) ==> pf.conclusion in Verify(pf);
    if Conclusion(pf) !in chains {
      var r := Chain(pf, chains);
      ChainConclusion(pf, chains);
      forall i | 0 <= i < |pf.premises|
        ensures Closed(r.premises[i])
      {
        PremiseObligations(pf, i);
        ChainCloses(pf.premises[i], chains);
      }
    }
  }

  // ---------------------------------------------------------------------
  // The sequence combinator
  // ---------------------------------------------------------------------

  lemma ThenEachDone(pfs1: seq<Proof>, rest: Tactic, s: Sequent, acc: seq<Proof>)
    requires |pfs1| > 0 && DropGoal(Verify(pfs1[0]), s) == []
    ensures ThenEach(pfs1, rest, s, acc) == [pfs1[0]]
  {
  }

  lemma ThenEachNext(pfs1: seq<Proof>, rest: Tactic, s: Sequent, acc: seq<Proof>)
    requires |pfs1| > 0 && DropGoal(Verify(pfs1[0]), s) != []
    ensures var obs := DropGoal(Verify(pfs1[0]), s);
      ThenEach(pfs1, rest, s, acc) == ThenEach(pfs1[1..], rest, s, ThenSplices(acc, pfs1[0], obs, rest))
  {
  }

  /** The first proof with no obligation other than the goal ends the loop, as the whole answer. */
  lemma {:induction false} ThenEachStopsAt(pfs1: seq<Proof>, rest: Tactic, s: Sequent, acc: seq<Proof>, j: nat)
    requires j < |pfs1|
    requires DropGoal(Verify(pfs1[j]), s) == []
    requires forall k :: 0 <= k < j ==> DropGoal(Verify(pfs1[k]), s) != []
    ensures ThenEach(pfs1, rest, s, acc) == [pfs1[j]]
    decreases j
  {
    if j == 0 {
      ThenEachDone(pfs1, rest, s, acc);
    } else {
      ThenEachNext(pfs1, rest, s, acc);
      FirstShutTail(pfs1, s, j);
      ThenEachStopsAt(pfs1[1..], rest, s, ThenSplices(acc, pfs1[0], DropGoal(Verify(pfs1[0]), s), rest), j - 1);
    }
  }

  /** Past a proof with obligations left, the first one without moves one place forward. */
  lemma FirstShutTail(pfs1: seq<Proof>, s: Sequent, j: nat)
    requires 0 < j < |pfs1|
    requires DropGoal(Verify(pfs1[j]), s) == []
    requires forall k :: 0 <= k < j ==> DropGoal(Verify(pfs1[k]), s) != []
    ensures DropGoal(Verify(pfs1[1..][j - 1]), s) == []
    ensures forall k :: 0 <= k < j - 1 ==> DropGoal(Verify(pfs1[1..][k]), s) != []
  {
    assert pfs1[1..][j - 1] == pfs1[j];
    forall k | 0 <= k < j - 1
      ensures DropGoal(Verify(pfs1[1..][k]), s) != []
    {
      assert pfs1[1..][k] == pfs1[k + 1];
    }
  }

  /**
    * When the first tactic proposes a proof whose only obligation is the
    * goal itself, the first such proof is the sequence's whole answer.
    */
  lemma ThenClosedAlone(ts: seq<Tactic>, pass: bool, s: Sequent, j: nat)
    requires |ts| > 0 && j < |Apply(ts[0], s)|
    requires forall ob :: ob in Verify(Apply(ts[0], s)[j]) ==> ob == s
    requires forall k :: 0 <= k < j ==> exists ob :: ob in Verify(Apply(ts[0], s)[k]) && ob != s
    ensures Apply(ThenTactic(ts, pass), s) == [Apply(ts[0], s)[j]]
  {
    var pfs1 := Apply(ts[0], s);
    var rest := ThenTactic(ts[1..], pass);
    assert Apply(ThenTactic(ts, pass), s) == ThenEach(pfs1, rest, s, []);
    DropGoalEmpty(Verify(pfs1[j]), s);
    forall k | 0 <= k < j
      ensures DropGoal(Verify(pfs1[k]), s) != []
    {
      DropGoalEmpty(Verify(pfs1[k]), s);
    }
    ThenEachStopsAt(pfs1, rest, s, [], j);
  }

  /** `pf` is the splice into `pf1` of one combination of proofs for the obligations `obs`. */
  predicate SpliceOf(pf1: Proof, obs: seq<Sequent>, rest: Tactic, pf: Proof)
  {
    exists c :: |c| == |obs| && c in Product(Choices(obs, rest)) && pf == Chain(pf1, ChainMap(obs, c))
  }

  /** The same, for the obligations of `pf1` other than the goal. */
  predicate Splice(pf1: Proof, s: Sequent, rest: Tactic, pf: Proof)
  {
    SpliceOf(pf1, DropGoal(Verify(pf1), s), rest, pf)
  }

  lemma {:induction false} ChainIntoMembers(acc: seq<Proof>, pf1: Proof, obs: seq<Sequent>, combs: seq<seq<Proof>>, pf: Proof)
    requires forall c :: c in combs ==> |c| == |obs|
    requires pf in ChainInto(acc, pf1, obs, combs)
    ensures pf in acc || exists c :: c in combs && pf == Chain(pf1, ChainMap(obs, c))
  {
    if |combs| > 0 {
      var n := |combs| - 1;
      if pf != Chain(pf1, ChainMap(obs, combs[n])) {
        ChainIntoMembers(acc, pf1, obs, combs[..n], pf);
      }
    }
  }

  lemma ThenSplicesMembers(acc: seq<Proof>, pf1: Proof, obs: seq<Sequent>, rest: Tactic, pf: Proof)
    requires pf in ThenSplices(acc, pf1, obs, rest)
    ensures pf in acc || SpliceOf(pf1, obs, rest, pf)
  {
    ProductLengths(Choices(obs, rest));
    ChainIntoMembers(acc, pf1, obs, Product(Choices(obs, rest)), pf);
  }

  /** `pf` comes from `pf1`: it is `pf1` itself, with no obligation but the goal, or a splice into it. */
  predicate FromFirst(pf1: Proof, s: Sequent, rest: Tactic, pf: Proof)
  {
    (pf == pf1 && DropGoal(Verify(pf1), s) == []) || Splice(pf1, s, rest, pf)
  }

  lemma {:induction false} ThenEachMembers(pfs1: seq<Proof>, rest: Tactic, s: Sequent, acc: seq<Proof>, pf: Proof)
    requires pf in ThenEach(pfs1, rest, s, acc)
    ensures pf in acc || exists k :: 0 <= k < |pfs1| && FromFirst(pfs1[k], s, rest, pf)
    decreases |pfs1|
  {
    if |pfs1| > 0 {
      var obs := DropGoal(Verify(pfs1[0]), s);
      if obs == [] {
        ThenEachDone(pfs1, rest, s, acc);
        assert FromFirst(pfs1[0], s, rest, pf);
      } else {
        ThenEachNext(pfs1, rest, s, acc);
        var acc' := ThenSplices(acc, pfs1[0], obs, rest);
        var tail := pfs1[1..];
        ThenEachMembers(tail, rest, s, acc', pf);
        if pf in acc' {
          ThenSplicesMembers(acc, pfs1[0], obs, rest, pf);
          if pf !in acc {
            assert FromFirst(pfs1[0], s, rest, pf);
          }
        } else {
          var k :| 0 <= k < |tail| && FromFirst(tail[k], s, rest, pf);
          assert tail[k] == pfs1[k + 1];
        }
      }
    }
  }

  /** Every choice for an obligation concludes that obligation. */
  lemma ChoicesConclude(obs: seq<Sequent>, rest: Tactic, i: nat, pf: Proof)
    requires i < |obs| && pf in Choices(obs, rest)[i]
    ensures Conclusion(pf) == obs[i]
  {
    ApplyConcludes(rest, obs[i]);
  }

  /** The proofs a combination supplies conclude the obligations they are filed under. */
  lemma SpliceMapConcludes(obs: seq<Sequent>, rest: Tactic, c: seq<Proof>)
    requires |c| == |obs| && c in Product(Choices(obs, rest))
    ensures ConcludesKeys(ChainMap(obs, c))
  {
    var choices := Choices(obs, rest);
    ProductMembers(choices);
    var m := ChainMap(obs, c);
    ChainMapMembers(obs, c);
    forall k | k in m
      ensures Conclusion(m[k]) == k
    {
      var i :| 0 <= i < |obs| && obs[i] == k && m[k] == c[i];
      ChoicesConclude(obs, rest, i, c[i]);
    }
  }

  /**
    * The obligations of a splice: the goal itself, or obligations of the
    * proofs found for the branches of the first proof.
    */
  lemma SpliceObligations(pf1: Proof, s: Sequent, rest: Tactic, c: seq<Proof>)
    requires |c| == |DropGoal(Verify(pf1), s)| && c in Product(Choices(DropGoal(Verify(pf1), s), rest))
    ensures var obs := DropGoal(Verify(pf1), s);
      forall ob :: ob in Verify(Chain(pf1, ChainMap(obs, c))) ==>
        ob == s || exists i :: 0 <= i < |obs| && ob in Verify(c[i])
  {
    var obs := DropGoal(Verify(pf1), s);
    var m := ChainMap(obs, c);
    ChainMapMembers(obs, c);
    SpliceMapConcludes(obs, rest, c);
    ChainObligations(pf1, m);
    forall ob | ob in Verify(Chain(pf1, m))
      ensures ob == s || exists i :: 0 <= i < |obs| && ob in Verify(c[i])
    {
      if !(ob in Verify(pf1) && ob !in m) {
        var k :| k in m && ob in Verify(m[k]);
        var i :| 0 <= i < |obs| && obs[i] == k && m[k] == c[i];
      }
    }
  }


  /**
    * Every proof the sequence proposes, when its first tactic proposes
    * any, is a first-tactic proof whose only obligation is the goal, or a
    * first-tactic proof with proofs from the rest of the sequence spliced
    * into its other obligations.
    */
  lemma ThenProposals(ts: seq<Tactic>, pass: bool, s: Sequent, pf: Proof)
    requires |ts| > 0 && Apply(ts[0], s) != [] && pf in Apply(ThenTactic(ts, pass), s)
    ensures exists k :: 0 <= k < |Apply(ts[0], s)| && FromFirst(Apply(ts[0], s)[k], s, ThenTactic(ts[1..], pass), pf)
  {
    var pfs1 := Apply(ts[0], s);
    var rest := ThenTactic(ts[1..], pass);
    assert Apply(ThenTactic(ts, pass), s) == ThenEach(pfs1, rest, s, []);
    ThenEachMembers(pfs1, rest, s, [], pf);
  }

  // ---------------------------------------------------------------------
  // The sign tactic
  // ---------------------------------------------------------------------

  /** An identity step on an assumed truth goal is closed. */
  lemma IdentityLeafClosed(g: seq<Judgement>, f: Formula)
    requires Proposition(f) in g
    ensures Verify(Proof([], Sequent(g, Proposition(f)), ProofRules.identityRule)) == []
  {
    var pf := Proof([], Sequent(g, Proposition(f)), ProofRules.identityRule);
    assert StepAccepted(pf.conclusion, Conclusions(pf.premises), "id");
    assert SubObligations(pf) == [];
  }

  /**
    * A `sign` step over proofs of `iskey(A, k)` and of the credential is
    * accepted exactly when the credential is a `sign` formula.
    */
  lemma SignStepAccepted(pk: Proof, pc: Proof, g: seq<Judgement>, cred: Formula, ag: Formula)
    requires cred.App? && |cred.args| >= 2
    requires Conclusion(pk) == Sequent(g, Proposition(App(ISKEY, 2, [ag, cred.args[1]])))
    requires Conclusion(pc) == Sequent(g, Proposition(cred))
    ensures VerifyStep(Proof([pk, pc], Sequent(g, Proposition(App(SAYS, 2, [ag, cred.args[0]]))), ProofRules.signRule))
      <==> cred.op == SIGN
  {
    var says := Sequent(g, Proposition(App(SAYS, 2, [ag, cred.args[0]])));
    var pf := Proof([pk, pc], says, ProofRules.signRule);
    var ps := Conclusions(pf.premises);
    assert ps == [Conclusion(pk), Conclusion(pc)];
    assert VerifySign(says, ps) <==> cred.op == SIGN;
    assert VerifyStep(pf) <==> StepAccepted(says, ps, "sign");
  }

  /** A step the verifier rejects leaves exactly its own conclusion open. */
  lemma RejectedStepOpen(pf: Proof)
    requires pf.Proof? && !VerifyStep(pf)
    ensures Verify(pf) == [pf.conclusion]
  {
  }

  /** An accepted step over closed premises is closed. */
  lemma AcceptedStepClosed(pf: Proof)
    requires pf.Proof? && VerifyStep(pf)
    requires forall i :: 0 <= i < |pf.premises| ==> Closed(pf.premises[i])
    ensures Verify(pf) == []
  {
    VerifyClosed(pf);
  }

  /** Over closed proofs of its premises, the `sign` step is closed or leaves its own conclusion open. */
  lemma SignStepObligations(pk: Proof, pc: Proof, g: seq<Judgement>, cred: Formula, ag: Formula)
    requires cred.App? && |cred.args| >= 2
    requires Closed(pk) && Conclusion(pk) == Sequent(g, Proposition(App(ISKEY, 2, [ag, cred.args[1]])))
    requires Closed(pc) && Conclusion(pc) == Sequent(g, Proposition(cred))
    ensures var says := Sequent(g, Proposition(App(SAYS, 2, [ag, cred.args[0]])));
      Verify(Proof([pk, pc], says, ProofRules.signRule)) == if cred.op == SIGN then [] else [says]
  {
    var says := Sequent(g, Proposition(App(SAYS, 2, [ag, cred.args[0]])));
    var pf := Proof([pk, pc], says, ProofRules.signRule);
    SignStepAccepted(pk, pc, g, cred, ag);
    if cred.op == SIGN {
      AcceptedStepClosed(pf);
    } else {
      RejectedStepOpen(pf);
    }
  }

  /** A cut of `P` leaves the cut proof's obligations after the goal with `P` assumed. */
  lemma CutObligations(cut: Proof, s: Sequent, f: Formula, rule: Rule)
    requires rule == ProofRules.cutRule || rule == ProofRules.affCutRule
    requires cut.Proof? && Conclusion(cut) == Sequent(s.gamma, Proposition(f))
    ensures var next := Sequent(s.gamma + [Proposition(f)], s.delta);
      Verify(Proof([cut, Obligation(next)], s, rule)) == [next] + Verify(cut)
  {
    var next := Sequent(s.gamma + [Proposition(f)], s.delta);
    var pf := Proof([cut, Obligation(next)], s, rule);
    var ps := Conclusions(pf.premises);
    assert ps == [Sequent(s.gamma, Proposition(f)), next];
    assert VerifyCut(s, ps);
    assert StepAccepted(s, ps, rule.name);
    ProofThenOpen(pf, cut, next);
  }

  /** An accepted step over a proof and then an open premise leaves that premise, then the proof's obligations. */
  lemma ProofThenOpen(pf: Proof, a: Proof, b: Sequent)
    requires pf.Proof? && VerifyStep(pf) && pf.premises == [a, Obligation(b)] && a.Proof?
    ensures Verify(pf) == [b] + Verify(a)
  {
    assert pf.premises[..1] == [a] && [a][..0] == [];
    assert BareObligations([a]) == [];
    assert BareObligations(pf.premises) == [b];
    var subs := SubObligations(pf);
    assert subs == [Verify(a), []];
    assert subs[..1] == [Verify(a)] && [Verify(a)][..0] == [];
    assert Flatten([Verify(a)]) == Verify(a);
    assert Flatten(subs) == Flatten(subs[..1]) + subs[1];
  }

  /**
    * The sign tactic proposes nothing unless the credential and the
    * agent's key are assumed and the `says` formula is not; otherwise it
    * proposes one cut whose only open branch is the goal with `says`
    * assumed, provided the credential is a `sign` formula (any other
    * formula leaves the `sign` step open as well).
    */
  lemma SignTacticProposals(cred: Formula, ag: Formula, s: Sequent)
    requires cred.App? && |cred.args| >= 2
    ensures var says := Proposition(App(SAYS, 2, [ag, cred.args[0]]));
      var iskey := Proposition(App(ISKEY, 2, [ag, cred.args[1]]));
      var pfs := Apply(SignTactic(cred, ag), s);
      && (pfs == [] <==> Proposition(cred) !in s.gamma || iskey !in s.gamma || says in s.gamma)
      && (pfs != [] ==>
            && |pfs| == 1 && Conclusion(pfs[0]) == s
            && Verify(pfs[0]) == [Sequent(s.gamma + [says], s.delta)] +
                                 (if cred.op == SIGN then [] else [Sequent(s.gamma, says)]))
  {
    var g := s.gamma;
    var says := App(SAYS, 2, [ag, cred.args[0]]);
    var iskey := App(ISKEY, 2, [ag, cred.args[1]]);
    assert Apply(SignTactic(cred, ag), s) == SignProofs(cred, ag, s);
    if Proposition(cred) in g && Proposition(iskey) in g && Proposition(says) !in g {
      IdentityFinds(g, iskey);
      IdentityFinds(g, cred);
      var idKey := Proof([], Sequent(g, Proposition(iskey)), ProofRules.identityRule);
      var idCred := Proof([], Sequent(g, Proposition(cred)), ProofRules.identityRule);
      var cut := Proof([idKey, idCred], Sequent(g, Proposition(says)), ProofRules.signRule);
      var next := Sequent(g + [Proposition(says)], s.delta);
      var rule := if s.delta.Proposition? then ProofRules.cutRule else ProofRules.affCutRule;
      assert SignProofs(cred, ag, s) == [Proof([cut, Obligation(next)], s, rule)];
      IdentityLeafClosed(g, iskey);
      IdentityLeafClosed(g, cred);
      VerifyClosed(idKey);
      VerifyClosed(idCred);
      SignStepObligations(idKey, idCred, g, cred, ag);
      CutObligations(cut, s, says, rule);
    }
  }

  // ---------------------------------------------------------------------
  // The rule tactic
  // ---------------------------------------------------------------------

  /** Insert `f` of each of `xs` in turn. */
  function AddEach<A, B(==, !new)>(f: A -> B, xs: seq<A>): seq<B>
  {
    if |xs| == 0 then [] else Add(AddEach(f, xs[..|xs| - 1]), f(xs[|xs| - 1]))
  }

  lemma {:induction false} AddEachMembers<A, B(!new)>(f: A -> B, xs: seq<A>, y: B)
    ensures y in AddEach(f, xs) <==> exists i :: 0 <= i < |xs| && y == f(xs[i])
  {
    if |xs| > 0 {
      var n := |xs| - 1;
      AddEachMembers(f, xs[..n], y);
      assert forall i :: 0 <= i < n ==> xs[..n][i] == xs[i];
    }
  }

  lemma {:induction false} RuleStepsOfEach(r: Rule, s: Sequent, rhos: seq<Substitution>)
    ensures RuleStepsOf(r, s, rhos) == AddEach(rho => RuleStep(r, s, rho), rhos)
  {
    if |rhos| > 0 {
      RuleStepsOfEach(r, s, rhos[..|rhos| - 1]);
    }
  }

  lemma RuleStepsOfMembers(r: Rule, s: Sequent, rhos: seq<Substitution>, pf: Proof)
    ensures pf in RuleStepsOf(r, s, rhos) <==> exists i :: 0 <= i < |rhos| && pf == RuleStep(r, s, rhos[i])
  {
    RuleStepsOfEach(r, s, rhos);
    AddEachMembers(rho => RuleStep(r, s, rho), rhos, pf);
  }

  /** The rule tactic proposes exactly one step per match of the rule's conclusion. */
  lemma RuleTacticMembers(r: Rule, s: Sequent, pf: Proof)
    ensures pf in Apply(RuleTactic(r), s) <==>
      exists rho :: rho in MatchsSequent(r.conclusion, s, Some(map[])) && pf == RuleStep(r, s, rho)
  {
    RuleStepsOfMembers(r, s, MatchsSequent(r.conclusion, s, Some(map[])), pf);
  }

  /**
    * Each premise of a rule step is the rule's premise under the match,
    * with the goal's assumptions that the match did not use added.
    */
  lemma RuleStepPremises(r: Rule, s: Sequent, rho: Substitution)
    ensures var pf := RuleStep(r, s, rho);
      && pf.conclusion == s && pf.rule == r && |pf.premises| == |r.premises|
      && forall i :: 0 <= i < |r.premises| ==>
           var prem := ApplySequent(r.premises[i], rho);
           && pf.premises[i].Obligation?
           && pf.premises[i].sequent.delta == prem.delta
           && SetOf(pf.premises[i].sequent.gamma) ==
              SetOf(prem.gamma) + (SetOf(s.gamma) - SetOf(ApplySequent(r.conclusion, rho).gamma))
  {
  }

  /**
    * On a well-formed goal, every step the rule tactic proposes for a rule
    * without quantifiers or holes is one the checker accepts.
    */
  lemma RuleTacticAccepted(i: int, s: Sequent, pf: Proof)
    requires 0 <= i < |ProofRules.Rules| && i !in {5, 6, 7}
    requires WellFormedSequent(s)
    requires pf in Apply(RuleTactic(ProofRules.Rules[i]), s)
    ensures VerifyStep(pf)
  {
    var r := ProofRules.Rules[i];
    ProofRules.FirstOrderConclusions();
    RuleTacticMembers(r, s, pf);
    var rho :| rho in MatchsSequent(r.conclusion, s, Some(map[])) && pf == RuleStep(r, s, rho);
    RuleStepInstance(r, s, rho);
    RuleInstancesAccepted(i, pf, rho);
  }

  /** A step built from a match of a first-order rule conclusion is an instance of the rule. */
  lemma RuleStepInstance(r: Rule, s: Sequent, rho: Substitution)
    requires TemplateSequent(r.conclusion) && WellFormedSequent(s)
    requires rho in MatchsSequent(r.conclusion, s, Some(map[]))
    ensures StepInstance(RuleStep(r, s, rho), rho)
  {
    var pf := RuleStep(r, s, rho);
    MatchsSequentSound(r.conclusion, s, map[], rho);
    var p :| Assignment(p, |r.conclusion.gamma|, |s.gamma|) &&
      (forall k :: 0 <= k < |r.conclusion.gamma| ==> ApplyJudgement(r.conclusion.gamma[k], rho) == s.gamma[p[k]]);
    RuleStepPremises(r, s, rho);
    forall j | j in SetOf(ApplyContext(r.conclusion.gamma, rho))
      ensures j in SetOf(s.gamma)
    {
      var k :| 0 <= k < |r.conclusion.gamma| && ApplyContext(r.conclusion.gamma, rho)[k] == j;
      assert s.gamma[p[k]] == j;
    }
  }

  // ---------------------------------------------------------------------
  // The quantifier tactic
  // ---------------------------------------------------------------------

  lemma {:induction false} InstancesOfMembers(gs: seq<Formula>, s: Sequent, p: Judgement, pf: Proof)
    ensures pf in InstancesOf(gs, s, p) <==>
      p.p.Forall? && exists j :: 0 <= j < |gs| && Instance(p, gs[j]) !in s.gamma && pf == InstanceStep(s, p, gs[j])
  {
    if |gs| > 0 && p.p.Forall? {
      var n := |gs| - 1;
      InstancesOfMembers(gs[..n], s, p, pf);
      assert forall j :: 0 <= j < n ==> gs[..n][j] == gs[j];
    }
  }

  lemma {:induction false} InstantiateUpToMembers(gs: seq<Formula>, s: Sequent, n: nat, pf: Proof)
    requires n <= |s.gamma|
    ensures pf in InstantiateUpTo(gs, s, n) <==> exists i :: 0 <= i < n && pf in InstancesOf(gs, s, s.gamma[i])
  {
    if n > 0 {
      InstantiateUpToMembers(gs, s, n - 1, pf);
      var last := InstancesOf(gs, s, s.gamma[n - 1]);
      assert InstantiateUpTo(gs, s, n) == AddAll(InstantiateUpTo(gs, s, n - 1), last);
      if pf in last {
        assert 0 <= n - 1 < n && pf in InstancesOf(gs, s, s.gamma[n - 1]);
      } else {
        assert forall i :: 0 <= i < n && pf in InstancesOf(gs, s, s.gamma[i]) ==> i < n - 1;
      }
    }
  }

  /**
    * The quantifier tactic proposes one step per quantified assumption and
    * ground whose instance is not assumed already, trading the assumption
    * for that instance.
    */
  lemma InstantiateForallMembers(gs: seq<Formula>, s: Sequent, pf: Proof)
    ensures pf in Apply(InstantiateForallTactic(gs), s) <==>
      exists i, j :: 0 <= i < |s.gamma| && 0 <= j < |gs| && s.gamma[i].p.Forall? &&
        Instance(s.gamma[i], gs[j]) !in s.gamma && pf == InstanceStep(s, s.gamma[i], gs[j])
  {
    InstantiateUpToMembers(gs, s, |s.gamma|, pf);
    if pf in Apply(InstantiateForallTactic(gs), s) {
      var i :| 0 <= i < |s.gamma| && pf in InstancesOf(gs, s, s.gamma[i]);
      InstancesOfMembers(gs, s, s.gamma[i], pf);
    }
    forall i, j | 0 <= i < |s.gamma| && 0 <= j < |gs| && s.gamma[i].p.Forall? &&
        Instance(s.gamma[i], gs[j]) !in s.gamma && pf == InstanceStep(s, s.gamma[i], gs[j])
      ensures pf in InstantiateUpTo(gs, s, |s.gamma|)
    {
      InstancesOfMembers(gs, s, s.gamma[i], pf);
    }
  }

  /** The quantified assumption and the ground term a proposed instance step comes from. */
  lemma InstantiateForallSource(gs: seq<Formula>, s: Sequent, pf: Proof) returns (i: nat, j: nat)
    requires pf in Apply(InstantiateForallTactic(gs), s)
    ensures i < |s.gamma| && j < |gs| && s.gamma[i].p.Forall? && Instance(s.gamma[i], gs[j]) !in s.gamma
    ensures pf == InstanceStep(s, s.gamma[i], gs[j])
  {
    InstantiateForallMembers(gs, s, pf);
    i, j :| 0 <= i < |s.gamma| && 0 <= j < |gs| && s.gamma[i].p.Forall? &&
      Instance(s.gamma[i], gs[j]) !in s.gamma && pf == InstanceStep(s, s.gamma[i], gs[j]);
  }

  /** The image of `v` under `rho`: its binding, or `v` itself. */
  function Lookup(rho: Substitution, v: string): Formula
  {
    if v in rho then rho[v] else Variable(v)
  }

  /** Substitutions that agree on the free variables of a first-order formula agree on it. */
  lemma {:induction false} ApplyAgrees(t: Formula, r1: Substitution, r2: Substitution)
    requires FirstOrder(t)
    requires forall v :: v in FreeVars(t) ==> Lookup(r1, v) == Lookup(r2, v)
    ensures ApplyFormula(t, r1) == ApplyFormula(t, r2)
    decreases t
  {
    match t
    case App(o, n, args) =>
      forall i | 0 <= i < |args|
        ensures ApplyFormula(args[i], r1) == ApplyFormula(args[i], r2)
      {
        assert FreeVars(args[i]) <= FreeVars(t);
        ApplyAgrees(args[i], r1, r2);
      }
    case Variable(x) =>
      assert x in FreeVars(t);
    case _ =>
  }

  /** Substituting well-formed formulas into a first-order formula keeps it well formed. */
  lemma {:induction false} ApplyWellFormed(t: Formula, rho: Substitution)
    requires FirstOrder(t)
    requires forall v :: v in rho ==> WellFormed(rho[v])
    ensures WellFormed(ApplyFormula(t, rho))
    decreases t
  {
    match t
    case App(o, n, args) =>
      forall i | 0 <= i < |args|
        ensures WellFormed(ApplyFormula(args[i], rho))
      {
        ApplyWellFormed(args[i], rho);
      }
    case _ =>
  }

  /** The matcher recovers the ground from an instance whose body mentions the variable. */
  lemma InstanceMatches(p: Judgement, e: Formula)
    requires p.p.Forall? && FirstOrder(p.p.p) && p.p.x in FreeVars(p.p.p) && WellFormed(e)
    ensures ForallInstance(p.p, Instance(p, e).p)
  {
    var x, body := p.p.x, p.p.p;
    var inst := Instance(p, e).p;
    var eqs: Equations := [(body, inst)];
    var sigma: Substitution := map v | v in FreeVars(body) :: if v == x then e else Variable(v);
    // `sigma` solves the equation: it agrees with `x := e` on the body.
    ApplyAgrees(body, sigma, map[x := e]);
    ApplyWellFormed(body, map[x := e]);
    assert Solves(sigma, eqs);
    MatchsCorrect(eqs, map[]);
    var m := Matchs(eqs, Some(map[]));
    assert m.Some?;
    assert Extends(sigma, m.value);
    assert x in m.value && m.value[x] == e;
  }

  /** Trading `p` for an instance that is not assumed yet drops exactly `p` and adds exactly the instance. */
  lemma InstanceContext(g: seq<Judgement>, p: Judgement, inst: Judgement)
    requires p in g && inst !in g
    ensures Removed(g, Without(g, p) + [inst]) == {p}
    ensures Added(g, Without(g, p) + [inst]) == {inst}
  {
  }

  /**
    * A step the quantifier tactic proposes is accepted when the quantified
    * body is first order and mentions its variable, and the ground is well
    * formed.
    */
  lemma InstanceStepAccepted(s: Sequent, p: Judgement, e: Formula)
    requires p in s.gamma && p.p.Forall? && FirstOrder(p.p.p) && p.p.x in FreeVars(p.p.p)
    requires WellFormed(e) && Instance(p, e) !in s.gamma
    ensures VerifyStep(InstanceStep(s, p, e))
  {
    var inst := Instance(p, e);
    InstanceMatches(p, e);
    var pf := InstanceStep(s, p, e);
    var g1 := Without(s.gamma, p) + [inst];
    InstanceContext(s.gamma, p, inst);
    var i :| 0 <= i < |s.gamma| && s.gamma[i] == p;
    assert g1[|g1| - 1] == inst;
    var ps := Conclusions(pf.premises);
    assert ps == [Sequent(g1, s.delta)];
    assert VerifyLeftForall(s, ps);
    assert StepAccepted(s, ps, pf.rule.name);
  }

  /**
    * On assumptions whose quantified bodies are first order and mention
    * their variable, and on well-formed grounds, every step the quantifier
    * tactic proposes is accepted.
    */
  lemma InstantiateForallAccepted(gs: seq<Formula>, s: Sequent, pf: Proof)
    requires forall j :: j in s.gamma && j.p.Forall? ==> FirstOrder(j.p.p) && j.p.x in FreeVars(j.p.p)
    requires forall e :: e in gs ==> WellFormed(e)
    requires pf in Apply(InstantiateForallTactic(gs), s)
    ensures VerifyStep(pf)
  {
    var i, j := InstantiateForallSource(gs, s, pf);
    var p := s.gamma[i];
    assert p in s.gamma;
    InstanceStepAccepted(s, p, gs[j]);
  }

  // ---------------------------------------------------------------------
  // Finding one closed proof
  // ---------------------------------------------------------------------

  lemma {:induction false} FirstWhereSome<T>(xs: seq<T>, p: T -> bool)
    ensures FirstWhere(xs, p).Some? ==> FirstWhere(xs, p).value in xs && p(FirstWhere(xs, p).value)
  {
    if |xs| > 0 && !p(xs[0]) {
      FirstWhereSome(xs[1..], p);
    }
  }

  lemma {:induction false} FirstWhereNone<T>(xs: seq<T>, p: T -> bool)
    ensures FirstWhere(xs, p).None? <==> forall x :: x in xs ==> !p(x)
  {
    if |xs| > 0 {
      FirstWhereNone(xs[1..], p);
      assert forall x :: x in xs <==> x == xs[0] || x in xs[1..];
    }
  }

  lemma {:induction false} FirstWhereAt<T>(xs: seq<T>, p: T -> bool, i: nat)
    requires i < |xs| && p(xs[i])
    requires forall j :: 0 <= j < i ==> !p(xs[j])
    ensures FirstWhere(xs, p) == Some(xs[i])
    decreases i
  {
    if i > 0 {
      assert forall j :: 0 <= j < i - 1 ==> xs[1..][j] == xs[j + 1];
      FirstWhereAt(xs[1..], p, i - 1);
    }
  }

  /**
    * The search returns a closed candidate, comes back empty exactly when
    * no candidate is closed, and returns the first closed candidate.
    */
  lemma FirstClosedFinds(pfs: seq<Proof>)
    ensures FirstClosed(pfs).Some? ==> FirstClosed(pfs).value in pfs && Verify(FirstClosed(pfs).value) == []
    ensures FirstClosed(pfs).None? <==> forall pf :: pf in pfs ==> Verify(pf) != []
    ensures forall i :: 0 <= i < |pfs| && Verify(pfs[i]) == [] && (forall j :: 0 <= j < i ==> Verify(pfs[j]) != []) ==>
      FirstClosed(pfs) == Some(pfs[i])
  {
    FirstWhereSome(pfs, LeavesNothing);
    FirstWhereNone(pfs, LeavesNothing);
    forall i | 0 <= i < |pfs| && Verify(pfs[i]) == [] && (forall j :: 0 <= j < i ==> Verify(pfs[j]) != [])
      ensures FirstClosed(pfs) == Some(pfs[i])
    {
      FirstWhereAt(pfs, LeavesNothing, i);
    }
  }

  /**
    * `get_one_proof` answers with the first closed proof the tactic
    * proposes, a closed proof of the goal, and with `None` exactly when the
    * tactic proposes no closed proof.
    */
  lemma GetOneProofCorrect(s: Sequent, t: Tactic)
    ensures GetOneProof(s, t).Some? ==>
      var pf := GetOneProof(s, t).value;
      pf in Apply(t, s) && Closed(pf) && Conclusion(pf) == s
    ensures GetOneProof(s, t).None? <==> forall pf :: pf in Apply(t, s) ==> !Closed(pf)
  {
    FirstClosedFinds(Apply(t, s));
    ApplyConcludes(t, s);
    forall pf | pf in Apply(t, s)
      ensures Verify(pf) == [] <==> Closed(pf)
    {
      VerifyClosed(pf);
    }
  }

  /** `prove` answers only with closed proofs of its goal. */
  lemma ProveSound(s: Sequent)
    ensures Prove(s).Some? ==> Closed(Prove(s).value) && Conclusion(Prove(s).value) == s
  {
    GetOneProofCorrect(s, ThenTactic([RuleTactic(ProofRules.impLeftRule), RuleTactic(ProofRules.identityRule)], true));
  }
}
