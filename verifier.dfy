/**
  * The proof checker: one acceptance test per inference rule, the dispatch
  * on rule names, and the collection of the obligations a proof leaves open
  * (src/verifier.py). A step that would raise an exception in the source
  * (an argument index past the end of a term) is rejected.
  */
module Verifier {
  import opened Wrappers
  import opened Logic
  import ProofRules
  import Util

  /** The context of a premise, as a set. */
  function PremiseContext(pf: Proof): set<Judgement>
  {
    SetOf(Conclusion(pf).gamma)
  }

  /** What the premises establish; the checks look at nothing else of them. */
  function Conclusions(prems: seq<Proof>): (r: seq<Sequent>)
    ensures |r| == |prems| && forall i :: 0 <= i < |prems| ==> r[i] == Conclusion(prems[i])
  {
    seq(|prems|, i requires 0 <= i < |prems| => Conclusion(prems[i]))
  }

  predicate IsApp(t: Formula, op: Operator)
  {
    t.App? && t.op == op
  }

  /** `id`: no premises, and the goal is a truth judgement among the assumptions. */
  predicate VerifyIdentity(c: Sequent, ps: seq<Sequent>)
  {
    |ps| == 0 && c.delta.Proposition? && c.delta in c.gamma
  }

  /**
    * `botL`: no premises and a truth judgement as goal. The source looks for
    * `false` among the assumptions but does not reject when it is missing.
    */
  predicate VerifyBotL(c: Sequent, ps: seq<Sequent>)
  {
    |ps| == 0 && c.delta.Proposition?
  }

  /** `->R`: goal `P -> Q`; the premise proves `Q` from the assumptions and `P`. */
  predicate VerifyImpRight(c: Sequent, ps: seq<Sequent>)
  {
    && |ps| == 1
    && c.delta.Proposition?
    && IsApp(c.delta.p, IMPLIES)
    && |c.delta.p.args| >= 2
    && var ant, suc := c.delta.p.args[0], c.delta.p.args[1];
       var pc := ps[0];
       && Proposition(suc) == pc.delta
       && SetOf(pc.gamma) <= SetOf(c.gamma) + {Proposition(ant)}
  }

  /** Every assumption `q` the right premise adds comes with `d0 -> q` among the assumptions. */
  predicate ImpLeftAdditionsOk(g: seq<Judgement>, d0: Judgement, g1: seq<Judgement>)
  {
    forall j :: j in g1 && j !in g ==> Proposition(App(IMPLIES, 2, [d0.p, j.p])) in g
  }

  /**
    * `->L` and `->Laff`: an implication among the assumptions; the left
    * premise uses only the assumptions, the right premise keeps the goal.
    */
  predicate VerifyImpLeft(c: Sequent, ps: seq<Sequent>)
  {
    && (exists i :: 0 <= i < |c.gamma| && IsApp(c.gamma[i].p, IMPLIES))
    && |ps| == 2
    && var p0, p1 := ps[0], ps[1];
       && c.delta == p1.delta
       && SetOf(p0.gamma) <= SetOf(c.gamma)
       && ImpLeftAdditionsOk(c.gamma, p0.delta, p1.gamma)
  }

  /** The right-premise assumptions that `->L` accepts not: those without a matching implication. */
  method ImpLeftBadAssumptions(g: seq<Judgement>, d0: Judgement, g1: seq<Judgement>) returns (bad: seq<Formula>)
    ensures forall f :: f in bad <==>
      exists j :: j in g1 && j !in g && j.p == f && Proposition(App(IMPLIES, 2, [d0.p, f])) !in g
    ensures |bad| == 0 <==> ImpLeftAdditionsOk(g, d0, g1)
  {
    var extra := SetOf(g1) - SetOf(g);
    bad := [];
    while extra != {}
      invariant extra <= SetOf(g1) - SetOf(g)
      invariant forall f :: f in bad <==>
        exists j :: j in g1 && j !in g && j !in extra && j.p == f && Proposition(App(IMPLIES, 2, [d0.p, f])) !in g
      decreases |extra|
    {
      var p :| p in extra;
      if Proposition(App(IMPLIES, 2, [d0.p, p.p])) !in g {
        bad := bad + [p.p];
      }
      extra := extra - {p};
    }
    forall j | j in g1 && j !in g && Proposition(App(IMPLIES, 2, [d0.p, j.p])) !in g
      ensures j.p in bad
    {
    }
    if |bad| > 0 {
      assert bad[0] in bad;
    }
  }

  /** The assumptions the premise drops, and the ones it adds. */
  function Removed(g: seq<Judgement>, g1: seq<Judgement>): set<Judgement>
  {
    SetOf(g) - SetOf(g1)
  }

  function Added(g: seq<Judgement>, g1: seq<Judgement>): set<Judgement>
  {
    SetOf(g1) - SetOf(g)
  }

  /** `inst` is the body of the quantified `q` with its variable replaced by what the matcher found. */
  predicate ForallInstance(q: Formula, inst: Formula)
  {
    && q.Forall?
    && var rho := Matchs([(q.p, inst)], Some(map[]));
       && rho.Some?
       && q.x in rho.value
       && ApplyFormula(q.p, map[q.x := rho.value[q.x]]) == inst
  }

  /**
    * `@L` and `@Laff`: a quantified assumption, the same goal, and the
    * premise context differs by exactly one dropped judgement and one added
    * judgement, the added formula an instance of the dropped one.
    */
  predicate VerifyLeftForall(c: Sequent, ps: seq<Sequent>)
  {
    && (exists i :: 0 <= i < |c.gamma| && c.gamma[i].p.Forall?)
    && |ps| == 1
    && var pc := ps[0];
       && c.delta == pc.delta
       && exists i, k :: (
            && 0 <= i < |c.gamma| && 0 <= k < |pc.gamma|
            && Removed(c.gamma, pc.gamma) == {c.gamma[i]}
            && Added(c.gamma, pc.gamma) == {pc.gamma[k]}
            && ForallInstance(c.gamma[i].p, pc.gamma[k].p))
  }

  /**
    * `@R`: goal `forall x. P`; the premise goal matches the body, and the
    * witness chosen for `x` is not a variable of the conclusion.
    */
  predicate VerifyRightForall(c: Sequent, ps: seq<Sequent>)
  {
    && c.delta.Proposition?
    && c.delta.p.Forall?
    && |ps| == 1
    && var q, d := c.delta.p, ps[0].delta;
       var rho := Matchs([(q.p, d.p)], Some(map[]));
       && rho.Some?
       && q.x in rho.value
       && ApplyFormula(q.p, rho.value) == d.p
       && !(rho.value[q.x].Variable? && rho.value[q.x].id in Util.AllVars(Util.OfSequent(c)))
  }

  /** `W`: the same goal from fewer assumptions. */
  predicate VerifyWeaken(c: Sequent, ps: seq<Sequent>)
  {
    && |ps| == 1
    && c.delta == ps[0].delta
    && SetOf(ps[0].gamma) <= SetOf(c.gamma)
  }

  /** `cut` and `affcut`: the right premise may also assume what the left premise proves. */
  predicate VerifyCut(c: Sequent, ps: seq<Sequent>)
  {
    && |ps| == 2
    && var p0, p1 := ps[0], ps[1];
       && c.delta == p1.delta
       && SetOf(p0.gamma) <= SetOf(c.gamma)
       && SetOf(p1.gamma) <= SetOf(c.gamma) + {p0.delta}
  }

  /** `aff`: `A aff P` from `P true`, with no new assumptions. */
  predicate VerifyAff(c: Sequent, ps: seq<Sequent>)
  {
    && |ps| == 1
    && var pc := ps[0];
       && c.delta.Affirmation?
       && pc.delta.Proposition?
       && c.delta.p == pc.delta.p
       && SetOf(pc.gamma) <= SetOf(c.gamma)
  }

  /** Every assumption `q` the premise adds comes with `ag says q` among the assumptions. */
  predicate SaysLeftAdditionsOk(g: seq<Judgement>, ag: Formula, g1: seq<Judgement>)
  {
    forall j :: j in g1 && j !in g ==> Proposition(App(SAYS, 2, [ag, j.p])) in g
  }

  /** `saysL`: a `says` assumption, an affirmation goal kept by the premise. */
  predicate VerifySaysLeft(c: Sequent, ps: seq<Sequent>)
  {
    && (exists i :: 0 <= i < |c.gamma| && IsApp(c.gamma[i].p, SAYS))
    && |ps| == 1
    && c.delta.Affirmation?
    && var pc := ps[0];
       && c.delta == pc.delta
       && SaysLeftAdditionsOk(c.gamma, c.delta.a, pc.gamma)
  }

  /** The premise assumptions `saysL` accepts not. */
  method SaysLeftBadAssumptions(g: seq<Judgement>, ag: Formula, g1: seq<Judgement>) returns (bad: seq<Formula>)
    ensures forall f :: f in bad <==>
      exists j :: j in g1 && j !in g && j.p == f && Proposition(App(SAYS, 2, [ag, f])) !in g
    ensures |bad| == 0 <==> SaysLeftAdditionsOk(g, ag, g1)
  {
    var extra := SetOf(g1) - SetOf(g);
    bad := [];
    while extra != {}
      invariant extra <= SetOf(g1) - SetOf(g)
      invariant forall f :: f in bad <==>
        exists j :: j in g1 && j !in g && j !in extra && j.p == f && Proposition(App(SAYS, 2, [ag, f])) !in g
      decreases |extra|
    {
      var p :| p in extra;
      if Proposition(App(SAYS, 2, [ag, p.p])) !in g {
        bad := bad + [p.p];
      }
      extra := extra - {p};
    }
    forall j | j in g1 && j !in g && Proposition(App(SAYS, 2, [ag, j.p])) !in g
      ensures j.p in bad
    {
    }
    if |bad| > 0 {
      assert bad[0] in bad;
    }
  }

  /** `saysR`: `A says P` from `A aff P`, with no new assumptions. */
  predicate VerifySaysRight(c: Sequent, ps: seq<Sequent>)
  {
    && c.delta.Proposition?
    && IsApp(c.delta.p, SAYS)
    && |ps| == 1
    && var pc := ps[0];
       && pc.delta.Affirmation?
       && |c.delta.p.args| >= 2
       && c.delta.p.args[0] == pc.delta.a
       && c.delta.p.args[1] == pc.delta.p
       && SetOf(pc.gamma) <= SetOf(c.gamma)
  }

  /** `sign`: `A says P` from `iskey(A, k)` and `sign(P, k)`, with no new assumptions. */
  predicate VerifySign(c: Sequent, ps: seq<Sequent>)
  {
    && c.delta.Proposition?
    && IsApp(c.delta.p, SAYS)
    && |ps| == 2
    && |c.delta.p.args| >= 2
    && var d0, d1 := ps[0].delta, ps[1].delta;
       && d0.Proposition? && IsApp(d0.p, ISKEY)
       && d1.Proposition? && IsApp(d1.p, SIGN)
       && |d0.p.args| >= 2 && |d1.p.args| >= 2
       && c.delta.p.args[0] == d0.p.args[0]
       && c.delta.p.args[1] == d1.p.args[0]
       && d0.p.args[1] == d1.p.args[1]
       && SetOf(ps[0].gamma) <= SetOf(c.gamma)
       && SetOf(ps[1].gamma) <= SetOf(c.gamma)
  }

  /** `cert`: `iskey(B, k)` from `ca(C)` and `C says iskey(B, k)`, with no new assumptions. */
  predicate VerifyCert(c: Sequent, ps: seq<Sequent>)
  {
    && c.delta.Proposition?
    && IsApp(c.delta.p, ISKEY)
    && |ps| == 2
    && |c.delta.p.args| >= 2
    && var d0, d1 := ps[0].delta, ps[1].delta;
       && d0.Proposition? && IsApp(d0.p, ISCA)
       && d1.Proposition? && IsApp(d1.p, SAYS)
       && |d1.p.args| >= 2 && IsApp(d1.p.args[1], ISKEY)
       && |d1.p.args[1].args| >= 2 && |d0.p.args| >= 1
       && c.delta.p.args[0] == d1.p.args[1].args[0]
       && d0.p.args[0] == d1.p.args[0]
       && c.delta.p.args[1] == d1.p.args[1].args[1]
       && SetOf(ps[0].gamma) <= SetOf(c.gamma)
       && SetOf(ps[1].gamma) <= SetOf(c.gamma)
  }

  /** Check one step by the test for its rule's name; unknown names are rejected. */
  predicate VerifyStep(pf: Proof)
  {
    pf.Proof? && StepAccepted(pf.conclusion, Conclusions(pf.premises), pf.rule.name)
  }

  /** The test for rule name `n` on a step from premise goals `ps` to `c`. */
  predicate StepAccepted(c: Sequent, ps: seq<Sequent>, n: string)
  {
    && n in ProofRules.Calculus
    && if n == "id" then VerifyIdentity(c, ps)
       else if n == "botL" then VerifyBotL(c, ps)
       else if n == "->R" then VerifyImpRight(c, ps)
       else if n == "->L" || n == "->Laff" then VerifyImpLeft(c, ps)
       else if n == "@L" || n == "@Laff" then VerifyLeftForall(c, ps)
       else if n == "@R" then VerifyRightForall(c, ps)
       else if n == "W" then VerifyWeaken(c, ps)
       else if n == "cut" || n == "affcut" then VerifyCut(c, ps)
       else if n == "aff" then VerifyAff(c, ps)
       else if n == "saysL" then VerifySaysLeft(c, ps)
       else if n == "saysR" then VerifySaysRight(c, ps)
       else if n == "sign" then VerifySign(c, ps)
       else if n == "cert" then VerifyCert(c, ps)
       else false
  }

  // ---------------------------------------------------------------------
  // Open obligations
  // ---------------------------------------------------------------------

  /** The bare-sequent premises, in order. */
  function BareObligations(prems: seq<Proof>): seq<Sequent>
  {
    if |prems| == 0 then []
    else
      var last := prems[|prems| - 1];
      BareObligations(prems[..|prems| - 1]) + (if last.Obligation? then [last.sequent] else [])
  }

  /**
    * The obligations of a proof: a bare sequent is its own obligation, a
    * rejected step leaves its conclusion open, and an accepted one leaves
    * its bare premises followed by the obligations of its sub-proofs.
    */
  function Verify(pf: Proof): seq<Sequent>
    decreases pf, 1
  {
    match pf
    case Obligation(s) => [s]
    case Proof(prems, c, _) =>
      if !VerifyStep(pf) then [c]
      else BareObligations(prems) + Flatten(SubObligations(pf))
  }

  /** The obligations of each premise that is a proof (none for a bare premise). */
  function SubObligations(pf: Proof): (r: seq<seq<Sequent>>)
    requires pf.Proof?
    ensures |r| == |pf.premises|
    ensures forall i :: 0 <= i < |r| ==> r[i] == if pf.premises[i].Proof? then Verify(pf.premises[i]) else []
    decreases pf, 0
  {
    seq(|pf.premises|, i requires 0 <= i < |pf.premises| =>
      if pf.premises[i].Proof? then Verify(pf.premises[i]) else [])
  }

  function Flatten<T>(xs: seq<seq<T>>): seq<T>
  {
    if |xs| == 0 then [] else Flatten(xs[..|xs| - 1]) + xs[|xs| - 1]
  }

  method VerifyObligations(pf: Proof) returns (obs: seq<Sequent>)
    ensures obs == Verify(pf)
    decreases pf
  {
    if pf.Obligation? {
      return [pf.sequent];
    }
    if !VerifyStep(pf) {
      return [pf.conclusion];
    }
    ghost var subs := SubObligations(pf);
    var done := [];
    var i := 0;
    while i < |pf.premises|
      invariant 0 <= i <= |pf.premises|
      invariant done == Flatten(subs[..i])
    {
      FlattenPrefix(subs, i);
      if pf.premises[i].Proof? {
        var sub := VerifyObligations(pf.premises[i]);
        done := done + sub;
      } else {
        assert done + subs[i] == done;
      }
      i := i + 1;
    }
    assert subs[..i] == subs;
    obs := BareObligations(pf.premises) + done;
  }

  /** Every step of the tree is accepted and no leaf is a bare sequent. */
  predicate Closed(pf: Proof)
  {
    pf.Proof? && VerifyStep(pf) && forall i :: 0 <= i < |pf.premises| ==> Closed(pf.premises[i])
  }

  lemma {:induction false} BareObligationsEmpty(prems: seq<Proof>)
    ensures BareObligations(prems) == [] <==> forall i :: 0 <= i < |prems| ==> prems[i].Proof?
  {
    if |prems| > 0 {
      BareObligationsEmpty(prems[..|prems| - 1]);
      assert forall i :: 0 <= i < |prems| - 1 ==> prems[..|prems| - 1][i] == prems[i];
    }
  }

  /** A bare sequent is an obligation exactly when it is a premise. */
  lemma {:induction false} BareObligationsMembers(prems: seq<Proof>, ob: Sequent)
    ensures ob in BareObligations(prems) <==> exists i :: 0 <= i < |prems| && prems[i] == Obligation(ob)
  {
    if |prems| > 0 {
      var front := prems[..|prems| - 1];
      BareObligationsMembers(front, ob);
      assert forall i :: 0 <= i < |front| ==> front[i] == prems[i];
      if prems[|prems| - 1] == Obligation(ob) {
        assert ob in BareObligations(prems);
      }
    }
  }

  lemma FlattenPrefix<T>(xs: seq<seq<T>>, i: nat)
    requires i < |xs|
    ensures Flatten(xs[..i + 1]) == Flatten(xs[..i]) + xs[i]
  {
    assert xs[..i + 1][..i] == xs[..i];
  }

  lemma {:induction false} FlattenMembers<T>(xs: seq<seq<T>>, x: T)
    ensures x in Flatten(xs) <==> exists i :: 0 <= i < |xs| && x in xs[i]
  {
    if |xs| > 0 {
      var front := xs[..|xs| - 1];
      FlattenMembers(front, x);
      assert forall i :: 0 <= i < |front| ==> front[i] == xs[i];
    }
  }

  lemma {:induction false} FlattenEmpty<T>(xs: seq<seq<T>>)
    ensures Flatten(xs) == [] <==> forall i :: 0 <= i < |xs| ==> xs[i] == []
  {
    if |xs| > 0 {
      var front := xs[..|xs| - 1];
      FlattenEmpty(front);
      assert forall i :: 0 <= i < |front| ==> front[i] == xs[i];
      assert |Flatten(front) + xs[|xs| - 1]| == |Flatten(front)| + |xs[|xs| - 1]|;
    }
  }

  /** A proof leaves no obligation exactly when it is closed. */
  lemma {:induction false} VerifyClosed(pf: Proof)
    ensures Verify(pf) == [] <==> Closed(pf)
    decreases pf
  {
    match pf
    case Obligation(s) =>
    case Proof(prems, c, _) =>
      if VerifyStep(pf) {
        var subs := SubObligations(pf);
        BareObligationsEmpty(prems);
        FlattenEmpty(subs);
        forall i | 0 <= i < |prems|
          ensures (prems[i].Proof? && subs[i] == []) <==> Closed(prems[i])
        {
          VerifyClosed(prems[i]);
        }
        var bare, sub := BareObligations(prems), Flatten(subs);
        assert Verify(pf) == bare + sub;
        assert |bare + sub| == |bare| + |sub|;
      }
  }

  /** Only names of the rule table are ever accepted. */
  lemma StepNamesInCalculus(pf: Proof)
    requires VerifyStep(pf)
    ensures pf.rule.name in ProofRules.Calculus
    ensures pf.rule.name in {"id", "botL", "->R", "->L", "->Laff", "@L", "@Laff", "@R", "W", "cut", "affcut",
                             "aff", "saysL", "saysR", "sign", "cert"}
  {
  }

  /** An `id` step is accepted exactly when it has no premises and its truth goal is assumed. */
  lemma IdentityStep(pf: Proof)
    requires pf.Proof? && pf.rule.name == "id"
    ensures VerifyStep(pf) <==>
      |pf.premises| == 0 && pf.conclusion.delta.Proposition? && pf.conclusion.delta in pf.conclusion.gamma
  {
  }

  /** A `botL` step is accepted exactly when it has no premises and a truth goal, whatever is assumed. */
  lemma BotLStep(pf: Proof)
    requires pf.Proof? && pf.rule.name == "botL"
    ensures VerifyStep(pf) <==> |pf.premises| == 0 && pf.conclusion.delta.Proposition?
  {
  }

  /** `botL` closes a goal even when `false` is not assumed. */
  lemma BotLWithoutFalse()
    ensures var c := Sequent([], Proposition(App(TRUE, 0, [])));
      VerifyStep(Proof([], c, ProofRules.falseLeftRule)) && Verify(Proof([], c, ProofRules.falseLeftRule)) == []
  {
  }

  /** `W`, `aff`, `saysR`, `sign` and `cert` never let a premise assume more than the conclusion. */
  lemma NoNewAssumptions(pf: Proof)
    requires VerifyStep(pf) && pf.rule.name in {"W", "aff", "saysR", "sign", "cert"}
    ensures forall i :: 0 <= i < |pf.premises| ==> PremiseContext(pf.premises[i]) <= SetOf(pf.conclusion.gamma)
  {
  }

  /** An accepted `cut` keeps the goal, and only its right premise may assume the left premise's goal. */
  lemma CutShape(pf: Proof)
    requires VerifyStep(pf) && pf.rule.name in {"cut", "affcut"}
    ensures |pf.premises| == 2
    ensures Conclusion(pf.premises[1]).delta == pf.conclusion.delta
    ensures PremiseContext(pf.premises[0]) <= SetOf(pf.conclusion.gamma)
    ensures PremiseContext(pf.premises[1]) <= SetOf(pf.conclusion.gamma) + {Conclusion(pf.premises[0]).delta}
  {
  }

  /** An accepted `sign` step proves `A says P` from `iskey(A, k)` and `sign(P, k)` for one key `k`. */
  lemma SignShape(pf: Proof)
    requires VerifyStep(pf) && pf.rule.name == "sign"
    ensures |pf.premises| == 2 && IsApp(pf.conclusion.delta.p, SAYS)
    ensures var d0, d1 := Conclusion(pf.premises[0]).delta, Conclusion(pf.premises[1]).delta;
      var a, p, k := pf.conclusion.delta.p.args[0], pf.conclusion.delta.p.args[1], d0.p.args[1];
      && d0 == Proposition(App(ISKEY, d0.p.arity, d0.p.args)) && d0.p.args[..2] == [a, k]
      && d1 == Proposition(App(SIGN, d1.p.arity, d1.p.args)) && d1.p.args[..2] == [p, k]
  {
  }

  /** An accepted `cert` step proves `iskey(B, k)` from `ca(C)` and `C says iskey(B, k)`. */
  lemma CertShape(pf: Proof)
    requires VerifyStep(pf) && pf.rule.name == "cert"
    ensures |pf.premises| == 2 && IsApp(pf.conclusion.delta.p, ISKEY)
    ensures var d0, d1 := Conclusion(pf.premises[0]).delta, Conclusion(pf.premises[1]).delta;
      && d0.Proposition? && IsApp(d0.p, ISCA)
      && d1.Proposition? && IsApp(d1.p, SAYS) && d1.p.args[0] == d0.p.args[0]
      && IsApp(d1.p.args[1], ISKEY) && d1.p.args[1].args[..2] == pf.conclusion.delta.p.args[..2]
  {
  }

  /** An accepted `@R` step picks as witness no variable that the conclusion mentions. */
  lemma RightForallFresh(pf: Proof)
    requires VerifyStep(pf) && pf.rule.name == "@R"
    ensures pf.conclusion.delta.p.Forall?
    ensures var q := pf.conclusion.delta.p;
      var rho := Matchs([(q.p, Conclusion(pf.premises[0]).delta.p)], Some(map[]));
      rho.Some? && q.x in rho.value &&
      forall v :: v in Util.AllVars(Util.OfSequent(pf.conclusion)) ==> rho.value[q.x] != Variable(v)
  {
  }

  // ---------------------------------------------------------------------
  // The checker accepts the instances of the rules
  // ---------------------------------------------------------------------

  /**
    * `pf` applies its rule under `rho`: the goal is the rule's goal
    * instantiated, the rule's instantiated assumptions are among the
    * conclusion's, and each premise proves the instantiated premise goal
    * from the instantiated premise assumptions and some of the
    * conclusion's. Contexts are compared as sets, as the checks do.
    */
  predicate StepInstance(pf: Proof, rho: Substitution)
  {
    && pf.Proof?
    && var r, c, ps := pf.rule, pf.conclusion, Conclusions(pf.premises);
       && |ps| == |r.premises|
       && c.delta == ApplyJudgement(r.conclusion.delta, rho)
       && SetOf(ApplyContext(r.conclusion.gamma, rho)) <= SetOf(c.gamma)
       && forall i :: 0 <= i < |ps| ==>
            && ps[i].delta == ApplyJudgement(r.premises[i].delta, rho)
            && SetOf(ps[i].gamma) <= SetOf(ApplyContext(r.premises[i].gamma, rho)) + SetOf(c.gamma)
  }

  lemma ApplyBinary(op: Operator, a: Formula, b: Formula, rho: Substitution)
    requires op != OTHER
    ensures ApplyFormula(App(op, 2, [a, b]), rho) == App(op, 2, [ApplyFormula(a, rho), ApplyFormula(b, rho)])
  {
  }

  lemma ApplyUnary(op: Operator, a: Formula, rho: Substitution)
    requires op != OTHER
    ensures ApplyFormula(App(op, 1, [a]), rho) == App(op, 1, [ApplyFormula(a, rho)])
  {
  }

  lemma ContextOfOne(j: Judgement, rho: Substitution)
    ensures SetOf(ApplyContext([j], rho)) == {ApplyJudgement(j, rho)}
    ensures SetOf(ApplyContext([], rho)) == {}
  {
    assert ApplyContext([j], rho) == [ApplyJudgement(j, rho)];
  }

  lemma IdentityAccepted(pf: Proof, rho: Substitution)
    requires StepInstance(pf, rho) && pf.rule == ProofRules.identityRule
    ensures VerifyStep(pf)
  {
    ContextOfOne(Proposition(ProofRules.P), rho);
  }

  lemma ImpRightAccepted(pf: Proof, rho: Substitution)
    requires StepInstance(pf, rho) && pf.rule == ProofRules.impRightRule
    ensures VerifyStep(pf)
  {
    ContextOfOne(Proposition(ProofRules.P), rho);
    ApplyBinary(IMPLIES, ProofRules.P, ProofRules.Q, rho);
  }

  lemma ImpLeftAccepted(pf: Proof, rho: Substitution)
    requires StepInstance(pf, rho) && pf.rule in {ProofRules.impLeftRule, ProofRules.impLeftAffRule}
    ensures VerifyStep(pf)
  {
    ImpLeftInstance(pf, rho);
  }

  /** The implication-left test holds of every instance of the two implication-left rules. */
  lemma ImpLeftInstance(pf: Proof, rho: Substitution)
    requires StepInstance(pf, rho) && pf.rule in {ProofRules.impLeftRule, ProofRules.impLeftAffRule}
    ensures VerifyImpLeft(pf.conclusion, Conclusions(pf.premises))
  {
    var imp := Proposition(ProofRules.Implies(ProofRules.P, ProofRules.Q));
    ContextOfOne(imp, rho);
    ContextOfOne(Proposition(ProofRules.Q), rho);
    ApplyBinary(IMPLIES, ProofRules.P, ProofRules.Q, rho);
    var c, ps := pf.conclusion, Conclusions(pf.premises);
    assert ApplyJudgement(imp, rho) in c.gamma;
    var i :| 0 <= i < |c.gamma| && c.gamma[i] == ApplyJudgement(imp, rho);
    assert IsApp(c.gamma[i].p, IMPLIES);
    assert ps[0].delta == Proposition(ApplyFormula(ProofRules.P, rho));
    forall j | j in ps[1].gamma && j !in c.gamma
      ensures Proposition(App(IMPLIES, 2, [ps[0].delta.p, j.p])) in c.gamma
    {
      assert j in SetOf(ps[1].gamma);
    }
    assert ImpLeftAdditionsOk(c.gamma, ps[0].delta, ps[1].gamma);
  }

  lemma WeakenAccepted(pf: Proof, rho: Substitution)
    requires StepInstance(pf, rho) && pf.rule == ProofRules.weakenRule
    ensures VerifyStep(pf)
  {
    ContextOfOne(Proposition(ProofRules.Q), rho);
    var g := ApplyContext(pf.rule.conclusion.gamma, rho);
    assert g[1] == ApplyJudgement(Proposition(ProofRules.Q), rho);
  }

  lemma CutAccepted(pf: Proof, rho: Substitution)
    requires StepInstance(pf, rho) && pf.rule in {ProofRules.cutRule, ProofRules.affCutRule}
    ensures VerifyStep(pf)
  {
    ContextOfOne(Proposition(ProofRules.P), rho);
  }

  lemma AffAccepted(pf: Proof, rho: Substitution)
    requires StepInstance(pf, rho) && pf.rule == ProofRules.affRule
    ensures VerifyStep(pf)
  {
    ContextOfOne(Proposition(ProofRules.P), rho);
  }

  lemma SaysLeftAccepted(pf: Proof, rho: Substitution)
    requires StepInstance(pf, rho) && pf.rule == ProofRules.saysLeftRule
    ensures VerifyStep(pf)
  {
    var says := Proposition(ProofRules.Says(ProofRules.A, ProofRules.P));
    ContextOfOne(says, rho);
    ContextOfOne(Proposition(ProofRules.P), rho);
    ApplyBinary(SAYS, ProofRules.A, ProofRules.P, rho);
    var c, ps := pf.conclusion, Conclusions(pf.premises);
    assert ApplyJudgement(says, rho) in c.gamma;
    var i :| 0 <= i < |c.gamma| && c.gamma[i] == ApplyJudgement(says, rho);
    assert IsApp(c.gamma[i].p, SAYS);
    forall j | j in ps[0].gamma && j !in c.gamma
      ensures Proposition(App(SAYS, 2, [c.delta.a, j.p])) in c.gamma
    {
      assert j in SetOf(ps[0].gamma);
    }
    assert SaysLeftAdditionsOk(c.gamma, c.delta.a, ps[0].gamma);
  }

  lemma SaysRightAccepted(pf: Proof, rho: Substitution)
    requires StepInstance(pf, rho) && pf.rule == ProofRules.saysRightRule
    ensures VerifyStep(pf)
  {
    ContextOfOne(Proposition(ProofRules.P), rho);
    ApplyBinary(SAYS, ProofRules.A, ProofRules.P, rho);
  }

  lemma SignAccepted(pf: Proof, rho: Substitution)
    requires StepInstance(pf, rho) && pf.rule == ProofRules.signRule
    ensures VerifyStep(pf)
  {
    ContextOfOne(Proposition(ProofRules.P), rho);
    ApplyBinary(SAYS, ProofRules.A, ProofRules.P, rho);
    ApplyBinary(ISKEY, ProofRules.A, ProofRules.PK, rho);
    ApplyBinary(SIGN, ProofRules.P, ProofRules.PK, rho);
  }

  lemma CertAccepted(pf: Proof, rho: Substitution)
    requires StepInstance(pf, rho) && pf.rule == ProofRules.certRule
    ensures VerifyStep(pf)
  {
    ContextOfOne(Proposition(ProofRules.P), rho);
    ApplyBinary(ISKEY, ProofRules.B, ProofRules.PK, rho);
    ApplyBinary(SAYS, ProofRules.A, ProofRules.IsKey(ProofRules.B, ProofRules.PK), rho);
    ApplyUnary(ISCA, ProofRules.A, rho);
  }

  /**
    * Every rule without quantifiers or holes checks its own instances: a
    * step that applies the rule under any substitution, whatever other
    * assumptions its sequents carry, is accepted.
    */
  lemma RuleInstancesAccepted(i: int, pf: Proof, rho: Substitution)
    requires 0 <= i < |ProofRules.Rules| && i !in {5, 6, 7}
    requires pf.Proof? && pf.rule == ProofRules.Rules[i] && StepInstance(pf, rho)
    ensures VerifyStep(pf)
  {
    if i < 5 { PropositionalAccepted(i, pf, rho); } else { StructuralAccepted(i, pf, rho); }
  }

  /** The identity, falsehood and implication rules check their instances. */
  lemma PropositionalAccepted(i: int, pf: Proof, rho: Substitution)
    requires 0 <= i < 5
    requires pf.Proof? && pf.rule == ProofRules.Rules[i] && StepInstance(pf, rho)
    ensures VerifyStep(pf)
  {
    if i == 0 { IdentityAccepted(pf, rho); }
    else if i == 1 { BotLStep(pf); }
    else if i == 2 { ImpRightAccepted(pf, rho); }
    else { ImpLeftAccepted(pf, rho); }
  }

  /** So do weakening, the cuts, affirmation and the rules for `says`, `sign` and certificates. */
  lemma StructuralAccepted(i: int, pf: Proof, rho: Substitution)
    requires 8 <= i < 16
    requires pf.Proof? && pf.rule == ProofRules.Rules[i] && StepInstance(pf, rho)
    ensures VerifyStep(pf)
  {
    if i == 8 { WeakenAccepted(pf, rho); }
    else if i == 9 || i == 10 { CutAccepted(pf, rho); }
    else if i == 11 { AffAccepted(pf, rho); }
    else if i == 12 { SaysLeftAccepted(pf, rho); }
    else if i == 13 { SaysRightAccepted(pf, rho); }
    else if i == 14 { SignAccepted(pf, rho); }
    else { CertAccepted(pf, rho); }
  }
}
