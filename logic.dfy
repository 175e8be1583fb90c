/**
  * Syntax of the authorization logic (formulas, judgements, sequents, rules
  * and proofs), substitution, and the template matcher that instantiates
  * inference rules (src/logic.py).
  */
module Logic {
  import opened Wrappers

  /** Connectives and predicates, in the order the source numbers them. */
  datatype Operator = NOT | AND | OR | IMPLIES | TRUE | FALSE | SAYS | ISKEY | SIGN | ISCA | OPEN | OTHER

  /** A formula. `App(OTHER, 2, [P, x])` is a rule-template hole `P(x)`. */
  datatype Formula =
    | Variable(id: string)
    | Agent(id: string)
    | Key(fingerprint: string)
    | Resource(id: string)
    | App(op: Operator, arity: int, args: seq<Formula>)
    | Forall(x: string, p: Formula)

  /** "P true" or "A aff P". */
  datatype Judgement = Proposition(p: Formula) | Affirmation(a: Formula, p: Formula)

  /** gamma |- delta */
  datatype Sequent = Sequent(gamma: seq<Judgement>, delta: Judgement)

  datatype Rule = Rule(premises: seq<Sequent>, conclusion: Sequent, name: string)

  /** A proof tree. A premise that is a bare sequent is an open obligation. */
  datatype Proof =
    | Obligation(sequent: Sequent)
    | Proof(premises: seq<Proof>, conclusion: Sequent, rule: Rule)

  /** Substitutions map variable names to formulas. */
  type Substitution = map<string, Formula>

  type Equations = seq<(Formula, Formula)>

  /** The sequent a proof (or a bare obligation) establishes. */
  function Conclusion(pf: Proof): Sequent
  {
    if pf.Obligation? then pf.sequent else pf.conclusion
  }

  function SetOf(g: seq<Judgement>): set<Judgement>
  {
    set j | j in g
  }

  function Zip<A, B>(a: seq<A>, b: seq<B>): (r: seq<(A, B)>)
    ensures |r| == if |a| <= |b| then |a| else |b|
    ensures forall i :: 0 <= i < |r| ==> r[i] == (a[i], b[i])
  {
    var n := if |a| <= |b| then |a| else |b|;
    seq(n, i requires 0 <= i < n => (a[i], b[i]))
  }

  // ---------------------------------------------------------------------
  // Substitution
  // ---------------------------------------------------------------------

  /**
    * Apply a substitution to a formula. A hole `P(x)` is replaced by the
    * image of `P`; a quantifier hides its own variable from the substitution.
    * A hole without arguments (an index error in the source) is left as is.
    */
  function ApplyFormula(p: Formula, rho: Substitution): Formula
  {
    match p
    case Variable(x) => if x in rho then rho[x] else p
    case App(o, n, args) =>
      if o == OTHER then
        if |args| > 0 then ApplyFormula(args[0], rho) else p
      else
        App(o, n, seq(|args|, i requires 0 <= i < |args| => ApplyFormula(args[i], rho)))
    case Forall(x, q) => Forall(x, ApplyFormula(q, rho - {x}))
    case _ => p
  }

  function ApplyJudgement(j: Judgement, rho: Substitution): Judgement
  {
    match j
    case Proposition(p) => Proposition(ApplyFormula(p, rho))
    case Affirmation(a, p) =>
      Affirmation(if a.Variable? && a.id in rho then rho[a.id] else a, ApplyFormula(p, rho))
  }

  function ApplyContext(g: seq<Judgement>, rho: Substitution): seq<Judgement>
  {
    seq(|g|, i requires 0 <= i < |g| => ApplyJudgement(g[i], rho))
  }

  function ApplySequent(s: Sequent, rho: Substitution): Sequent
  {
    Sequent(ApplyContext(s.gamma, rho), ApplyJudgement(s.delta, rho))
  }

  /** Variables with a free occurrence (holes count their arguments). */
  function FreeVars(t: Formula): set<string>
  {
    match t
    case Variable(x) => {x}
    case App(_, _, args) => set i, v | 0 <= i < |args| && v in FreeVars(args[i]) :: v
    case Forall(x, p) => FreeVars(p) - {x}
    case _ => {}
  }

  /** The variables a template judgement needs bound: its free variables and a variable agent. */
  function TemplateVars(j: Judgement): set<string>
  {
    (if j.Affirmation? && j.a.Variable? then {j.a.id} else {}) + FreeVars(j.p)
  }

  /** `a` is `t` or one of its subformulas. */
  predicate Occurs(a: Formula, t: Formula)
  {
    a == t ||
    match t
    case App(_, _, args) => exists i :: 0 <= i < |args| && Occurs(a, args[i])
    case Forall(_, p) => Occurs(a, p)
    case _ => false
  }

  /** Every application carries as many arguments as its arity says. */
  predicate WellFormed(t: Formula)
  {
    match t
    case App(_, n, args) => n == |args| && forall i :: 0 <= i < |args| ==> WellFormed(args[i])
    case Forall(_, p) => WellFormed(p)
    case _ => true
  }

  /** Well formed, with neither quantifiers nor template holes. */
  predicate FirstOrder(t: Formula)
  {
    match t
    case App(op, n, args) =>
      op != OTHER && n == |args| && forall i :: 0 <= i < |args| ==> FirstOrder(args[i])
    case Forall(_, _) => false
    case _ => true
  }

  /** `r` keeps every binding of `rho`. */
  predicate Extends(r: Substitution, rho: Substitution)
  {
    forall k :: k in rho ==> k in r && r[k] == rho[k]
  }

  /**
    * Substituting leaves a formula without holes unchanged when none of its
    * free variables is bound; in particular constants are never touched and
    * a variable is replaced only when bound.
    */
  lemma {:induction false} ApplyUnbound(t: Formula, rho: Substitution)
    requires WellFormed(t) && NoHoles(t)
    requires FreeVars(t) !! rho.Keys
    ensures ApplyFormula(t, rho) == t
    decreases t
  {
    match t
    case App(o, n, args) =>
      forall i | 0 <= i < |args|
        ensures ApplyFormula(args[i], rho) == args[i]
      {
        assert FreeVars(args[i]) <= FreeVars(t);
        ApplyUnbound(args[i], rho);
      }
      assert seq(|args|, i requires 0 <= i < |args| => ApplyFormula(args[i], rho)) == args;
    case Forall(x, q) =>
      assert FreeVars(q) !! (rho - {x}).Keys;
      ApplyUnbound(q, rho - {x});
    case _ =>
  }

  /** No template hole anywhere. */
  predicate NoHoles(t: Formula)
  {
    match t
    case App(op, _, args) => op != OTHER && forall i :: 0 <= i < |args| ==> NoHoles(args[i])
    case Forall(_, p) => NoHoles(p)
    case _ => true
  }

  /** A quantifier's own variable is never substituted inside it. */
  lemma ForallShadows(x: string, q: Formula, rho: Substitution, e: Formula)
    ensures ApplyFormula(Forall(x, q), rho[x := e]) == ApplyFormula(Forall(x, q), rho)
  {
    assert rho[x := e] - {x} == rho - {x};
  }

  /** A hole `P(x)` is replaced by whatever `P` is bound to. */
  lemma HoleTakesImage(n: int, f: string, x: Formula, rho: Substitution)
    requires f in rho
    ensures ApplyFormula(App(OTHER, n, [Variable(f), x]), rho) == rho[f]
  {
  }

  /**
    * Extending a substitution does not change the image of a first-order
    * formula whose variables are all bound already.
    */
  lemma {:induction false} ApplyExtends(t: Formula, r1: Substitution, r2: Substitution)
    requires FirstOrder(t) && FreeVars(t) <= r1.Keys && Extends(r2, r1)
    ensures ApplyFormula(t, r2) == ApplyFormula(t, r1)
    decreases t
  {
    match t
    case App(o, n, args) =>
      forall i | 0 <= i < |args|
        ensures ApplyFormula(args[i], r2) == ApplyFormula(args[i], r1)
      {
        assert FreeVars(args[i]) <= FreeVars(t);
        ApplyExtends(args[i], r1, r2);
      }
    case _ =>
  }

  lemma ApplyJudgementExtends(j: Judgement, r1: Substitution, r2: Substitution)
    requires FirstOrder(j.p) && TemplateVars(j) <= r1.Keys && Extends(r2, r1)
    ensures ApplyJudgement(j, r2) == ApplyJudgement(j, r1)
  {
    ApplyExtends(j.p, r1, r2);
  }

  /** Substitution acts on a context judgement by judgement, keeping its length. */
  lemma ApplyContextMembers(s: Sequent, rho: Substitution, j: Judgement)
    requires j in s.gamma
    ensures ApplyJudgement(j, rho) in ApplySequent(s, rho).gamma
    ensures |ApplySequent(s, rho).gamma| == |s.gamma|
  {
    var i :| 0 <= i < |s.gamma| && s.gamma[i] == j;
    assert ApplyContext(s.gamma, rho)[i] == ApplyJudgement(j, rho);
  }

  // ---------------------------------------------------------------------
  // Matching formulas
  // ---------------------------------------------------------------------

  function Size(t: Formula): nat
  {
    match t
    case App(_, _, args) => 1 + ArgsSize(args)
    case Forall(_, p) => 1 + Size(p)
    case _ => 1
  }

  function ArgsSize(args: seq<Formula>): nat
  {
    if |args| == 0 then 0 else Size(args[0]) + ArgsSize(args[1..])
  }

  /** Total size of the templates (left-hand sides) of a list of equations. */
  function EqsSize(eqs: Equations): nat
  {
    if |eqs| == 0 then 0 else Size(eqs[0].0) + EqsSize(eqs[1..])
  }

  lemma {:induction false} EqsSizeAppend(a: Equations, b: Equations)
    ensures EqsSize(a + b) == EqsSize(a) + EqsSize(b)
  {
    if |a| == 0 {
      assert a + b == b;
    } else {
      assert (a + b)[0] == a[0];
      assert (a + b)[1..] == a[1..] + b;
      EqsSizeAppend(a[1..], b);
    }
  }

  lemma {:induction false} ZipSize(a1: seq<Formula>, a2: seq<Formula>)
    ensures EqsSize(Zip(a1, a2)) <= ArgsSize(a1)
  {
    if |a1| == 0 || |a2| == 0 {
    } else {
      assert Zip(a1, a2)[1..] == Zip(a1[1..], a2[1..]);
      ZipSize(a1[1..], a2[1..]);
    }
  }

  /**
    * The matcher. `fuel` bounds only the nested re-match of an already bound
    * template hole, the one place where the source's recursion is not
    * structural; every other step is structural in the templates.
    * Source exceptions (a hole whose arguments are not variables, a missing
    * binding) yield `None`.
    */
  function MatchsFuel(eqs: Equations, rho: Option<Substitution>, fuel: nat): Option<Substitution>
    decreases fuel, EqsSize(eqs)
  {
    if |eqs| == 0 || rho.None? then rho
    else
      var s, t, o := rho.value, eqs[0].0, eqs[0].1;
      match t
      case Variable(x) =>
        if x !in s then MatchsFuel(eqs[1..], Some(s[x := o]), fuel)
        else if s[x] == o then MatchsFuel(eqs[1..], rho, fuel)
        else None
      case App(op, n, a) =>
        if op == OTHER then
          if |a| < 2 || !a[0].Variable? then None
          else
            var f, hole := a[0].id, "@P" + a[0].id;
            if hole in s then
              // The hole was met before, bound to `f`'s image and the
              // variable recorded under `hole`: re-match that image.
              var y := s[hole];
              if !y.Variable? || !a[1].Variable? || f !in s || fuel == 0 then None
              else
                var x := a[1].id;
                var rhoP := if x in s then s[y.id := s[x]] else s[x := y];
                var inner := MatchsFuel([(s[f], o)], Some(rhoP), fuel - 1);
                if inner.None? || y.id !in inner.value then None
                else
                  var v := inner.value[y.id];
                  MatchsFuel(eqs[1..], Some((inner.value - {y.id, x})[x := v]), fuel)
            else
              MatchsFuel(eqs[1..], Some(s[f := o][hole := a[1]]), fuel)
        else if o.App? && o.op == op && o.arity == n then
          EqsSizeAppend(Zip(a, o.args), eqs[1..]);
          ZipSize(a, o.args);
          MatchsFuel(Zip(a, o.args) + eqs[1..], rho, fuel)
        else None
      case Forall(x1, p1) =>
        if o.Forall? then
          var first: Equations := [(p1, ApplyFormula(o.p, map[o.x := Variable(x1)]))];
          EqsSizeAppend(first, eqs[1..]);
          var inner := MatchsFuel(first + eqs[1..], Some(s - {x1}), fuel);
          if inner.None? then None else Some(inner.value - {x1})
        else None
      case _ => if t == o then MatchsFuel(eqs[1..], rho, fuel) else None
  }

  /**
    * Find a substitution under which every template equals its target,
    * extending `rho`. With no equations, or no substitution, `rho` itself.
    */
  function Matchs(eqs: Equations, rho: Option<Substitution>): (r: Option<Substitution>)
    ensures |eqs| == 0 ==> r == rho
    ensures rho.None? ==> r.None?
  {
    MatchsFuel(eqs, rho, EqsSize(eqs))
  }

  /** `sigma` binds every template variable and makes each side equal. */
  predicate Solves(sigma: Substitution, eqs: Equations)
  {
    forall i :: 0 <= i < |eqs| ==>
      FreeVars(eqs[i].0) <= sigma.Keys && ApplyFormula(eqs[i].0, sigma) == eqs[i].1
  }

  predicate FirstOrderEquations(eqs: Equations)
  {
    forall i :: 0 <= i < |eqs| ==> FirstOrder(eqs[i].0) && WellFormed(eqs[i].1)
  }

  /** One matcher step on a variable template. */
  lemma MatchsStepVariable(eqs: Equations, s: Substitution, fuel: nat)
    requires |eqs| > 0 && eqs[0].0.Variable?
    ensures MatchsFuel(eqs, Some(s), fuel) ==
      var x, o := eqs[0].0.id, eqs[0].1;
      if x !in s then MatchsFuel(eqs[1..], Some(s[x := o]), fuel)
      else if s[x] == o then MatchsFuel(eqs[1..], Some(s), fuel)
      else None
  {
  }

  /** One matcher step on an application that is not a hole. */
  lemma MatchsStepApp(eqs: Equations, s: Substitution, fuel: nat)
    requires |eqs| > 0 && eqs[0].0.App? && eqs[0].0.op != OTHER
    ensures MatchsFuel(eqs, Some(s), fuel) ==
      var t, o := eqs[0].0, eqs[0].1;
      if o.App? && o.op == t.op && o.arity == t.arity
      then MatchsFuel(Zip(t.args, o.args) + eqs[1..], Some(s), fuel)
      else None
  {
  }

  /** One matcher step on an agent, key or resource constant. */
  lemma MatchsStepConstant(eqs: Equations, s: Substitution, fuel: nat)
    requires |eqs| > 0 && (eqs[0].0.Agent? || eqs[0].0.Key? || eqs[0].0.Resource?)
    ensures MatchsFuel(eqs, Some(s), fuel) ==
      if eqs[0].0 == eqs[0].1 then MatchsFuel(eqs[1..], Some(s), fuel) else None
  {
  }

  /** Solving the tail and the head solves the whole list. */
  lemma SolvesCons(r: Substitution, eqs: Equations)
    requires |eqs| > 0 && Solves(r, eqs[1..])
    requires FreeVars(eqs[0].0) <= r.Keys && ApplyFormula(eqs[0].0, r) == eqs[0].1
    ensures Solves(r, eqs)
  {
    forall i | 0 <= i < |eqs|
      ensures FreeVars(eqs[i].0) <= r.Keys && ApplyFormula(eqs[i].0, r) == eqs[i].1
    {
      if i > 0 {
        assert eqs[i] == eqs[1..][i - 1];
      }
    }
  }

  lemma FirstOrderTail(eqs: Equations)
    requires |eqs| > 0 && FirstOrderEquations(eqs)
    ensures FirstOrderEquations(eqs[1..])
  {
    forall i | 0 <= i < |eqs| - 1
      ensures FirstOrder(eqs[1..][i].0) && WellFormed(eqs[1..][i].1)
    {
      assert eqs[1..][i] == eqs[i + 1];
    }
  }

  lemma {:induction false} MatchsFuelSound(eqs: Equations, rho: Substitution, fuel: nat, r: Substitution)
    requires FirstOrderEquations(eqs)
    requires MatchsFuel(eqs, Some(rho), fuel) == Some(r)
    ensures Extends(r, rho) && Solves(r, eqs)
    decreases EqsSize(eqs), 1
  {
    if |eqs| == 0 {
      return;
    }
    var t, o := eqs[0].0, eqs[0].1;
    if t.Forall? {
      assert false;
    } else if t.App? {
      MatchsSoundApp(eqs, rho, fuel, r);
    } else {
      FirstOrderTail(eqs);
      if t.Variable? {
        MatchsStepVariable(eqs, rho, fuel);
        if t.id !in rho {
          MatchsFuelSound(eqs[1..], rho[t.id := o], fuel, r);
        } else {
          MatchsFuelSound(eqs[1..], rho, fuel, r);
        }
      } else {
        MatchsStepConstant(eqs, rho, fuel);
        MatchsFuelSound(eqs[1..], rho, fuel, r);
      }
      SolvesCons(r, eqs);
    }
  }

  lemma {:induction false} MatchsSoundApp(eqs: Equations, rho: Substitution, fuel: nat, r: Substitution)
    requires FirstOrderEquations(eqs) && |eqs| > 0 && eqs[0].0.App?
    requires MatchsFuel(eqs, Some(rho), fuel) == Some(r)
    ensures Extends(r, rho) && Solves(r, eqs)
    decreases EqsSize(eqs), 0
  {
    var t, o := eqs[0].0, eqs[0].1;
    var a := t.args;
    assert FirstOrder(t) && WellFormed(o);
    MatchsStepApp(eqs, rho, fuel);
    var zs := Zip(a, o.args);
    assert |zs| == |a|;
    var eqs' := zs + eqs[1..];
    assert FirstOrderEquations(eqs') by {
      forall i | 0 <= i < |eqs'|
        ensures FirstOrder(eqs'[i].0) && WellFormed(eqs'[i].1)
      {
        if i < |zs| {
          assert eqs'[i] == (a[i], o.args[i]);
        } else {
          assert eqs'[i] == eqs[i - |zs| + 1];
        }
      }
    }
    EqsSizeAppend(zs, eqs[1..]);
    ZipSize(a, o.args);
    MatchsFuelSound(eqs', rho, fuel, r);
    forall j | 0 <= j < |a|
      ensures FreeVars(a[j]) <= r.Keys && ApplyFormula(a[j], r) == o.args[j]
    {
      assert eqs'[j] == (a[j], o.args[j]);
    }
    assert seq(|a|, i requires 0 <= i < |a| => ApplyFormula(a[i], r)) == o.args;
    assert Solves(r, eqs[1..]) by {
      forall i | 0 <= i < |eqs| - 1
        ensures FreeVars(eqs[1..][i].0) <= r.Keys && ApplyFormula(eqs[1..][i].0, r) == eqs[1..][i].1
      {
        assert eqs[1..][i] == eqs'[i + |zs|];
      }
    }
    SolvesCons(r, eqs);
  }

  lemma SolvesTail(sigma: Substitution, eqs: Equations)
    requires |eqs| > 0 && Solves(sigma, eqs)
    ensures Solves(sigma, eqs[1..])
  {
    forall i | 0 <= i < |eqs| - 1
      ensures FreeVars(eqs[1..][i].0) <= sigma.Keys && ApplyFormula(eqs[1..][i].0, sigma) == eqs[1..][i].1
    {
      assert eqs[1..][i] == eqs[i + 1];
    }
  }

  predicate FirstOrderTemplates(eqs: Equations)
  {
    forall i :: 0 <= i < |eqs| ==> FirstOrder(eqs[i].0)
  }

  lemma {:induction false} MatchsFuelComplete(eqs: Equations, rho: Substitution, fuel: nat, sigma: Substitution)
    requires FirstOrderTemplates(eqs)
    requires Solves(sigma, eqs) && Extends(sigma, rho)
    ensures MatchsFuel(eqs, Some(rho), fuel).Some?
    ensures Extends(sigma, MatchsFuel(eqs, Some(rho), fuel).value)
    decreases EqsSize(eqs), 1
  {
    if |eqs| == 0 {
      return;
    }
    var t, o := eqs[0].0, eqs[0].1;
    if t.Forall? {
      assert false;
    } else if t.App? {
      MatchsCompleteApp(eqs, rho, fuel, sigma);
    } else {
      SolvesTail(sigma, eqs);
      assert FirstOrderTemplates(eqs[1..]) by {
        forall i | 0 <= i < |eqs| - 1
          ensures FirstOrder(eqs[1..][i].0)
        {
          assert eqs[1..][i] == eqs[i + 1];
        }
      }
      if t.Variable? {
        MatchsStepVariable(eqs, rho, fuel);
        if t.id !in rho {
          MatchsFuelComplete(eqs[1..], rho[t.id := o], fuel, sigma);
        } else {
          MatchsFuelComplete(eqs[1..], rho, fuel, sigma);
        }
      } else {
        MatchsStepConstant(eqs, rho, fuel);
        MatchsFuelComplete(eqs[1..], rho, fuel, sigma);
      }
    }
  }

  lemma {:induction false} MatchsCompleteApp(eqs: Equations, rho: Substitution, fuel: nat, sigma: Substitution)
    requires FirstOrderTemplates(eqs) && |eqs| > 0 && eqs[0].0.App?
    requires Solves(sigma, eqs) && Extends(sigma, rho)
    ensures MatchsFuel(eqs, Some(rho), fuel).Some?
    ensures Extends(sigma, MatchsFuel(eqs, Some(rho), fuel).value)
    decreases EqsSize(eqs), 0
  {
    var t, o := eqs[0].0, eqs[0].1;
    var a := t.args;
    assert FirstOrder(t);
    assert ApplyFormula(t, sigma) == o;
    assert o == App(t.op, t.arity, seq(|a|, i requires 0 <= i < |a| => ApplyFormula(a[i], sigma)));
    MatchsStepApp(eqs, rho, fuel);
    var zs := Zip(a, o.args);
    var eqs' := zs + eqs[1..];
    assert |zs| == |a|;
    forall i | 0 <= i < |eqs'|
      ensures FirstOrder(eqs'[i].0)
      ensures FreeVars(eqs'[i].0) <= sigma.Keys && ApplyFormula(eqs'[i].0, sigma) == eqs'[i].1
    {
      if i < |zs| {
        assert eqs'[i] == (a[i], o.args[i]);
        assert FreeVars(a[i]) <= FreeVars(t);
      } else {
        assert eqs'[i] == eqs[i - |zs| + 1];
      }
    }
    EqsSizeAppend(zs, eqs[1..]);
    ZipSize(a, o.args);
    MatchsFuelComplete(eqs', rho, fuel, sigma);
  }

  /**
    * For first-order templates the matcher is a unifier: it succeeds exactly
    * when some extension of `rho` solves every equation, and then its result
    * solves them, keeps `rho`, and is included in every such solution.
    */
  lemma MatchsCorrect(eqs: Equations, rho: Substitution)
    requires FirstOrderEquations(eqs)
    ensures Matchs(eqs, Some(rho)).Some? <==> exists sigma :: Extends(sigma, rho) && Solves(sigma, eqs)
    ensures Matchs(eqs, Some(rho)).Some? ==>
      var r := Matchs(eqs, Some(rho)).value;
      Extends(r, rho) && Solves(r, eqs) &&
      forall sigma :: Extends(sigma, rho) && Solves(sigma, eqs) ==> Extends(sigma, r)
  {
    var fuel := EqsSize(eqs);
    if MatchsFuel(eqs, Some(rho), fuel).Some? {
      MatchsFuelSound(eqs, rho, fuel, MatchsFuel(eqs, Some(rho), fuel).value);
      forall sigma | Extends(sigma, rho) && Solves(sigma, eqs)
        ensures Extends(sigma, MatchsFuel(eqs, Some(rho), fuel).value)
      {
        MatchsFuelComplete(eqs, rho, fuel, sigma);
      }
    } else {
      forall sigma | Extends(sigma, rho) && Solves(sigma, eqs)
        ensures false
      {
        MatchsFuelComplete(eqs, rho, fuel, sigma);
      }
    }
  }

  /**
    * Matching a quantifier discards an earlier binding of its bound variable:
    * after `x` is bound to `#a`, matching `@x . x` against `@y . y` returns a
    * substitution without `x`, so the first equation is no longer solved.
    */
  lemma ForallDropsOuterBinding()
    ensures Matchs([(Variable("x"), Agent("#a")), (Forall("x", Variable("x")), Forall("y", Variable("y")))],
                   Some(map[])) == Some(map[])
  {
    var eqs: Equations := [(Variable("x"), Agent("#a")), (Forall("x", Variable("x")), Forall("y", Variable("y")))];
    var m1: Substitution := map["x" := Agent("#a")];
    assert eqs[1..] == [(Forall("x", Variable("x")), Forall("y", Variable("y")))];
    assert ApplyFormula(Variable("y"), map["y" := Variable("x")]) == Variable("x");
    assert m1 - {"x"} == map[];
    var m2: Substitution := map["x" := Variable("x")];
    assert MatchsFuel([(Variable("x"), Variable("x"))], Some(map[]), EqsSize(eqs)) == Some(m2);
    assert m2 - {"x"} == map[];
  }

  // ---------------------------------------------------------------------
  // Matching judgements
  // ---------------------------------------------------------------------

  type JudgementEquations = seq<(Judgement, Judgement)>

  /**
    * The pairs the judgement matcher accepts: two propositions, an
    * affirmation by an agent variable against any affirmation, or two
    * affirmations by the same agent constant.
    */
  predicate PairMatches(t: Judgement, o: Judgement)
  {
    (t.Proposition? && o.Proposition?) ||
    (t.Affirmation? && t.a.Variable? && o.Affirmation?) ||
    (t.Affirmation? && t.a.Agent? && o.Affirmation? && o.a.Agent? && t.a.id == o.a.id)
  }

  function FormulaEquations(eqs: JudgementEquations): Equations
  {
    seq(|eqs|, i requires 0 <= i < |eqs| => (eqs[i].0.p, eqs[i].1.p))
  }

  predicate AffirmationVariable(j: Judgement)
  {
    j.Affirmation? && j.a.Variable?
  }

  /**
    * The bindings the judgement matcher adds to `rho`, pair by pair, for
    * each affirmation whose agent is a variable; a later pair overwrites an
    * earlier binding without any consistency check.
    */
  function AffirmationBindings(eqs: JudgementEquations, rho: Substitution): Substitution
  {
    if |eqs| == 0 then rho
    else
      var r := AffirmationBindings(eqs[..|eqs| - 1], rho);
      var t, o := eqs[|eqs| - 1].0, eqs[|eqs| - 1].1;
      if AffirmationVariable(t) && o.Affirmation? then r[t.a.id := o.a] else r
  }

  /** `matchs` lifted to judgements. */
  function MatchsJudgement(eqs: JudgementEquations, rho: Option<Substitution>): (r: Option<Substitution>)
    ensures |eqs| == 0 || rho.None? ==> r == rho
    ensures r.Some? ==> forall i :: 0 <= i < |eqs| ==> PairMatches(eqs[i].0, eqs[i].1)
  {
    if |eqs| == 0 || rho.None? then rho
    else if forall i :: 0 <= i < |eqs| ==> PairMatches(eqs[i].0, eqs[i].1) then
      Matchs(FormulaEquations(eqs), Some(AffirmationBindings(eqs, rho.value)))
    else None
  }

  /** The judgement matcher's loop: collect formula equations and agent bindings. */
  method MatchJudgementPairs(eqs: JudgementEquations, rho: Option<Substitution>) returns (r: Option<Substitution>)
    ensures r == MatchsJudgement(eqs, rho)
  {
    if |eqs| == 0 || rho.None? {
      return rho;
    }
    var fmlaEqs: Equations := [];
    var bound := rho.value;
    var i := 0;
    while i < |eqs|
      invariant 0 <= i <= |eqs|
      invariant fmlaEqs == FormulaEquations(eqs[..i])
      invariant bound == AffirmationBindings(eqs[..i], rho.value)
      invariant forall k :: 0 <= k < i ==> PairMatches(eqs[k].0, eqs[k].1)
    {
      var t, o := eqs[i].0, eqs[i].1;
      assert eqs[..i + 1][..i] == eqs[..i];
      if t.Proposition? && o.Proposition? {
        fmlaEqs := fmlaEqs + [(t.p, o.p)];
      } else if t.Affirmation? && t.a.Variable? && o.Affirmation? {
        bound := bound[t.a.id := o.a];
        fmlaEqs := fmlaEqs + [(t.p, o.p)];
      } else if t.Affirmation? && t.a.Agent? && o.Affirmation? && o.a.Agent? && t.a.id == o.a.id {
        fmlaEqs := fmlaEqs + [(t.p, o.p)];
      } else {
        return None;
      }
      i := i + 1;
    }
    assert eqs[..i] == eqs;
    r := Matchs(fmlaEqs, Some(bound));
  }

  /** A judgement template the matcher handles exactly: first order, agent a variable or a constant. */
  predicate FirstOrderJudgement(j: Judgement)
  {
    FirstOrder(j.p) && (j.Affirmation? ==> j.a.Variable? || j.a.Agent?)
  }

  predicate DistinctAffirmationVariables(eqs: JudgementEquations)
  {
    forall i, k :: 0 <= i < k < |eqs| && AffirmationVariable(eqs[i].0) && AffirmationVariable(eqs[k].0) ==>
      eqs[i].0.a != eqs[k].0.a
  }

  lemma {:induction false} AffirmationBindingsAt(eqs: JudgementEquations, rho: Substitution, i: nat)
    requires i < |eqs| && AffirmationVariable(eqs[i].0) && eqs[i].1.Affirmation?
    requires DistinctAffirmationVariables(eqs)
    ensures eqs[i].0.a.id in AffirmationBindings(eqs, rho)
    ensures AffirmationBindings(eqs, rho)[eqs[i].0.a.id] == eqs[i].1.a
    decreases |eqs|
  {
    var n := |eqs| - 1;
    if i < n {
      var pre := eqs[..n];
      assert pre[i] == eqs[i];
      assert DistinctAffirmationVariables(pre) by {
        forall a, b | 0 <= a < b < |pre| && AffirmationVariable(pre[a].0) && AffirmationVariable(pre[b].0)
          ensures pre[a].0.a != pre[b].0.a
        {
          assert pre[a] == eqs[a] && pre[b] == eqs[b];
        }
      }
      AffirmationBindingsAt(pre, rho, i);
    }
  }

  lemma {:induction false} AffirmationBindingsNone(eqs: JudgementEquations, rho: Substitution)
    requires forall i :: 0 <= i < |eqs| ==> eqs[i].0.Proposition?
    ensures AffirmationBindings(eqs, rho) == rho
    decreases |eqs|
  {
    if |eqs| > 0 {
      var pre := eqs[..|eqs| - 1];
      assert forall i :: 0 <= i < |pre| ==> pre[i] == eqs[i];
      AffirmationBindingsNone(pre, rho);
    }
  }

  /**
    * A judgement match instantiates every template judgement to its target,
    * when templates are first order and no agent variable occurs twice. When
    * every template is a proposition, the match also keeps `rho`.
    */
  lemma MatchsJudgementSound(eqs: JudgementEquations, rho: Substitution, r: Substitution)
    requires forall i :: 0 <= i < |eqs| ==> FirstOrderJudgement(eqs[i].0) && WellFormed(eqs[i].1.p)
    requires DistinctAffirmationVariables(eqs)
    requires MatchsJudgement(eqs, Some(rho)) == Some(r)
    ensures forall i :: 0 <= i < |eqs| ==>
      TemplateVars(eqs[i].0) <= r.Keys && ApplyJudgement(eqs[i].0, r) == eqs[i].1
    ensures (forall i :: 0 <= i < |eqs| ==> eqs[i].0.Proposition?) ==> Extends(r, rho)
  {
    if |eqs| == 0 {
      return;
    }
    var fe := FormulaEquations(eqs);
    var b := AffirmationBindings(eqs, rho);
    MatchsCorrect(fe, b);
    forall i | 0 <= i < |eqs|
      ensures TemplateVars(eqs[i].0) <= r.Keys && ApplyJudgement(eqs[i].0, r) == eqs[i].1
    {
      var t, o := eqs[i].0, eqs[i].1;
      assert fe[i] == (t.p, o.p);
      assert PairMatches(t, o);
      if AffirmationVariable(t) {
        AffirmationBindingsAt(eqs, rho, i);
      }
    }
    if forall i :: 0 <= i < |eqs| ==> eqs[i].0.Proposition? {
      AffirmationBindingsNone(eqs, rho);
    }
  }

  /**
    * An affirmation template whose agent variable is already bound is
    * rebound to the target's agent without a consistency check.
    */
  lemma AffirmationRebindsAgent()
    ensures MatchsJudgement([(Affirmation(Variable("A"), App(TRUE, 0, [])), Affirmation(Agent("#b"), App(TRUE, 0, [])))],
                            Some(map["A" := Agent("#a")]))
            == Some(map["A" := Agent("#b")])
  {
    var eqs: JudgementEquations := [(Affirmation(Variable("A"), App(TRUE, 0, [])), Affirmation(Agent("#b"), App(TRUE, 0, [])))];
    assert eqs[..0] == [];
    var b := AffirmationBindings(eqs, map["A" := Agent("#a")]);
    assert b == map["A" := Agent("#b")];
    var fe := FormulaEquations(eqs);
    assert fe == [(App(TRUE, 0, []), App(TRUE, 0, []))];
    assert MatchsFuel(fe, Some(b), EqsSize(fe)) == MatchsFuel([], Some(b), EqsSize(fe));
  }

  // ---------------------------------------------------------------------
  // Arrangements: itertools.permutations over positions
  // ---------------------------------------------------------------------

  function Range(n: nat): seq<nat>
  {
    seq(n, i requires 0 <= i < n => i)
  }

  predicate Injective(p: seq<nat>)
  {
    forall i, j :: 0 <= i < j < |p| ==> p[i] != p[j]
  }

  predicate InRange(p: seq<nat>, n: nat)
  {
    forall i :: 0 <= i < |p| ==> p[i] < n
  }

  function Remove(pool: seq<nat>, m: nat): seq<nat>
    requires m < |pool|
  {
    pool[..m] + pool[m + 1..]
  }

  function Prefixed(x: nat, ps: seq<seq<nat>>): seq<seq<nat>>
  {
    seq(|ps|, i requires 0 <= i < |ps| => [x] + ps[i])
  }

  /** The k-arrangements of `pool` in lexicographic order of positions. */
  function Arrangements(pool: seq<nat>, k: nat): seq<seq<nat>>
    decreases k, |pool| + 1
  {
    if k == 0 then [[]] else ArrangementsFrom(pool, k, 0)
  }

  function ArrangementsFrom(pool: seq<nat>, k: nat, j: nat): seq<seq<nat>>
    requires 0 < k && j <= |pool|
    decreases k, |pool| - j
  {
    if j == |pool| then []
    else Prefixed(pool[j], Arrangements(Remove(pool, j), k - 1)) + ArrangementsFrom(pool, k, j + 1)
  }

  lemma {:induction false} ArrangementsFromMember(pool: seq<nat>, k: nat, j: nat, p: seq<nat>)
    requires 0 < k && j <= |pool|
    ensures p in ArrangementsFrom(pool, k, j) <==>
      |p| > 0 && exists m :: j <= m < |pool| && p[0] == pool[m] && p[1..] in Arrangements(Remove(pool, m), k - 1)
    decreases |pool| - j
  {
    if j < |pool| {
      ArrangementsFromMember(pool, k, j + 1, p);
      var ps := Arrangements(Remove(pool, j), k - 1);
      if p in Prefixed(pool[j], ps) {
        var i :| 0 <= i < |ps| && Prefixed(pool[j], ps)[i] == p;
        assert p[1..] == ps[i];
      }
      if |p| > 0 && p[0] == pool[j] && p[1..] in ps {
        var i :| 0 <= i < |ps| && ps[i] == p[1..];
        assert Prefixed(pool[j], ps)[i] == p;
      }
    }
  }

  lemma RemoveMembers(pool: seq<nat>, m: nat)
    requires m < |pool| && Injective(pool)
    ensures Injective(Remove(pool, m))
    ensures forall x :: x in Remove(pool, m) <==> x in pool && x != pool[m]
  {
    var r := Remove(pool, m);
    assert forall i :: 0 <= i < |r| ==> r[i] == if i < m then pool[i] else pool[i + 1];
    forall x | x in pool && x != pool[m]
      ensures x in r
    {
      var i :| 0 <= i < |pool| && pool[i] == x;
      if i < m {
        assert r[i] == x;
      } else {
        assert r[i - 1] == x;
      }
    }
  }

  lemma {:induction false} ArrangementsSound(pool: seq<nat>, k: nat, p: seq<nat>)
    requires Injective(pool) && p in Arrangements(pool, k)
    ensures |p| == k && Injective(p) && forall i :: 0 <= i < |p| ==> p[i] in pool
    decreases k
  {
    if k > 0 {
      ArrangementsFromMember(pool, k, 0, p);
      var m :| 0 <= m < |pool| && p[0] == pool[m] && p[1..] in Arrangements(Remove(pool, m), k - 1);
      RemoveMembers(pool, m);
      ArrangementsSound(Remove(pool, m), k - 1, p[1..]);
      ConsArrangement(p, pool, m);
    }
  }

  /** A position of the pool in front of an arrangement of the rest. */
  lemma ConsArrangement(p: seq<nat>, pool: seq<nat>, m: nat)
    requires |p| > 0 && m < |pool| && Injective(pool) && p[0] == pool[m]
    requires Injective(p[1..]) && forall i :: 0 <= i < |p[1..]| ==> p[1..][i] in Remove(pool, m)
    ensures Injective(p) && forall i :: 0 <= i < |p| ==> p[i] in pool
  {
    RemoveMembers(pool, m);
    forall i | 0 <= i < |p|
      ensures p[i] in pool
    {
      if i > 0 {
        assert p[i] == p[1..][i - 1];
      }
    }
    forall a, b | 0 <= a < b < |p|
      ensures p[a] != p[b]
    {
      assert p[b] == p[1..][b - 1];
      if a > 0 {
        assert p[a] == p[1..][a - 1];
      }
    }
  }

  lemma {:induction false} ArrangementsComplete(pool: seq<nat>, k: nat, p: seq<nat>)
    requires Injective(pool) && |p| == k && Injective(p)
    requires forall i :: 0 <= i < |p| ==> p[i] in pool
    ensures p in Arrangements(pool, k)
    decreases k
  {
    if k == 0 {
      assert p == [];
    } else {
      var m :| 0 <= m < |pool| && pool[m] == p[0];
      RemoveMembers(pool, m);
      var q := p[1..];
      forall i | 0 <= i < |q|
        ensures q[i] in Remove(pool, m)
      {
        assert q[i] == p[i + 1];
      }
      assert Injective(q) by {
        forall a, b | 0 <= a < b < |q|
          ensures q[a] != q[b]
        {
          assert q[a] == p[a + 1] && q[b] == p[b + 1];
        }
      }
      ArrangementsComplete(Remove(pool, m), k - 1, q);
      ArrangementsFromMember(pool, k, 0, p);
    }
  }

  /** An injective sequence of positions below `n` has at most `n` entries. */
  lemma {:induction false} InjectiveBound(p: seq<nat>, n: nat)
    requires Injective(p) && InRange(p, n)
    ensures |p| <= n
    decreases |p|
  {
    if |p| > 0 {
      var v := p[|p| - 1];
      var q: seq<nat> := seq(|p| - 1, i requires 0 <= i < |p| - 1 => if p[i] < v then p[i] else p[i] - 1);
      forall i | 0 <= i < |q|
        ensures q[i] < n - 1
      {
        assert p[i] != v;
      }
      assert Injective(q) by {
        forall a, b | 0 <= a < b < |q|
          ensures q[a] != q[b]
        {
          assert p[a] != p[b] && p[a] != v && p[b] != v;
        }
      }
      InjectiveBound(q, n - 1);
    }
  }

  lemma RangeInjective(n: nat)
    ensures Injective(Range(n))
    ensures forall x: nat :: x in Range(n) <==> x < n
  {
    forall x: nat | x < n
      ensures x in Range(n)
    {
      assert Range(n)[x] == x;
    }
  }

  /** Every arrangement of positions below `n` stays below `n`. */
  lemma ArrangementsInRange(n: nat, k: nat)
    ensures forall q :: q in Arrangements(Range(n), k) ==> |q| == k && Injective(q) && InRange(q, n)
  {
    RangeInjective(n);
    forall q | q in Arrangements(Range(n), k)
      ensures |q| == k && Injective(q) && InRange(q, n)
    {
      ArrangementsSound(Range(n), k, q);
    }
  }

  // ---------------------------------------------------------------------
  // Matching sequents
  // ---------------------------------------------------------------------

  function Pick(g: seq<Judgement>, p: seq<nat>): seq<Judgement>
    requires InRange(p, |g|)
  {
    seq(|p|, i requires 0 <= i < |p| => g[p[i]])
  }

  /** The match of each arrangement that succeeds, in arrangement order. */
  function PermutationMatches(g1: seq<Judgement>, g2: seq<Judgement>, rhoD: Option<Substitution>,
                              perms: seq<seq<nat>>): seq<Substitution>
    requires forall q :: q in perms ==> InRange(q, |g2|)
  {
    if |perms| == 0 then []
    else
      var rest := PermutationMatches(g1, g2, rhoD, perms[..|perms| - 1]);
      var m := MatchsJudgement(Zip(g1, Pick(g2, perms[|perms| - 1])), rhoD);
      if m.Some? then rest + [m.value] else rest
  }

  lemma {:induction false} PermutationMatchesMember(g1: seq<Judgement>, g2: seq<Judgement>, rhoD: Option<Substitution>,
                                                    perms: seq<seq<nat>>, r: Substitution)
    requires forall q :: q in perms ==> InRange(q, |g2|)
    ensures r in PermutationMatches(g1, g2, rhoD, perms) <==>
      exists q :: q in perms && MatchsJudgement(Zip(g1, Pick(g2, q)), rhoD) == Some(r)
    decreases |perms|
  {
    if |perms| > 0 {
      var pre := perms[..|perms| - 1];
      assert forall q :: q in perms <==> q in pre || q == perms[|perms| - 1];
      PermutationMatchesMember(g1, g2, rhoD, pre, r);
    }
  }

  /**
    * The substitutions found by relating the template's context to the
    * target's, after matching the goals.
    */
  function ContextMatches(s1: Sequent, s2: Sequent, rho: Option<Substitution>): seq<Substitution>
  {
    var rhoD := MatchsJudgement([(s1.delta, s2.delta)], rho);
    var k, n := |s1.gamma|, |s2.gamma|;
    if k == 0 && rhoD.Some? then [rhoD.value]
    else if k <= n then
      ArrangementsInRange(n, k);
      PermutationMatches(s1.gamma, s2.gamma, rhoD, Arrangements(Range(n), k))
    else []
  }

  /**
    * `matchs_judgement` lifted to sequents: `rho` itself when it already
    * instantiates the template to the target, then one substitution per
    * way of relating the template's context to distinct target assumptions.
    */
  function MatchsSequent(s1: Sequent, s2: Sequent, rho: Option<Substitution>): (r: seq<Substitution>)
    ensures rho.None? ==> r == []
    ensures |s1.gamma| > |s2.gamma| ==> r == []
  {
    if rho.None? then []
    else (if ApplySequent(s1, rho.value) == s2 then [rho.value] else []) + ContextMatches(s1, s2, rho)
  }

  /** The generator's loop over the arrangements of the target context. */
  method EnumerateSequentMatches(s1: Sequent, s2: Sequent, rho: Option<Substitution>) returns (r: seq<Substitution>)
    ensures r == MatchsSequent(s1, s2, rho)
  {
    if rho.None? {
      return [];
    }
    r := if ApplySequent(s1, rho.value) == s2 then [rho.value] else [];
    var rhoD := MatchJudgementPairs([(s1.delta, s2.delta)], rho);
    var k, n := |s1.gamma|, |s2.gamma|;
    if k == 0 && rhoD.Some? {
      r := r + [rhoD.value];
    } else if k <= n {
      ArrangementsInRange(n, k);
      var found := EnumeratePermutationMatches(s1.gamma, s2.gamma, rhoD, Arrangements(Range(n), k));
      r := r + found;
    }
  }

  /** The loop over the arrangements of the target context's assumptions. */
  method EnumeratePermutationMatches(g1: seq<Judgement>, g2: seq<Judgement>, rhoD: Option<Substitution>,
                                     perms: seq<seq<nat>>) returns (found: seq<Substitution>)
    requires forall q :: q in perms ==> InRange(q, |g2|)
    ensures found == PermutationMatches(g1, g2, rhoD, perms)
  {
    found := [];
    var i := 0;
    while i < |perms|
      invariant 0 <= i <= |perms|
      invariant found == PermutationMatches(g1, g2, rhoD, perms[..i])
    {
      assert perms[..i + 1][..i] == perms[..i];
      var m := MatchJudgementPairs(Zip(g1, Pick(g2, perms[i])), rhoD);
      if m.Some? {
        found := found + [m.value];
      }
      i := i + 1;
    }
    assert perms[..i] == perms;
  }

  /** A rule conclusion the matcher handles exactly. */
  predicate TemplateSequent(s: Sequent)
  {
    FirstOrderJudgement(s.delta) &&
    forall i :: 0 <= i < |s.gamma| ==> s.gamma[i].Proposition? && FirstOrder(s.gamma[i].p)
  }

  predicate WellFormedSequent(s: Sequent)
  {
    WellFormed(s.delta.p) && forall i :: 0 <= i < |s.gamma| ==> WellFormed(s.gamma[i].p)
  }

  /** `p` sends the `k` template assumptions to distinct positions below `n`. */
  predicate Assignment(p: seq<nat>, k: nat, n: nat)
  {
    |p| == k && Injective(p) && InRange(p, n)
  }

  /** `r` instantiates the template's goal, and each template assumption to a distinct target one. */
  ghost predicate Instantiates(s1: Sequent, s2: Sequent, r: Substitution)
  {
    ApplyJudgement(s1.delta, r) == s2.delta &&
    exists p :: Assignment(p, |s1.gamma|, |s2.gamma|) &&
      (forall i :: 0 <= i < |s1.gamma| ==> ApplyJudgement(s1.gamma[i], r) == s2.gamma[p[i]])
  }

  /**
    * Every substitution the sequent matcher yields instantiates the
    * template's goal to the target's goal and each template assumption to
    * a distinct target assumption.
    */
  lemma MatchsSequentSound(s1: Sequent, s2: Sequent, rho: Substitution, r: Substitution)
    requires TemplateSequent(s1) && WellFormedSequent(s2)
    requires r in MatchsSequent(s1, s2, Some(rho))
    ensures Instantiates(s1, s2, r)
  {
    if ApplySequent(s1, rho) == s2 && r == rho {
      var k := |s1.gamma|;
      var p := Range(k);
      RangeInjective(k);
      forall i | 0 <= i < k
        ensures ApplyJudgement(s1.gamma[i], r) == s2.gamma[p[i]]
      {
        assert ApplyContext(s1.gamma, rho)[i] == s2.gamma[i];
      }
      assert Assignment(p, k, |s2.gamma|);
    } else {
      ContextMatchesSound(s1, s2, rho, r);
    }
  }

  lemma ContextMatchesSound(s1: Sequent, s2: Sequent, rho: Substitution, r: Substitution)
    requires TemplateSequent(s1) && WellFormedSequent(s2)
    requires r in ContextMatches(s1, s2, Some(rho))
    ensures Instantiates(s1, s2, r)
  {
    var k, n := |s1.gamma|, |s2.gamma|;
    var deltaEqs := [(s1.delta, s2.delta)];
    var rhoD := MatchsJudgement(deltaEqs, Some(rho));
    if rhoD.Some? {
      MatchsJudgementSound(deltaEqs, rho, rhoD.value);
    }
    if k == 0 && rhoD.Some? {
      assert Assignment([], k, n);
    } else {
      var q := ContextMatchWitness(s1, s2, Some(rho), r);
      PermutationMatchSound(s1, s2, rhoD.value, q, r);
    }
  }

  /** Past the goal-only case, a context match comes from one arrangement of the target's assumptions. */
  lemma ContextMatchWitness(s1: Sequent, s2: Sequent, rho: Option<Substitution>, r: Substitution) returns (q: seq<nat>)
    requires r in ContextMatches(s1, s2, rho)
    requires !(|s1.gamma| == 0 && MatchsJudgement([(s1.delta, s2.delta)], rho).Some?)
    ensures MatchsJudgement([(s1.delta, s2.delta)], rho).Some?
    ensures Assignment(q, |s1.gamma|, |s2.gamma|) && q in Arrangements(Range(|s2.gamma|), |s1.gamma|)
    ensures MatchsJudgement(Zip(s1.gamma, Pick(s2.gamma, q)), MatchsJudgement([(s1.delta, s2.delta)], rho)) == Some(r)
  {
    var k, n := |s1.gamma|, |s2.gamma|;
    var rhoD := MatchsJudgement([(s1.delta, s2.delta)], rho);
    ArrangementsInRange(n, k);
    PermutationMatchesMember(s1.gamma, s2.gamma, rhoD, Arrangements(Range(n), k), r);
    q :| q in Arrangements(Range(n), k) && MatchsJudgement(Zip(s1.gamma, Pick(s2.gamma, q)), rhoD) == Some(r);
  }

  lemma PermutationMatchSound(s1: Sequent, s2: Sequent, d: Substitution, q: seq<nat>, r: Substitution)
    requires TemplateSequent(s1) && WellFormedSequent(s2)
    requires Assignment(q, |s1.gamma|, |s2.gamma|)
    requires TemplateVars(s1.delta) <= d.Keys && ApplyJudgement(s1.delta, d) == s2.delta
    requires MatchsJudgement(Zip(s1.gamma, Pick(s2.gamma, q)), Some(d)) == Some(r)
    ensures Instantiates(s1, s2, r)
  {
    var k := |s1.gamma|;
    var eqs := Zip(s1.gamma, Pick(s2.gamma, q));
    assert |eqs| == k;
    forall i | 0 <= i < |eqs|
      ensures FirstOrderJudgement(eqs[i].0) && WellFormed(eqs[i].1.p) && eqs[i].0.Proposition?
      ensures eqs[i] == (s1.gamma[i], s2.gamma[q[i]])
    {
      assert eqs[i] == (s1.gamma[i], s2.gamma[q[i]]);
    }
    MatchsJudgementSound(eqs, d, r);
    ApplyJudgementExtends(s1.delta, d, r);
    assert forall i :: 0 <= i < k ==> ApplyJudgement(s1.gamma[i], r) == s2.gamma[q[i]];
  }

  /** `f` places each judgement of `g` at a distinct position of `h`. */
  predicate Embeds(f: seq<nat>, g: seq<Judgement>, h: seq<Judgement>)
  {
    |f| == |g| && Injective(f) && InRange(f, |h|) && forall i :: 0 <= i < |g| ==> h[f[i]] == g[i]
  }

  /** Any assignment that matches is among the permutation loop's results. */
  lemma PermutationMatchFound(g1: seq<Judgement>, g: seq<Judgement>, rhoD: Option<Substitution>,
                              q: seq<nat>, r: Substitution)
    requires Assignment(q, |g1|, |g|)
    requires MatchsJudgement(Zip(g1, Pick(g, q)), rhoD) == Some(r)
    ensures |g1| <= |g|
    ensures forall q' :: q' in Arrangements(Range(|g|), |g1|) ==> InRange(q', |g|)
    ensures r in PermutationMatches(g1, g, rhoD, Arrangements(Range(|g|), |g1|))
  {
    InjectiveBound(q, |g|);
    RangeInjective(|g|);
    ArrangementsComplete(Range(|g|), |g1|, q);
    ArrangementsInRange(|g|, |g1|);
    PermutationMatchesMember(g1, g, rhoD, Arrangements(Range(|g|), |g1|), r);
  }

  /**
    * Adding assumptions to the target (or reordering it) never removes a
    * substitution found by relating contexts.
    */
  lemma ContextMatchesWeaken(s1: Sequent, g: seq<Judgement>, h: seq<Judgement>, d: Judgement,
                             rho: Option<Substitution>, f: seq<nat>, r: Substitution)
    requires Embeds(f, g, h)
    requires r in ContextMatches(s1, Sequent(g, d), rho)
    ensures r in ContextMatches(s1, Sequent(h, d), rho)
  {
    var k := |s1.gamma|;
    var rhoD := MatchsJudgement([(s1.delta, d)], rho);
    if !(k == 0 && rhoD.Some?) {
      var q := ContextMatchWitness(s1, Sequent(g, d), rho, r);
      var q' := Compose(f, q, |h|);
      assert Pick(h, q') == Pick(g, q);
      PermutationMatchFound(s1.gamma, h, rhoD, q', r);
    }
  }

  /** Following an assignment into `g` by an embedding of `g` into a context of length `n`. */
  function Compose(f: seq<nat>, q: seq<nat>, n: nat): (r: seq<nat>)
    requires InRange(q, |f|) && InRange(f, n) && Injective(f) && Injective(q)
    ensures |r| == |q| && Injective(r) && InRange(r, n)
    ensures forall i :: 0 <= i < |q| ==> r[i] == f[q[i]]
  {
    var r: seq<nat> := seq(|q|, i requires 0 <= i < |q| => f[q[i]]);
    assert Injective(r) by {
      forall a, b | 0 <= a < b < |q|
        ensures r[a] != r[b]
      {
        assert q[a] != q[b];
      }
    }
    r
  }
}
