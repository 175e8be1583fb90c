/**
  * Syntax collectors, fresh variables, and the context checks for certificate
  * authorities, keys and credentials (src/util.py).
  */
module Util {
  import opened Wrappers
  import opened Logic

  /** The four kinds of object the collectors accept. */
  datatype Syntax = OfFormula(f: Formula) | OfJudgement(j: Judgement) | OfSequent(s: Sequent) | OfProof(pf: Proof)

  // ---------------------------------------------------------------------
  // Collectors
  // ---------------------------------------------------------------------

  /** The union of `f` over the goal and the assumptions of a sequent. */
  function SequentCollect<T>(s: Sequent, f: Judgement -> set<T>): set<T>
  {
    f(s.delta) + set i, x | 0 <= i < |s.gamma| && x in f(s.gamma[i]) :: x
  }

  /** The union of `f` over the conclusion of a proof and, recursively, its premises. */
  function ProofCollect<T>(pf: Proof, f: Sequent -> set<T>): set<T>
  {
    match pf
    case Obligation(s) => f(s)
    case Proof(prems, c, _) => f(c) + set i, x | 0 <= i < |prems| && x in ProofCollect(prems[i], f) :: x
  }

  /** Every sequent of a proof tree: conclusions and open obligations. */
  function Nodes(pf: Proof): set<Sequent>
  {
    match pf
    case Obligation(s) => {s}
    case Proof(prems, c, _) => {c} + set i, s | 0 <= i < |prems| && s in Nodes(prems[i]) :: s
  }

  /** What a proof collects is what its sequents collect, one by one. */
  lemma {:induction false} ProofCollectNodes<T>(pf: Proof, f: Sequent -> set<T>)
    ensures ProofCollect(pf, f) == set s, x | s in Nodes(pf) && x in f(s) :: x
    decreases pf
  {
    match pf
    case Obligation(s) =>
    case Proof(prems, c, _) =>
      forall i | 0 <= i < |prems| {
        ProofCollectNodes(prems[i], f);
      }
      var rhs := set s, x | s in Nodes(pf) && x in f(s) :: x;
      forall x | x in ProofCollect(pf, f) ensures x in rhs {
        if x !in f(c) {
          var i :| 0 <= i < |prems| && x in ProofCollect(prems[i], f);
          var s :| s in Nodes(prems[i]) && x in f(s);
          assert s in Nodes(pf);
        }
      }
      forall x | x in rhs ensures x in ProofCollect(pf, f) {
        var s :| s in Nodes(pf) && x in f(s);
        if s != c {
          var i :| 0 <= i < |prems| && s in Nodes(prems[i]);
          assert x in ProofCollect(prems[i], f);
        }
      }
  }

  /** What `f` gives for the goal or any assumption is collected from the sequent. */
  lemma SequentCollectMember<T>(s: Sequent, f: Judgement -> set<T>, j: Judgement, x: T)
    requires j == s.delta || j in s.gamma
    requires x in f(j)
    ensures x in SequentCollect(s, f)
  {
    if j != s.delta {
      var i :| 0 <= i < |s.gamma| && s.gamma[i] == j;
    }
  }

  /** What `f` gives for any sequent of a proof is collected from the proof. */
  lemma ProofCollectMember<T>(pf: Proof, f: Sequent -> set<T>, n: Sequent, x: T)
    requires n in Nodes(pf) && x in f(n)
    ensures x in ProofCollect(pf, f)
  {
    ProofCollectNodes(pf, f);
  }

  /** `x` occurs in the judgement, as its agent or inside its formula. */
  predicate OccursIn(x: Formula, j: Judgement)
  {
    Occurs(x, j.p) || (j.Affirmation? && x == j.a)
  }

  /** Free variables; a Variable names itself and only the variables of an agent position count. */
  function JudgementAllVars(j: Judgement): (r: set<string>)
    ensures forall v :: v in r ==> OccursIn(Variable(v), j)
  {
    FreeVarsOccur(j.p);
    match j
    case Proposition(q) => FreeVars(q)
    case Affirmation(a, q) =>
      if a.Variable? then {a.id} + FreeVars(q)
      else if a.Agent? then FreeVars(q)
      else {}
  }

  /** Every free variable of a formula occurs in it. */
  lemma {:induction false} FreeVarsOccur(t: Formula)
    ensures forall v :: v in FreeVars(t) ==> Occurs(Variable(v), t)
  {
    match t
    case App(_, _, args) =>
      forall i | 0 <= i < |args| {
        FreeVarsOccur(args[i]);
      }
    case Forall(_, p) => FreeVarsOccur(p);
    case _ =>
  }

  function SequentAllVars(s: Sequent): set<string>
  {
    SequentCollect(s, JudgementAllVars)
  }

  /** The names of the variables appearing in an object (a quantifier hides its own). */
  function AllVars(o: Syntax): set<string>
  {
    match o
    case OfFormula(f) => FreeVars(f)
    case OfJudgement(j) => JudgementAllVars(j)
    case OfSequent(s) => SequentAllVars(s)
    case OfProof(pf) => ProofCollect(pf, SequentAllVars)
  }

  /**
    * Keys: Key constants, the key argument of `iskey` and `sign`, and the keys
    * of a signed formula. Too few arguments for those positions (an index
    * error in the source) contribute nothing.
    */
  function FormulaKeys(t: Formula): (r: set<Formula>)
    ensures forall k :: k in r ==> Occurs(k, t)
  {
    match t
    case Key(_) => {t}
    case App(op, _, args) =>
      if op == ISKEY then
        if |args| >= 2 then {args[1]} else {}
      else if op == SIGN then
        if |args| >= 2 then {args[1]} + FormulaKeys(args[0]) else {}
      else
        set i, k | 0 <= i < |args| && k in FormulaKeys(args[i]) :: k
    case Forall(_, p) => FormulaKeys(p)
    case _ => {}
  }

  function JudgementKeys(j: Judgement): set<Formula>
  {
    FormulaKeys(j.p)
  }

  function SequentKeys(s: Sequent): set<Formula>
  {
    SequentCollect(s, JudgementKeys)
  }

  function AllKeys(o: Syntax): set<Formula>
  {
    match o
    case OfFormula(f) => FormulaKeys(f)
    case OfJudgement(j) => JudgementKeys(j)
    case OfSequent(s) => SequentKeys(s)
    case OfProof(pf) => ProofCollect(pf, SequentKeys)
  }

  /**
    * Agents: Agent constants, the agent argument of `iskey`, `says` and
    * `open`, the agents of a said or signed formula, and an affirmation's
    * agent.
    */
  function FormulaAgents(t: Formula): (r: set<Formula>)
    ensures forall a :: a in r ==> Occurs(a, t)
  {
    match t
    case Agent(_) => {t}
    case App(op, _, args) =>
      if op == ISKEY then
        if |args| >= 1 then {args[0]} else {}
      else if op == SAYS then
        if |args| >= 2 then {args[0]} + FormulaAgents(args[1]) else {}
      else if op == SIGN then
        if |args| >= 1 then FormulaAgents(args[0]) else {}
      else if op == OPEN then
        if |args| >= 1 then {args[0]} else {}
      else
        set i, a | 0 <= i < |args| && a in FormulaAgents(args[i]) :: a
    case Forall(_, p) => FormulaAgents(p)
    case _ => {}
  }

  function JudgementAgents(j: Judgement): (r: set<Formula>)
    ensures forall a :: a in r ==> OccursIn(a, j)
  {
    (if j.Affirmation? then {j.a} else {}) + FormulaAgents(j.p)
  }

  function SequentAgents(s: Sequent): set<Formula>
  {
    SequentCollect(s, JudgementAgents)
  }

  function Agents(o: Syntax): set<Formula>
  {
    match o
    case OfFormula(f) => FormulaAgents(f)
    case OfJudgement(j) => JudgementAgents(j)
    case OfSequent(s) => SequentAgents(s)
    case OfProof(pf) => ProofCollect(pf, SequentAgents)
  }

  /** Resources: Resource constants, the resource argument of `open`, and the resources of a said or signed formula. */
  function FormulaResources(t: Formula): (r: set<Formula>)
    ensures forall x :: x in r ==> Occurs(x, t)
  {
    match t
    case Resource(_) => {t}
    case App(op, _, args) =>
      if op == SAYS then
        if |args| >= 2 then FormulaResources(args[1]) else {}
      else if op == OPEN then
        if |args| >= 2 then {args[1]} else {}
      else if op == SIGN then
        if |args| >= 1 then FormulaResources(args[0]) else {}
      else
        set i, x | 0 <= i < |args| && x in FormulaResources(args[i]) :: x
    case Forall(_, p) => FormulaResources(p)
    case _ => {}
  }

  function JudgementResources(j: Judgement): set<Formula>
  {
    FormulaResources(j.p)
  }

  function SequentResources(s: Sequent): set<Formula>
  {
    SequentCollect(s, JudgementResources)
  }

  function Resources(o: Syntax): set<Formula>
  {
    match o
    case OfFormula(f) => FormulaResources(f)
    case OfJudgement(j) => JudgementResources(j)
    case OfSequent(s) => SequentResources(s)
    case OfProof(pf) => ProofCollect(pf, SequentResources)
  }

  // ---------------------------------------------------------------------
  // Positions inside a formula
  // ---------------------------------------------------------------------

  /** Step `i` leads into an argument of an application, or (with `i == 0`) into a quantifier's body. */
  predicate ValidStep(t: Formula, i: nat)
  {
    (t.App? && i < |t.args|) || (t.Forall? && i == 0)
  }

  function Child(t: Formula, i: nat): Formula
    requires ValidStep(t, i)
  {
    if t.App? then t.args[i] else t.p
  }

  /** Every step of `path` leads into a subformula. */
  predicate ValidPath(t: Formula, path: seq<nat>)
    decreases |path|
  {
    |path| == 0 || (ValidStep(t, path[0]) && ValidPath(Child(t, path[0]), path[1..]))
  }

  /** The subformula of `t` at the end of `path`. */
  function Sub(t: Formula, path: seq<nat>): Formula
    requires ValidPath(t, path)
    decreases |path|
  {
    if |path| == 0 then t else Sub(Child(t, path[0]), path[1..])
  }

  /** Key collection descends into every argument, except that `iskey` is not entered and `sign` only into its statement. */
  predicate KeyDescends(t: Formula, i: nat)
  {
    ValidStep(t, i) && (t.Forall? || (t.op != ISKEY && (t.op == SIGN ==> i == 0 && |t.args| >= 2)))
  }

  predicate KeyPath(t: Formula, path: seq<nat>)
    decreases |path|
  {
    |path| == 0 || (KeyDescends(t, path[0]) && KeyPath(Child(t, path[0]), path[1..]))
  }

  /**
    * Every key in a collecting position is reported: a Key constant, and
    * the key argument of `iskey` or `sign`, reached through the positions
    * key collection descends into.
    */
  lemma {:induction false} FormulaKeysFind(t: Formula, path: seq<nat>)
    requires ValidPath(t, path) && KeyPath(t, path)
    ensures Sub(t, path).Key? ==> Sub(t, path) in FormulaKeys(t)
    ensures var u := Sub(t, path);
      u.App? && (u.op == ISKEY || u.op == SIGN) && |u.args| >= 2 ==> u.args[1] in FormulaKeys(t)
    decreases |path|
  {
    if |path| > 0 {
      var c := Child(t, path[0]);
      FormulaKeysFind(c, path[1..]);
      assert FormulaKeys(c) <= FormulaKeys(t) by {
        if t.App? && t.op != SIGN {
          assert forall k :: k in FormulaKeys(c) ==> k in FormulaKeys(t.args[path[0]]);
        }
      }
    }
  }

  /** `k` is collected at the end of `path`: the Key constant there, or the key argument of an `iskey` or `sign` there. */
  predicate KeyAt(t: Formula, path: seq<nat>, k: Formula)
    requires ValidPath(t, path)
  {
    var u := Sub(t, path);
    (u.Key? && u == k) || (u.App? && (u.op == ISKEY || u.op == SIGN) && |u.args| >= 2 && u.args[1] == k)
  }

  /** Every reported key sits at a position key collection descends into; nothing else (e.g. the agent of `iskey`) is reported. */
  lemma {:induction false} FormulaKeysFrom(t: Formula, k: Formula)
    requires k in FormulaKeys(t)
    ensures exists path :: ValidPath(t, path) && KeyPath(t, path) && KeyAt(t, path, k)
    decreases t
  {
    var i: nat;
    if KeyAt(t, [], k) {
      return;
    } else if t.App? && t.op == SIGN {
      i := 0;
    } else if t.App? {
      i :| 0 <= i < |t.args| && k in FormulaKeys(t.args[i]);
    } else if t.Forall? {
      i := 0;
    } else {
      return;
    }
    var c := Child(t, i);
    FormulaKeysFrom(c, k);
    var p :| ValidPath(c, p) && KeyPath(c, p) && KeyAt(c, p, k);
    assert ([i] + p)[1..] == p;
    assert ValidPath(t, [i] + p) && KeyPath(t, [i] + p) && KeyAt(t, [i] + p, k);
  }

  /** `allkeys` reports exactly the keys at the positions it descends into. */
  lemma FormulaKeysExactly(t: Formula, k: Formula)
    ensures k in FormulaKeys(t) <==> exists path :: ValidPath(t, path) && KeyPath(t, path) && KeyAt(t, path, k)
  {
    if k in FormulaKeys(t) {
      FormulaKeysFrom(t, k);
    }
    forall path | ValidPath(t, path) && KeyPath(t, path) && KeyAt(t, path, k)
      ensures k in FormulaKeys(t)
    {
      FormulaKeysFind(t, path);
    }
  }

  /** Agent collection enters neither `iskey` nor `open`, only the statement of `says` and `sign`, and every other argument. */
  predicate AgentDescends(t: Formula, i: nat)
  {
    && ValidStep(t, i)
    && (t.Forall? ||
        (&& t.op != ISKEY && t.op != OPEN
         && (t.op == SAYS ==> i == 1)
         && (t.op == SIGN ==> i == 0)))
  }

  predicate AgentPath(t: Formula, path: seq<nat>)
    decreases |path|
  {
    |path| == 0 || (AgentDescends(t, path[0]) && AgentPath(Child(t, path[0]), path[1..]))
  }

  /**
    * Every agent in a collecting position is reported: an Agent constant,
    * and the agent argument of `iskey`, `says` and `open`, reached through
    * the positions agent collection descends into.
    */
  lemma {:induction false} FormulaAgentsFind(t: Formula, path: seq<nat>)
    requires ValidPath(t, path) && AgentPath(t, path)
    ensures Sub(t, path).Agent? ==> Sub(t, path) in FormulaAgents(t)
    ensures var u := Sub(t, path);
      u.App? && (u.op == ISKEY || u.op == OPEN) && |u.args| >= 1 ==> u.args[0] in FormulaAgents(t)
    ensures var u := Sub(t, path);
      u.App? && u.op == SAYS && |u.args| >= 2 ==> u.args[0] in FormulaAgents(t)
    decreases |path|
  {
    if |path| > 0 {
      var c := Child(t, path[0]);
      FormulaAgentsFind(c, path[1..]);
      assert FormulaAgents(c) <= FormulaAgents(t) by {
        if t.App? && t.op != SAYS && t.op != SIGN {
          assert forall a :: a in FormulaAgents(c) ==> a in FormulaAgents(t.args[path[0]]);
        }
      }
    }
  }

  /** `a` is collected at the end of `path`: the Agent constant there, or the agent argument of an `iskey`, `open` or `says` there. */
  predicate AgentAt(t: Formula, path: seq<nat>, a: Formula)
    requires ValidPath(t, path)
  {
    var u := Sub(t, path);
    || (u.Agent? && u == a)
    || (u.App? && (u.op == ISKEY || u.op == OPEN) && |u.args| >= 1 && u.args[0] == a)
    || (u.App? && u.op == SAYS && |u.args| >= 2 && u.args[0] == a)
  }

  /** Every reported agent sits at a position agent collection descends into. */
  lemma {:induction false} FormulaAgentsFrom(t: Formula, a: Formula)
    requires a in FormulaAgents(t)
    ensures exists path :: ValidPath(t, path) && AgentPath(t, path) && AgentAt(t, path, a)
    decreases t
  {
    var i: nat;
    if AgentAt(t, [], a) {
      return;
    } else if t.App? && t.op == SAYS {
      i := 1;
    } else if t.App? && t.op == SIGN {
      i := 0;
    } else if t.App? && t.op != ISKEY && t.op != OPEN {
      i :| 0 <= i < |t.args| && a in FormulaAgents(t.args[i]);
    } else if t.Forall? {
      i := 0;
    } else {
      return;
    }
    var c := Child(t, i);
    FormulaAgentsFrom(c, a);
    var p :| ValidPath(c, p) && AgentPath(c, p) && AgentAt(c, p, a);
    assert ([i] + p)[1..] == p;
    assert ValidPath(t, [i] + p) && AgentPath(t, [i] + p) && AgentAt(t, [i] + p, a);
  }

  /** `agents` reports exactly the agents at the positions it descends into. */
  lemma FormulaAgentsExactly(t: Formula, a: Formula)
    ensures a in FormulaAgents(t) <==> exists path :: ValidPath(t, path) && AgentPath(t, path) && AgentAt(t, path, a)
  {
    if a in FormulaAgents(t) {
      FormulaAgentsFrom(t, a);
    }
    forall path | ValidPath(t, path) && AgentPath(t, path) && AgentAt(t, path, a)
      ensures a in FormulaAgents(t)
    {
      FormulaAgentsFind(t, path);
    }
  }

  /** An affirmation's agent is reported, and so is every agent in a collecting position of its formula. */
  lemma JudgementAgentsFind(j: Judgement, path: seq<nat>)
    requires ValidPath(j.p, path) && AgentPath(j.p, path)
    ensures j.Affirmation? ==> j.a in JudgementAgents(j)
    ensures FormulaAgents(j.p) <= JudgementAgents(j)
    ensures Sub(j.p, path).Agent? ==> Sub(j.p, path) in JudgementAgents(j)
  {
    FormulaAgentsFind(j.p, path);
  }

  /** Resource collection does not enter `open`, enters only the statement of `says` and `sign`, and every other argument. */
  predicate ResourceDescends(t: Formula, i: nat)
  {
    && ValidStep(t, i)
    && (t.Forall? ||
        (&& t.op != OPEN
         && (t.op == SAYS ==> i == 1)
         && (t.op == SIGN ==> i == 0)))
  }

  predicate ResourcePath(t: Formula, path: seq<nat>)
    decreases |path|
  {
    |path| == 0 || (ResourceDescends(t, path[0]) && ResourcePath(Child(t, path[0]), path[1..]))
  }

  /**
    * Every resource in a collecting position is reported: a Resource
    * constant, and the resource argument of `open`, reached through the
    * positions resource collection descends into.
    */
  lemma {:induction false} FormulaResourcesFind(t: Formula, path: seq<nat>)
    requires ValidPath(t, path) && ResourcePath(t, path)
    ensures Sub(t, path).Resource? ==> Sub(t, path) in FormulaResources(t)
    ensures var u := Sub(t, path);
      u.App? && u.op == OPEN && |u.args| >= 2 ==> u.args[1] in FormulaResources(t)
    decreases |path|
  {
    if |path| > 0 {
      var c := Child(t, path[0]);
      FormulaResourcesFind(c, path[1..]);
      assert FormulaResources(c) <= FormulaResources(t) by {
        if t.App? && t.op != SAYS && t.op != SIGN {
          assert forall x :: x in FormulaResources(c) ==> x in FormulaResources(t.args[path[0]]);
        }
      }
    }
  }

  /** `x` is collected at the end of `path`: the Resource constant there, or the resource argument of an `open` there. */
  predicate ResourceAt(t: Formula, path: seq<nat>, x: Formula)
    requires ValidPath(t, path)
  {
    var u := Sub(t, path);
    (u.Resource? && u == x) || (u.App? && u.op == OPEN && |u.args| >= 2 && u.args[1] == x)
  }

  /** Every reported resource sits at a position resource collection descends into. */
  lemma {:induction false} FormulaResourcesFrom(t: Formula, x: Formula)
    requires x in FormulaResources(t)
    ensures exists path :: ValidPath(t, path) && ResourcePath(t, path) && ResourceAt(t, path, x)
    decreases t
  {
    var i: nat;
    if ResourceAt(t, [], x) {
      return;
    } else if t.App? && t.op == SAYS {
      i := 1;
    } else if t.App? && t.op == SIGN {
      i := 0;
    } else if t.App? && t.op != OPEN {
      i :| 0 <= i < |t.args| && x in FormulaResources(t.args[i]);
    } else if t.Forall? {
      i := 0;
    } else {
      return;
    }
    var c := Child(t, i);
    FormulaResourcesFrom(c, x);
    var p :| ValidPath(c, p) && ResourcePath(c, p) && ResourceAt(c, p, x);
    assert ([i] + p)[1..] == p;
    assert ValidPath(t, [i] + p) && ResourcePath(t, [i] + p) && ResourceAt(t, [i] + p, x);
  }

  /** `resources` reports exactly the resources at the positions it descends into. */
  lemma FormulaResourcesExactly(t: Formula, x: Formula)
    ensures x in FormulaResources(t) <==> exists path :: ValidPath(t, path) && ResourcePath(t, path) && ResourceAt(t, path, x)
  {
    if x in FormulaResources(t) {
      FormulaResourcesFrom(t, x);
    }
    forall path | ValidPath(t, path) && ResourcePath(t, path) && ResourceAt(t, path, x)
      ensures x in FormulaResources(t)
    {
      FormulaResourcesFind(t, path);
    }
  }

  // ---------------------------------------------------------------------
  // Fresh variables
  // ---------------------------------------------------------------------

  function Digit(d: nat): char
    requires d < 10
  {
    "0123456789"[d]
  }

  /** Decimal notation, as `str` gives it. */
  function NatToString(n: nat): (r: string)
    ensures |r| >= 1
    ensures n < 10 <==> |r| == 1
  {
    if n < 10 then [Digit(n)] else NatToString(n / 10) + [Digit(n % 10)]
  }

  /** Distinct numbers have distinct decimal notations. */
  lemma {:induction false} NatToStringInjective(a: nat, b: nat)
    requires NatToString(a) == NatToString(b)
    ensures a == b
    decreases a
  {
    if a >= 10 && b >= 10 {
      var sa, sb := NatToString(a), NatToString(b);
      assert sa[|sa| - 1] == Digit(a % 10) && sb[|sb| - 1] == Digit(b % 10);
      assert a % 10 == b % 10;
      assert sa[..|sa| - 1] == NatToString(a / 10);
      assert sb[..|sb| - 1] == NatToString(b / 10);
      NatToStringInjective(a / 10, b / 10);
    }
  }

  /** The candidate names `prefix0`, ..., `prefix(m-1)`. */
  function Candidates(prefix: string, m: nat): set<string>
  {
    set j: nat | j < m :: prefix + NatToString(j)
  }

  lemma {:induction false} CandidatesCount(prefix: string, m: nat)
    ensures |Candidates(prefix, m)| == m
  {
    if m > 0 {
      CandidatesCount(prefix, m - 1);
      var c := prefix + NatToString(m - 1);
      assert Candidates(prefix, m) == Candidates(prefix, m - 1) + {c};
      if c in Candidates(prefix, m - 1) {
        var j: nat :| j < m - 1 && prefix + NatToString(j) == c;
        assert NatToString(j) == (prefix + NatToString(j))[|prefix|..];
        assert NatToString(m - 1) == c[|prefix|..];
        NatToStringInjective(j, m - 1);
        assert false;
      }
    }
  }

  /**
    * `prefix` followed by the least number whose name does not occur in the
    * object: the result is fresh, and every smaller suffix was taken.
    */
  method FreshVar(o: Syntax, prefix: string) returns (v: Formula)
    ensures v.Variable? && v.id !in AllVars(o)
    ensures exists i: nat :: (v.id == prefix + NatToString(i) &&
      forall j: nat :: j < i ==> prefix + NatToString(j) in AllVars(o))
  {
    var vs := AllVars(o);
    var i: nat := 0;
    while prefix + NatToString(i) in vs
      invariant Candidates(prefix, i) <= vs
      decreases |vs| - i
    {
      assert Candidates(prefix, i + 1) == Candidates(prefix, i) + {prefix + NatToString(i)};
      CandidatesCount(prefix, i + 1);
      assert |Candidates(prefix, i + 1)| <= |vs| by {
        SubsetCard(Candidates(prefix, i + 1), vs);
      }
      i := i + 1;
    }
    v := Variable(prefix + NatToString(i));
    assert forall j: nat :: j < i ==> prefix + NatToString(j) in Candidates(prefix, i);
  }

  lemma SubsetCard<T>(a: set<T>, b: set<T>)
    requires a <= b
    ensures |a| <= |b|
  {
    assert b == a + (b - a);
  }

  // ---------------------------------------------------------------------
  // Certificate authorities, keys and credentials
  // ---------------------------------------------------------------------

  /** A context assumption `iskey(ag, pk)` with exactly two arguments. */
  predicate IsKeyAssumption(j: Judgement)
  {
    j.Proposition? && j.p.App? && j.p.op == ISKEY && |j.p.args| == 2
  }

  /** A context assumption `ca(ag)` with exactly one argument. */
  predicate IsCaAssumption(j: Judgement)
  {
    j.Proposition? && j.p.App? && j.p.op == ISCA && |j.p.args| == 1
  }

  /** The scan of `is_ca_key` over `rest`, a suffix of the context of `s`. */
  function IsCaKeyFrom(k: Formula, rest: seq<Judgement>, s: Sequent, ca: Option<Formula>): bool
  {
    if |rest| == 0 then false
    else if IsKeyAssumption(rest[0]) && ca.None? then
      Proposition(App(ISCA, 1, [rest[0].p.args[0]])) in s.gamma
    else if IsKeyAssumption(rest[0]) && rest[0].p.args == [ca.value, k] then true
    else IsCaKeyFrom(k, rest[1..], s, ca)
  }

  /**
    * Does `k` belong to a certificate authority? With a named authority,
    * the context must hold `iskey(ca, k)`; without one, the FIRST `iskey`
    * assumption of the context decides, whatever `k` is.
    */
  function IsCaKey(k: Formula, s: Sequent, ca: Option<Formula>): bool
  {
    IsCaKeyFrom(k, s.gamma, s, ca)
  }

  method CheckIsCaKey(k: Formula, s: Sequent, ca: Option<Formula>) returns (b: bool)
    ensures b == IsCaKey(k, s, ca)
  {
    var i := 0;
    while i < |s.gamma|
      invariant 0 <= i <= |s.gamma|
      invariant IsCaKey(k, s, ca) == IsCaKeyFrom(k, s.gamma[i..], s, ca)
    {
      var p := s.gamma[i];
      assert s.gamma[i..][0] == p && s.gamma[i..][1..] == s.gamma[i + 1..];
      if IsKeyAssumption(p) {
        if ca.None? {
          return Proposition(App(ISCA, 1, [p.p.args[0]])) in s.gamma;
        } else if p.p.args[0] == ca.value && p.p.args[1] == k {
          assert p.p.args == [ca.value, k];
          return true;
        }
      }
      i := i + 1;
    }
    return false;
  }

  lemma {:induction false} IsCaKeyFromNamed(k: Formula, rest: seq<Judgement>, s: Sequent, c: Formula)
    ensures IsCaKeyFrom(k, rest, s, Some(c)) <==>
      exists i :: 0 <= i < |rest| && IsKeyAssumption(rest[i]) && rest[i].p.args == [c, k]
    decreases |rest|
  {
    if |rest| > 0 {
      IsCaKeyFromNamed(k, rest[1..], s, c);
      if IsCaKeyFrom(k, rest[1..], s, Some(c)) {
        var i :| 0 <= i < |rest[1..]| && IsKeyAssumption(rest[1..][i]) && rest[1..][i].p.args == [c, k];
        assert rest[i + 1] == rest[1..][i];
      }
      if exists i :: 0 <= i < |rest| && IsKeyAssumption(rest[i]) && rest[i].p.args == [c, k] {
        var i :| 0 <= i < |rest| && IsKeyAssumption(rest[i]) && rest[i].p.args == [c, k];
        if i > 0 {
          assert rest[1..][i - 1] == rest[i];
        }
      }
    }
  }

  /** With a named authority `c`: `k` is its key iff the context holds `iskey(c, k)`. */
  lemma IsCaKeyNamed(k: Formula, s: Sequent, c: Formula)
    ensures IsCaKey(k, s, Some(c)) <==>
      exists i :: 0 <= i < |s.gamma| && IsKeyAssumption(s.gamma[i]) && s.gamma[i].p.args == [c, k]
  {
    IsCaKeyFromNamed(k, s.gamma, s, c);
  }

  /** The first `iskey` assumption of `g`, if any. */
  predicate FirstIsKeyAt(g: seq<Judgement>, i: int)
  {
    0 <= i < |g| && IsKeyAssumption(g[i]) && forall j :: 0 <= j < i ==> !IsKeyAssumption(g[j])
  }

  lemma {:induction false} IsCaKeyFromUnnamed(k: Formula, rest: seq<Judgement>, s: Sequent)
    ensures IsCaKeyFrom(k, rest, s, None) <==>
      exists i :: FirstIsKeyAt(rest, i) && Proposition(App(ISCA, 1, [rest[i].p.args[0]])) in s.gamma
    decreases |rest|
  {
    if |rest| > 0 && !IsKeyAssumption(rest[0]) {
      IsCaKeyFromUnnamed(k, rest[1..], s);
      if IsCaKeyFrom(k, rest[1..], s, None) {
        var i :| FirstIsKeyAt(rest[1..], i) && Proposition(App(ISCA, 1, [rest[1..][i].p.args[0]])) in s.gamma;
        assert FirstIsKeyAt(rest, i + 1) by {
          forall j | 0 <= j < i + 1 ensures !IsKeyAssumption(rest[j]) {
            if j > 0 { assert rest[j] == rest[1..][j - 1]; }
          }
        }
      }
      if exists i :: FirstIsKeyAt(rest, i) && Proposition(App(ISCA, 1, [rest[i].p.args[0]])) in s.gamma {
        var i :| FirstIsKeyAt(rest, i) && Proposition(App(ISCA, 1, [rest[i].p.args[0]])) in s.gamma;
        assert i > 0;
        assert rest[1..][i - 1] == rest[i];
        assert FirstIsKeyAt(rest[1..], i - 1);
      }
    } else if |rest| > 0 {
      assert FirstIsKeyAt(rest, 0);
      forall i | FirstIsKeyAt(rest, i) ensures i == 0 { }
    }
  }

  /**
    * Without a named authority the first `iskey(ag, pk)` assumption decides:
    * `k` counts iff `ca(ag)` is assumed, so the answer is the same for every key.
    */
  lemma IsCaKeyUnnamed(k: Formula, k': Formula, s: Sequent)
    ensures IsCaKey(k, s, None) <==>
      exists i :: FirstIsKeyAt(s.gamma, i) && Proposition(App(ISCA, 1, [s.gamma[i].p.args[0]])) in s.gamma
    ensures IsCaKey(k, s, None) == IsCaKey(k', s, None)
  {
    IsCaKeyFromUnnamed(k, s.gamma, s);
    IsCaKeyFromUnnamed(k', s.gamma, s);
  }

  /** The authorities of the context: every `ag` of a `ca(ag)` assumption. */
  method GetCas(s: Sequent) returns (cas: set<Formula>)
    ensures forall a :: a in cas <==> exists i :: 0 <= i < |s.gamma| && IsCaAssumption(s.gamma[i]) && s.gamma[i].p.args[0] == a
  {
    cas := {};
    var i := 0;
    while i < |s.gamma|
      invariant 0 <= i <= |s.gamma|
      invariant forall a :: a in cas <==> exists j :: 0 <= j < i && IsCaAssumption(s.gamma[j]) && s.gamma[j].p.args[0] == a
    {
      var p := s.gamma[i];
      if IsCaAssumption(p) {
        cas := cas + {p.p.args[0]};
      }
      i := i + 1;
    }
  }

  /** The keys of the sequent that `IsCaKey` accepts. */
  function CaKeys(s: Sequent, ca: Option<Formula>): set<Formula>
  {
    set k | k in SequentKeys(s) && IsCaKey(k, s, ca)
  }

  method GetCaKey(s: Sequent, ca: Option<Formula>) returns (keys: set<Formula>)
    ensures keys == CaKeys(s, ca)
  {
    var ks := SequentKeys(s);
    keys := {};
    var rest := ks;
    while rest != {}
      invariant rest <= ks
      invariant forall k :: k in keys <==> k in ks - rest && IsCaKey(k, s, ca)
      decreases |rest|
    {
      var k :| k in rest;
      var b := CheckIsCaKey(k, s, ca);
      if b {
        keys := keys + {k};
      }
      rest := rest - {k};
    }
  }

  /** Without a named authority, either no key of the sequent counts or all of them do. */
  lemma CaKeysAllOrNothing(s: Sequent)
    ensures CaKeys(s, None) == {} || CaKeys(s, None) == SequentKeys(s)
  {
    if CaKeys(s, None) != {} {
      var k :| k in CaKeys(s, None);
      forall k' | k' in SequentKeys(s) ensures k' in CaKeys(s, None) {
        IsCaKeyUnnamed(k, k', s);
      }
    }
  }

  /** An assumption showing that `k` is the key of `a`: a certificate from an authority's key, or `iskey(a, k)` itself. */
  predicate KeyEvidence(j: Judgement, k: Formula, a: Formula, s: Sequent)
  {
    && j.Proposition? && j.p.App? && |j.p.args| == 2
    && (if j.p.op == SIGN then
          var c := j.p.args[0];
          c.App? && c.op == ISKEY && c.args == [a, k] && IsCaKey(j.p.args[1], s, None)
        else
          j.p.op == ISKEY && j.p.args == [a, k])
  }

  /** Does the context establish that `k` belongs to `a`? */
  predicate IsKey(k: Formula, a: Formula, s: Sequent)
  {
    exists i :: 0 <= i < |s.gamma| && KeyEvidence(s.gamma[i], k, a, s)
  }

  /** Is the single assumption `p` evidence that `k` belongs to `a`? */
  method CheckKeyEvidence(p: Judgement, k: Formula, a: Formula, s: Sequent) returns (b: bool)
    ensures b == KeyEvidence(p, k, a, s)
  {
    if p.Proposition? && p.p.App? && p.p.op == SIGN && |p.p.args| == 2 {
      var c := p.p.args[0];
      if c.App? && c.op == ISKEY && |c.args| == 2 {
        var caKey := CheckIsCaKey(p.p.args[1], s, None);
        return c.args == [a, k] && caKey;
      }
      return false;
    } else if IsKeyAssumption(p) {
      return p.p.args == [a, k];
    }
    return false;
  }

  method CheckIsKey(k: Formula, a: Formula, s: Sequent) returns (b: bool)
    ensures b == IsKey(k, a, s)
  {
    var i := 0;
    while i < |s.gamma|
      invariant 0 <= i <= |s.gamma|
      invariant forall j :: 0 <= j < i ==> !KeyEvidence(s.gamma[j], k, a, s)
    {
      var found := CheckKeyEvidence(s.gamma[i], k, a, s);
      if found {
        return true;
      }
      i := i + 1;
    }
    return false;
  }

  /** Assumptions added after the existing ones never withdraw an authority's key. */
  lemma IsCaKeyAppend(k: Formula, g: seq<Judgement>, h: seq<Judgement>, d: Judgement)
    requires IsCaKey(k, Sequent(g, d), None)
    ensures IsCaKey(k, Sequent(g + h, d), None)
  {
    var s, t := Sequent(g, d), Sequent(g + h, d);
    IsCaKeyUnnamed(k, k, s);
    IsCaKeyUnnamed(k, k, t);
    var i :| FirstIsKeyAt(g, i) && Proposition(App(ISCA, 1, [g[i].p.args[0]])) in g;
    assert FirstIsKeyAt(g + h, i) && (g + h)[i] == g[i];
  }

  /** Nor do they withdraw the key of an agent. */
  lemma IsKeyAppend(k: Formula, a: Formula, g: seq<Judgement>, h: seq<Judgement>, d: Judgement)
    requires IsKey(k, a, Sequent(g, d))
    ensures IsKey(k, a, Sequent(g + h, d))
  {
    var i :| 0 <= i < |g| && KeyEvidence(g[i], k, a, Sequent(g, d));
    var j := g[i];
    if j.p.op == SIGN {
      IsCaKeyAppend(j.p.args[1], g, h, d);
    }
    assert (g + h)[i] == j;
    assert KeyEvidence((g + h)[i], k, a, Sequent(g + h, d));
  }

  /**
    * Assumptions added IN FRONT can withdraw one: with `iskey(b, pk)` placed
    * before the authority's own `iskey`, the first `iskey` no longer names a CA.
    */
  lemma IsCaKeyPrependWithdraws()
    ensures var ca, b, kc := Agent("ca"), Agent("b"), Key("kc");
      var g := [Proposition(App(ISCA, 1, [ca])), Proposition(App(ISKEY, 2, [ca, kc]))];
      var d := Proposition(App(TRUE, 0, []));
      IsCaKey(kc, Sequent(g, d), None) &&
      !IsCaKey(kc, Sequent([Proposition(App(ISKEY, 2, [b, kc]))] + g, d), None)
  {
    var ca, b, kc := Agent("ca"), Agent("b"), Key("kc");
    var g := [Proposition(App(ISCA, 1, [ca])), Proposition(App(ISKEY, 2, [ca, kc]))];
    var g' := [Proposition(App(ISKEY, 2, [b, kc]))] + g;
    assert Proposition(App(ISCA, 1, [b])) !in g' by {
      assert Proposition(App(ISCA, 1, [b])) != g'[0] && Proposition(App(ISCA, 1, [b])) != g'[1];
      assert Proposition(App(ISCA, 1, [b])) != g'[2];
    }
  }

  /** `cred` is `sign(p, k)` for a key `k` of `a`. */
  predicate IsCredential(cred: Formula, a: Formula, p: Formula, s: Sequent)
  {
    cred.App? && cred.op == SIGN && |cred.args| == 2 && cred.args[0] == p && IsKey(cred.args[1], a, s)
  }

  /**
    * The first assumption that is a credential for `p` signed by `a`, or
    * None when there is none. (The source returns the judgement itself.)
    */
  method HasCredential(a: Formula, p: Formula, s: Sequent) returns (r: Option<Judgement>)
    ensures r.None? <==> forall i :: 0 <= i < |s.gamma| ==> !IsCredential(s.gamma[i].p, a, p, s)
    ensures r.Some? ==> exists i :: (0 <= i < |s.gamma| && s.gamma[i] == r.value &&
      IsCredential(r.value.p, a, p, s) && forall j :: 0 <= j < i ==> !IsCredential(s.gamma[j].p, a, p, s))
  {
    var i := 0;
    while i < |s.gamma|
      invariant 0 <= i <= |s.gamma|
      invariant forall j :: 0 <= j < i ==> !IsCredential(s.gamma[j].p, a, p, s)
    {
      var q := s.gamma[i];
      var isCred := false;
      if q.p.App? && q.p.op == SIGN && |q.p.args| == 2 && q.p.args[0] == p {
        isCred := CheckIsKey(q.p.args[1], a, s);
      }
      if isCred {
        return Some(q);
      }
      i := i + 1;
    }
    return None;
  }
}
