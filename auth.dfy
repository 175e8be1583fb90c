/**
  * What a client puts in an access request besides its proof (src/auth.py):
  * the signed credentials the proof relies on, the certificate authorities
  * it names, and the split of the credentials into key certificates and
  * policy credentials.
  */
module Auth {
  import opened Wrappers
  import opened Logic
  import opened Util

  // ---------------------------------------------------------------------
  // gather_credentials
  // ---------------------------------------------------------------------

  predicate IsSignFormula(t: Formula)
  {
    t.App? && t.op == SIGN
  }

  /** The `sign(...)` formulas reachable from `t` through applications; a `sign` is not searched inside. */
  function FormulaCredentials(t: Formula): (r: set<Formula>)
    ensures forall x :: x in r ==> IsSignFormula(x) && Occurs(x, t)
  {
    match t
    case App(op, _, args) =>
      if op == SIGN then {t}
      else set i, x | 0 <= i < |args| && x in FormulaCredentials(args[i]) :: x
    case _ => {}
  }

  /** The credentials in the goal of a sequent; its assumptions are not searched. */
  function SequentCredentials(s: Sequent): set<Formula>
  {
    FormulaCredentials(s.delta.p)
  }

  /** `gather_credentials`: a bare judgement matches none of the source's cases and yields nothing. */
  function GatherCredentials(o: Syntax): set<Formula>
  {
    match o
    case OfFormula(f) => FormulaCredentials(f)
    case OfJudgement(_) => {}
    case OfSequent(s) => SequentCredentials(s)
    case OfProof(pf) => ProofCollect(pf, SequentCredentials)
  }

  /**
    * The credentials of a proof are those of the goals of its sequents:
    * the conclusions and open obligations at every depth, and only their
    * goals. Each is a `sign` formula occurring in that goal.
    */
  lemma GatherCredentialsOfProof(pf: Proof)
    ensures forall x :: x in GatherCredentials(OfProof(pf)) <==>
      exists n :: n in Nodes(pf) && x in FormulaCredentials(n.delta.p)
    ensures forall x :: x in GatherCredentials(OfProof(pf)) ==>
      IsSignFormula(x) && exists n :: n in Nodes(pf) && Occurs(x, n.delta.p)
  {
    var all := GatherCredentials(OfProof(pf));
    ProofCollectNodes(pf, SequentCredentials);
    assert all == set s, x | s in Nodes(pf) && x in SequentCredentials(s) :: x;
    forall x
      ensures x in all <==> exists n :: n in Nodes(pf) && x in FormulaCredentials(n.delta.p)
    {
      if x in all {
        var n :| n in Nodes(pf) && x in SequentCredentials(n);
        assert x in FormulaCredentials(n.delta.p);
      }
      if exists n :: n in Nodes(pf) && x in FormulaCredentials(n.delta.p) {
        var n :| n in Nodes(pf) && x in FormulaCredentials(n.delta.p);
        assert x in SequentCredentials(n);
      }
    }
    forall x | x in all
      ensures IsSignFormula(x) && exists n :: n in Nodes(pf) && Occurs(x, n.delta.p)
    {
      var n :| n in Nodes(pf) && x in FormulaCredentials(n.delta.p);
    }
  }

  /** A `sign` formula reached through connectives other than `sign` and quantifiers is gathered. */
  lemma {:induction false} FormulaCredentialsFind(t: Formula, path: seq<nat>)
    requires Reaches(t, path)
    requires IsSignFormula(At(t, path))
    ensures At(t, path) in FormulaCredentials(t)
    decreases |path|
  {
    if |path| > 0 {
      FormulaCredentialsFind(t.args[path[0]], path[1..]);
    }
  }

  /** Every gathered credential is a `sign` reached through non-`sign` applications: nothing inside a `sign` or a quantifier is gathered. */
  lemma {:induction false} FormulaCredentialsFrom(t: Formula, x: Formula)
    requires x in FormulaCredentials(t)
    ensures exists path :: Reaches(t, path) && At(t, path) == x
    decreases t
  {
    if t.App? && t.op == SIGN {
      assert Reaches(t, []) && At(t, []) == x;
    } else if t.App? {
      var i :| 0 <= i < |t.args| && x in FormulaCredentials(t.args[i]);
      FormulaCredentialsFrom(t.args[i], x);
      var p :| Reaches(t.args[i], p) && At(t.args[i], p) == x;
      assert ([i] + p)[1..] == p;
      assert Reaches(t, [i] + p) && At(t, [i] + p) == x;
    }
  }

  /** `gather_credentials` on a formula yields exactly the `sign` formulas reached through non-`sign` applications. */
  lemma FormulaCredentialsExactly(t: Formula, x: Formula)
    ensures x in FormulaCredentials(t) <==> exists path :: Reaches(t, path) && IsSignFormula(At(t, path)) && At(t, path) == x
  {
    if x in FormulaCredentials(t) {
      FormulaCredentialsFrom(t, x);
      assert IsSignFormula(x);
    }
    forall path | Reaches(t, path) && IsSignFormula(At(t, path)) && At(t, path) == x
      ensures x in FormulaCredentials(t)
    {
      FormulaCredentialsFind(t, path);
    }
  }

  /** Following `path` from `t` steps through the arguments of non-`sign` applications only. */
  predicate Reaches(t: Formula, path: seq<nat>)
    decreases |path|
  {
    |path| == 0 || (t.App? && t.op != SIGN && path[0] < |t.args| && Reaches(t.args[path[0]], path[1..]))
  }

  /** The subformula at the end of `path`. */
  function At(t: Formula, path: seq<nat>): Formula
    requires Reaches(t, path)
    decreases |path|
  {
    if |path| == 0 then t else At(t.args[path[0]], path[1..])
  }

  // ---------------------------------------------------------------------
  // gather_cas
  // ---------------------------------------------------------------------

  /** The agents `A` of the formulas `ca(A)` (exactly one argument, arity one) reachable through applications. */
  function FormulaCas(t: Formula): (r: set<Formula>)
    ensures forall a :: a in r ==> Occurs(App(ISCA, 1, [a]), t)
  {
    match t
    case App(op, n, args) =>
      if op == ISCA && n == 1 && |args| == 1 then {args[0]}
      else
        set i, a | 0 <= i < |args| && a in FormulaCas(args[i]) :: a
    case _ => {}
  }

  function JudgementCas(j: Judgement): set<Formula>
  {
    FormulaCas(j.p)
  }

  /** The authorities a sequent names, in its goal and in its assumptions. */
  function SequentCas(s: Sequent): set<Formula>
  {
    SequentCollect(s, JudgementCas)
  }

  /** `gather_cas`: a bare judgement matches none of the source's cases and yields nothing. */
  function GatherCas(o: Syntax): set<Formula>
  {
    match o
    case OfFormula(f) => FormulaCas(f)
    case OfJudgement(_) => {}
    case OfSequent(s) => SequentCas(s)
    case OfProof(pf) => ProofCollect(pf, SequentCas)
  }

  /**
    * The authorities of a proof are those named anywhere in its sequents,
    * goals and assumptions alike; each comes from a `ca(A)` there.
    */
  lemma GatherCasOfProof(pf: Proof)
    ensures forall a :: a in GatherCas(OfProof(pf)) <==> exists n :: n in Nodes(pf) && a in SequentCas(n)
    ensures forall a :: a in GatherCas(OfProof(pf)) ==> exists n :: n in Nodes(pf) && NamesCa(n, a)
  {
    ProofCollectNodes(pf, SequentCas);
    forall a | a in GatherCas(OfProof(pf))
      ensures exists n :: n in Nodes(pf) && NamesCa(n, a)
    {
      var n :| n in Nodes(pf) && a in SequentCas(n);
      if a !in JudgementCas(n.delta) {
        var i :| 0 <= i < |n.gamma| && a in JudgementCas(n.gamma[i]);
      }
    }
  }

  /** Authority collection descends into the arguments of every application except `ca(A)` itself, and not into quantifiers. */
  predicate CaDescends(t: Formula, i: nat)
  {
    t.App? && i < |t.args| && !(t.op == ISCA && t.arity == 1 && |t.args| == 1)
  }

  predicate CaPath(t: Formula, path: seq<nat>)
    decreases |path|
  {
    |path| == 0 || (CaDescends(t, path[0]) && CaPath(Child(t, path[0]), path[1..]))
  }

  /** Every `ca(A)` reached through the positions authority collection descends into contributes `A`. */
  lemma {:induction false} FormulaCasFind(t: Formula, path: seq<nat>)
    requires ValidPath(t, path) && CaPath(t, path)
    ensures var u := Sub(t, path);
      u.App? && u.op == ISCA && u.arity == 1 && |u.args| == 1 ==> u.args[0] in FormulaCas(t)
    decreases |path|
  {
    if |path| > 0 {
      var c := Child(t, path[0]);
      FormulaCasFind(c, path[1..]);
      assert forall a :: a in FormulaCas(c) ==> a in FormulaCas(t);
    }
  }

  /** `a` is collected at the end of `path`: there stands `ca(a)`. */
  predicate CaAt(t: Formula, path: seq<nat>, a: Formula)
    requires ValidPath(t, path)
  {
    var u := Sub(t, path);
    u.App? && u.op == ISCA && u.arity == 1 && |u.args| == 1 && u.args[0] == a
  }

  /** Every gathered authority comes from a `ca(A)` reached through the positions authority collection descends into. */
  lemma {:induction false} FormulaCasFrom(t: Formula, a: Formula)
    requires a in FormulaCas(t)
    ensures exists path :: ValidPath(t, path) && CaPath(t, path) && CaAt(t, path, a)
    decreases t
  {
    if CaAt(t, [], a) {
    } else if t.App? && !(t.op == ISCA && t.arity == 1 && |t.args| == 1) {
      var i :| 0 <= i < |t.args| && a in FormulaCas(t.args[i]);
      var c := Child(t, i);
      FormulaCasFrom(c, a);
      var p :| ValidPath(c, p) && CaPath(c, p) && CaAt(c, p, a);
      assert ([i] + p)[1..] == p;
      assert ValidPath(t, [i] + p) && CaPath(t, [i] + p) && CaAt(t, [i] + p, a);
    }
  }

  /** `gather_cas` on a formula yields exactly the agents of the `ca(A)` at the positions it descends into. */
  lemma FormulaCasExactly(t: Formula, a: Formula)
    ensures a in FormulaCas(t) <==> exists path :: ValidPath(t, path) && CaPath(t, path) && CaAt(t, path, a)
  {
    if a in FormulaCas(t) {
      FormulaCasFrom(t, a);
    }
    forall path | ValidPath(t, path) && CaPath(t, path) && CaAt(t, path, a)
      ensures a in FormulaCas(t)
    {
      FormulaCasFind(t, path);
    }
  }

  /**
    * `gather_cas` collects `A` from every `ca(A)` in the goal or an
    * assumption of any sequent of a proof, reached through the positions
    * authority collection descends into.
    */
  lemma GatherCasFind(pf: Proof, n: Sequent, j: Judgement, path: seq<nat>)
    requires n in Nodes(pf) && (j == n.delta || j in n.gamma)
    requires ValidPath(j.p, path) && CaPath(j.p, path)
    requires Sub(j.p, path).App? && Sub(j.p, path).op == ISCA && Sub(j.p, path).arity == 1
    requires |Sub(j.p, path).args| == 1
    ensures Sub(j.p, path).args[0] in GatherCas(OfProof(pf))
  {
    var a := Sub(j.p, path).args[0];
    FormulaCasFind(j.p, path);
    SequentCollectMember(n, JudgementCas, j, a);
    ProofCollectMember(pf, SequentCas, n, a);
  }

  function IsCaOf(a: Formula): Formula
  {
    App(ISCA, 1, [a])
  }

  /** `ca(a)` occurs in the goal or in an assumption of `n`. */
  predicate NamesCa(n: Sequent, a: Formula)
  {
    Occurs(IsCaOf(a), n.delta.p) || exists i :: 0 <= i < |n.gamma| && Occurs(IsCaOf(a), n.gamma[i].p)
  }

  // ---------------------------------------------------------------------
  // Splitting the credentials of a request
  // ---------------------------------------------------------------------

  /** `sign(iskey(B, pk), k)`: a key certificate rather than a policy credential. */
  predicate IsKeyCertificate(sg: Formula)
    requires sg.App? && |sg.args| > 0
  {
    sg.args[0].App? && sg.args[0].op == ISKEY
  }

  /** The source indexes past the end of an argument list for these. */
  predicate Malformed(sg: Formula)
  {
    !sg.App? || |sg.args| == 0 || (IsKeyCertificate(sg) && |sg.args[0].args| == 0)
  }

  datatype Split = Split(certAgents: set<Formula>, policy: set<Formula>)

  /**
    * The split in `generate_request`: the key owners `B` of the key
    * certificates, whose certificates are fetched, and the remaining
    * credentials, which are sent as they are. `None` where the source
    * fails on a credential with too few arguments.
    */
  function SplitCredentials(signs: set<Formula>): (r: Option<Split>)
    ensures r.None? <==> exists sg :: sg in signs && Malformed(sg)
    ensures r.Some? ==> forall sg :: sg in signs ==>
      (sg in r.value.policy <==> !IsKeyCertificate(sg)) &&
      (IsKeyCertificate(sg) ==> sg.args[0].args[0] in r.value.certAgents)
    ensures r.Some? ==> forall sg :: sg in r.value.policy ==> sg in signs
    ensures r.Some? ==> forall b :: b in r.value.certAgents ==>
      exists sg :: sg in signs && IsKeyCertificate(sg) && b == sg.args[0].args[0]
  {
    if exists sg :: sg in signs && Malformed(sg) then None
    else
      Some(Split(set sg | sg in signs && IsKeyCertificate(sg) :: sg.args[0].args[0],
                 set sg | sg in signs && !IsKeyCertificate(sg)))
  }

  /** The agents whose certificates the request carries: the authorities, the requester, and the key owners. */
  function CertificateAgents(pf: Proof, ag: Formula): (r: Option<set<Formula>>)
    ensures r.Some? ==> ag in r.value && GatherCas(OfProof(pf)) <= r.value
    ensures r.Some? ==> forall sg :: sg in GatherCredentials(OfProof(pf)) ==> !Malformed(sg)
    ensures r.Some? ==> forall sg :: sg in GatherCredentials(OfProof(pf)) && !Malformed(sg) && IsKeyCertificate(sg) ==>
      sg.args[0].args[0] in r.value
    ensures r.Some? ==> forall b :: b in r.value ==>
      || b == ag
      || b in GatherCas(OfProof(pf))
      || exists sg :: sg in GatherCredentials(OfProof(pf)) && !Malformed(sg) && IsKeyCertificate(sg) &&
           b == sg.args[0].args[0]
    ensures r.None? <==> SplitCredentials(GatherCredentials(OfProof(pf))).None?
  {
    match SplitCredentials(GatherCredentials(OfProof(pf)))
    case None => None
    case Some(split) => Some(GatherCas(OfProof(pf)) + {ag} + split.certAgents)
  }
}
