/**
  * Rebasing the proof carried by an access request onto the assumptions the
  * server trusts (`rebase_proof`, src/crypto.py). Every sequent of the
  * proof gets the trusted context; credentials the request brought along
  * that the server did not check are dropped.
  */
module Crypto {
  import opened Logic
  import opened Util
  import Prover

  /** An assumption that is a signed statement, `sign(P, pk) true`. */
  predicate IsSignAssumption(j: Judgement)
  {
    j.p.App? && j.p.op == SIGN
  }

  /** The assumptions of `g` that survive: every non-credential, and the credentials `gamma` vouches for. */
  function Screened(g: seq<Judgement>, gamma: seq<Judgement>): seq<Judgement>
  {
    if |g| == 0 then []
    else
      var front := Screened(g[..|g| - 1], gamma);
      var p := g[|g| - 1];
      if IsSignAssumption(p) && p !in gamma then front else front + [p]
  }

  /** Screening keeps what it keeps in order, and keeps exactly the non-credentials and the vouched-for credentials. */
  lemma {:induction false} ScreenedMembers(g: seq<Judgement>, gamma: seq<Judgement>)
    ensures forall j :: j in Screened(g, gamma) <==> j in g && (!IsSignAssumption(j) || j in gamma)
  {
    if |g| > 0 {
      var front := g[..|g| - 1];
      ScreenedMembers(front, gamma);
      assert forall j :: j in g <==> j in front || j == g[|g| - 1];
    }
  }

  /** Screening a context whose every credential is vouched for changes nothing. */
  lemma {:induction false} ScreenedVouched(g: seq<Judgement>, gamma: seq<Judgement>)
    requires forall j :: j in g && IsSignAssumption(j) ==> j in gamma
    ensures Screened(g, gamma) == g
  {
    if |g| > 0 {
      var front := g[..|g| - 1];
      assert forall j :: j in front ==> j in g;
      ScreenedVouched(front, gamma);
      assert g == front + [g[|g| - 1]];
    }
  }

  /** The loop that builds the screened context of a sequent one assumption at a time. */
  method ScreenContext(g: seq<Judgement>, gamma: seq<Judgement>) returns (kept: seq<Judgement>)
    ensures kept == Screened(g, gamma)
  {
    kept := [];
    var i := 0;
    while i < |g|
      invariant 0 <= i <= |g|
      invariant kept == Screened(g[..i], gamma)
    {
      assert g[..i + 1][..i] == g[..i];
      if IsSignAssumption(g[i]) && g[i] !in gamma {
      } else {
        kept := kept + [g[i]];
      }
      i := i + 1;
    }
    assert g[..|g|] == g;
  }

  /** The sequent with its context replaced by the screened context joined with `gamma`, as a set. */
  function RebaseSequent(s: Sequent, gamma: seq<Judgement>): (r: Sequent)
    ensures r.delta == s.delta
    ensures forall j :: j in r.gamma <==> j in gamma || (j in s.gamma && !IsSignAssumption(j))
    ensures Prover.Distinct(r.gamma)
  {
    ScreenedMembers(s.gamma, gamma);
    Sequent(Prover.Dedup(Screened(s.gamma, gamma) + gamma), s.delta)
  }

  /** Every sequent of the proof rebased; rules and the shape of the tree stay. */
  function RebaseProof(pf: Proof, gamma: seq<Judgement>): (r: Proof)
    ensures r.Obligation? <==> pf.Obligation?
    ensures r.Proof? ==> r.rule == pf.rule && |r.premises| == |pf.premises|
    ensures Conclusion(r).delta == Conclusion(pf).delta
  {
    match pf
    case Obligation(s) => Obligation(RebaseSequent(s, gamma))
    case Proof(prems, c, rule) =>
      Proof(seq(|prems|, i requires 0 <= i < |prems| => RebaseProof(prems[i], gamma)), RebaseSequent(c, gamma), rule)
  }

  /** Every sequent of the original has its rebased copy in the rebased proof. */
  lemma {:induction false} RebaseNodesOf(pf: Proof, gamma: seq<Judgement>)
    ensures forall m :: m in Nodes(pf) ==> RebaseSequent(m, gamma) in Nodes(RebaseProof(pf, gamma))
    decreases pf
  {
    if pf.Proof? {
      var r := RebaseProof(pf, gamma);
      forall m | m in Nodes(pf) && m != pf.conclusion
        ensures RebaseSequent(m, gamma) in Nodes(r)
      {
        var i :| 0 <= i < |pf.premises| && m in Nodes(pf.premises[i]);
        RebaseNodesOf(pf.premises[i], gamma);
        assert r.premises[i] == RebaseProof(pf.premises[i], gamma);
      }
    }
  }

  /** Every sequent of the rebased proof is the rebased copy of a sequent of the original. */
  lemma {:induction false} RebaseNodesFrom(pf: Proof, gamma: seq<Judgement>)
    ensures forall n :: n in Nodes(RebaseProof(pf, gamma)) ==> exists m :: m in Nodes(pf) && n == RebaseSequent(m, gamma)
    decreases pf
  {
    if pf.Proof? {
      var r := RebaseProof(pf, gamma);
      forall n | n in Nodes(r)
        ensures exists m :: m in Nodes(pf) && n == RebaseSequent(m, gamma)
      {
        if n != r.conclusion {
          var i :| 0 <= i < |pf.premises| && n in Nodes(r.premises[i]);
          assert r.premises[i] == RebaseProof(pf.premises[i], gamma);
          RebaseNodesFrom(pf.premises[i], gamma);
          var m :| m in Nodes(pf.premises[i]) && n == RebaseSequent(m, gamma);
          assert m in Nodes(pf);
        }
      }
    }
  }

  /** The sequents of a rebased proof are exactly the rebased sequents of the original. */
  lemma RebaseNodes(pf: Proof, gamma: seq<Judgement>)
    ensures Nodes(RebaseProof(pf, gamma)) == set m | m in Nodes(pf) :: RebaseSequent(m, gamma)
  {
    RebaseNodesOf(pf, gamma);
    RebaseNodesFrom(pf, gamma);
  }

  /**
    * No sequent of a rebased proof assumes a credential outside `gamma`,
    * and every one assumes all of `gamma`.
    */
  lemma RebaseTrusted(pf: Proof, gamma: seq<Judgement>)
    ensures forall n, j :: n in Nodes(RebaseProof(pf, gamma)) && j in n.gamma && IsSignAssumption(j) ==> j in gamma
    ensures forall n, j :: n in Nodes(RebaseProof(pf, gamma)) && j in gamma ==> j in n.gamma
  {
    RebaseNodes(pf, gamma);
  }

  /** Insertion into a set that already holds everything inserted changes nothing. */
  lemma {:induction false} AddAllCovered(acc: seq<Judgement>, xs: seq<Judgement>)
    requires forall x :: x in xs ==> x in acc
    ensures Prover.AddAll(acc, xs) == acc
  {
    if |xs| > 0 {
      var front := xs[..|xs| - 1];
      assert forall x :: x in front ==> x in xs;
      AddAllCovered(acc, front);
    }
  }

  /** Inserting the elements of two sequences in turn. */
  lemma {:induction false} AddAllAppend(acc: seq<Judgement>, xs: seq<Judgement>, ys: seq<Judgement>)
    ensures Prover.AddAll(acc, xs + ys) == Prover.AddAll(Prover.AddAll(acc, xs), ys)
  {
    if |ys| > 0 {
      var front := ys[..|ys| - 1];
      var last := ys[|ys| - 1];
      AddAllAppend(acc, xs, front);
      assert ys == front + [last];
      assert xs + ys == (xs + front) + [last];
      Prover.AddAllSnoc(acc, xs + front, last);
      Prover.AddAllSnoc(Prover.AddAll(acc, xs), front, last);
    } else {
      assert xs + ys == xs;
    }
  }

  /** Removing duplicates from a sequence without any leaves it as it is. */
  lemma {:induction false} DedupOfDistinct(xs: seq<Judgement>)
    requires Prover.Distinct(xs)
    ensures Prover.Dedup(xs) == xs
  {
    if |xs| > 0 {
      var front := xs[..|xs| - 1];
      assert Prover.Distinct(front);
      DedupOfDistinct(front);
      assert xs[|xs| - 1] !in front;
      assert xs == front + [xs[|xs| - 1]];
    }
  }

  lemma RebaseSequentIdempotent(s: Sequent, gamma: seq<Judgement>)
    ensures RebaseSequent(RebaseSequent(s, gamma), gamma) == RebaseSequent(s, gamma)
  {
    var g := RebaseSequent(s, gamma).gamma;
    ScreenedVouched(g, gamma);
    AddAllAppend([], g, gamma);
    DedupOfDistinct(g);
    AddAllCovered(g, gamma);
  }

  /** Rebasing twice onto the same assumptions is rebasing once. */
  lemma {:induction false} RebaseProofIdempotent(pf: Proof, gamma: seq<Judgement>)
    ensures RebaseProof(RebaseProof(pf, gamma), gamma) == RebaseProof(pf, gamma)
    decreases pf
  {
    match pf
    case Obligation(s) =>
      RebaseSequentIdempotent(s, gamma);
    case Proof(prems, c, rule) =>
      RebaseSequentIdempotent(c, gamma);
      var r := RebaseProof(pf, gamma);
      forall i | 0 <= i < |prems|
        ensures RebaseProof(r.premises[i], gamma) == r.premises[i]
      {
        RebaseProofIdempotent(prems[i], gamma);
      }
      assert RebaseProof(r, gamma).premises == r.premises;
  }
}
