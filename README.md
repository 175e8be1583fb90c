# A verified model of the authorization-logic proof engine

This project models, in Dafny, the proof engine of a small authorization
logic (the `lab2-2023` course repository). The logic has formulas over agents, keys and
resources. Its judgements are truth (`P true`) and affirmation (`A aff P`), and its sequents are
`gamma |- delta`. It has the following parts:

- **Terms and matching** (`Logic`, after `src/logic.py`): formulas, judgements,
  sequents, rules and proof trees. It has substitution with shadowing under
  `@x . P` and the template matcher, which includes its `P(x)` holes. It also
  lifts the matcher to judgements and to sequents, where the sequent matcher
  tries every arrangement of the target context.
- **The rule table** (`ProofRules`, after `src/proofrules.py`): the sixteen
  inference rules as literal values, and the name-to-rule table.
- **The proof checker** (`Verifier`, after `src/verifier.py`): one acceptance
  condition per rule and the dispatch on rule names. It also collects the
  obligations a proof leaves open. A proof is closed when it leaves none.
- **The tactics** (`Prover`, after `src/prover.py`):
  - the quantifier-instantiation, sign and rule tactics;
  - the sequence and choice combinators;
  - `chain`, which splices sub-proofs into open branches;
  - the search for a first closed proof, and the fixed `prove` strategy.
- **Context queries** (`Util`, after `src/util.py`): the collectors for
  variables, keys, agents and resources, and fresh variable names. It also
  has the trust lookups: CA keys, the list of CAs, key ownership and credentials.
- **Rebasing** (`Crypto`, after `rebase_proof` in `src/crypto.py`): every
  sequent of a received proof gets the server's trusted assumptions.
  Credentials (signed statements) the server did not vouch for are dropped.
- **Request contents** (`Auth`, after `src/auth.py`): the credentials and
  certificate authorities a proof discloses. It also models splitting those
  credentials into key certificates and policy credentials.

Python sets become Dafny sequences without repetitions, taken in the order
the source inserts into the set. Python itself iterates a set in hash order,
which varies from run to run. So the model fixes one order where the source
has none, and properties about sets are stated on membership.
Source paths that would raise an exception become rejection or `None`:
an argument index past the end of a term, a missing dictionary key, and
the quantifier case of the matcher merging a binding back into a failed match.

The flavour follows the source:
- Recursive code is written as functions.
- Loops are written as methods with `while` loops, each proved equal to the
  function that specifies it. Examples: the judgement matcher's loop, the
  permutation loop, the tactics' `apply` loops, `chain`'s premise loop,
  `verify`'s accumulation, `fresh_var`, the CA and key lookups, and rebasing's
  context loop.

The tactic objects are modelled as values of a closed `Tactic` datatype.
Their fields are set by their constructors and never change afterwards.

## Model

| member | source | states |
|---|---|---|
| Logic.ApplyUnbound | src/logic.py:114-125 | A hole-free formula none of whose free variables is bound comes back unchanged: only bound variables are replaced and constants are left alone |
| Logic.ForallShadows | src/logic.py:123-124 | Under `@x . q`, a binding for `x` makes no difference: the bound variable is removed before descending |
| Logic.HoleTakesImage | src/logic.py:119-120 | A hole `P(x)` becomes whatever `P` is bound to; the argument is dropped |
| Logic.ApplyExtends | src/logic.py:114-125 | On a first-order formula whose variables are bound by `r1`, any extension of `r1` gives the same result |
| Logic.ApplyJudgementExtends | src/logic.py:139-144 | The same for judgements, including a bound affirmation agent |
| Logic.ApplyContextMembers | src/logic.py:158-160 | Applying a substitution to a sequent keeps the context length and maps each assumption to its image |
| Logic.Matchs | src/logic.py:184-185 | With no equations the matcher returns `rho`; it propagates a missing substitution |
| Logic.MatchsStepVariable | src/logic.py:187-191 | A variable template binds a fresh variable, continues on a consistent bound one, and fails on an inconsistent one |
| Logic.MatchsStepApp | src/logic.py:209-211 | An application template matches only an application with the same operator and arity, argument by argument |
| Logic.MatchsStepConstant | src/logic.py:219-220 | A constant template matches only an equal target |
| Logic.MatchsFuelSound | src/logic.py:184-221 | On first-order equations a successful match extends `rho` and solves every equation |
| Logic.MatchsFuelComplete | src/logic.py:184-221 | On first-order templates, whenever some extension of `rho` solves the equations, the matcher succeeds with a result that every such solution extends |
| Logic.MatchsCorrect | src/logic.py:162-221 | On first-order equations, the matcher succeeds exactly when a solution extending `rho` exists, and then returns the most general one |
| Logic.ForallDropsOuterBinding | src/logic.py:212-218 | Matching a quantifier discards an earlier binding of its bound variable, so an earlier equation can end up unsolved |
| Logic.MatchsJudgement | src/logic.py:239-252 | With no pairs or no substitution it returns its input; a success means every pair has an accepted shape |
| Logic.MatchJudgementPairs | src/logic.py:239-253 | The loop that collects formula equations and agent bindings computes the judgement matcher |
| Logic.AffirmationBindingsAt | src/logic.py:246-247 | An affirmation template with a variable agent binds that variable to the target's agent |
| Logic.MatchsJudgementSound | src/logic.py:239-253 | For first-order templates, well-formed targets and no agent variable bound twice, a successful match instantiates every template judgement to its target, and keeps `rho` when all templates are propositions |
| Logic.AffirmationRebindsAgent | src/logic.py:246-247 | An already-bound agent variable is overwritten without a consistency check |
| Logic.ArrangementsSound | src/logic.py:283-284 | Every arrangement has the requested length, no repeated position, and only positions from the pool |
| Logic.ArrangementsComplete | src/logic.py:283-284 | Every repetition-free selection of the requested length from the pool is an arrangement |
| Logic.PermutationMatchesMember | src/logic.py:285-288 | The permutation loop yields exactly the successful matches of the template context against the arrangements |
| Logic.MatchsSequent | src/logic.py:276-288 | Nothing is yielded without a substitution, or when the template has more assumptions than the target |
| Logic.EnumerateSequentMatches | src/logic.py:276-288 | The generator's body computes the sequent matcher |
| Logic.EnumeratePermutationMatches | src/logic.py:285-288 | The loop over `itertools.product` computes the permutation matches |
| Logic.MatchsSequentSound | src/logic.py:276-288 | Every yielded substitution instantiates the template goal to the target goal, and each template assumption to a distinct target assumption |
| Logic.PermutationMatchFound | src/logic.py:283-288 | Any assignment of template assumptions to distinct target positions that matches is among the results |
| Logic.ContextMatchesWeaken | src/logic.py:282-288 | Adding or reordering target assumptions never removes a substitution found by relating contexts |
| ProofRules.CalculusByName | src/proofrules.py:4-56 | There are sixteen rules, and the table maps each rule's name to that rule |
| ProofRules.RuleShapes | src/proofrules.py:4-50 | Premise counts of all sixteen rules; in `cut`/`affcut` the second premise assumes the first premise's goal and keeps the conclusion's goal; the shapes of `sign` and `cert` |
| ProofRules.FirstOrderConclusions | src/proofrules.py:4-50 | Every rule's conclusion except the three quantifier rules is a first-order template |
| Util.ProofCollectNodes | src/util.py:34-35 | Collecting over a proof is collecting over each of its sequents |
| Util.SequentCollectMember | src/util.py:66-67 | What a collector gives for the goal or any assumption is collected from the sequent |
| Util.ProofCollectMember | src/util.py:68-69 | What a collector gives for any sequent of a proof is collected from the proof |
| Util.JudgementAllVars | src/util.py:26-31 | Every variable reported for a judgement occurs in it |
| Util.FreeVarsOccur | src/util.py:19-25 | Every variable reported for a formula occurs in it |
| Util.FormulaKeys | src/util.py:51-61 | Every key reported occurs in the formula |
| Util.FormulaKeysFind | src/util.py:52-61 | Every Key constant, and the key argument of every `iskey` and `sign`, reached through the positions `allkeys` descends into, is reported |
| Util.FormulaKeysFrom | src/util.py:52-61 | Every reported key is a Key constant, or the second argument of an `iskey` or `sign`, at a position `allkeys` descends into; the first argument of `iskey` is never reported as a key |
| Util.FormulaKeysExactly | src/util.py:52-61 | A key is reported exactly when it stands at one of those positions |
| Util.FormulaAgents | src/util.py:85-99 | Every agent reported occurs in the formula |
| Util.FormulaAgentsFind | src/util.py:86-99 | Every Agent constant, and the agent argument of every `iskey`, `says` and `open`, reached through the positions `agents` descends into, is reported |
| Util.FormulaAgentsFrom | src/util.py:86-99 | Every reported agent is an Agent constant, or the agent argument of an `iskey`, `says` or `open`, at a position `agents` descends into |
| Util.FormulaAgentsExactly | src/util.py:86-99 | An agent is reported exactly when it stands at one of those positions |
| Util.JudgementAgents | src/util.py:100-103 | Every agent reported occurs in the judgement |
| Util.JudgementAgentsFind | src/util.py:100-103 | An affirmation's agent is reported, and so is every agent in a collecting position of its formula |
| Util.FormulaResources | src/util.py:122-134 | Every resource reported occurs in the formula |
| Util.FormulaResourcesFind | src/util.py:123-134 | Every Resource constant, and the resource argument of every `open`, reached through the positions `resources` descends into, is reported |
| Util.FormulaResourcesFrom | src/util.py:123-134 | Every reported resource is a Resource constant, or the resource argument of an `open`, at a position `resources` descends into |
| Util.FormulaResourcesExactly | src/util.py:123-134 | A resource is reported exactly when it stands at one of those positions |
| Util.NatToStringInjective | src/util.py:162-164 | Distinct suffixes give distinct names |
| Util.CandidatesCount | src/util.py:160-164 | There are `m` distinct candidate names below `m`, which bounds the loop |
| Util.FreshVar | src/util.py:160-164 | The result is not a free variable of the object (a name bound by a quantifier may be returned), and every smaller suffix was taken |
| Util.CheckIsCaKey | src/util.py:181-190 | The loop computes the CA-key check |
| Util.IsCaKeyNamed | src/util.py:187-190 | With a given CA, the check holds exactly when `iskey(ca, k)` is assumed |
| Util.IsCaKeyUnnamed | src/util.py:184-186 | Without a CA, the check is decided by the first `iskey(ag, _)` assumption, by whether `ca(ag)` is assumed, and it does not depend on `k` |
| Util.IsCaKeyPrependWithdraws | src/util.py:181-190 | Putting another `iskey` assumption in front can withdraw a CA key |
| Util.GetCas | src/util.py:203-208 | The result is exactly the agents `A` with `ca(A)` assumed |
| Util.GetCaKey | src/util.py:223-228 | The loop computes the set of keys that pass the CA-key check |
| Util.CaKeysAllOrNothing | src/util.py:223-228 | Without a CA, either no key of the sequent or every key of the sequent is returned |
| Util.CheckIsKey | src/util.py:246-254 | The loop computes key ownership: `iskey(a, k)` assumed, or `sign(iskey(a, k), ck)` assumed with `ck` a CA key |
| Util.CheckKeyEvidence | src/util.py:247-253 | One assumption is key evidence exactly when it is `iskey(a, k)` or an authority-signed `iskey(a, k)` |
| Util.IsCaKeyAppend | src/util.py:181-190 | Appending assumptions never withdraws a CA key |
| Util.IsKeyAppend | src/util.py:246-254 | Appending assumptions never withdraws key ownership |
| Util.HasCredential | src/util.py:271-294 | The first assumption that is `sign(p, k)` with `k` owned by `a`, or nothing exactly when there is none |
| Verifier.ImpLeftBadAssumptions | src/verifier.py:96-137 | The loop reports exactly the new right-premise assumptions `q` without `P -> q` assumed, and finds none exactly when the additions are allowed |
| Verifier.SaysLeftBadAssumptions | src/verifier.py:301-341 | The same for `saysL` with `A says q` |
| Verifier.VerifyObligations | src/verifier.py:556-564 | The accumulating loop computes the list of open obligations |
| Verifier.BareObligationsMembers | src/verifier.py:561 | The bare obligations are exactly the premises that are bare sequents |
| Verifier.VerifyClosed | src/verifier.py:556-564 | A proof leaves nothing open exactly when every step is accepted and no leaf is a bare sequent |
| Verifier.StepNamesInCalculus | src/verifier.py:522-553 | An accepted step's rule name is one of the sixteen names in the table |
| Verifier.IdentityStep | src/verifier.py:28-43 | An `id` step is accepted exactly when it has no premises and its truth goal is assumed |
| Verifier.BotLStep | src/verifier.py:45-59 | A `botL` step is accepted exactly when it has no premises and a truth goal, whatever is assumed |
| Verifier.BotLWithoutFalse | src/verifier.py:55-59 | `botL` closes a goal even when `false` is not assumed |
| Verifier.NoNewAssumptions | src/verifier.py:219-520 | Accepted `W`, `aff`, `saysR`, `sign` and `cert` steps never give a premise an assumption the conclusion lacks |
| Verifier.CutShape | src/verifier.py:241-269 | An accepted cut keeps the goal; the left premise's context is in the conclusion's context; the right premise may also assume the left premise's goal |
| Verifier.SignShape | src/verifier.py:388-451 | An accepted `sign` step proves `A says P` from `iskey(A, k)` and `sign(P, k)` with the same `k` |
| Verifier.CertShape | src/verifier.py:453-520 | An accepted `cert` step proves `iskey(B, k)` from `ca(C)` and `C says iskey(B, k)` |
| Verifier.RightForallFresh | src/verifier.py:185-217 | An accepted `@R` step's witness is not a variable of the conclusion |
| Verifier.RuleInstancesAccepted | src/verifier.py:522-553 | Every substitution instance of a rule other than the quantifier rules passes the proof checker |
| Prover.MakeRuleTactic | src/prover.py:173-177 | The rule tactic refuses exactly `@L` and `@R` |
| Prover.MakeSignTactic | src/prover.py:115-127 | The sign tactic needs a credential with at least two arguments |
| Prover.InstantiateForallMembers | src/prover.py:34-61 | The tactic proposes exactly one step per quantified assumption and ground term whose instance is not yet assumed |
| Prover.InstantiateForallAccepted | src/prover.py:34-61 | Every step it proposes passes the proof checker, for quantified assumptions whose body uses the bound variable |
| Prover.InstanceContext | src/prover.py:53 | The premise drops exactly the quantified assumption and adds exactly its instance |
| Prover.ApplyInstantiate | src/prover.py:34-61 | The tactic's nested loop computes the proposals |
| Prover.SignTacticProposals | src/prover.py:129-162 | Nothing is proposed unless the credential and `iskey(A, k)` are assumed and `A says P` is not; otherwise there is one proof of the goal, whose open obligations are the goal with `A says P` added when the credential is a `sign` formula; otherwise the `sign` step stays open as well |
| Prover.SignStepObligations | src/prover.py:140-149 | The inner `sign` step over two identity proofs is closed exactly when the credential is a `sign` formula |
| Prover.ApplySign | src/prover.py:129-162 | The method computes the sign tactic's proposals |
| Prover.RuleTacticMembers | src/prover.py:179-207 | The rule tactic proposes exactly one step per match of the rule's conclusion |
| Prover.RuleStepPremises | src/prover.py:192-206 | Each step concludes the goal with the rule; each premise is an open obligation with the instantiated goal, and its context set is the instantiated premise's context plus the assumptions the match did not use |
| Prover.RuleTacticAccepted | src/prover.py:179-207 | Every step the rule tactic proposes for a first-order rule passes the proof checker |
| Prover.ApplyRule | src/prover.py:179-207 | The loop computes the rule tactic's proposals |
| Prover.IdentityFinds | src/prover.py:145-146 | The identity rule tactic finds a closed proof of any assumed truth goal |
| Prover.IdentityProposes | src/prover.py:145-146 | For an assumed truth goal the identity rule tactic proposes exactly one step, with no premises |
| Prover.ThenClosedAlone | src/prover.py:249-259 | The first proposal that leaves nothing open other than the goal is returned alone |
| Prover.ThenProposals | src/prover.py:237-285 | Every result of the sequence combinator comes from one of the first tactic's proofs |
| Prover.SpliceObligations | src/prover.py:263-281 | A spliced proof leaves open only the goal and obligations of the proofs spliced in |
| Prover.ApplyThen | src/prover.py:232-285 | The method computes the sequence combinator |
| Prover.ApplyChoices | src/prover.py:263-272 | The loop computes, for each obligation, the remaining tactics' proofs, or the obligation itself when they find none |
| Prover.ChainEach | src/prover.py:276-281 | The loop computes the splice of every combination |
| Prover.ThenConcludes | src/prover.py:232-285 | Every proof the sequence combinator proposes concludes the goal |
| Prover.OrElseFirstSuccess | src/prover.py:300-311 | The choice combinator returns the first non-empty result, and nothing when every tactic fails or there are none |
| Prover.OrElseSkips | src/prover.py:305-308 | Tactics that fail are skipped |
| Prover.OrElseConcludes | src/prover.py:300-311 | Every proof it proposes concludes the goal |
| Prover.ApplyOrElse | src/prover.py:300-311 | The method computes the choice combinator |
| Prover.ApplyConcludes | src/prover.py:14-311 | Every proof any tactic proposes concludes the goal it was applied to |
| Prover.ApplyTactic | src/prover.py:14-311 | The method dispatching on the tactic computes the tactic's proposals |
| Prover.ChainNothing | src/prover.py:313-350 | Splicing with an empty map changes nothing |
| Prover.ChainConclusion | src/prover.py:331-350 | Splicing keeps the conclusion, and for an unmapped step keeps the rule, the premise count, the premise goals, and the proof checker's verdict |
| Prover.ChainObligations | src/prover.py:313-350 | Every obligation of a spliced proof is an unmapped obligation of the original or an obligation of a spliced-in proof |
| Prover.ChainCloses | src/prover.py:313-350 | Splicing closed proofs into every open obligation gives a closed proof |
| Prover.ChainBranches | src/prover.py:333-350 | The premise loop computes the splice |
| Prover.ChainMapMembers | src/prover.py:280 | The map's keys are the obligations, each maps to its combination entry, and the last occurrence wins |
| Prover.FirstClosedFinds | src/prover.py:367-370 | The first closed proof of the list, and nothing exactly when none is closed |
| Prover.GetOneProofCorrect | src/prover.py:352-370 | The result is a closed proof of the goal among the tactic's proposals, and nothing exactly when no proposal is closed |
| Prover.FindClosedProof | src/prover.py:367-370 | The loop computes the search for a first closed proof |
| Prover.ProveSound | src/prover.py:372-396 | Whatever `prove` returns is a closed proof of its goal |
| Crypto.ScreenedMembers | src/crypto.py:541-546 | The kept assumptions are exactly the non-credentials and the credentials in `gamma` |
| Crypto.ScreenContext | src/crypto.py:540-546 | The context loop computes the screened context |
| Crypto.RebaseSequent | src/crypto.py:540-548 | The goal is kept; as a set the new context is the non-credential assumptions plus `gamma`; it has no repetitions |
| Crypto.RebaseProof | src/crypto.py:535-538 | Bare sequents stay bare; a step keeps its rule, premise count and goal |
| Crypto.RebaseNodes | src/crypto.py:535-548 | The sequents of the rebased proof are exactly the rebased sequents of the original |
| Crypto.RebaseTrusted | src/crypto.py:543-547 | No rebased sequent assumes a credential outside `gamma`, and every one assumes all of `gamma` |
| Crypto.RebaseProofIdempotent | src/crypto.py:514-548 | Rebasing twice onto the same assumptions is rebasing once |
| Auth.FormulaCredentials | src/auth.py:89-94 | Every formula gathered is a `sign` application occurring in the formula |
| Auth.FormulaCredentialsFind | src/auth.py:89-92 | Every `sign` reached through applications other than `sign` is gathered |
| Auth.FormulaCredentialsFrom | src/auth.py:89-94 | Every gathered credential is reached through applications other than `sign`, so nothing inside a `sign`'s arguments or a quantifier is gathered |
| Auth.FormulaCredentialsExactly | src/auth.py:89-94 | A formula's credentials are exactly the `sign` formulas reached through applications other than `sign` |
| Auth.GatherCredentialsOfProof | src/auth.py:84-88 | A proof's credentials are those of the goals of its sequents, never of their assumptions |
| Auth.FormulaCas | src/auth.py:112-117 | Every agent gathered comes from a `ca(A)` occurring in the formula |
| Auth.FormulaCasFind | src/auth.py:112-115 | Every `ca(A)` reached through applications other than `ca(_)` contributes `A` |
| Auth.FormulaCasFrom | src/auth.py:112-117 | Every gathered authority is the argument of a `ca(A)` reached through applications other than `ca(_)`, never from inside a quantifier |
| Auth.FormulaCasExactly | src/auth.py:112-117 | A formula's authorities are exactly the agents of the `ca(A)` at those positions |
| Auth.GatherCasOfProof | src/auth.py:107-111 | A proof's authorities are those named in its sequents, in goals and assumptions alike |
| Auth.GatherCasFind | src/auth.py:108-115 | `A` is gathered from every `ca(A)` in the goal or an assumption of any sequent of the proof |
| Auth.SplitCredentials | src/auth.py:138-147 | Failure exactly on a malformed credential; otherwise signed `iskey` formulas give their owners, and all other credentials are policy credentials |
| Auth.CertificateAgents | src/auth.py:148 | The certificates fetched are for exactly the requester, every authority the proof names, and the owner `B` of every gathered key certificate `sign(iskey(B, pk), k)`; the request fails exactly when the split fails |

## Left out

- Logic.MatchsFuel: the nested re-match of an already bound template hole needs a fuel bound. The fuel is the size of the templates. A re-match that would need more fuel is reported as no match.
- Logic.MatchsFuel: in the quantifier case the source writes the outer binding of the bound variable back into the inner result before testing it for `None` (src/logic.py:216). When the variable is already bound and the inner match fails, the source raises `TypeError`. The model answers `None`, as for any other failed match; for example, `y & (@y . true)` against `#a & (@z . false)` from the empty substitution.
- Logic.MatchsSequent: the source's judgement matcher adds affirmation bindings to the dictionary it is given, in place. A binding made while matching the goal or one arrangement can therefore reach other substitutions that share that dictionary. The model treats every substitution as a value and does not reproduce this sharing. No rule has an affirmation among the assumptions of its conclusion.
- Logic.MatchsFuelSound, Logic.MatchsFuelComplete and Logic.MatchsCorrect: soundness and completeness are proved only for first-order templates without holes or quantifiers. The proof checker re-validates every step the quantifier rules produce.
- Verifier.VerifyLeftForall: when both differing judgements are on the same side, the source's outcome depends on set iteration order; the model rejects the step.
- Verifier.VerifyLeftForall: the source's last check, that the premise contains an instance of some quantified assumption, only prints feedback and never rejects. It is therefore absent.
- Prover.InstantiateForallAccepted: proved only for quantified assumptions whose body is first order and uses the bound variable. The proof checker rejects the instance step of a quantifier that ignores its variable, since the matcher then binds nothing (src/verifier.py:168). The proof does not cover quantifiers nested in the body.
- Prover.RuleTacticAccepted: proved for the thirteen rules other than the quantifier rules, and for well-formed goals. The quantifier rules' conclusions contain holes, which are outside the matcher's proved fragment.
- Verifier.VerifyBotL: reproduces the source as written. The check for `false` among the assumptions never rejects.
- Prover.Apply: total on every `Tactic` value. The source instead raises on an `@L`/`@R` rule tactic or a sign tactic over a short credential; those constructor refusals are MakeRuleTactic and MakeSignTactic.
- Prover.ThenEach: the source's branch for an empty list of combinations cannot be taken, because every obligation has at least one choice (Choices). It is therefore not modelled.
- Prover.RuleStep: `list(set(...))` contexts are given in first-occurrence order; the source's order is unspecified. Properties are stated on the context as a set, so the order does not matter.
- Crypto.RebaseSequent: the same applies to `list(set(...) | set(gamma))`.
- Prover.ThenEach, Prover.ThenClosedAlone and Prover.GetOneProof: the model walks a tactic's proposals in insertion order. The source walks a `set[Proof]` in hash order, which changes between runs (src/prover.py:249, 258-259, 367-369). When several proposals qualify, the early return of the sequence combinator and the first closed proof may therefore be a different proof in the source.
- Util.FreshVar: the prefix is a required argument; the source defaults it to `v` (src/util.py:145).
- Util.HasCredential: returns the judgement, as the source's code does, although its type annotation says Formula.
- ProofRules.CalculusByName: states that each rule is stored under its own name. It does not state that the table has no other keys.
- Auth.GatherCredentials and Auth.GatherCas: a bare judgement matches none of the source's cases and yields nothing. A quantified formula also yields nothing, because the source does not search inside quantifiers.
- Auth.SplitCredentials: the source's `IndexError` on a credential with too few arguments is modelled as `None`.
- The path from the source's `IndexError`/`KeyError`/`AttributeError` crashes on malformed terms is modelled as rejection or `None`; behaviour after a crash is not modelled.
- The text parser (`src/parser.py`): the rules are written as literal values instead.
- Ed25519 signing and verification, fingerprints, JSON files and certificate chains (`src/crypto.py` apart from `rebase_proof`): cryptography and I/O.
- Loading of credentials and certificates, building and signing the `AccessRequest`, and the command line in `src/auth.py`: file and network I/O.
- The HTTP server and its stores (`src/server`): asynchronous I/O.
- Printing, feedback messages, the pretty-printers in `src/util.py`, and the `@cache` on `verify`: presentation and memoisation only. They do not change any result.
