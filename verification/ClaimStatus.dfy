/** The derived standing of every claim: a recursive query over obligations, their latest
    attestations and the obligations they depend on. */
module ClaimStatus {
  import opened Graphs
  import opened Claims
  import opened ClaimBinding
  import opened Wrappers

  datatype Attestation = Attestation(key: Key, verdict: string, currency: string)

  datatype Standing = Established | Insufficient | Rejected | NotApplicable

  datatype Reason =
    | CycleMet | Predecessor(standing: Standing, key: Key) | NoAttestation
    | ObservedFailure | AttestationIs(currency: string) | ObligationsIncomplete

  datatype Proof = Proof(standing: Standing, currency: string, reasons: set<Reason>)

  /** What the query reads: the claims by key, the supporting edges, the latest attestations. */
  datatype View = View(byKey: map<Key, Claim>, edges: set<Edge>, latest: map<Key, Attestation>) {
    ghost predicate Resolved() {
      && (forall k :: k in byKey ==> byKey[k].dependsOn <= byKey.Keys)
      && (forall e :: e in edges ==> e.source in byKey && e.target in byKey)
    }
  }

  /** The dependencies that are obligations. */
  function Predecessors(v: View, k: Key): set<Key>
    requires k in v.byKey
  {
    set d | d in v.byKey[k].dependsOn && d in v.byKey && v.byKey[d].kind == ProofObligation
  }

  /** The claims named as support of a requirement. */
  function Supporting(v: View, k: Key): set<Key> {
    set e | e in v.edges && e.relation == SupportedBy && e.source == k :: e.target
  }

  /** The recursive `proof` of `claim_status`; reasons are kept as the set reported. */
  function Prove(v: View, k: Key, seen: set<Key>): (p: Proof)
    requires v.Resolved() && k in v.byKey
    decreases v.byKey.Keys - seen
  {
    var claim := v.byKey[k];
    if k in seen then Proof(Insufficient, "unobserved", {CycleMet})
    else
      var missing: set<Reason> := set d | d in Predecessors(v, k)
        && (Prove(v, d, seen + {k}).standing != Established || Prove(v, d, seen + {k}).currency != "current")
        :: Predecessor(Prove(v, d, seen + {k}).standing, d);
      match claim.kind
      case ProofObligation =>
        if k !in v.latest then Proof(Insufficient, "unobserved", missing + {NoAttestation})
        else
          var row := v.latest[k];
          if row.verdict == "pass" && row.currency == "current" && missing == {} then Proof(Established, "current", {})
          else
            var reasons := missing + (if row.verdict == "fail" then {ObservedFailure}
                                      else if row.currency != "current" then {AttestationIs(row.currency)} else {});
            Proof(if row.currency == "rejected" then Rejected else Insufficient, row.currency, reasons)
      case Requirement =>
        var supporting := Supporting(v, k);
        if supporting != {} && (forall t :: t in supporting ==>
             Prove(v, t, seen + {k}).standing == Established && Prove(v, t, seen + {k}).currency == "current")
        then Proof(Established, "current", {})
        else Proof(Insufficient, if supporting == {} then "unobserved" else "mixed", missing + {ObligationsIncomplete})
      case _ => Proof(NotApplicable, "unobserved", missing)
  }

  // ---- searches that remember where they have been ------------------------------------------

  ghost predicate NoCycleFrom(g: Graph<Key>, k: Key) {
    forall x, y :: Reach(g, k, x) && y in Succ(g, x) ==> !Reach(g, y, x)
  }

  ghost predicate Avoids(g: Graph<Key>, k: Key, seen: set<Key>) {
    forall x :: Reach(g, k, x) ==> x !in seen
  }

  /** A depth-first search from `k` that stops at `seen` never stops. */
  ghost predicate Tidy(g: Graph<Key>, k: Key, seen: set<Key>) {
    NoCycleFrom(g, k) && Avoids(g, k, seen)
  }

  lemma TidyUnfold(g: Graph<Key>, k: Key, seen: set<Key>)
    ensures Tidy(g, k, seen) <==> k !in seen && forall d :: d in Succ(g, k) ==> Tidy(g, d, seen + {k})
  {
    if Tidy(g, k, seen) {
      ReachRefl(g, k);
      forall d | d in Succ(g, k)
        ensures Tidy(g, d, seen + {k})
      {
        TidyDown(g, k, seen, d);
      }
    }
    if k !in seen && forall d :: d in Succ(g, k) ==> Tidy(g, d, seen + {k}) {
      TidyUp(g, k, seen);
    }
  }

  lemma TidyDown(g: Graph<Key>, k: Key, seen: set<Key>, d: Key)
    requires Tidy(g, k, seen) && d in Succ(g, k)
    ensures Tidy(g, d, seen + {k})
  {
    ReachRefl(g, k);
    ReachEdge(g, k, d);
    forall x | Reach(g, d, x)
      ensures Reach(g, k, x) && x != k
    {
      ReachTrans(g, k, d, x);
    }
  }

  lemma TidyUp(g: Graph<Key>, k: Key, seen: set<Key>)
    requires k !in seen && forall d :: d in Succ(g, k) ==> Tidy(g, d, seen + {k})
    ensures Tidy(g, k, seen)
  {
    forall x | Reach(g, k, x)
      ensures x !in seen
      ensures forall y :: y in Succ(g, x) ==> !Reach(g, y, x)
    {
      ReachUnfold(g, k, x);
    }
  }

  // ---- what an established claim stands on -----------------------------------------------------

  /** The claims whose standing decides a claim's own. */
  ghost function SupportGraph(v: View): Graph<Key> {
    map k | k in v.byKey ::
      match v.byKey[k].kind
      case ProofObligation => Predecessors(v, k)
      case Requirement => Supporting(v, k)
      case _ => {}
  }

  /** A claim's own contribution: an obligation needs a current passing attestation, a
      requirement some support; nothing else is ever established. */
  ghost predicate Passing(v: View, k: Key) {
    k in v.byKey &&
    match v.byKey[k].kind
    case ProofObligation => k in v.latest && v.latest[k].verdict == "pass" && v.latest[k].currency == "current"
    case Requirement => Supporting(v, k) != {}
    case _ => false
  }

  ghost predicate AllPassing(v: View, k: Key) {
    forall x :: Reach(SupportGraph(v), k, x) ==> Passing(v, x)
  }

  /** An established claim that counts for the one above it. */
  ghost predicate Stands(v: View, d: Key, seen: set<Key>)
    requires v.Resolved()
  {
    d in v.byKey && Prove(v, d, seen).standing == Established && Prove(v, d, seen).currency == "current"
  }

  lemma ProveObligation(v: View, k: Key, seen: set<Key>)
    requires v.Resolved() && Obligated(v, k) && k !in seen
    ensures Prove(v, k, seen).standing == Established ==> Prove(v, k, seen).currency == "current"
    ensures Prove(v, k, seen).standing == Established <==>
            Passing(v, k) && forall d :: d in Predecessors(v, k) ==> Stands(v, d, seen + {k})
  {
    var missing: set<Reason> := set d | d in Predecessors(v, k)
      && (Prove(v, d, seen + {k}).standing != Established || Prove(v, d, seen + {k}).currency != "current")
      :: Predecessor(Prove(v, d, seen + {k}).standing, d);
    if d :| d in Predecessors(v, k) && !Stands(v, d, seen + {k}) {
      assert Predecessor(Prove(v, d, seen + {k}).standing, d) in missing;
    } else {
      assert missing == {};
    }
  }

  lemma ProveRequirement(v: View, k: Key, seen: set<Key>)
    requires v.Resolved() && k in v.byKey && v.byKey[k].kind == Requirement && k !in seen
    ensures Prove(v, k, seen).standing == Established ==> Prove(v, k, seen).currency == "current"
    ensures Prove(v, k, seen).standing == Established <==>
            Passing(v, k) && forall t :: t in Supporting(v, k) ==> Stands(v, t, seen + {k})
  {
    assert forall t :: t in Supporting(v, k) ==> t in v.byKey;
    if t :| t in Supporting(v, k) && !Stands(v, t, seen + {k}) {
      assert Prove(v, t, seen + {k}).standing != Established || Prove(v, t, seen + {k}).currency != "current";
    }
  }

  lemma ProveStep(v: View, k: Key, seen: set<Key>)
    requires v.Resolved() && k in v.byKey
    requires forall d ::
               d in Succ(SupportGraph(v), k) && k !in seen && Prove(v, d, seen + {k}).standing == Established ==>
                 Prove(v, d, seen + {k}).currency == "current"
    ensures Prove(v, k, seen).standing == Established ==> Prove(v, k, seen).currency == "current"
    ensures Prove(v, k, seen).standing == Established <==>
            k !in seen && Passing(v, k)
            && forall d :: d in Succ(SupportGraph(v), k) ==> Prove(v, d, seen + {k}).standing == Established
  {
    if k !in seen {
      match v.byKey[k].kind
      case ProofObligation =>
        ProveObligation(v, k, seen);
        hide Prove, Passing, Predecessors, Supporting;
        assert Succ(SupportGraph(v), k) == Predecessors(v, k);
        assert forall d :: d in Predecessors(v, k) ==>
                 (Stands(v, d, seen + {k}) <==> Prove(v, d, seen + {k}).standing == Established);
      case Requirement =>
        ProveRequirement(v, k, seen);
        hide Prove, Passing, Predecessors, Supporting;
        assert Succ(SupportGraph(v), k) == Supporting(v, k);
        assert forall d :: d in Supporting(v, k) ==>
                 (Stands(v, d, seen + {k}) <==> Prove(v, d, seen + {k}).standing == Established);
      case _ =>
    }
  }

  /** `established`, whatever the graph: everything the claim stands on passes, and the walk
      down its support never comes back. */
  lemma {:induction false} EstablishedIff(v: View, k: Key, seen: set<Key>)
    requires v.Resolved() && k in v.byKey
    ensures Prove(v, k, seen).standing == Established ==> Prove(v, k, seen).currency == "current"
    ensures Prove(v, k, seen).standing == Established <==> AllPassing(v, k) && Tidy(SupportGraph(v), k, seen)
    decreases v.byKey.Keys - seen
  {
    var g := SupportGraph(v);
    TidyUnfold(g, k, seen);
    ReachRefl(g, k);
    if k !in seen {
      forall d | d in Succ(g, k)
        ensures d in v.byKey
        ensures Prove(v, d, seen + {k}).standing == Established ==> Prove(v, d, seen + {k}).currency == "current"
        ensures Prove(v, d, seen + {k}).standing == Established <==> AllPassing(v, d) && Tidy(g, d, seen + {k})
      {
        EstablishedIff(v, d, seen + {k});
      }
      ProveStep(v, k, seen);
      AllPassingUnfold(v, k);
    }
  }

  lemma AllPassingUnfold(v: View, k: Key)
    ensures AllPassing(v, k) <==> Passing(v, k) && forall d :: d in Succ(SupportGraph(v), k) ==> AllPassing(v, d)
  {
    var g := SupportGraph(v);
    ReachRefl(g, k);
    if AllPassing(v, k) {
      forall d, x | d in Succ(g, k) && Reach(g, d, x)
        ensures Passing(v, x)
      {
        ReachUnfold(g, k, x);
      }
    } else {
      var x :| Reach(g, k, x) && !Passing(v, x);
      ReachUnfold(g, k, x);
    }
  }

  // ---- the cycle branch --------------------------------------------------------------------------

  /** The claims `Prove` calls itself on. */
  ghost function CallGraph(v: View): Graph<Key> {
    map k | k in v.byKey ::
      Predecessors(v, k) + (if v.byKey[k].kind == Requirement then Supporting(v, k) else {})
  }

  /** Whether the call tree of `Prove` runs into its dependency-cycle branch. */
  ghost predicate MeetsCycle(v: View, k: Key, seen: set<Key>)
    requires v.Resolved() && k in v.byKey
    decreases v.byKey.Keys - seen
  {
    k in seen || exists d :: d in Succ(CallGraph(v), k) && d in v.byKey && MeetsCycle(v, d, seen + {k})
  }

  lemma {:induction false} MeetsCycleIff(v: View, k: Key, seen: set<Key>)
    requires v.Resolved() && k in v.byKey
    ensures MeetsCycle(v, k, seen) <==> !Tidy(CallGraph(v), k, seen)
    decreases v.byKey.Keys - seen
  {
    var g := CallGraph(v);
    TidyUnfold(g, k, seen);
    if k !in seen {
      forall d | d in Succ(g, k)
        ensures d in v.byKey
        ensures MeetsCycle(v, d, seen + {k}) <==> !Tidy(g, d, seen + {k})
      {
        MeetsCycleIff(v, d, seen + {k});
      }
    }
  }

  /** The supporting edges that lead from one requirement to another. */
  ghost function RequirementSupport(v: View): Graph<Key> {
    map k | k in v.byKey ::
      if v.byKey[k].kind == Requirement
      then set t | t in Supporting(v, k) && t in v.byKey && v.byKey[t].kind == Requirement
      else {}
  }

  function ViewOf(cs: ClaimSet, latest: map<Key, Attestation>): View {
    View(ByKey(cs.claims), cs.edges, latest)
  }

  lemma ValidResolves(cs: ClaimSet, policy: Policy, latest: map<Key, Attestation>)
    requires ValidClaimSet(cs, policy)
    ensures ViewOf(cs, latest).Resolved()
  {
    ByKeyKeys(cs.claims);
  }

  ghost predicate Obligated(v: View, k: Key) {
    k in v.byKey && v.byKey[k].kind == ProofObligation
  }

  /** Below an obligation every call follows a dependency to another obligation. */
  lemma {:induction false} ObligationWalk(v: View, p: seq<Key>, i: nat)
    requires IsPath(CallGraph(v), p) && Obligated(v, p[0]) && i < |p|
    ensures Obligated(v, p[i])
    ensures Reach(DependencyGraph(v.byKey), p[0], p[i])
  {
    var h := DependencyGraph(v.byKey);
    if i == 0 {
      ReachRefl(h, p[0]);
    } else {
      ObligationWalk(v, p, i - 1);
      assert p[i - 1 + 1] in Succ(CallGraph(v), p[i - 1]);
      ReachEdge(h, p[i - 1], p[i]);
      ReachTrans(h, p[0], p[i - 1], p[i]);
    }
  }

  lemma ObligationsTidy(v: View, k: Key)
    requires Acyclic(DependencyGraph(v.byKey)) && Obligated(v, k)
    ensures NoCycleFrom(CallGraph(v), k) && NoCycleFrom(SupportGraph(v), k)
  {
    var g, h := CallGraph(v), DependencyGraph(v.byKey);
    CycleIffReturningEdge(h);
    SupportIsCalled(v);
    hide CallGraph, SupportGraph, DependencyGraph, Reach, Acyclic;
    forall x, y | Reach(g, k, x) && y in Succ(g, x)
      ensures !Reach(g, y, x)
    {
      CallsAreDependencies(v, k, x);
      CallIsDependency(v, x, y);
      if Reach(g, y, x) { CallsAreDependencies(v, y, x); }
    }
    forall x, y | Reach(SupportGraph(v), k, x) && y in Succ(SupportGraph(v), x)
      ensures !Reach(SupportGraph(v), y, x)
    {
      ReachMonotone(SupportGraph(v), g, k, x);
      if Reach(SupportGraph(v), y, x) {
        ReachMonotone(SupportGraph(v), g, y, x);
      }
    }
  }

  lemma SupportIsCalled(v: View)
    ensures forall x :: Succ(SupportGraph(v), x) <= Succ(CallGraph(v), x)
    ensures forall x :: Succ(RequirementSupport(v), x) <= Succ(CallGraph(v), x)
  {
  }

  lemma CallIsDependency(v: View, x: Key, y: Key)
    requires Obligated(v, x) && y in Succ(CallGraph(v), x)
    ensures Obligated(v, y) && y in Succ(DependencyGraph(v.byKey), x)
  {
  }

  lemma CallsAreDependencies(v: View, k: Key, x: Key)
    requires Obligated(v, k) && Reach(CallGraph(v), k, x)
    ensures Obligated(v, x) && Reach(DependencyGraph(v.byKey), k, x)
  {
    hide CallGraph, DependencyGraph;
    var p :| PathFromTo(CallGraph(v), p, k, x);
    ObligationWalk(v, p, |p| - 1);
  }

  /** On a validated set an obligation is established exactly when it and every obligation it
      depends on, directly or not, has a latest attestation that passes and is current. */
  lemma ObligationEstablished(cs: ClaimSet, policy: Policy, latest: map<Key, Attestation>, k: Key)
    requires ValidClaimSet(cs, policy) && Obligated(ViewOf(cs, latest), k)
    ensures ViewOf(cs, latest).Resolved()
    ensures Prove(ViewOf(cs, latest), k, {}).standing == Established <==>
            forall x :: Reach(ObligationGraph(ViewOf(cs, latest)), k, x) ==>
              x in latest && latest[x].verdict == "pass" && latest[x].currency == "current"
    ensures !MeetsCycle(ViewOf(cs, latest), k, {})
  {
    var v := ViewOf(cs, latest);
    ValidResolves(cs, policy, latest);
    EstablishedIff(v, k, {});
    MeetsCycleIff(v, k, {});
    ObligationsTidy(v, k);
    ObligationReach(v, k);
  }

  /** Dependencies between obligations. */
  ghost function ObligationGraph(v: View): Graph<Key> {
    map k | k in v.byKey && v.byKey[k].kind == ProofObligation :: Predecessors(v, k)
  }

  lemma ObligationReach(v: View, k: Key)
    requires Obligated(v, k)
    ensures forall x :: Reach(SupportGraph(v), k, x) <==> Reach(ObligationGraph(v), k, x)
    ensures forall x :: Reach(SupportGraph(v), k, x) ==> Obligated(v, x)
  {
    var g, h := SupportGraph(v), ObligationGraph(v);
    forall x | Reach(h, k, x)
      ensures Reach(g, k, x)
    {
      ReachMonotone(h, g, k, x);
    }
    forall x | Reach(g, k, x)
      ensures Reach(h, k, x) && Obligated(v, x)
    {
      var p :| PathFromTo(g, p, k, x);
      SupportWalk(v, p, |p| - 1);
    }
  }

  lemma {:induction false} SupportWalk(v: View, p: seq<Key>, i: nat)
    requires IsPath(SupportGraph(v), p) && Obligated(v, p[0]) && i < |p|
    ensures Obligated(v, p[i]) && Reach(ObligationGraph(v), p[0], p[i])
  {
    var h := ObligationGraph(v);
    if i == 0 {
      ReachRefl(h, p[0]);
    } else {
      SupportWalk(v, p, i - 1);
      assert p[i - 1 + 1] in Succ(SupportGraph(v), p[i - 1]);
      ReachEdge(h, p[i - 1], p[i]);
      ReachTrans(h, p[0], p[i - 1], p[i]);
    }
  }

  ghost predicate Attested(latest: map<Key, Attestation>, x: Key) {
    x in latest && latest[x].verdict == "pass" && latest[x].currency == "current"
  }

  /** What a claim of a requirement's support has to be: a requirement, or an attested obligation. */
  ghost predicate Bears(v: View, x: Key) {
    x in v.byKey && (v.byKey[x].kind == Requirement || (v.byKey[x].kind == ProofObligation && Attested(v.latest, x)))
  }

  /** On a validated set a requirement is established exactly when everything its support reaches is
      a requirement or an attested obligation, and no chain of requirements under it returns. */
  lemma RequirementEstablished(cs: ClaimSet, policy: Policy, latest: map<Key, Attestation>, k: Key)
    requires ValidClaimSet(cs, policy) && k in ByKey(cs.claims) && ByKey(cs.claims)[k].kind == Requirement
    ensures ViewOf(cs, latest).Resolved()
    ensures Prove(ViewOf(cs, latest), k, {}).standing == Established <==>
            NoCycleFrom(RequirementSupport(ViewOf(cs, latest)), k)
            && forall x :: Reach(SupportGraph(ViewOf(cs, latest)), k, x) ==> Bears(ViewOf(cs, latest), x)
  {
    var v := ViewOf(cs, latest);
    ValidResolves(cs, policy, latest);
    EstablishedIff(v, k, {});
    SupportCyclesAreRequirements(v, k);
    forall x
      ensures Passing(v, x) <==> Bears(v, x)
    {
      if x in v.byKey && v.byKey[x].kind == Requirement { HasSupport(cs, policy, latest, x); }
    }
  }

  lemma SupportCyclesAreRequirements(v: View, k: Key)
    requires v.Resolved() && Acyclic(DependencyGraph(v.byKey)) && k in v.byKey && v.byKey[k].kind == Requirement
    ensures NoCycleFrom(SupportGraph(v), k) <==> NoCycleFrom(RequirementSupport(v), k)
  {
    var g, h, calls := SupportGraph(v), RequirementSupport(v), CallGraph(v);
    SupportIsCalled(v);
    RequirementSupportSupports(v);
    if x, y :| Reach(g, k, x) && y in Succ(g, x) && Reach(g, y, x) {
      ReachMonotone(g, calls, k, x);
      ReachMonotone(g, calls, y, x);
      ReturningCall(v, x, y);
      var p :| PathFromTo(calls, p, k, x);
      RequirementWalk(v, p);
      assert Reach(h, k, x) && y in Succ(h, x) && Reach(h, y, x);
    }
    if x, y :| Reach(h, k, x) && y in Succ(h, x) && Reach(h, y, x) {
      ReachMonotone(h, g, k, x);
      ReachMonotone(h, g, y, x);
    }
  }

  lemma RequirementSupportSupports(v: View)
    ensures forall x :: Succ(RequirementSupport(v), x) <= Succ(SupportGraph(v), x)
  {
  }

  /** Where the support is obligations alone, as in every compiled set, that is their standing. */
  lemma ObligatedRequirementEstablished(cs: ClaimSet, policy: Policy, latest: map<Key, Attestation>, k: Key)
    requires ValidClaimSet(cs, policy) && k in ByKey(cs.claims) && ByKey(cs.claims)[k].kind == Requirement
    requires forall t :: t in Supporting(ViewOf(cs, latest), k) ==> Obligated(ViewOf(cs, latest), t)
    ensures ViewOf(cs, latest).Resolved()
    ensures Prove(ViewOf(cs, latest), k, {}).standing == Established <==>
            forall t, x ::
              t in Supporting(ViewOf(cs, latest), k) && Reach(ObligationGraph(ViewOf(cs, latest)), t, x) ==>
                Attested(latest, x)
  {
    ValidResolves(cs, policy, latest);
    HasSupport(cs, policy, latest, k);
    OnObligations(ViewOf(cs, latest), k);
  }

  lemma OnObligations(v: View, k: Key)
    requires v.Resolved() && Acyclic(DependencyGraph(v.byKey)) && k in v.byKey && v.byKey[k].kind == Requirement
    requires Supporting(v, k) != {} && forall t :: t in Supporting(v, k) ==> Obligated(v, t)
    ensures Prove(v, k, {}).standing == Established <==>
            forall t, x :: t in Supporting(v, k) && Reach(ObligationGraph(v), t, x) ==> Attested(v.latest, x)
  {
    EstablishedIff(v, k, {});
    SupportTidy(v, k);
    AllPassingUnfold(v, k);
    assert Passing(v, k) && Succ(SupportGraph(v), k) == Supporting(v, k);
    hide Prove, Supporting, SupportGraph, ObligationGraph, Tidy, AllPassing, Reach, Attested;
    forall t | t in Supporting(v, k)
      ensures AllPassing(v, t) <==> forall x :: Reach(ObligationGraph(v), t, x) ==> Attested(v.latest, x)
    {
      ObligationPasses(v, t);
    }
  }

  lemma ObligationPasses(v: View, t: Key)
    requires Obligated(v, t)
    ensures AllPassing(v, t) <==> forall x :: Reach(ObligationGraph(v), t, x) ==> Attested(v.latest, x)
  {
    ObligationReach(v, t);
    hide Reach;
  }

  lemma SupportTidy(v: View, k: Key)
    requires Acyclic(DependencyGraph(v.byKey)) && k in v.byKey && v.byKey[k].kind == Requirement
    requires forall t :: t in Supporting(v, k) ==> Obligated(v, t)
    ensures Tidy(SupportGraph(v), k, {})
  {
    var g := SupportGraph(v);
    TidyUnfold(g, k, {});
    forall t | t in Succ(g, k)
      ensures Tidy(g, t, {k})
    {
      ObligationsTidy(v, t);
      ObligationReach(v, t);
    }
  }

  lemma HasSupport(cs: ClaimSet, policy: Policy, latest: map<Key, Attestation>, k: Key)
    requires ValidClaimSet(cs, policy) && k in ByKey(cs.claims) && ByKey(cs.claims)[k].kind == Requirement
    ensures Supporting(ViewOf(cs, latest), k) != {}
  {
    ByKeyKeys(cs.claims);
    var c := ByKey(cs.claims)[k];
    assert c in cs.claims && c.key == k;
    var e :| e in cs.edges && e.relation == SupportedBy && e.source == c.key;
    assert e.target in Supporting(ViewOf(cs, latest), k);
  }

  // ---- exactly when the cycle branch is taken ------------------------------------------------------

  lemma {:induction false} RequirementWalk(v: View, p: seq<Key>)
    requires IsPath(CallGraph(v), p)
    requires p[|p| - 1] in v.byKey && v.byKey[p[|p| - 1]].kind == Requirement
    ensures p[0] in v.byKey && v.byKey[p[0]].kind == Requirement
    ensures Reach(RequirementSupport(v), p[0], p[|p| - 1])
  {
    var g, h := CallGraph(v), RequirementSupport(v);
    if |p| == 1 {
      ReachRefl(h, p[0]);
    } else {
      var q := p[1..];
      assert p[0 + 1] in Succ(g, p[0]);
      forall i | 0 <= i < |q| - 1
        ensures q[i + 1] in Succ(g, q[i])
      {
        assert p[i + 1 + 1] in Succ(g, p[i + 1]);
      }
      RequirementWalk(v, q);
      ReachEdge(h, p[0], p[1]);
      ReachTrans(h, p[0], p[1], p[|p| - 1]);
    }
  }

  lemma CallCycleIsSupportCycle(v: View)
    requires v.Resolved() && Acyclic(DependencyGraph(v.byKey))
    ensures Acyclic(CallGraph(v)) <==> Acyclic(RequirementSupport(v))
  {
    var g, h := CallGraph(v), RequirementSupport(v);
    CycleIffReturningEdge(g);
    CycleIffReturningEdge(h);
    SupportIsCalled(v);
    hide CallGraph, RequirementSupport, Reach, Acyclic, DependencyGraph;
    if x, y :| y in Succ(g, x) && Reach(g, y, x) {
      ReturningCall(v, x, y);
    }
    if x, y :| y in Succ(h, x) && Reach(h, y, x) {
      ReachMonotone(h, g, y, x);
    }
  }

  lemma ReturningCall(v: View, x: Key, y: Key)
    requires v.Resolved() && Acyclic(DependencyGraph(v.byKey))
    requires y in Succ(CallGraph(v), x) && Reach(CallGraph(v), y, x)
    ensures y in Succ(RequirementSupport(v), x) && Reach(RequirementSupport(v), y, x)
  {
    var g := CallGraph(v);
    ReachRefl(g, x);
    ReachRefl(g, y);
    ReachEdge(g, x, y);
    if Obligated(v, x) {
      ObligationsTidy(v, x);
      assert false;
    }
    var p :| PathFromTo(g, p, y, x);
    if Obligated(v, y) {
      ObligationWalk(v, p, |p| - 1);
      assert false;
    }
    RequirementWalk(v, p);
  }

  /** The cycle branch of the query is dead code on a validated set exactly when no chain of
      requirements supports itself. */
  lemma CycleBranchDeadIff(cs: ClaimSet, policy: Policy, latest: map<Key, Attestation>)
    requires ValidClaimSet(cs, policy)
    ensures ViewOf(cs, latest).Resolved()
    ensures (forall k :: k in ByKey(cs.claims) ==> !MeetsCycle(ViewOf(cs, latest), k, {}))
            <==> Acyclic(RequirementSupport(ViewOf(cs, latest)))
  {
    ValidResolves(cs, policy, latest);
    CycleBranchDead(ViewOf(cs, latest));
  }

  lemma CycleBranchDead(v: View)
    requires v.Resolved() && Acyclic(DependencyGraph(v.byKey))
    ensures (forall k :: k in v.byKey ==> !MeetsCycle(v, k, {})) <==> Acyclic(RequirementSupport(v))
  {
    hide MeetsCycle, Tidy, Acyclic;
    forall k | k in v.byKey
      ensures MeetsCycle(v, k, {}) <==> !Tidy(CallGraph(v), k, {})
    {
      MeetsCycleIff(v, k, {});
    }
    CallCycleIsSupportCycle(v);
    AllTidyIff(v);
  }

  lemma AllTidyIff(v: View)
    ensures (forall k :: k in v.byKey ==> Tidy(CallGraph(v), k, {})) <==> Acyclic(CallGraph(v))
  {
    var g := CallGraph(v);
    CycleIffReturningEdge(g);
    if x, y :| y in Succ(g, x) && Reach(g, y, x) {
      ReachRefl(g, x);
      assert x in v.byKey && !Tidy(g, x, {});
    }
  }

  /** The validator does not look at supporting edges between requirements: a requirement
      named as its own support passes it, and its query runs into the cycle branch. */
  lemma ValidatedCycleExists(policy: Policy)
    ensures var k := RequirementKey("repo", "project", "spec", "AC-1");
            var cs := ClaimSet("repo", "project", "spec", "programme",
                               [Claim(k, Requirement, "project", "spec", {}, ["AC-1"], None)],
                               {Edge(SupportedBy, k, k)});
            ValidClaimSet(cs, policy) && ViewOf(cs, map[]).Resolved() && k in ByKey(cs.claims)
            && MeetsCycle(ViewOf(cs, map[]), k, {})
            && Prove(ViewOf(cs, map[]), k, {}).standing == Insufficient
  {
    var k := RequirementKey("repo", "project", "spec", "AC-1");
    var c := Claim(k, Requirement, "project", "spec", {}, ["AC-1"], None);
    var cs := ClaimSet("repo", "project", "spec", "programme", [c], {Edge(SupportedBy, k, k)});
    ByKeyKeys(cs.claims);
    assert cs.claims[..0] == [];
    assert ByKey(cs.claims) == map[k := c];
    CycleIffReturningEdge(DependencyGraph(ByKey(cs.claims)));
    assert Edge(SupportedBy, k, k) in cs.edges;
    assert ValidClaimSet(cs, policy);
    var v := ViewOf(cs, map[]);
    ValidResolves(cs, policy, map[]);
    assert k in Supporting(v, k);
    assert MeetsCycle(v, k, {} + {k});
    assert k in Succ(CallGraph(v), k);
    EstablishedIff(v, k, {});
    ReachRefl(SupportGraph(v), k);
    assert k in Succ(SupportGraph(v), k);
    assert !Tidy(SupportGraph(v), k, {});
  }

  /** In a compiled set every supporting edge leads from a requirement to an obligation. */
  lemma CompiledSupport(rq: Requirements, pg: Programme, policy: Policy, order: seq<string>,
                        latest: map<Key, Attestation>, k: Key)
    requires Items(pg, order) && Lists(order, pg.items.Keys) && ValidClaimSet(Built(rq, pg, policy, order), policy)
    ensures forall t :: t in Supporting(ViewOf(Built(rq, pg, policy, order), latest), k) ==>
              Obligated(ViewOf(Built(rq, pg, policy, order), latest), t)
  {
    var cs := Built(rq, pg, policy, order);
    ByKeyOfDistinct(cs.claims);
    hide ValidClaimSet, AllClaims, DistinctKeys, ByKey;
    forall e | e in cs.edges && e.relation == SupportedBy
      ensures Obligated(ViewOf(cs, latest), e.target)
    {
      var c := SupportingClaim(rq, pg, policy, order, e);
      assert c in cs.claims;
    }
  }

  /** So no chain of requirements supports itself there, and the query never meets its cycle branch. */
  lemma CompiledNeverMeetsCycle(rq: Requirements, pg: Programme, policy: Policy, order: seq<string>,
                                latest: map<Key, Attestation>)
    requires Items(pg, order) && Lists(order, pg.items.Keys) && ValidClaimSet(Built(rq, pg, policy, order), policy)
    ensures var cs := Built(rq, pg, policy, order); var v := ViewOf(cs, latest);
            v.Resolved() && Acyclic(RequirementSupport(v)) && forall k :: k in v.byKey ==> !MeetsCycle(v, k, {})
  {
    var cs := Built(rq, pg, policy, order);
    var v := ViewOf(cs, latest);
    forall k
      ensures Succ(RequirementSupport(v), k) == {}
    {
      CompiledSupport(rq, pg, policy, order, latest, k);
    }
    CycleIffReturningEdge(RequirementSupport(v));
    CycleBranchDeadIff(cs, policy, latest);
  }

  /** The obligation a compiled supporting edge ends at. */
  lemma SupportingClaim(rq: Requirements, pg: Programme, policy: Policy, order: seq<string>, e: Edge) returns (c: Claim)
    requires Items(pg, order) && Lists(order, pg.items.Keys) && e in AllEdges(rq, pg, policy)
             && e.relation == SupportedBy
    ensures c in AllClaims(rq, pg, policy, order) && c.key == e.target && c.kind == ProofObligation
  {
    hide AllClaims;
    var id, i: nat :| id in pg.items && i < |policy.requirements|
                      && e in OwnEdges(rq, pg, policy, id, policy.requirements[i])
                              + WaitEdges(rq, pg, policy, id, policy.requirements[i]);
    c := ObligationClaim(rq, pg, policy, id, policy.requirements[i]);
    AllClaimsMembers(rq, pg, policy, order, c);
    assert IsObligation(rq, pg, policy, c, id, i) && id in order;
  }

  // ---- the query ---------------------------------------------------------------------------------

  /** The last attestation of each known claim. */
  function LatestOf(known: set<Key>, rows: seq<Attestation>): map<Key, Attestation> {
    if rows == [] then map[]
    else
      var row := rows[|rows| - 1];
      var before := LatestOf(known, rows[..|rows| - 1]);
      if row.key in known then before[row.key := row] else before
  }

  /** Row i is the last one given for the claim. */
  predicate LastFor(rows: seq<Attestation>, k: Key, i: nat) {
    i < |rows| && rows[i].key == k && forall j :: i < j < |rows| ==> rows[j].key != k
  }

  lemma {:induction false} LatestIsLast(known: set<Key>, rows: seq<Attestation>, k: Key)
    ensures k in LatestOf(known, rows) <==> k in known && exists i: nat :: LastFor(rows, k, i)
    ensures k in LatestOf(known, rows) ==> exists i: nat :: LastFor(rows, k, i) && rows[i] == LatestOf(known, rows)[k]
  {
    if rows != [] {
      var n := |rows| - 1;
      LatestIsLast(known, rows[..n], k);
      if rows[n].key == k {
        assert LastFor(rows, k, n);
      } else {
        forall i: nat
          ensures LastFor(rows, k, i) <==> LastFor(rows[..n], k, i)
        {
          LastForEarlier(rows, k, i);
        }
      }
    }
  }

  lemma LastForEarlier(rows: seq<Attestation>, k: Key, i: nat)
    requires rows != [] && rows[|rows| - 1].key != k
    ensures LastFor(rows, k, i) <==> LastFor(rows[..|rows| - 1], k, i)
    ensures LastFor(rows, k, i) ==> rows[..|rows| - 1][i] == rows[i]
  {
    if LastFor(rows[..|rows| - 1], k, i) {
      assert forall j :: i < j < |rows| - 1 ==> rows[..|rows| - 1][j] == rows[j];
    }
  }

  datatype Row = Row(kind: Kind, approved: bool, exploration: string, proof: Proof)

  /** The standing a claim was given in exploration, if any. */
  function Explored(statuses: map<Key, string>, k: Key, kind: Kind): string {
    if k in statuses then statuses[k] else if kind != Assumption then "not-explored" else "unknown"
  }

  /** `claim_status`, over any set whose dependencies and edges name its own claims. */
  method Status(cs: ClaimSet, approved: bool, statuses: map<Key, string>, attestations: seq<Attestation>)
    returns (result: map<Key, Row>)
    requires ViewOf(cs, map[]).Resolved()
    ensures result.Keys == ByKey(cs.claims).Keys
    ensures ViewOf(cs, LatestOf(ByKey(cs.claims).Keys, attestations)).Resolved()
    ensures forall k :: k in result ==>
      result[k] == Row(ByKey(cs.claims)[k].kind, approved, Explored(statuses, k, ByKey(cs.claims)[k].kind),
                       Prove(ViewOf(cs, LatestOf(ByKey(cs.claims).Keys, attestations)), k, {}))
  {
    var byKey := ByKey(cs.claims);
    var latest: map<Key, Attestation> := map[];
    for i := 0 to |attestations|
      invariant latest == LatestOf(byKey.Keys, attestations[..i])
    {
      var row := attestations[i];
      assert attestations[..i + 1][..i] == attestations[..i];
      if row.key in byKey {
        latest := latest[row.key := row];
      }
    }
    assert attestations[..|attestations|] == attestations;
    var v := ViewOf(cs, latest);
    result := map k | k in byKey :: Row(byKey[k].kind, approved, Explored(statuses, k, byKey[k].kind), Prove(v, k, {}));
  }
}
