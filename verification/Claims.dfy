/** Claim sets: the compiled graph of requirements and proof obligations, the validator every
    set must pass, and the derived standing of each claim. A SHA-256 identity is modelled as
    the record it digests, so two keys are equal exactly when their records are. */
module Claims {
  import opened Graphs
  import opened AcyclicCheck
  import opened Wrappers

  type Digest = string

  datatype Key =
    | RequirementKey(repository: string, project: string, spec: Digest, acceptance: string)
    | ExploratoryKey(repository: string, project: string, spec: Digest, hypothesis: string)
    | ImplementationKey(repository: string, project: string, spec: Digest, property: string)
    | ObligationKey(repository: string, project: string, spec: Digest, programme: Digest,
                    item: string, profile: string, policy: Digest)

  datatype Kind = Requirement | Assumption | ImplementationProperty | ProofObligation

  datatype Claim = Claim(key: Key, kind: Kind, project: string, spec: Digest,
                         dependsOn: set<Key>, acceptance: seq<string>, profile: Option<string>)

  datatype Relation = Refines | Implements | SupportedBy | DependsOn

  datatype Edge = Edge(relation: Relation, source: Key, target: Key)

  datatype ClaimSet = ClaimSet(repository: string, project: string, spec: Digest, programme: Digest,
                               claims: seq<Claim>, edges: set<Edge>)

  /** One required claim of the protected policy. */
  datatype PolicyClaim = PolicyClaim(id: string, needs: set<string>, finalRequired: bool)

  datatype Policy = Policy(digest: Digest, requirements: seq<PolicyClaim>)

  function PolicyIds(policy: Policy): set<string> {
    set i | 0 <= i < |policy.requirements| :: policy.requirements[i].id
  }

  /** `by_key()`: a later claim with the same key replaces an earlier one. */
  function ByKey(claims: seq<Claim>): map<Key, Claim> {
    if claims == [] then map[]
    else ByKey(claims[..|claims| - 1])[claims[|claims| - 1].key := claims[|claims| - 1]]
  }

  lemma {:induction false} ByKeyKeys(claims: seq<Claim>)
    ensures forall k :: k in ByKey(claims) <==> exists i :: 0 <= i < |claims| && claims[i].key == k
    ensures forall k :: k in ByKey(claims) ==> ByKey(claims)[k].key == k && ByKey(claims)[k] in claims
  {
    if claims != [] {
      ByKeyKeys(claims[..|claims| - 1]);
      assert claims == claims[..|claims| - 1] + [claims[|claims| - 1]];
    }
  }

  ghost predicate DistinctKeys(claims: seq<Claim>) {
    forall i, j :: 0 <= i < j < |claims| ==> claims[i].key != claims[j].key
  }

  lemma {:induction false} ByKeyOfDistinct(claims: seq<Claim>)
    requires DistinctKeys(claims)
    ensures forall c :: c in claims ==> c.key in ByKey(claims) && ByKey(claims)[c.key] == c
  {
    if claims != [] {
      ByKeyOfDistinct(claims[..|claims| - 1]);
      assert claims == claims[..|claims| - 1] + [claims[|claims| - 1]];
    }
  }

  function DependencyGraph(view: map<Key, Claim>): Graph<Key> {
    map k | k in view :: view[k].dependsOn
  }

  // ---- what a valid claim set is -------------------------------------------------------

  ghost predicate ClaimFits(c: Claim, cs: ClaimSet, known: set<Key>, ids: set<string>) {
    && c.project == cs.project && c.spec == cs.spec
    && c.dependsOn <= known
    && (if c.kind == ProofObligation then c.profile.Some? && c.profile.value in ids else c.profile.None?)
  }

  ghost predicate Covered(cs: ClaimSet) {
    forall c :: c in cs.claims && c.kind == Requirement ==>
      exists e :: e in cs.edges && e.relation == SupportedBy && e.source == c.key
  }

  ghost predicate EdgesKnown(cs: ClaimSet, known: set<Key>) {
    forall e :: e in cs.edges ==> e.source in known && e.target in known
  }

  ghost predicate ValidClaimSet(cs: ClaimSet, policy: Policy) {
    && DistinctKeys(cs.claims)
    && (forall c :: c in cs.claims ==> ClaimFits(c, cs, ByKey(cs.claims).Keys, PolicyIds(policy)))
    && EdgesKnown(cs, ByKey(cs.claims).Keys)
    && Acyclic(DependencyGraph(ByKey(cs.claims)))
    && Covered(cs)
  }

  datatype Refusal =
    | DuplicateKey | OtherScope | UnknownDependency | ProfileOutsidePolicy | ProfileNotAllowed
    | UnknownEdge | DependencyCycle | UncoveredAcceptance
    | OtherSpec | OrphanWork | OutsideSpec | OwnedTwice | UnknownBlocker | Unassigned | ProgrammeCycle
    | StrategyOtherSpec | StrategyCertifiesItself | NoObligations | UnknownRequired

  datatype Result<T> = Ok(value: T) | Refused(why: Refusal)

  lemma OwnOfClosed(g: Graph<Key>)
    requires forall k :: k in g ==> g[k] <= g.Keys
    ensures Own(g) == g
  {
    forall k | k in g
      ensures Own(g)[k] == g[k]
    {
      assert g[k] <= g.Keys;
    }
  }

  /** The first loop: the claims by key, refusing a repeated key or a foreign scope. */
  lemma NoneByKey()
    ensures ByKey([]) == map[] && DistinctKeys([])
  {
  }

  lemma ByKeyPush(claims: seq<Claim>, i: nat)
    requires i < |claims|
    ensures ByKey(claims[..i + 1]) == ByKey(claims[..i])[claims[i].key := claims[i]]
  {
    assert claims[..i + 1][..i] == claims[..i];
  }

  method IndexClaims(cs: ClaimSet) returns (r: Result<map<Key, Claim>>)
    ensures r.Ok? <==> DistinctKeys(cs.claims) && InScope(cs)
    ensures r.Ok? ==> r.value == ByKey(cs.claims)
  {
    hide ByKey;
    var byKey: map<Key, Claim> := map[];
    assert cs.claims[..0] == [];
    NoneByKey();
    for i := 0 to |cs.claims|
      invariant byKey == ByKey(cs.claims[..i])
      invariant DistinctKeys(cs.claims[..i])
      invariant forall j :: 0 <= j < i ==> cs.claims[j].project == cs.project && cs.claims[j].spec == cs.spec
    {
      var claim := cs.claims[i];
      ByKeyKeys(cs.claims[..i]);
      if claim.key in byKey {
        var j :| 0 <= j < i && cs.claims[..i][j].key == claim.key;
        assert cs.claims[j].key == cs.claims[i].key;
        return Refused(DuplicateKey);
      }
      if claim.project != cs.project || claim.spec != cs.spec {
        assert claim in cs.claims;
        return Refused(OtherScope);
      }
      ByKeyPush(cs.claims, i);
      byKey := byKey[claim.key := claim];
    }
    assert cs.claims[..|cs.claims|] == cs.claims;
    r := Ok(byKey);
  }

  ghost predicate InScope(cs: ClaimSet) {
    forall i :: 0 <= i < |cs.claims| ==> cs.claims[i].project == cs.project && cs.claims[i].spec == cs.spec
  }

  /** The second loop: dependencies and authority profiles. */
  method CheckFits(cs: ClaimSet, known: set<Key>, ids: set<string>) returns (why: Option<Refusal>)
    requires InScope(cs)
    ensures why.None? <==> forall c :: c in cs.claims ==> ClaimFits(c, cs, known, ids)
  {
    for i := 0 to |cs.claims|
      invariant forall j :: 0 <= j < i ==> ClaimFits(cs.claims[j], cs, known, ids)
    {
      var claim := cs.claims[i];
      assert claim in cs.claims;
      if !(claim.dependsOn <= known) {
        return Some(UnknownDependency);
      }
      if claim.kind == ProofObligation && (claim.profile.None? || claim.profile.value !in ids) {
        return Some(ProfileOutsidePolicy);
      }
      if claim.kind != ProofObligation && claim.profile.Some? {
        return Some(ProfileNotAllowed);
      }
    }
    why := None;
  }

  /** `validate_claim_set`: accepts exactly the valid sets. */
  method Validate(cs: ClaimSet, policy: Policy) returns (r: Result<map<Key, Claim>>)
    ensures r.Ok? <==> ValidClaimSet(cs, policy)
    ensures r.Ok? ==> r.value == ByKey(cs.claims)
  {
    hide Acyclic, Covered, DistinctKeys;
    var index := IndexClaims(cs);
    if index.Refused? {
      ScopeNeeded(cs, policy);
      return index;
    }
    var byKey, ids := index.value, PolicyIds(policy);
    var unfit := CheckFits(cs, byKey.Keys, ids);
    if unfit.Some? {
      return Refused(unfit.value);
    }
    if e :| e in cs.edges && (e.source !in byKey || e.target !in byKey) {
      return Refused(UnknownEdge);
    }
    ByKeyKeys(cs.claims);
    OwnOfClosed(DependencyGraph(byKey));
    var verdict := CheckAcyclic(DependencyGraph(byKey));
    if verdict.Cycle? {
      return Refused(DependencyCycle);
    }
    var requirements := set c | c in cs.claims && c.kind == Requirement :: c.key;
    var supported := set e | e in cs.edges && e.relation == SupportedBy :: e.source;
    CoveredBySets(cs, requirements, supported);
    if requirements - supported != {} {
      return Refused(UncoveredAcceptance);
    }
    r := Ok(byKey);
  }

  lemma ScopeNeeded(cs: ClaimSet, policy: Policy)
    ensures ValidClaimSet(cs, policy) ==> DistinctKeys(cs.claims) && InScope(cs)
  {
    assert forall i :: 0 <= i < |cs.claims| ==> cs.claims[i] in cs.claims;
  }

  lemma CoveredBySets(cs: ClaimSet, requirements: set<Key>, supported: set<Key>)
    requires requirements == set c | c in cs.claims && c.kind == Requirement :: c.key
    requires supported == set e | e in cs.edges && e.relation == SupportedBy :: e.source
    ensures Covered(cs) <==> requirements - supported == {}
  {
    if requirements - supported == {} {
      forall c | c in cs.claims && c.kind == Requirement
        ensures exists e :: e in cs.edges && e.relation == SupportedBy && e.source == c.key
      {
        assert c.key in requirements;
        assert c.key !in requirements - supported;
      }
    }
    if Covered(cs) {
      forall k | k in requirements
        ensures k in supported
      {
        var c :| c in cs.claims && c.kind == Requirement && c.key == k;
      }
    }
  }
}
