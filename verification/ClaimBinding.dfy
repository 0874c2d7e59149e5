/** Binding a programme to the approved requirements: every programme item is given one
    obligation per protected policy claim, and the compiled set is then validated. Proved:
    which inputs are accepted, what the compiled set contains, and that the validator behind
    the compiler refuses only a policy that is itself cyclic or repeats an id. */
module ClaimBinding {
  import opened Graphs
  import opened AcyclicCheck
  import opened Claims
  import opened Wrappers

  datatype Item = Item(acceptance: seq<string>, blockedBy: set<string>)

  datatype Programme = Programme(digest: Digest, spec: Digest, items: map<string, Item>)

  datatype Strategy = Strategy(spec: Digest, unproven: bool, proofReuse: bool)

  /** `RequirementClaimSet`: the requirement claims of one approved spec. */
  datatype Requirements = Requirements(repository: string, project: string, spec: Digest, claims: seq<Claim>)

  function RequirementOf(rq: Requirements, ac: string): Claim {
    Claim(RequirementKey(rq.repository, rq.project, rq.spec, ac), Requirement, rq.project, rq.spec, {}, [ac], None)
  }

  /** What `compile_requirement_claims` returns: one requirement per acceptance id. */
  ghost predicate Compiled(rq: Requirements) {
    && (forall i :: 0 <= i < |rq.claims| ==>
          |rq.claims[i].acceptance| == 1 && rq.claims[i] == RequirementOf(rq, rq.claims[i].acceptance[0]))
    && (forall i, j :: 0 <= i < j < |rq.claims| ==> rq.claims[i].acceptance != rq.claims[j].acceptance)
  }

  method CompileRequirements(repository: string, project: string, spec: Digest, acceptance: seq<string>)
    returns (r: Result<Requirements>)
    ensures r.Ok? <==> forall i, j :: 0 <= i < j < |acceptance| ==> acceptance[i] != acceptance[j]
    ensures r.Ok? ==> Compiled(r.value) && AcceptanceIds(r.value) == set ac | ac in acceptance
    ensures r.Ok? ==> r.value.repository == repository && r.value.project == project && r.value.spec == spec
  {
    var rq := Requirements(repository, project, spec, []);
    var seen: set<string> := {};
    for i := 0 to |acceptance|
      invariant rq.repository == repository && rq.project == project && rq.spec == spec
      invariant |rq.claims| == i && forall j :: 0 <= j < i ==> rq.claims[j] == RequirementOf(rq, acceptance[j])
      invariant forall j, k :: 0 <= j < k < i ==> acceptance[j] != acceptance[k]
      invariant seen == set j | 0 <= j < i :: acceptance[j]
    {
      if acceptance[i] in seen {
        return Refused(DuplicateKey);
      }
      seen := seen + {acceptance[i]};
      rq := rq.(claims := rq.claims + [RequirementOf(rq, acceptance[i])]);
    }
    assert forall j :: 0 <= j < |acceptance| ==> rq.claims[j].acceptance[0] == acceptance[j];
    r := Ok(rq);
  }

  function AcceptanceIds(rq: Requirements): set<string> {
    set i | 0 <= i < |rq.claims| && |rq.claims[i].acceptance| > 0 :: rq.claims[i].acceptance[0]
  }

  // ---- which inputs are accepted ---------------------------------------------------------

  /** Each item owns approved criteria, each criterion has exactly one owner listing it once,
      and blockers are items. */
  ghost predicate Assigned(rq: Requirements, items: map<string, Item>) {
    && (forall id :: id in items ==> items[id].acceptance != [] && items[id].blockedBy <= items.Keys)
    && (forall id, i :: id in items && 0 <= i < |items[id].acceptance| ==> items[id].acceptance[i] in AcceptanceIds(rq))
    && (forall id, i, j :: id in items && 0 <= i < j < |items[id].acceptance| ==>
          items[id].acceptance[i] != items[id].acceptance[j])
    && (forall id, other, ac :: id in items && other in items && id != other && ac in items[id].acceptance ==>
          ac !in items[other].acceptance)
    && (forall ac :: ac in AcceptanceIds(rq) ==> exists id :: id in items && ac in items[id].acceptance)
  }

  function BlockerGraph(items: map<string, Item>): Graph<string> {
    map id | id in items :: items[id].blockedBy
  }

  ghost predicate DistinctIds(policy: Policy) {
    forall i, j :: 0 <= i < j < |policy.requirements| ==> policy.requirements[i].id != policy.requirements[j].id
  }

  /** `requires` between policy claims; claims sharing an id pool their requirements. */
  function PolicyGraph(policy: Policy): Graph<string> {
    map id | id in PolicyIds(policy) ::
      set i, need | 0 <= i < |policy.requirements| && policy.requirements[i].id == id
                    && need in policy.requirements[i].needs :: need
  }

  ghost predicate KnownNeeds(policy: Policy) {
    forall i :: 0 <= i < |policy.requirements| ==> policy.requirements[i].needs <= PolicyIds(policy)
  }

  predicate StrategyFits(strategy: Option<Strategy>, spec: Digest) {
    strategy.None? || (strategy.value.spec == spec && strategy.value.unproven && !strategy.value.proofReuse)
  }

  /** Everything the compiler checks itself, before the validator runs. */
  ghost predicate Admissible(rq: Requirements, pg: Programme, strategy: Option<Strategy>, policy: Policy) {
    && pg.spec == rq.spec
    && Assigned(rq, pg.items)
    && Acyclic(BlockerGraph(pg.items))
    && StrategyFits(strategy, rq.spec)
    && policy.requirements != []
    && (pg.items != map[] ==> KnownNeeds(policy))
  }

  // ---- the compiled set -------------------------------------------------------------------

  function Obligation(rq: Requirements, pg: Programme, policy: Policy, item: string, profile: string): Key {
    ObligationKey(rq.repository, rq.project, rq.spec, pg.digest, item, profile, policy.digest)
  }

  function ItemRequirements(rq: Requirements, item: Item): set<Key> {
    set ac | ac in item.acceptance :: RequirementKey(rq.repository, rq.project, rq.spec, ac)
  }

  /** The obligations a blocked item waits for. */
  function FinalObligations(rq: Requirements, pg: Programme, policy: Policy, item: string): set<Key> {
    set i | 0 <= i < |policy.requirements| && policy.requirements[i].finalRequired
      :: Obligation(rq, pg, policy, item, policy.requirements[i].id)
  }

  function Depends(rq: Requirements, pg: Programme, policy: Policy, id: string, req: PolicyClaim): set<Key>
    requires id in pg.items
  {
    ItemRequirements(rq, pg.items[id])
    + (set need | need in req.needs :: Obligation(rq, pg, policy, id, need))
    + (set b, k | b in pg.items[id].blockedBy && k in FinalObligations(rq, pg, policy, b) :: k)
  }

  function ObligationClaim(rq: Requirements, pg: Programme, policy: Policy, id: string, req: PolicyClaim): Claim
    requires id in pg.items
  {
    Claim(Obligation(rq, pg, policy, id, req.id), ProofObligation, rq.project, rq.spec,
          Depends(rq, pg, policy, id, req), pg.items[id].acceptance, Some(req.id))
  }

  /** The edges one obligation contributes: what it supports, what the policy makes it need,
      and what its item is blocked by. */
  function OwnEdges(rq: Requirements, pg: Programme, policy: Policy, id: string, req: PolicyClaim): set<Edge>
    requires id in pg.items
  {
    var own := Obligation(rq, pg, policy, id, req.id);
    (set k | k in ItemRequirements(rq, pg.items[id]) :: Edge(SupportedBy, k, own))
    + (set need | need in req.needs :: Edge(DependsOn, own, Obligation(rq, pg, policy, id, need)))
  }

  function WaitEdges(rq: Requirements, pg: Programme, policy: Policy, id: string, req: PolicyClaim): set<Edge>
    requires id in pg.items
  {
    set b, k | b in pg.items[id].blockedBy && k in FinalObligations(rq, pg, policy, b)
      :: Edge(DependsOn, Obligation(rq, pg, policy, id, req.id), k)
  }

  function ItemClaims(rq: Requirements, pg: Programme, policy: Policy, id: string): (r: seq<Claim>)
    requires id in pg.items
  {
    seq(|policy.requirements|, i requires 0 <= i < |policy.requirements| =>
      ObligationClaim(rq, pg, policy, id, policy.requirements[i]))
  }

  ghost predicate Items(pg: Programme, order: seq<string>) {
    forall id :: id in order ==> id in pg.items
  }

  /** The requirement claims followed by each listed item's obligations. */
  function AllClaims(rq: Requirements, pg: Programme, policy: Policy, order: seq<string>): seq<Claim>
    requires Items(pg, order)
  {
    if order == [] then rq.claims
    else AllClaims(rq, pg, policy, order[..|order| - 1]) + ItemClaims(rq, pg, policy, order[|order| - 1])
  }

  function AllEdges(rq: Requirements, pg: Programme, policy: Policy): set<Edge> {
    set id, i, e | id in pg.items && 0 <= i < |policy.requirements|
                   && e in OwnEdges(rq, pg, policy, id, policy.requirements[i])
                           + WaitEdges(rq, pg, policy, id, policy.requirements[i]) :: e
  }

  ghost predicate Lists(order: seq<string>, s: set<string>) {
    && (forall id :: id in order <==> id in s)
    && (forall i, j :: 0 <= i < j < |order| ==> order[i] != order[j])
  }

  function Built(rq: Requirements, pg: Programme, policy: Policy, order: seq<string>): ClaimSet
    requires Items(pg, order)
  {
    ClaimSet(rq.repository, rq.project, rq.spec, pg.digest, AllClaims(rq, pg, policy, order), AllEdges(rq, pg, policy))
  }

  ghost predicate IsObligation(rq: Requirements, pg: Programme, policy: Policy, c: Claim, id: string, i: nat) {
    id in pg.items && i < |policy.requirements| && c == ObligationClaim(rq, pg, policy, id, policy.requirements[i])
  }

  lemma {:induction false} AllClaimsMembers(rq: Requirements, pg: Programme, policy: Policy, order: seq<string>,
                                            c: Claim)
    requires Items(pg, order)
    ensures c in AllClaims(rq, pg, policy, order) <==>
            c in rq.claims || exists id, i :: id in order && IsObligation(rq, pg, policy, c, id, i)
  {
    if order != [] {
      var rest, last := order[..|order| - 1], order[|order| - 1];
      AllClaimsMembers(rq, pg, policy, rest, c);
      assert order == rest + [last];
      ItemClaimsMembers(rq, pg, policy, last, c);
    }
  }

  lemma ItemClaimsMembers(rq: Requirements, pg: Programme, policy: Policy, id: string, c: Claim)
    requires id in pg.items
    ensures c in ItemClaims(rq, pg, policy, id) <==> exists i :: IsObligation(rq, pg, policy, c, id, i)
  {
    var row := ItemClaims(rq, pg, policy, id);
    if c in row {
      var i: nat :| i < |row| && row[i] == c;
      assert IsObligation(rq, pg, policy, c, id, i);
    }
    if i: nat :| IsObligation(rq, pg, policy, c, id, i) {
      assert row[i] == c;
    }
  }

  lemma {:induction false} AllClaimsDistinct(rq: Requirements, pg: Programme, policy: Policy, order: seq<string>)
    requires Items(pg, order) && Compiled(rq) && DistinctIds(policy)
    requires forall i, j :: 0 <= i < j < |order| ==> order[i] != order[j]
    ensures DistinctKeys(AllClaims(rq, pg, policy, order))
  {
    if order == [] {
      assert forall i :: 0 <= i < |rq.claims| ==> rq.claims[i] == RequirementOf(rq, rq.claims[i].acceptance[0]);
    } else {
      var rest, last := order[..|order| - 1], order[|order| - 1];
      var before, row := AllClaims(rq, pg, policy, rest), ItemClaims(rq, pg, policy, last);
      AllClaimsDistinct(rq, pg, policy, rest);
      assert forall i :: 0 <= i < |row| ==> row[i] == ObligationClaim(rq, pg, policy, last, policy.requirements[i]);
      forall c | c in before
        ensures c.key.RequirementKey? || (c.key.ObligationKey? && c.key.item != last)
      {
        AllClaimsMembers(rq, pg, policy, rest, c);
        assert last !in rest;
        if c !in rq.claims {
          var id, i :| id in rest && IsObligation(rq, pg, policy, c, id, i);
        }
      }
    }
  }

  /** A repeated policy id gives every item the same obligation twice. */
  lemma RepeatedIdRepeatsKey(rq: Requirements, pg: Programme, policy: Policy, order: seq<string>)
    requires Items(pg, order) && order != [] && !DistinctIds(policy)
    ensures !DistinctKeys(AllClaims(rq, pg, policy, order))
  {
    var last := order[|order| - 1];
    var before, row := AllClaims(rq, pg, policy, order[..|order| - 1]), ItemClaims(rq, pg, policy, last);
    var i, j :| 0 <= i < j < |policy.requirements| && policy.requirements[i].id == policy.requirements[j].id;
    var all := before + row;
    assert all == AllClaims(rq, pg, policy, order);
    assert row[i].key == row[j].key;
    hide AllClaims, ItemClaims;
    assert all[|before| + i] == row[i] && all[|before| + j] == row[j];
  }

  // ---- the obligation graph is acyclic exactly when the policy is ----------------------------

  ghost predicate IsRow(rq: Requirements, pg: Programme, policy: Policy, k: Key, i: nat) {
    && i < |policy.requirements| && k.ObligationKey? && k.item in pg.items
    && k == Obligation(rq, pg, policy, k.item, policy.requirements[i].id)
  }

  /** The dependency graph of the compiled set, row by row. */
  ghost predicate Shape(rq: Requirements, pg: Programme, policy: Policy, g: Graph<Key>) {
    && (forall k :: k in g && k.RequirementKey? ==> g[k] == {})
    && (forall k :: k in g && !k.RequirementKey? ==> exists i :: IsRow(rq, pg, policy, k, i))
    && (forall k, i: nat :: k in g && IsRow(rq, pg, policy, k, i) ==>
          g[k] == Depends(rq, pg, policy, k.item, policy.requirements[i]))
    && (forall id, i :: id in pg.items && 0 <= i < |policy.requirements| ==>
          Obligation(rq, pg, policy, id, policy.requirements[i].id) in g)
  }

  lemma RowIsUnique(rq: Requirements, pg: Programme, policy: Policy, k: Key, i: nat, j: nat)
    requires DistinctIds(policy) && IsRow(rq, pg, policy, k, i) && IsRow(rq, pg, policy, k, j)
    ensures i == j
  {
  }

  /** Where one compiled claim comes from, and what it depends on. */
  lemma ClaimShape(rq: Requirements, pg: Programme, policy: Policy, order: seq<string>, c: Claim)
    requires Items(pg, order) && Compiled(rq) && DistinctIds(policy) && c in AllClaims(rq, pg, policy, order)
    ensures c.key.RequirementKey? ==> c.dependsOn == {}
    ensures !c.key.RequirementKey? ==> exists i :: IsRow(rq, pg, policy, c.key, i)
    ensures forall i: nat :: IsRow(rq, pg, policy, c.key, i) ==>
      c.dependsOn == Depends(rq, pg, policy, c.key.item, policy.requirements[i])
  {
    hide Depends;
    AllClaimsMembers(rq, pg, policy, order, c);
    if c in rq.claims {
      var i :| 0 <= i < |rq.claims| && rq.claims[i] == c;
      assert c == RequirementOf(rq, rq.claims[i].acceptance[0]);
    } else {
      var id, i: nat :| id in order && IsObligation(rq, pg, policy, c, id, i);
      assert IsRow(rq, pg, policy, c.key, i);
      forall j: nat | IsRow(rq, pg, policy, c.key, j)
        ensures j == i
      {
        RowIsUnique(rq, pg, policy, c.key, i, j);
      }
    }
  }

  lemma BuiltShape(rq: Requirements, pg: Programme, policy: Policy, order: seq<string>)
    requires Items(pg, order) && Lists(order, pg.items.Keys) && Compiled(rq) && DistinctIds(policy)
    ensures Shape(rq, pg, policy, DependencyGraph(ByKey(AllClaims(rq, pg, policy, order))))
  {
    hide Depends, Compiled, ByKey, AllClaims;
    var all := AllClaims(rq, pg, policy, order);
    var view := ByKey(all);
    var g := DependencyGraph(view);
    AllClaimsDistinct(rq, pg, policy, order);
    ByKeyKeys(all);
    ByKeyOfDistinct(all);
    forall k | k in g
      ensures k.RequirementKey? ==> g[k] == {}
      ensures !k.RequirementKey? ==> exists i :: IsRow(rq, pg, policy, k, i)
    {
      ClaimShape(rq, pg, policy, order, view[k]);
    }
    forall k, i: nat | k in g && IsRow(rq, pg, policy, k, i)
      ensures g[k] == Depends(rq, pg, policy, k.item, policy.requirements[i])
    {
      ClaimShape(rq, pg, policy, order, view[k]);
    }
    RowsPresent(rq, pg, policy, order);
  }

  lemma RowsPresent(rq: Requirements, pg: Programme, policy: Policy, order: seq<string>)
    requires Items(pg, order) && Lists(order, pg.items.Keys)
    ensures forall id, i :: id in pg.items && 0 <= i < |policy.requirements| ==>
      Obligation(rq, pg, policy, id, policy.requirements[i].id) in ByKey(AllClaims(rq, pg, policy, order))
  {
    hide Depends, ByKey, AllClaims;
    var all := AllClaims(rq, pg, policy, order);
    ByKeyKeys(all);
    forall id, i | id in pg.items && 0 <= i < |policy.requirements|
      ensures Obligation(rq, pg, policy, id, policy.requirements[i].id) in ByKey(all)
    {
      var c := ObligationClaim(rq, pg, policy, id, policy.requirements[i]);
      AllClaimsMembers(rq, pg, policy, order, c);
      assert IsObligation(rq, pg, policy, c, id, i);
    }
  }

  lemma DependsKinds(rq: Requirements, pg: Programme, policy: Policy, id: string, i: nat, d: Key)
    requires id in pg.items && i < |policy.requirements|
    requires d in Depends(rq, pg, policy, id, policy.requirements[i])
    ensures d.RequirementKey? || d.ObligationKey?
    ensures d.ObligationKey? ==> d.item in Succ(BlockerGraph(pg.items), id)
                                 || (d.item == id && d.profile in policy.requirements[i].needs)
  {
    if d in ItemRequirements(rq, pg.items[id]) {
    } else if need :| need in policy.requirements[i].needs && d == Obligation(rq, pg, policy, id, need) {
    } else {
      var b :| b in pg.items[id].blockedBy && d in FinalObligations(rq, pg, policy, b);
    }
  }

  /** A dependency of an obligation is a requirement, an obligation of a blocker, or one the
      policy requires of the same item. */
  lemma StepKinds(rq: Requirements, pg: Programme, policy: Policy, g: Graph<Key>, k: Key, d: Key)
    requires Shape(rq, pg, policy, g)
    ensures d in Succ(g, k) ==> k.ObligationKey? && k.item in pg.items && (d.RequirementKey? || d.ObligationKey?)
    ensures d in Succ(g, k) && d.ObligationKey? ==>
              d.item in Succ(BlockerGraph(pg.items), k.item)
              || (d.item == k.item && d.profile in Succ(PolicyGraph(policy), k.profile))
  {
    if d !in Succ(g, k) { return; }
    hide Depends, BlockerGraph;
    var i: nat :| IsRow(rq, pg, policy, k, i);
    DependsKinds(rq, pg, policy, k.item, i, d);
    assert policy.requirements[i].id == k.profile && k.profile in PolicyIds(policy);
  }

  lemma {:induction false} PathItems(rq: Requirements, pg: Programme, policy: Policy, g: Graph<Key>, p: seq<Key>)
    requires Shape(rq, pg, policy, g) && IsPath(g, p)
    requires p[0].ObligationKey? && p[|p| - 1].ObligationKey?
    ensures Reach(BlockerGraph(pg.items), p[0].item, p[|p| - 1].item)
  {
    var b := BlockerGraph(pg.items);
    if |p| == 1 {
      ReachRefl(b, p[0].item);
    } else {
      var q := p[1..];
      assert p[0 + 1] in Succ(g, p[0]);
      StepKinds(rq, pg, policy, g, p[0], p[1]);
      TailPath(g, p);
      if p[1].RequirementKey? {
        NoStepFromRequirement(rq, pg, policy, g, q);
      }
      PathItems(rq, pg, policy, g, q);
      if p[1].item in Succ(b, p[0].item) {
        ReachEdge(b, p[0].item, p[1].item);
        ReachTrans(b, p[0].item, p[1].item, p[|p| - 1].item);
      }
    }
  }

  lemma TailPath(g: Graph<Key>, p: seq<Key>)
    requires IsPath(g, p) && |p| > 1
    ensures IsPath(g, p[1..])
  {
    var q := p[1..];
    forall i | 0 <= i < |q| - 1
      ensures q[i + 1] in Succ(g, q[i])
    {
      assert p[i + 1 + 1] in Succ(g, p[i + 1]);
    }
  }

  lemma NoStepFromRequirement(rq: Requirements, pg: Programme, policy: Policy, g: Graph<Key>, p: seq<Key>)
    requires Shape(rq, pg, policy, g) && IsPath(g, p) && p[0].RequirementKey?
    ensures |p| == 1
  {
    assert |p| > 1 ==> p[0 + 1] in Succ(g, p[0]);
  }

  /** A walk that comes back to its item never left it, so it follows the policy alone. */
  lemma {:induction false} PathProfiles(rq: Requirements, pg: Programme, policy: Policy, g: Graph<Key>, p: seq<Key>)
    requires Shape(rq, pg, policy, g) && IsPath(g, p) && Acyclic(BlockerGraph(pg.items))
    requires p[0].ObligationKey? && p[|p| - 1].ObligationKey? && p[0].item == p[|p| - 1].item
    ensures Reach(PolicyGraph(policy), p[0].profile, p[|p| - 1].profile)
    ensures |p| > 1 ==> p[1].ObligationKey? && p[1].profile in Succ(PolicyGraph(policy), p[0].profile)
                        && p[1].item == p[0].item
  {
    var b, r := BlockerGraph(pg.items), PolicyGraph(policy);
    if |p| == 1 {
      ReachRefl(r, p[0].profile);
    } else {
      var q := p[1..];
      assert p[0 + 1] in Succ(g, p[0]);
      StepKinds(rq, pg, policy, g, p[0], p[1]);
      TailPath(g, p);
      if p[1].RequirementKey? {
        NoStepFromRequirement(rq, pg, policy, g, q);
      }
      PathItems(rq, pg, policy, g, q);
      CycleIffReturningEdge(b);
      PathProfiles(rq, pg, policy, g, q);
      ReachEdge(r, p[0].profile, p[1].profile);
      ReachTrans(r, p[0].profile, p[1].profile, p[|p| - 1].profile);
    }
  }

  lemma PolicyAcyclicThenGraph(rq: Requirements, pg: Programme, policy: Policy, g: Graph<Key>)
    requires Shape(rq, pg, policy, g) && Acyclic(BlockerGraph(pg.items)) && Acyclic(PolicyGraph(policy))
    ensures Acyclic(g)
  {
    if p :| IsCycle(g, p) {
      assert p[0 + 1] in Succ(g, p[0]);
      StepKinds(rq, pg, policy, g, p[0], p[1]);
      PathProfiles(rq, pg, policy, g, p);
      TailPath(g, p);
      PathProfiles(rq, pg, policy, g, p[1..]);
      CycleIffReturningEdge(PolicyGraph(policy));
      assert false;
    }
  }

  lemma GraphAcyclicThenPolicy(rq: Requirements, pg: Programme, policy: Policy, g: Graph<Key>, id: string)
    requires Shape(rq, pg, policy, g) && id in pg.items && Acyclic(g)
    ensures Acyclic(PolicyGraph(policy))
  {
    if p :| IsCycle(PolicyGraph(policy), p) {
      var q := LiftCycle(rq, pg, policy, g, id, p);
      assert false;
    }
  }

  /** A cycle of the policy is a cycle among the obligations of any one item. */
  lemma LiftCycle(rq: Requirements, pg: Programme, policy: Policy, g: Graph<Key>, id: string, p: seq<string>)
    returns (q: seq<Key>)
    requires Shape(rq, pg, policy, g) && id in pg.items && IsCycle(PolicyGraph(policy), p)
    ensures IsCycle(g, q)
  {
    hide Shape, PolicyGraph, Obligation;
    q := seq(|p|, i requires 0 <= i < |p| => Obligation(rq, pg, policy, id, p[i]));
    forall i | 0 <= i < |q| - 1
      ensures q[i + 1] in Succ(g, q[i])
    {
      assert p[i + 1] in Succ(PolicyGraph(policy), p[i]);
      PolicyStepLifts(rq, pg, policy, g, id, p[i], p[i + 1]);
    }
  }

  lemma PolicyStepLifts(rq: Requirements, pg: Programme, policy: Policy, g: Graph<Key>, id: string, x: string,
                        y: string)
    requires Shape(rq, pg, policy, g) && id in pg.items
    ensures y in Succ(PolicyGraph(policy), x) ==>
              Obligation(rq, pg, policy, id, y) in Succ(g, Obligation(rq, pg, policy, id, x))
  {
    if y !in Succ(PolicyGraph(policy), x) { return; }
    var j :| 0 <= j < |policy.requirements| && policy.requirements[j].id == x && y in policy.requirements[j].needs;
    assert IsRow(rq, pg, policy, Obligation(rq, pg, policy, id, x), j);
  }

  // ---- the compiled set passes the validator ---------------------------------------------------

  /** What else the protected policy must satisfy. The loader only ever produces policies whose
      ids are distinct and whose requirements point backwards, so it always holds of those. */
  ghost predicate PolicyOrdered(policy: Policy) {
    DistinctIds(policy) && Acyclic(PolicyGraph(policy))
  }

  lemma RequirementsKnown(rq: Requirements, pg: Programme, policy: Policy, order: seq<string>, ac: string)
    requires Items(pg, order) && Compiled(rq) && ac in AcceptanceIds(rq)
    ensures RequirementKey(rq.repository, rq.project, rq.spec, ac) in ByKey(AllClaims(rq, pg, policy, order))
  {
    hide AllClaims, ByKey, IsObligation;
    var i :| 0 <= i < |rq.claims| && rq.claims[i].acceptance[0] == ac;
    AllClaimsMembers(rq, pg, policy, order, rq.claims[i]);
    ByKeyKeys(AllClaims(rq, pg, policy, order));
  }

  /** Every dependency of a compiled obligation is compiled too. */
  lemma DependsKnown(rq: Requirements, pg: Programme, policy: Policy, order: seq<string>, id: string, i: nat)
    requires Items(pg, order) && Lists(order, pg.items.Keys) && Compiled(rq)
    requires Assigned(rq, pg.items) && KnownNeeds(policy) && id in pg.items && i < |policy.requirements|
    ensures Depends(rq, pg, policy, id, policy.requirements[i]) <= ByKey(AllClaims(rq, pg, policy, order)).Keys
  {
    hide AllClaims, ByKey, Compiled, AcceptanceIds;
    RowsPresent(rq, pg, policy, order);
    forall d | d in Depends(rq, pg, policy, id, policy.requirements[i])
      ensures d in ByKey(AllClaims(rq, pg, policy, order))
    {
      if d in ItemRequirements(rq, pg.items[id]) {
        var ac :| ac in pg.items[id].acceptance && d == RequirementKey(rq.repository, rq.project, rq.spec, ac);
        RequirementsKnown(rq, pg, policy, order, ac);
      } else if need :| need in policy.requirements[i].needs && d == Obligation(rq, pg, policy, id, need) {
        assert need in PolicyIds(policy);
        var j :| 0 <= j < |policy.requirements| && policy.requirements[j].id == need;
      } else {
        var b :| b in pg.items[id].blockedBy && d in FinalObligations(rq, pg, policy, b);
      }
    }
  }

  lemma ClaimsFit(rq: Requirements, pg: Programme, policy: Policy, order: seq<string>, c: Claim)
    requires Items(pg, order) && Lists(order, pg.items.Keys) && Compiled(rq)
    requires Assigned(rq, pg.items) && (pg.items != map[] ==> KnownNeeds(policy))
    requires c in AllClaims(rq, pg, policy, order)
    ensures ClaimFits(c, Built(rq, pg, policy, order), ByKey(AllClaims(rq, pg, policy, order)).Keys, PolicyIds(policy))
  {
    hide AllClaims, ByKey, Depends, Assigned;
    AllClaimsMembers(rq, pg, policy, order, c);
    if c in rq.claims {
      var i :| 0 <= i < |rq.claims| && rq.claims[i] == c;
      assert c == RequirementOf(rq, rq.claims[i].acceptance[0]);
    } else {
      var id, i: nat :| id in order && IsObligation(rq, pg, policy, c, id, i);
      DependsKnown(rq, pg, policy, order, id, i);
      assert policy.requirements[i].id in PolicyIds(policy);
    }
  }

  lemma EdgesFit(rq: Requirements, pg: Programme, policy: Policy, order: seq<string>)
    requires Items(pg, order) && Lists(order, pg.items.Keys) && Compiled(rq)
    requires Assigned(rq, pg.items) && (pg.items != map[] ==> KnownNeeds(policy))
    ensures EdgesKnown(Built(rq, pg, policy, order), ByKey(AllClaims(rq, pg, policy, order)).Keys)
  {
    hide AllClaims, ByKey, Assigned, Compiled;
    RowsPresent(rq, pg, policy, order);
    forall e | e in AllEdges(rq, pg, policy)
      ensures e.source in ByKey(AllClaims(rq, pg, policy, order)) && e.target in ByKey(AllClaims(rq, pg, policy, order))
    {
      var id, i: nat :| id in pg.items && i < |policy.requirements|
                        && e in OwnEdges(rq, pg, policy, id, policy.requirements[i])
                                + WaitEdges(rq, pg, policy, id, policy.requirements[i]);
      DependsKnown(rq, pg, policy, order, id, i);
    }
  }

  lemma BuiltCovered(rq: Requirements, pg: Programme, policy: Policy, order: seq<string>)
    requires Items(pg, order) && Compiled(rq) && Assigned(rq, pg.items) && policy.requirements != []
    ensures Covered(Built(rq, pg, policy, order))
  {
    hide AllClaims;
    var cs := Built(rq, pg, policy, order);
    forall c | c in cs.claims && c.kind == Requirement
      ensures exists e :: e in cs.edges && e.relation == SupportedBy && e.source == c.key
    {
      AllClaimsMembers(rq, pg, policy, order, c);
      var i :| 0 <= i < |rq.claims| && rq.claims[i] == c;
      assert c == RequirementOf(rq, rq.claims[i].acceptance[0]);
      var ac := c.acceptance[0];
      assert ac in AcceptanceIds(rq);
      var id :| id in pg.items && ac in pg.items[id].acceptance;
      var e := Edge(SupportedBy, c.key, Obligation(rq, pg, policy, id, policy.requirements[0].id));
      assert c.key in ItemRequirements(rq, pg.items[id]);
      assert e in OwnEdges(rq, pg, policy, id, policy.requirements[0])
             + WaitEdges(rq, pg, policy, id, policy.requirements[0]);
    }
  }

  /** The validator behind the compiler can refuse only for the policy's own sake. */
  lemma CompiledSetIsValid(rq: Requirements, pg: Programme, strategy: Option<Strategy>, policy: Policy,
                           order: seq<string>)
    requires Compiled(rq) && Admissible(rq, pg, strategy, policy) && Lists(order, pg.items.Keys)
    ensures Items(pg, order)
    ensures ValidClaimSet(Built(rq, pg, policy, order), policy) <==> (pg.items == map[] || PolicyOrdered(policy))
  {
    hide AllClaims, ByKey, Compiled, Assigned, Acyclic, ClaimFits, EdgesKnown, Covered, Shape, DistinctIds,
         DistinctKeys, PolicyGraph;
    assert Items(pg, order);
    var cs := Built(rq, pg, policy, order);
    var g := DependencyGraph(ByKey(cs.claims));
    forall c | c in cs.claims
      ensures ClaimFits(c, cs, ByKey(cs.claims).Keys, PolicyIds(policy))
    {
      ClaimsFit(rq, pg, policy, order, c);
    }
    EdgesFit(rq, pg, policy, order);
    BuiltCovered(rq, pg, policy, order);
    if pg.items == map[] {
      NoItems(rq, pg, policy, order);
    } else {
      var id :| id in pg.items;
      assert order != [] by { assert id in order; }
      if !DistinctIds(policy) {
        RepeatedIdRepeatsKey(rq, pg, policy, order);
      } else {
        AllClaimsDistinct(rq, pg, policy, order);
        BuiltShape(rq, pg, policy, order);
        if Acyclic(PolicyGraph(policy)) {
          PolicyAcyclicThenGraph(rq, pg, policy, g);
        }
        if Acyclic(g) {
          GraphAcyclicThenPolicy(rq, pg, policy, g, id);
        }
      }
    }
  }

  lemma HasMember(order: seq<string>)
    ensures order == [] || exists id :: id in order
  {
    assert order == [] || order[0] in order;
  }

  /** Without items nothing can be unowned, so nothing is compiled. */
  lemma NoItems(rq: Requirements, pg: Programme, policy: Policy, order: seq<string>)
    requires Compiled(rq) && Assigned(rq, pg.items) && pg.items == map[] && Lists(order, pg.items.Keys)
             && Items(pg, order)
    ensures AllClaims(rq, pg, policy, order) == []
    ensures DistinctKeys(AllClaims(rq, pg, policy, order))
    ensures Acyclic(DependencyGraph(ByKey(AllClaims(rq, pg, policy, order))))
  {
    HasMember(order);
    assert order == [];
    assert |rq.claims| > 0 ==> rq.claims[0].acceptance[0] in AcceptanceIds(rq);
    CycleIffReturningEdge(DependencyGraph(ByKey(AllClaims(rq, pg, policy, order))));
  }

  // ---- the compiler ----------------------------------------------------------------------------

  /** Some listing of a finite set; the original sorts, and nothing below depends on which. */
  method Listing(s: set<string>) returns (order: seq<string>)
    ensures Lists(order, s)
  {
    order := [];
    var rest := s;
    while rest != {}
      invariant rest <= s && Lists(order, s - rest)
      decreases rest
    {
      var x :| x in rest;
      order := order + [x];
      rest := rest - {x};
    }
  }

  /** Ownership as read so far: `owners` names, for each criterion met, the item listing it. */
  ghost predicate Owning(items: map<string, Item>, order: seq<string>, n: nat, owners: map<string, string>)
    requires n <= |order| && forall id :: id in order ==> id in items
  {
    && (forall ac :: ac in owners ==> exists m ::
          0 <= m < n && owners[ac] == order[m] && ac in items[order[m]].acceptance)
    && (forall m, ac :: 0 <= m < n && ac in items[order[m]].acceptance ==> ac in owners && owners[ac] == order[m])
  }

  ghost predicate ItemFits(rq: Requirements, items: map<string, Item>, id: string)
    requires id in items
  {
    && items[id].acceptance != [] && items[id].blockedBy <= items.Keys
    && (forall i :: 0 <= i < |items[id].acceptance| ==> items[id].acceptance[i] in AcceptanceIds(rq))
    && (forall i, j :: 0 <= i < j < |items[id].acceptance| ==> items[id].acceptance[i] != items[id].acceptance[j])
  }

  lemma AssignedIff(rq: Requirements, items: map<string, Item>, order: seq<string>, owners: map<string, string>)
    requires Lists(order, items.Keys) && Owning(items, order, |order|, owners)
    requires forall id :: id in items ==> ItemFits(rq, items, id)
    ensures Assigned(rq, items) <==> AcceptanceIds(rq) <= owners.Keys
  {
    OwnersOwn(items, order, owners);
    hide Owning, Lists, AcceptanceIds;
    if Assigned(rq, items) {
      forall ac | ac in AcceptanceIds(rq)
        ensures ac in owners
      {
        var id :| id in items && ac in items[id].acceptance;
      }
    }
    if AcceptanceIds(rq) <= owners.Keys {
      forall ac | ac in AcceptanceIds(rq)
        ensures exists id :: id in items && ac in items[id].acceptance
      {
        assert owners[ac] in items && ac in items[owners[ac]].acceptance;
      }
      assert forall id :: id in items ==> ItemFits(rq, items, id);
    }
  }

  /** What was read of the whole list: each criterion listed has its item as owner, and no other. */
  lemma OwnersOwn(items: map<string, Item>, order: seq<string>, owners: map<string, string>)
    requires Lists(order, items.Keys) && Owning(items, order, |order|, owners)
    ensures forall id, ac :: id in items && ac in items[id].acceptance ==> ac in owners && owners[ac] == id
    ensures forall ac :: ac in owners ==> owners[ac] in items && ac in items[owners[ac]].acceptance
  {
    forall id, ac | id in items && ac in items[id].acceptance
      ensures ac in owners && owners[ac] == id
    {
      var m :| 0 <= m < |order| && order[m] == id;
    }
  }

  lemma OwnedTwiceRefutes(rq: Requirements, items: map<string, Item>, id: string, i: nat, other: string, k: nat)
    requires id in items && other in items
    requires i < |items[id].acceptance| && k < |items[other].acceptance|
    requires items[id].acceptance[i] == items[other].acceptance[k] && (id != other || i != k)
    ensures !Assigned(rq, items)
  {
    if id == other {
      assert !(i < k) || items[id].acceptance[i] == items[id].acceptance[k];
    } else {
      assert items[id].acceptance[i] in items[id].acceptance && items[id].acceptance[i] in items[other].acceptance;
    }
  }

  lemma UnfitRefutes(rq: Requirements, items: map<string, Item>, id: string)
    requires id in items && !ItemFits(rq, items, id)
    ensures !Assigned(rq, items)
  {
  }

  /** `owners` is `before` with the listed criteria given to `id`. */
  ghost predicate Owns(before: map<string, string>, owners: map<string, string>, listed: seq<string>, id: string) {
    && (forall ac :: ac in owners <==> ac in before || ac in listed)
    && (forall ac :: ac in owners ==> owners[ac] == if ac in before then before[ac] else id)
  }

  lemma OwnsOne(before: map<string, string>, owners: map<string, string>, listed: seq<string>, id: string, ac: string)
    requires Owns(before, owners, listed, id) && ac !in owners
    ensures Owns(before, owners[ac := id], listed + [ac], id) && ac !in before && ac !in listed
  {
  }

  /** The listed criteria are approved, new to the owners, and listed once. */
  ghost predicate Unowned(rq: Requirements, before: map<string, string>, listed: seq<string>) {
    && (forall k :: 0 <= k < |listed| ==> listed[k] in AcceptanceIds(rq) && listed[k] !in before)
    && (forall k, l :: 0 <= k < l < |listed| ==> listed[k] != listed[l])
  }

  lemma UnownedOne(rq: Requirements, before: map<string, string>, listed: seq<string>, ac: string)
    requires Unowned(rq, before, listed) && ac in AcceptanceIds(rq) && ac !in before && ac !in listed
    ensures Unowned(rq, before, listed + [ac])
  {
    hide AcceptanceIds;
  }

  lemma AlreadyOwned(rq: Requirements, items: map<string, Item>, id: string, i: nat, before: map<string, string>,
                     owners: map<string, string>)
    requires id in items && i < |items[id].acceptance| && items[id].acceptance[i] in owners
    requires forall ac :: ac in before ==> before[ac] in items && ac in items[before[ac]].acceptance && before[ac] != id
    requires Owns(before, owners, items[id].acceptance[..i], id)
    ensures !Assigned(rq, items)
  {
    hide Assigned;
    var ac := items[id].acceptance[i];
    var k :| 0 <= k < |items[owners[ac]].acceptance| && items[owners[ac]].acceptance[k] == ac
      && (owners[ac] == id ==> k < i);
    OwnedTwiceRefutes(rq, items, id, i, owners[ac], k);
  }

  /** One item's criteria: `None` and the grown owner map when they are approved, listed once
      and not owned yet. */
  method ClaimCriteria(rq: Requirements, items: map<string, Item>, id: string, before: map<string, string>)
    returns (why: Option<Refusal>, owners: map<string, string>)
    requires id in items
    requires forall ac :: ac in before ==> before[ac] in items && ac in items[before[ac]].acceptance && before[ac] != id
    ensures why.Some? ==> !Assigned(rq, items)
    ensures why.None? ==> ItemFits(rq, items, id)
    ensures why.None? ==> forall ac :: ac in owners <==> ac in before || ac in items[id].acceptance
    ensures why.None? ==> forall ac :: ac in owners ==> owners[ac] == if ac in before then before[ac] else id
    ensures why.None? ==> forall ac :: ac in items[id].acceptance ==> ac !in before
  {
    hide Assigned, AcceptanceIds;
    owners := before;
    var item := items[id];
    if item.acceptance == [] {
      UnfitRefutes(rq, items, id);
      return Some(OrphanWork), owners;
    }
    owners, why := ClaimEach(rq, items, id, before);
    if why.Some? {
      return;
    }
    if !(item.blockedBy <= items.Keys) {
      UnfitRefutes(rq, items, id);
      return Some(UnknownBlocker), owners;
    }
  }

  /** The loop over an item's criteria. */
  method ClaimEach(rq: Requirements, items: map<string, Item>, id: string, before: map<string, string>)
    returns (owners: map<string, string>, why: Option<Refusal>)
    requires id in items
    requires forall ac :: ac in before ==> before[ac] in items && ac in items[before[ac]].acceptance && before[ac] != id
    ensures why.Some? ==> !Assigned(rq, items)
    ensures why.None? ==> Unowned(rq, before, items[id].acceptance) && Owns(before, owners, items[id].acceptance, id)
  {
    hide Assigned, AcceptanceIds, Owns, Unowned;
    var acceptance := items[id].acceptance;
    owners := before;
    assert Owns(before, owners, acceptance[..0], id)
           && Unowned(rq, before, acceptance[..0]) by { NothingOwned(rq, before, id); }
    for i := 0 to |acceptance|
      invariant Unowned(rq, before, acceptance[..i]) && Owns(before, owners, acceptance[..i], id)
    {
      var ac := acceptance[i];
      if ac !in AcceptanceIds(rq) {
        OutsideRefutes(rq, items, id, i);
        return owners, Some(OutsideSpec);
      }
      if ac in owners {
        AlreadyOwned(rq, items, id, i, before, owners);
        return owners, Some(OwnedTwice);
      }
      OwnsOne(before, owners, acceptance[..i], id, ac);
      UnownedOne(rq, before, acceptance[..i], ac);
      owners := owners[ac := id];
      assert acceptance[..i + 1] == acceptance[..i] + [ac];
    }
    assert acceptance[..|acceptance|] == acceptance;
    why := None;
  }

  lemma OutsideRefutes(rq: Requirements, items: map<string, Item>, id: string, i: nat)
    requires id in items && i < |items[id].acceptance| && items[id].acceptance[i] !in AcceptanceIds(rq)
    ensures !Assigned(rq, items)
  {
    hide AcceptanceIds;
    UnfitRefutes(rq, items, id);
  }

  lemma NothingOwned(rq: Requirements, before: map<string, string>, id: string)
    ensures Owns(before, before, [], id) && Unowned(rq, before, [])
  {
  }

  /** The ownership pass over the items. */
  method CheckAssignment(rq: Requirements, items: map<string, Item>, order: seq<string>) returns (why: Option<Refusal>)
    requires Lists(order, items.Keys)
    ensures why.None? <==> Assigned(rq, items)
  {
    hide Assigned, ItemFits;
    var owners: map<string, string> := map[];
    for n := 0 to |order|
      invariant Owning(items, order, n, owners)
      invariant forall m :: 0 <= m < n ==> ItemFits(rq, items, order[m])
    {
      assert order[n] in items;
      ghost var before := owners;
      why, owners := ClaimCriteria(rq, items, order[n], owners);
      if why.Some? {
        return;
      }
      OwningGrows(items, order, n, before, owners);
    }
    forall id | id in items
      ensures ItemFits(rq, items, id)
    {
      var m :| 0 <= m < |order| && order[m] == id;
    }
    AssignedIff(rq, items, order, owners);
    if !(AcceptanceIds(rq) <= owners.Keys) {
      return Some(Unassigned);
    }
    why := None;
  }

  lemma OwningGrows(items: map<string, Item>, order: seq<string>, n: nat, before: map<string, string>,
                    owners: map<string, string>)
    requires n < |order| && Lists(order, items.Keys) && (forall id :: id in order ==> id in items)
    requires Owning(items, order, n, before)
    requires forall ac :: ac in owners <==> ac in before || ac in items[order[n]].acceptance
    requires forall ac :: ac in owners ==> owners[ac] == if ac in before then before[ac] else order[n]
    requires forall ac :: ac in items[order[n]].acceptance ==> ac !in before
    ensures Owning(items, order, n + 1, owners)
  {
    forall ac | ac in owners
      ensures exists m :: 0 <= m < n + 1 && owners[ac] == order[m] && ac in items[order[m]].acceptance
    {
      if ac in before {
        var m :| 0 <= m < n && before[ac] == order[m] && ac in items[order[m]].acceptance;
        assert 0 <= m < n + 1 && owners[ac] == order[m];
      } else {
        assert owners[ac] == order[n];
      }
    }
  }

  function OwnEdgesUpTo(rq: Requirements, pg: Programme, policy: Policy, id: string, i: nat): set<Edge>
    requires id in pg.items && i <= |policy.requirements|
  {
    if i == 0 then {}
    else OwnEdgesUpTo(rq, pg, policy, id, i - 1) + OwnEdges(rq, pg, policy, id, policy.requirements[i - 1])
  }

  function WaitEdgesUpTo(rq: Requirements, pg: Programme, policy: Policy, id: string, i: nat): set<Edge>
    requires id in pg.items && i <= |policy.requirements|
  {
    if i == 0 then {}
    else WaitEdgesUpTo(rq, pg, policy, id, i - 1) + WaitEdges(rq, pg, policy, id, policy.requirements[i - 1])
  }

  function OwnPass(rq: Requirements, pg: Programme, policy: Policy, order: seq<string>): set<Edge>
    requires Items(pg, order)
  {
    if order == [] then {}
    else OwnPass(rq, pg, policy, order[..|order| - 1])
         + OwnEdgesUpTo(rq, pg, policy, order[|order| - 1], |policy.requirements|)
  }

  function WaitPass(rq: Requirements, pg: Programme, policy: Policy, order: seq<string>): set<Edge>
    requires Items(pg, order)
  {
    if order == [] then {}
    else WaitPass(rq, pg, policy, order[..|order| - 1])
         + WaitEdgesUpTo(rq, pg, policy, order[|order| - 1], |policy.requirements|)
  }

  lemma {:induction false} UpToMembers(rq: Requirements, pg: Programme, policy: Policy, id: string, n: nat, e: Edge)
    requires id in pg.items && n <= |policy.requirements|
    ensures e in OwnEdgesUpTo(rq, pg, policy, id, n) <==>
            exists i :: 0 <= i < n && e in OwnEdges(rq, pg, policy, id, policy.requirements[i])
    ensures e in WaitEdgesUpTo(rq, pg, policy, id, n) <==>
            exists i :: 0 <= i < n && e in WaitEdges(rq, pg, policy, id, policy.requirements[i])
  {
    hide OwnEdges, WaitEdges;
    if n > 0 {
      UpToMembers(rq, pg, policy, id, n - 1, e);
    }
  }

  lemma {:induction false} OwnPassMembers(rq: Requirements, pg: Programme, policy: Policy, order: seq<string>, e: Edge)
    requires Items(pg, order)
    ensures e in OwnPass(rq, pg, policy, order) <==>
            exists k :: 0 <= k < |order| && e in OwnEdgesUpTo(rq, pg, policy, order[k], |policy.requirements|)
  {
    if order != [] {
      OwnPassMembers(rq, pg, policy, order[..|order| - 1], e);
    }
  }

  lemma {:induction false} WaitPassMembers(rq: Requirements, pg: Programme, policy: Policy, order: seq<string>, e: Edge)
    requires Items(pg, order)
    ensures e in WaitPass(rq, pg, policy, order) <==>
            exists k :: 0 <= k < |order| && e in WaitEdgesUpTo(rq, pg, policy, order[k], |policy.requirements|)
  {
    if order != [] {
      WaitPassMembers(rq, pg, policy, order[..|order| - 1], e);
    }
  }

  /** The two edge passes together produce the edges of every obligation, once each. */
  lemma PassesAreAllEdges(rq: Requirements, pg: Programme, policy: Policy, order: seq<string>)
    requires Items(pg, order) && Lists(order, pg.items.Keys)
    ensures OwnPass(rq, pg, policy, order) + WaitPass(rq, pg, policy, order) == AllEdges(rq, pg, policy)
  {
    hide OwnPass, WaitPass, AllEdges;
    forall e
      ensures e in OwnPass(rq, pg, policy, order) + WaitPass(rq, pg, policy, order) <==> e in AllEdges(rq, pg, policy)
    {
      EdgeInPasses(rq, pg, policy, order, e);
    }
  }

  lemma InAllEdges(rq: Requirements, pg: Programme, policy: Policy, id: string, i: nat, e: Edge)
    requires id in pg.items && i < |policy.requirements|
    requires e in OwnEdges(rq, pg, policy, id, policy.requirements[i])
             + WaitEdges(rq, pg, policy, id, policy.requirements[i])
    ensures e in AllEdges(rq, pg, policy)
  {
  }

  lemma EdgeInPasses(rq: Requirements, pg: Programme, policy: Policy, order: seq<string>, e: Edge)
    requires Items(pg, order) && Lists(order, pg.items.Keys)
    ensures e in OwnPass(rq, pg, policy, order) + WaitPass(rq, pg, policy, order) <==> e in AllEdges(rq, pg, policy)
  {
    hide OwnEdges, WaitEdges;
    var n := |policy.requirements|;
    OwnPassMembers(rq, pg, policy, order, e);
    WaitPassMembers(rq, pg, policy, order, e);
    if k :| 0 <= k < |order| && e in OwnEdgesUpTo(rq, pg, policy, order[k], n) {
      UpToMembers(rq, pg, policy, order[k], n, e);
      var i :| 0 <= i < n && e in OwnEdges(rq, pg, policy, order[k], policy.requirements[i]);
      InAllEdges(rq, pg, policy, order[k], i, e);
    }
    if k :| 0 <= k < |order| && e in WaitEdgesUpTo(rq, pg, policy, order[k], n) {
      UpToMembers(rq, pg, policy, order[k], n, e);
      var i :| 0 <= i < n && e in WaitEdges(rq, pg, policy, order[k], policy.requirements[i]);
      InAllEdges(rq, pg, policy, order[k], i, e);
    }
    if e in AllEdges(rq, pg, policy) {
      var id, i :| id in pg.items && 0 <= i < n
                   && e in OwnEdges(rq, pg, policy, id, policy.requirements[i])
                     + WaitEdges(rq, pg, policy, id, policy.requirements[i]);
      UpToMembers(rq, pg, policy, id, n, e);
      assert id in order;
      var k :| 0 <= k < |order| && order[k] == id;
      assert e in OwnEdgesUpTo(rq, pg, policy, order[k], n) || e in WaitEdgesUpTo(rq, pg, policy, order[k], n);
    }
  }

  /** The obligation pass: one claim per item and policy claim, refusing a requirement the
      policy does not name. */
  method ObligationPass(rq: Requirements, pg: Programme, policy: Policy, order: seq<string>)
    returns (r: Result<ClaimSet>)
    requires Items(pg, order)
    ensures r.Ok? <==> (order == [] || KnownNeeds(policy))
    ensures r.Ok? ==> r.value == ClaimSet(rq.repository, rq.project, rq.spec, pg.digest,
                                          AllClaims(rq, pg, policy, order), OwnPass(rq, pg, policy, order))
  {
    hide OwnEdges, ObligationClaim;
    var ids := PolicyIds(policy);
    var claims, edges := rq.claims, {};
    for n := 0 to |order|
      invariant claims == AllClaims(rq, pg, policy, order[..n]) && edges == OwnPass(rq, pg, policy, order[..n])
      invariant n > 0 ==> KnownNeeds(policy)
    {
      var id := order[n];
      assert order[..n + 1][..n] == order[..n];
      for i := 0 to |policy.requirements|
        invariant claims == AllClaims(rq, pg, policy, order[..n]) + ItemClaims(rq, pg, policy, id)[..i]
        invariant edges == OwnPass(rq, pg, policy, order[..n]) + OwnEdgesUpTo(rq, pg, policy, id, i)
        invariant forall j :: 0 <= j < i ==> policy.requirements[j].needs <= ids
      {
        var req := policy.requirements[i];
        if !(req.needs <= ids) {
          return Refused(UnknownRequired);
        }
        var row := ItemClaims(rq, pg, policy, id);
        assert row[..i + 1] == row[..i] + [row[i]];
        claims := claims + [ObligationClaim(rq, pg, policy, id, req)];
        edges := edges + OwnEdges(rq, pg, policy, id, req);
      }
    }
    assert order[..|order|] == order;
    r := Ok(ClaimSet(rq.repository, rq.project, rq.spec, pg.digest, claims, edges));
  }

  /** `bind_programme_claims`. From compiled requirements it accepts exactly the admissible
      inputs whose policy is ordered, and what it returns always passes the validator. */
  method Bind(rq: Requirements, pg: Programme, strategy: Option<Strategy>, policy: Policy) returns (r: Result<ClaimSet>)
    ensures Compiled(rq) ==>
      (r.Ok? <==> Admissible(rq, pg, strategy, policy) && (pg.items == map[] || PolicyOrdered(policy)))
    ensures r.Ok? ==> ValidClaimSet(r.value, policy)
    ensures r.Ok? ==> exists order ::
              Lists(order, pg.items.Keys) && Items(pg, order) && r.value == Built(rq, pg, policy, order)
  {
    hide Assigned, Acyclic, Compiled, AllClaims, OwnPass, AllEdges, ValidClaimSet, PolicyOrdered, WaitEdges,
         KnownNeeds, BlockerGraph;
    if pg.spec != rq.spec {
      return Refused(OtherSpec);
    }
    var order := Listing(pg.items.Keys);
    assert Items(pg, order);
    var why := CheckAssignment(rq, pg.items, order);
    if why.Some? {
      return Refused(why.value);
    }
    BlockersOwn(rq, pg.items);
    var verdict := CheckAcyclic(BlockerGraph(pg.items));
    if verdict.Cycle? {
      return Refused(ProgrammeCycle);
    }
    if strategy.Some? {
      if strategy.value.spec != rq.spec {
        return Refused(StrategyOtherSpec);
      }
      if !strategy.value.unproven || strategy.value.proofReuse {
        return Refused(StrategyCertifiesItself);
      }
    }
    if policy.requirements == [] {
      return Refused(NoObligations);
    }
    ListsEmpty(order, pg.items);
    r := ObligationPass(rq, pg, policy, order);
    if r.Refused? {
      return;
    }
    var edges := r.value.edges;
    for n := 0 to |order|
      invariant edges == OwnPass(rq, pg, policy, order) + WaitPass(rq, pg, policy, order[..n])
    {
      ghost var start := edges;
      for i := 0 to |policy.requirements|
        invariant edges == start + WaitEdgesUpTo(rq, pg, policy, order[n], i)
      {
        edges := edges + WaitEdges(rq, pg, policy, order[n], policy.requirements[i]);
      }
      WaitPassGrows(rq, pg, policy, order, n);
    }
    assert order[..|order|] == order;
    PassesAreAllEdges(rq, pg, policy, order);
    var cs := r.value.(edges := edges);
    assert cs == Built(rq, pg, policy, order);
    var checked := Validate(cs, policy);
    if Compiled(rq) {
      CompiledSetIsValid(rq, pg, strategy, policy, order);
    }
    r := if checked.Ok? then Ok(cs) else Refused(checked.why);
  }

  lemma WaitPassGrows(rq: Requirements, pg: Programme, policy: Policy, order: seq<string>, n: nat)
    requires Items(pg, order) && n < |order|
    ensures WaitPass(rq, pg, policy, order[..n + 1])
            == WaitPass(rq, pg, policy, order[..n]) + WaitEdgesUpTo(rq, pg, policy, order[n], |policy.requirements|)
  {
    assert order[..n + 1][..n] == order[..n];
  }

  lemma ListsEmpty(order: seq<string>, items: map<string, Item>)
    requires Lists(order, items.Keys)
    ensures order == [] <==> items == map[]
  {
    HasMember(order);
  }

  lemma BlockersOwn(rq: Requirements, items: map<string, Item>)
    requires Assigned(rq, items)
    ensures Own(BlockerGraph(items)) == BlockerGraph(items)
  {
    var g := BlockerGraph(items);
    forall id | id in g
      ensures Own(g)[id] == g[id]
    {
      assert g[id] <= g.Keys;
    }
  }

  // ---- policies as the loader produces them ------------------------------------------------------

  /** The loader's rule: each claim requires only claims listed before it, under distinct ids. */
  ghost predicate Loaded(policy: Policy) {
    && DistinctIds(policy)
    && forall i, need :: 0 <= i < |policy.requirements| && need in policy.requirements[i].needs ==>
         exists j :: 0 <= j < i && policy.requirements[j].id == need
  }

  lemma {:induction false} LoadedPathDescends(policy: Policy, p: seq<string>, i: nat, j: nat)
    requires Loaded(policy) && IsPath(PolicyGraph(policy), p) && i < |policy.requirements| && j < |policy.requirements|
    requires policy.requirements[i].id == p[0] && policy.requirements[j].id == p[|p| - 1]
    ensures j <= i && (|p| > 1 ==> j < i)
  {
    if |p| > 1 {
      var g, q := PolicyGraph(policy), p[1..];
      assert p[0 + 1] in Succ(g, p[0]);
      var m :| 0 <= m < |policy.requirements| && policy.requirements[m].id == p[0]
        && p[1] in policy.requirements[m].needs;
      assert m == i;
      var n :| 0 <= n < m && policy.requirements[n].id == p[1];
      forall k | 0 <= k < |q| - 1
        ensures q[k + 1] in Succ(g, q[k])
      {
        assert p[k + 1 + 1] in Succ(g, p[k + 1]);
      }
      LoadedPathDescends(policy, q, n, j);
    }
  }

  /** A loaded policy never makes the compiler's own validator refuse. */
  lemma LoadedIsOrdered(policy: Policy)
    requires Loaded(policy)
    ensures PolicyOrdered(policy) && KnownNeeds(policy)
  {
    if p :| IsCycle(PolicyGraph(policy), p) {
      assert p[0 + 1] in Succ(PolicyGraph(policy), p[0]);
      var i :| 0 <= i < |policy.requirements| && policy.requirements[i].id == p[0];
      LoadedPathDescends(policy, p, i, i);
    }
  }
}
