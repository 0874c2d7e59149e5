/** The invariant of the exploration state, and what keeps it: invalidation through the dependency
    closure, growth of the claim graph, and sessions replaced with their standing intact. */
module ExplorationInvariant {
  import opened Graphs
  import opened ExplorationRecords
  import opened ExplorationPolicy
  import opened Wrappers

  // ---- closures under changes of the claim graph -----------------------------------------------------------

  /** Same claims, same dependencies. */
  ghost predicate SameGraph(a: map<string, Claim>, b: map<string, Claim>) {
    a.Keys == b.Keys && forall k :: k in a ==> a[k].dependsOn == b[k].dependsOn
  }

  lemma SameSucc(a: map<string, Claim>, b: map<string, Claim>)
    requires SameGraph(a, b)
    ensures forall v :: Succ(DependentGraph(a), v) == Succ(DependentGraph(b), v)
  {
    var g, h := DependentGraph(a), DependentGraph(b);
    forall v
      ensures Succ(g, v) == Succ(h, v)
    {
      forall k
        ensures k in Succ(g, v) <==> k in Succ(h, v)
      {
        DependentSucc(a, v, k);
        DependentSucc(b, v, k);
      }
    }
  }

  lemma AffectedSameGraph(a: map<string, Claim>, b: map<string, Claim>, changed: set<string>)
    requires SameGraph(a, b)
    ensures Affected(a, changed) == Affected(b, changed)
  {
    SameSucc(a, b);
    forall x
      ensures x in Affected(a, changed) <==> x in Affected(b, changed)
    {
      AffectedIsClosure(a, changed, x);
      AffectedIsClosure(b, changed, x);
      var g, h := DependentGraph(a), DependentGraph(b);
      if c :| c in changed && Reach(g, c, x) { ReachMonotone(g, h, c, x); }
      if c :| c in changed && Reach(h, c, x) { ReachMonotone(h, g, c, x); }
    }
  }

  ghost predicate ClosedClaims(claims: map<string, Claim>) {
    forall k :: k in claims ==> claims[k].dependsOn <= claims.Keys
  }

  /** `b` keeps every claim of `a` and adds others. */
  ghost predicate Grows(a: map<string, Claim>, b: map<string, Claim>) {
    a.Keys <= b.Keys && forall k :: k in a ==> b[k] == a[k]
  }

  /** A walk along dependents that ends at an old claim has only met old claims. */
  lemma {:induction false} WalkStaysOld(a: map<string, Claim>, b: map<string, Claim>, p: seq<string>)
    requires Grows(a, b) && ClosedClaims(a) && IsPath(DependentGraph(b), p) && p[|p| - 1] in a
    ensures Reach(DependentGraph(a), p[0], p[|p| - 1]) && p[0] in a
    decreases |p|
  {
    var g, h := DependentGraph(a), DependentGraph(b);
    var last := p[|p| - 1];
    ReachRefl(g, last);
    if |p| > 1 {
      var q := p[..|p| - 1];
      var d := p[|p| - 2];
      assert p[|p| - 2 + 1] in Succ(h, d);
      DependentSucc(b, d, last);
      DependentSucc(a, d, last);
      forall i | 0 <= i < |q| - 1
        ensures q[i + 1] in Succ(h, q[i])
      {
        assert p[i + 1] in Succ(h, p[i]);
      }
      WalkStaysOld(a, b, q);
      ReachEdge(g, d, last);
      ReachTrans(g, p[0], d, last);
    }
  }

  /** New claims leave the closure over the old ones as it was. */
  lemma AffectedGrows(a: map<string, Claim>, b: map<string, Claim>, changed: set<string>, x: string)
    requires Grows(a, b) && ClosedClaims(a) && x in a
    ensures x in Affected(b, changed) <==> x in Affected(a, changed)
  {
    AffectedIsClosure(a, changed, x);
    AffectedIsClosure(b, changed, x);
    var g, h := DependentGraph(a), DependentGraph(b);
    if c :| c in changed && Reach(h, c, x) {
      var p :| PathFromTo(h, p, c, x);
      WalkStaysOld(a, b, p);
    }
    if c :| c in changed && Reach(g, c, x) {
      forall v
        ensures Succ(g, v) <= Succ(h, v)
      {
        forall k | k in Succ(g, v)
          ensures k in Succ(h, v)
        {
          DependentSucc(a, v, k);
          DependentSucc(b, v, k);
        }
      }
      ReachMonotone(g, h, c, x);
    }
  }

  /** No chain of dependencies returns to where it started. */
  ghost predicate Ordered(claims: map<string, Claim>) {
    Acyclic(DependentGraph(claims))
  }

  lemma OrderedSameGraph(a: map<string, Claim>, b: map<string, Claim>)
    requires SameGraph(a, b) && Ordered(a)
    ensures Ordered(b)
  {
    var g, h := DependentGraph(a), DependentGraph(b);
    CycleIffReturningEdge(g);
    CycleIffReturningEdge(h);
    SameSucc(a, b);
    forall v, w | w in Succ(h, v)
      ensures !Reach(h, w, v)
    {
      if Reach(h, w, v) { ReachMonotone(h, g, w, v); }
    }
  }

  /** Claims that depend only on what was there before close no cycle. */
  lemma OrderedGrows(a: map<string, Claim>, b: map<string, Claim>)
    requires Grows(a, b) && ClosedClaims(a) && Ordered(a)
    requires forall k :: k in b && k !in a ==> b[k].dependsOn <= a.Keys
    ensures Ordered(b)
  {
    var g, h := DependentGraph(a), DependentGraph(b);
    CycleIffReturningEdge(g);
    CycleIffReturningEdge(h);
    forall v, w | w in Succ(h, v)
      ensures !Reach(h, w, v)
    {
      DependentSucc(b, v, w);
      DependentSucc(a, v, w);
      if Reach(h, w, v) {
        var p :| PathFromTo(h, p, w, v);
        WalkStaysOld(a, b, p);
      }
    }
  }

  // ---- the invariant ---------------------------------------------------------------------------------------

  /** The closure of everything invalidated. */
  function Tainted(claims: map<string, Claim>): set<string> {
    Affected(claims, Having(claims, Invalidated))
  }

  ghost predicate Clear(claims: map<string, Claim>, session: Session) {
    session.status == SessionStatus.Recommended ==>
      session.recommendations != [] && Tainted(claims) !! Members(Last(session.recommendations).claimIds)
  }

  /** A session's candidates have distinct ids, and all it holds names recorded claims. */
  ghost predicate Named(claims: map<string, Claim>, session: Session) {
    && NoRepeats(Ids(session.candidates))
    && (forall c :: c in session.candidates ==> Members(c.claimIds) <= claims.Keys)
    && (forall r :: r in session.recommendations ==> Members(r.claimIds) <= claims.Keys)
    && (forall id, t :: id in session.reservations && t in session.reservations[id].targets && t.falsifies.Some? ==>
          t.falsifies.value in claims)
  }

  ghost predicate SessionOk(s: State, session: Session) {
    && FullyValued(session) && Named(s.claims, session) && Clear(s.claims, session)
    && session.spec in s.budgets
  }

  ghost predicate WithinLimits(b: Budget) {
    b.calls <= b.limits.calls && 0.0 <= b.usd <= b.limits.usd && b.units <= b.limits.units
  }

  ghost predicate Inv(s: State) {
    && ClosedClaims(s.claims)
    && (forall k :: k in s.sessions ==> SessionOk(s, s.sessions[k]))
    && (forall spec :: spec in s.budgets ==> WithinLimits(s.budgets[spec]))
  }

  // ---- invalidation keeps it -------------------------------------------------------------------------------

  lemma SetClaimTaints(claims: map<string, Claim>, id: string, status: ClaimStatus)
    requires id in claims && status != Active && (claims[id].status == Invalidated ==> status == Invalidated)
    ensures var after := claims[id := claims[id].(status := status)];
            Tainted(after) == Tainted(claims) + (if status == Invalidated then Affected(after, {id}) else {})
  {
    var after := claims[id := claims[id].(status := status)];
    var before := Having(claims, Invalidated);
    AffectedSameGraph(claims, after, before);
    if status == Invalidated {
      assert Having(after, Invalidated) == before + {id};
      AffectedUnion(after, before, {id});
    } else {
      assert Having(after, Invalidated) == before;
    }
  }

  lemma SetClaimKeeps(s: State, id: string, status: ClaimStatus)
    requires Inv(s) && id in s.claims && status != Active
             && (s.claims[id].status == Invalidated ==> status == Invalidated)
    ensures Inv(SetClaim(s, id, status))
  {
    hide Affected, FullyValued;
    var t := SetClaim(s, id, status);
    SetClaimTaints(s.claims, id, status);
    forall k | k in t.sessions
      ensures SessionOk(t, t.sessions[k])
    {
      assert SessionOk(s, s.sessions[k]);
      ShakenClear(s.claims, t.claims, s.sessions[k], Affected(t.claims, {id}), status);
    }
  }

  lemma ShakenClear(before: map<string, Claim>, after: map<string, Claim>, session: Session, affected: set<string>,
                    status: ClaimStatus)
    requires FullyValued(session) && Named(before, session) && Clear(before, session) && before.Keys == after.Keys
    requires Tainted(after) == Tainted(before) + affected || Tainted(after) == Tainted(before)
    ensures FullyValued(Shaken(session, affected, status)) && Named(after, Shaken(session, affected, status))
    ensures Clear(after, Shaken(session, affected, status))
  {
    hide Tainted;
    if session.recommendations != [] {
      NoCommon(affected, Members(Last(session.recommendations).claimIds));
    }
  }

  lemma {:induction false} InvalidateAllKeeps(s: State, ids: seq<string>)
    requires Inv(s) && forall id :: id in ids ==> id in s.claims
    ensures Inv(InvalidateAll(s, ids))
  {
    if ids != [] {
      InvalidateAllKeeps(s, ids[..|ids| - 1]);
      SetClaimKeeps(InvalidateAll(s, ids[..|ids| - 1]), Last(ids), Invalidated);
    }
  }

  // ---- replacing a session keeps it ------------------------------------------------------------------------

  lemma InvGivesValues(s: State)
    requires Inv(s)
    ensures forall k :: k in s.sessions ==> FullyValued(s.sessions[k])
  {
    forall k | k in s.sessions
      ensures FullyValued(s.sessions[k])
    {
      assert SessionOk(s, s.sessions[k]);
    }
  }

  /** One session replaced, claims and budget scopes kept. */
  lemma SessionReplaced(s: State, k: string, session: Session, budgets: map<string, Budget>)
    requires Inv(s) && s.budgets.Keys <= budgets.Keys && forall spec :: spec in budgets ==> WithinLimits(budgets[spec])
    requires FullyValued(session) && Named(s.claims, session) && Clear(s.claims, session) && session.spec in budgets
    ensures Inv(WithSession(s, k, session).(budgets := budgets))
  {
    hide FullyValued, Named, Clear, WithinLimits;
    var t := WithSession(s, k, session).(budgets := budgets);
    forall j | j in t.sessions
      ensures SessionOk(t, t.sessions[j])
    {
      if j != k { assert SessionOk(s, s.sessions[j]); }
    }
  }

  // ---- adding claims keeps it ------------------------------------------------------------------------------

  lemma LastIsFresh(claims: map<string, Claim>, mid: map<string, Claim>, after: map<string, Claim>, last: NewClaim,
                    spec: string)
    requires last.id !in mid && after == mid[last.id := Claim(Members(last.dependsOn), Active, spec)]
    requires ClosedClaims(mid) && Members(last.dependsOn) <= mid.Keys && Grows(claims, mid)
    ensures ClosedClaims(after) && Grows(claims, after) && Having(after, Invalidated) == Having(mid, Invalidated)
  {
  }

  /** A session keeps its standing when claims are added beside the ones it names. */
  lemma SessionSurvivesGrowth(s: State, claims: map<string, Claim>, session: Session)
    requires ClosedClaims(s.claims) && Grows(s.claims, claims)
             && Having(claims, Invalidated) == Having(s.claims, Invalidated)
    requires SessionOk(s, session)
    ensures SessionOk(s.(claims := claims), session)
  {
    hide FullyValued, Having;
    if session.status == SessionStatus.Recommended {
      var ids := Members(Last(session.recommendations).claimIds);
      assert Last(session.recommendations) in session.recommendations;
      forall x | x in ids
        ensures x !in Tainted(claims)
      {
        AffectedGrows(s.claims, claims, Having(claims, Invalidated), x);
        assert x !in Tainted(s.claims);
      }
    }
  }

  lemma GrowthKeeps(s: State, claims: map<string, Claim>)
    requires Inv(s) && Grows(s.claims, claims) && ClosedClaims(claims)
    requires Having(claims, Invalidated) == Having(s.claims, Invalidated)
    ensures Inv(s.(claims := claims))
  {
    hide Having, Grows;
    var grown := s.(claims := claims);
    forall j | j in s.sessions
      ensures SessionOk(grown, s.sessions[j])
    {
      assert SessionOk(s, s.sessions[j]);
      SessionSurvivesGrowth(s, claims, s.sessions[j]);
    }
  }

  // ---- sessions that keep their standing -------------------------------------------------------------------

  lemma SameStanding(claims: map<string, Claim>, session: Session, later: Session)
    requires Clear(claims, session) && later.status == session.status
             && later.recommendations == session.recommendations
    ensures Clear(claims, later)
  {
  }

  lemma ReopenedIsClear(claims: map<string, Claim>, session: Session, later: Session)
    requires FullyValued(session) && FullyValued(later) && Named(claims, session) && later.status == Exploring
    requires later.candidates == session.candidates && later.recommendations == session.recommendations
    requires later.reservations == session.reservations
    ensures Named(claims, later) && Clear(claims, later)
  {
    hide FullyValued;
  }

  /** Reservations and observations bear on no standing. */
  lemma StatusKept(claims: map<string, Claim>, session: Session, later: Session)
    requires FullyValued(session) && Clear(claims, session)
    requires later.status == session.status && later.recommendations == session.recommendations
    requires later.candidates == session.candidates && later.assessments == session.assessments
             && later.policy == session.policy
    ensures FullyValued(later) && Clear(claims, later)
  {
  }

  lemma SettleKeeps(s: State, k: string, o: Observation)
    requires Inv(s) && Applies(s, Observed(k, o))
    ensures Inv(Settle(s, k, o))
  {
    hide FullyValued, Clear;
    var session := s.sessions[k];
    assert SessionOk(s, session);
    var r := session.reservations[o.reservation];
    var later := session.(reservations := session.reservations[o.reservation := r.(status := o.status)],
                          observations := session.observations + [o]);
    StatusKept(s.claims, session, later);
    var t := Settle(s, k, o);
    assert WithinLimits(s.budgets[session.spec]);
    assert Named(s.claims, later);
    SessionReplaced(s, k, later, t.budgets);
  }

  lemma SettleClaims(s: State, k: string, o: Observation)
    requires Applies(s, Observed(k, o))
    ensures Settle(s, k, o).claims == s.claims
  {
  }

  lemma ValuesKept(session: Session, later: Session)
    requires FullyValued(session)
    requires later.candidates == session.candidates && later.assessments == session.assessments
             && later.policy == session.policy
    ensures FullyValued(later)
  {
  }

  // ---- what never changes back -----------------------------------------------------------------------------

  /** Claims once recorded keep what they depend on, and invalidation is final. */
  ghost predicate Settled(a: map<string, Claim>, b: map<string, Claim>) {
    a.Keys <= b.Keys
    && forall k :: k in a ==> b[k].dependsOn == a[k].dependsOn && b[k].spec == a[k].spec
                              && (a[k].status == Invalidated ==> b[k].status == Invalidated)
  }

  lemma {:induction false} InvalidateAllSettles(s: State, ids: seq<string>)
    requires forall id :: id in ids ==> id in s.claims
    ensures Settled(s.claims, InvalidateAll(s, ids).claims)
  {
    if ids != [] {
      InvalidateAllSettles(s, ids[..|ids| - 1]);
    }
  }

  lemma {:induction false} InvalidateAllSameGraph(s: State, ids: seq<string>)
    requires forall id :: id in ids ==> id in s.claims
    ensures SameGraph(s.claims, InvalidateAll(s, ids).claims)
  {
    if ids != [] {
      InvalidateAllSameGraph(s, ids[..|ids| - 1]);
    }
  }

  lemma ObservedSettles(s: State, e: Event)
    requires e.Observed? && Applies(s, e)
    ensures Settled(s.claims, Apply(s, e).claims)
  {
    ContradictedKnown(s, e.session, e.observation);
    InvalidateAllSettles(Settle(s, e.session, e.observation), Contradicted(e.observation.sightings));
  }

  lemma EmptyInv()
    ensures Inv(EMPTY)
  {
  }
}
