/** The exploration log: what each recorded event does to sessions, claims and shared budgets,
    and how an invalidated claim reaches every recommendation that depends on it. */
module ExplorationRecords {
  import opened Graphs
  import opened Wrappers

  datatype ClaimStatus = Active | Challenged | Invalidated

  datatype Claim = Claim(dependsOn: set<string>, status: ClaimStatus, spec: string)

  datatype CriterionKind = Measurement | Judgment

  datatype Criterion = Criterion(id: string, kind: CriterionKind, unit: string, ceiling: Option<real>)

  datatype Limits = Limits(calls: nat, usd: real, units: nat)

  datatype Policy = Policy(criteria: seq<Criterion>, priorities: seq<string>, budget: Limits,
                           maxCandidates: nat, maxRounds: nat)

  datatype Assessed = Favourable | Mixed | Adverse | Unknown

  datatype Prediction = Forecast(low: real, high: real) | Judged(assessment: Assessed)

  type Predictions = map<string, Prediction>

  /** A retained strategy; `madeUnder` is the context its predictions were registered in. */
  datatype Candidate = Candidate(id: string, family: string, baseline: bool, claimIds: seq<string>,
                                 predictions: Predictions, probeStrategy: Option<string>, madeUnder: string)

  datatype ReservationStatus = Pending | Complete | Failed | Abandoned

  datatype Target = Target(candidate: string, criterion: string, metric: string, falsifies: Option<string>)

  datatype Reservation = Reservation(calls: nat, usd: real, units: nat, targets: seq<Target>,
                                     round: nat, context: string, status: ReservationStatus)

  datatype Measured = Measured(candidate: string, criterion: string, value: real)

  datatype Sighting = Sighting(claim: string, contradicted: bool)

  datatype Observation = Observation(reservation: string, status: ReservationStatus, round: nat, context: string,
                                     measurements: seq<Measured>, sightings: seq<Sighting>, reportedUsd: Option<real>)

  datatype Assessment = Assessment(round: nat, candidates: map<string, Predictions>)

  datatype Recommendation = Recommendation(candidate: string, claimIds: seq<string>, round: nat)

  datatype SessionStatus = Exploring | Recommended | ReconsiderationRequired | ChallengedSession

  datatype Session = Session(policy: Policy, context: string, spec: string, approvalVersion: nat,
                             candidates: seq<Candidate>, observations: seq<Observation>,
                             reservations: map<string, Reservation>, recommendations: seq<Recommendation>,
                             handoffs: seq<Recommendation>, assessments: seq<Assessment>,
                             round: nat, status: SessionStatus)

  datatype Budget = Budget(limits: Limits, calls: nat, usd: real, units: nat, uncertain: bool)

  datatype State = State(sessions: map<string, Session>, claims: map<string, Claim>, budgets: map<string, Budget>)

  const EMPTY := State(map[], map[], map[])

  datatype NewClaim = NewClaim(id: string, dependsOn: seq<string>, acceptance: seq<string>)

  datatype Event =
    | Opened(session: string, policy: Policy, context: string, spec: string, approvalVersion: nat)
    | CandidatesAdded(session: string, claims: seq<NewClaim>, candidates: seq<Candidate>)
    | Reserved(session: string, id: string, reservation: Reservation)
    | Observed(session: string, observation: Observation)
    | Recommends(session: string, recommendation: Recommendation)
    | Assesses(session: string, assessment: Assessment)
    | ClaimObserved(session: string, claim: string, status: ClaimStatus)
    | Reopened(session: string, context: string)
    | StrategyAssessed(session: string, invalidated: seq<string>)
    | FactoryFeedback(session: string, invalidated: seq<string>)
    | HandedOff(session: string, recommendation: Recommendation)
    /** Rejection rules, imported outcomes and adaptive-run rows: kept beside what is modelled. */
    | Noted(session: string)

  // ---- dependents ---------------------------------------------------------------------------------

  predicate NoRepeats(s: seq<string>) {
    forall i, j :: 0 <= i < j < |s| ==> s[i] != s[j]
  }

  function DirectDependents(claims: map<string, Claim>, changed: set<string>): set<string> {
    set k | k in claims && claims[k].dependsOn * changed != {}
  }

  /** The growing set of `affected_claims`. */
  function Affected(claims: map<string, Claim>, changed: set<string>): (r: set<string>)
    ensures changed <= r <= claims.Keys + changed
    decreases claims.Keys - changed
  {
    var enlarged := changed + DirectDependents(claims, changed);
    if enlarged == changed then changed else Affected(claims, enlarged)
  }

  /** `affected_claims` */
  method AffectedClaims(claims: map<string, Claim>, changed: set<string>) returns (affected: set<string>)
    ensures affected == Affected(claims, changed)
  {
    affected := changed;
    while true
      invariant Affected(claims, affected) == Affected(claims, changed)
      decreases claims.Keys - affected
    {
      var enlarged := affected + DirectDependents(claims, affected);
      if enlarged == affected {
        return;
      }
      affected := enlarged;
    }
  }

  function AllDependencies(claims: map<string, Claim>): set<string> {
    set k, x | k in claims && x in claims[k].dependsOn :: x
  }

  /** From each claim to the claims that name it as a dependency. */
  ghost function DependentGraph(claims: map<string, Claim>): Graph<string> {
    map d | d in AllDependencies(claims) ::
      set k | k in claims && d in claims[k].dependsOn
  }

  lemma DependentSucc(claims: map<string, Claim>, d: string, k: string)
    ensures k in Succ(DependentGraph(claims), d) <==> k in claims && d in claims[k].dependsOn
  {
  }

  ghost predicate ReachedFrom(claims: map<string, Claim>, changed: set<string>, x: string) {
    exists c :: c in changed && Reach(DependentGraph(claims), c, x)
  }

  /** The loop computes the dependency closure: everything reachable along dependents. */
  lemma {:induction false} AffectedIsClosure(claims: map<string, Claim>, changed: set<string>, x: string)
    ensures x in Affected(claims, changed) <==> ReachedFrom(claims, changed, x)
    decreases claims.Keys - changed
  {
    var g := DependentGraph(claims);
    var direct := DirectDependents(claims, changed);
    var enlarged := changed + direct;
    if enlarged == changed {
      forall d, k | d in changed && k in Succ(g, d)
        ensures k in changed
      {
        DependentSucc(claims, d, k);
        assert d in claims[k].dependsOn * changed;
        assert k in enlarged;
      }
      ReachRefl(g, x);
      if c :| c in changed && Reach(g, c, x) {
        ReachClosed(g, changed, c, x);
      }
    } else {
      AffectedIsClosure(claims, enlarged, x);
      if ReachedFrom(claims, enlarged, x) {
        var c :| c in enlarged && Reach(g, c, x);
        if c !in changed {
          var d :| d in claims[c].dependsOn * changed;
          DependentSucc(claims, d, c);
          ReachEdge(g, d, c);
          ReachTrans(g, d, c, x);
        }
      }
      if ReachedFrom(claims, changed, x) {
        var c :| c in changed && Reach(g, c, x);
        assert c in enlarged;
      }
    }
  }

  /** It is the least set that holds the changed claims and is closed under dependents. */
  lemma AffectedIsLeast(claims: map<string, Claim>, changed: set<string>, s: set<string>)
    requires changed <= s && DirectDependents(claims, s) <= s
    ensures Affected(claims, changed) <= s
    ensures DirectDependents(claims, Affected(claims, changed)) <= Affected(claims, changed)
  {
    var g, a := DependentGraph(claims), Affected(claims, changed);
    assert Closed(g, s) by {
      forall d, k | d in s && k in Succ(g, d)
        ensures k in s
      {
        DependentSucc(claims, d, k);
        assert d in claims[k].dependsOn * s;
        assert k in DirectDependents(claims, s);
      }
    }
    forall x | x in a
      ensures x in s
    {
      AffectedIsClosure(claims, changed, x);
      var c :| c in changed && Reach(g, c, x);
      ReachClosed(g, s, c, x);
    }
    forall k | k in DirectDependents(claims, a)
      ensures k in a
    {
      var d :| d in claims[k].dependsOn * a;
      AffectedIsClosure(claims, changed, d);
      var c :| c in changed && Reach(g, c, d);
      DependentSucc(claims, d, k);
      ReachEdge(g, d, k);
      ReachTrans(g, c, d, k);
      AffectedIsClosure(claims, changed, k);
    }
  }

  /** Closure distributes over union. */
  lemma AffectedUnion(claims: map<string, Claim>, a: set<string>, b: set<string>)
    ensures Affected(claims, a + b) == Affected(claims, a) + Affected(claims, b)
  {
    forall x
      ensures x in Affected(claims, a + b) <==> x in Affected(claims, a) + Affected(claims, b)
    {
      AffectedIsClosure(claims, a + b, x);
      AffectedIsClosure(claims, a, x);
      AffectedIsClosure(claims, b, x);
      if ReachedFrom(claims, a + b, x) {
        var c :| c in a + b && Reach(DependentGraph(claims), c, x);
        assert c in a || c in b;
      }
      if c :| c in a && Reach(DependentGraph(claims), c, x) {
        assert c in a + b;
      }
      if c :| c in b && Reach(DependentGraph(claims), c, x) {
        assert c in a + b;
      }
    }
  }

  // ---- what one event does ------------------------------------------------------------------------

  function Last<T>(s: seq<T>): T
    requires s != []
  {
    s[|s| - 1]
  }

  predicate Hit(session: Session, affected: set<string>) {
    session.recommendations != [] && affected * Members(Last(session.recommendations).claimIds) != {}
  }

  /** A recommendation resting on an affected claim leaves `recommended`. */
  function Shaken(session: Session, affected: set<string>, status: ClaimStatus): Session {
    if Hit(session, affected)
    then session.(status := if status == Invalidated then ReconsiderationRequired else ChallengedSession)
    else session
  }

  /** `invalidate_recommendations` after the claim's own status is set. */
  function SetClaim(s: State, id: string, status: ClaimStatus): State
    requires id in s.claims
  {
    var claims := s.claims[id := s.claims[id].(status := status)];
    var affected := Affected(claims, {id});
    s.(claims := claims, sessions := map k | k in s.sessions :: Shaken(s.sessions[k], affected, status))
  }

  /** The claim loops of `strategy-assessed` and `factory-feedback`. */
  function InvalidateAll(s: State, ids: seq<string>): (r: State)
    requires forall id :: id in ids ==> id in s.claims
    ensures r.claims.Keys == s.claims.Keys && r.sessions.Keys == s.sessions.Keys
  {
    if ids == [] then s
    else SetClaim(InvalidateAll(s, ids[..|ids| - 1]), Last(ids), Invalidated)
  }

  function Contradicted(sightings: seq<Sighting>): seq<string> {
    if sightings == [] then []
    else Contradicted(sightings[..|sightings| - 1])
         + (if Last(sightings).contradicted then [Last(sightings).claim] else [])
  }

  lemma {:induction false} ContradictedIn(sightings: seq<Sighting>, id: string)
    ensures id in Contradicted(sightings) <==> exists i :: 0 <= i < |sightings| && sightings[i] == Sighting(id, true)
  {
    if sightings != [] {
      ContradictedIn(sightings[..|sightings| - 1], id);
    }
  }

  function AddClaims(claims: map<string, Claim>, news: seq<NewClaim>, spec: string): map<string, Claim> {
    if news == [] then claims
    else AddClaims(claims, news[..|news| - 1], spec)
           [Last(news).id := Claim(Members(Last(news).dependsOn), Active, spec)]
  }

  function Restamped(candidates: seq<Candidate>, context: string): (r: seq<Candidate>)
    ensures |r| == |candidates|
  {
    seq(|candidates|, i requires 0 <= i < |candidates| => candidates[i].(madeUnder := context))
  }

  /** What the original's lookups need of the state for an event to be projected at all. */
  predicate Applies(s: State, e: Event) {
    match e
    case Opened(_, _, _, _, _) => true
    case Noted(_) => true
    case Reserved(k, _, _) => k in s.sessions && s.sessions[k].spec in s.budgets
    case Observed(k, o) =>
      && k in s.sessions && s.sessions[k].spec in s.budgets
      && o.reservation in s.sessions[k].reservations
      && forall i :: 0 <= i < |o.sightings| ==> o.sightings[i].claim in s.claims
    case ClaimObserved(_, c, _) => c in s.claims
    case StrategyAssessed(_, ids) => forall id :: id in ids ==> id in s.claims
    case FactoryFeedback(_, ids) => forall id :: id in ids ==> id in s.claims
    case _ => e.session in s.sessions
  }

  function WithSession(s: State, k: string, session: Session): State {
    s.(sessions := s.sessions[k := session])
  }

  function Spend(b: Budget, r: Reservation): Budget {
    b.(calls := b.calls + r.calls, usd := b.usd + r.usd, units := b.units + r.units)
  }

  function Settle(s: State, k: string, o: Observation): State
    requires Applies(s, Observed(k, o))
  {
    var session := s.sessions[k];
    var r := session.reservations[o.reservation];
    var settled := session.(reservations := session.reservations[o.reservation := r.(status := o.status)],
                            observations := session.observations + [o]);
    var unsure := r.calls > 0 && (o.reportedUsd.None? || o.reportedUsd.value > r.usd);
    var budgets := if unsure then s.budgets[session.spec := s.budgets[session.spec].(uncertain := true)] else s.budgets;
    WithSession(s, k, settled).(budgets := budgets)
  }

  lemma ContradictedKnown(s: State, k: string, o: Observation)
    requires Applies(s, Observed(k, o))
    ensures forall id :: id in Contradicted(o.sightings) ==> id in s.claims
  {
    forall id | id in Contradicted(o.sightings)
      ensures id in s.claims
    {
      ContradictedIn(o.sightings, id);
    }
  }

  /** One step of `projection`. */
  function Apply(s: State, e: Event): State
    requires Applies(s, e)
  {
    match e
    case Opened(k, policy, context, spec, version) =>
      WithSession(s, k, Session(policy, context, spec, version, [], [], map[], [], [], [], 1, Exploring))
      .(budgets := if spec in s.budgets then s.budgets
                   else s.budgets[spec := Budget(policy.budget, 0, 0.0, 0, false)])
    case CandidatesAdded(k, claims, candidates) =>
      var session := s.sessions[k];
      WithSession(s, k, session.(candidates := session.candidates + Restamped(candidates, session.context)))
      .(claims := AddClaims(s.claims, claims, session.spec))
    case Reserved(k, id, r) =>
      var session := s.sessions[k];
      WithSession(s, k, session.(reservations := session.reservations[id := r.(status := Pending)]))
      .(budgets := s.budgets[session.spec := Spend(s.budgets[session.spec], r)])
    case Observed(k, o) =>
      ContradictedKnown(s, k, o);
      InvalidateAll(Settle(s, k, o), Contradicted(o.sightings))
    case Recommends(k, r) =>
      var session := s.sessions[k];
      WithSession(s, k, session.(recommendations := session.recommendations + [r], status := Recommended))
    case Assesses(k, a) =>
      WithSession(s, k, s.sessions[k].(assessments := s.sessions[k].assessments + [a]))
    case ClaimObserved(_, c, status) => SetClaim(s, c, status)
    case Reopened(k, context) =>
      WithSession(s, k, s.sessions[k].(round := s.sessions[k].round + 1, status := Exploring, context := context))
    case StrategyAssessed(_, ids) => InvalidateAll(s, ids)
    case FactoryFeedback(_, ids) => InvalidateAll(s, ids)
    case Noted(_) => s
    case HandedOff(k, r) => WithSession(s, k, s.sessions[k].(handoffs := s.sessions[k].handoffs + [r]))
  }

  /** The fold of the log; none when a lookup of the original would fail. */
  function TryProject(events: seq<Event>): Option<State> {
    if events == [] then Some(EMPTY)
    else
      var before := TryProject(events[..|events| - 1]);
      if before.Some? && Applies(before.value, Last(events)) then Some(Apply(before.value, Last(events))) else None
  }

  predicate Projectable(events: seq<Event>) {
    TryProject(events).Some?
  }

  function Projection(events: seq<Event>): State
    requires Projectable(events)
  {
    TryProject(events).value
  }

  /** The sessions loop of `invalidate_recommendations`. */
  method InvalidateRecommendations(sessions: map<string, Session>, claims: map<string, Claim>, id: string,
                                   status: ClaimStatus)
    returns (r: map<string, Session>)
    ensures r == map k | k in sessions :: Shaken(sessions[k], Affected(claims, {id}), status)
  {
    var affected := AffectedClaims(claims, {id});
    r := sessions;
    var rest := sessions.Keys;
    while rest != {}
      invariant rest <= sessions.Keys == r.Keys
      invariant forall k :: k in sessions ==>
                  r[k] == if k in rest then sessions[k] else Shaken(sessions[k], affected, status)
      decreases rest
    {
      var k :| k in rest;
      if Hit(r[k], affected) {
        r := r[k := r[k].(status := if status == Invalidated then ReconsiderationRequired else ChallengedSession)];
      }
      rest := rest - {k};
    }
  }

  /** The claim loop shared by the three invalidating events. */
  method InvalidateEach(s: State, ids: seq<string>) returns (r: State)
    requires forall id :: id in ids ==> id in s.claims
    ensures r == InvalidateAll(s, ids)
  {
    r := s;
    for i := 0 to |ids|
      invariant r == InvalidateAll(s, ids[..i])
    {
      assert ids[..i + 1][..i] == ids[..i];
      assert ids[i] in r.claims;
      var claims := r.claims[ids[i] := r.claims[ids[i]].(status := Invalidated)];
      var sessions := InvalidateRecommendations(r.sessions, claims, ids[i], Invalidated);
      r := r.(claims := claims, sessions := sessions);
    }
    assert ids[..|ids|] == ids;
  }

  /** `projection`: the loop over the log, refusing nothing a recorded log can hold. */
  method Project(events: seq<Event>) returns (r: Option<State>)
    ensures r.Some? <==> Projectable(events)
    ensures r.Some? ==> r.value == Projection(events)
  {
    var s := EMPTY;
    for i := 0 to |events|
      invariant TryProject(events[..i]) == Some(s)
    {
      hide Apply, Applies;
      assert events[..i + 1][..i] == events[..i];
      var e := events[i];
      if !Applies(s, e) {
        PrefixProjectable(events, i + 1);
        return None;
      }
      s := Replay(s, e);
    }
    assert events[..|events|] == events;
    r := Some(s);
  }

  /** The body of the loop for one event. */
  method Replay(s: State, e: Event) returns (r: State)
    requires Applies(s, e)
    ensures r == Apply(s, e)
  {
    match e
    case Observed(k, o) =>
      ContradictedKnown(s, k, o);
      r := InvalidateEach(Settle(s, k, o), Contradicted(o.sightings));
    case ClaimObserved(_, c, status) =>
      var claims := s.claims[c := s.claims[c].(status := status)];
      var sessions := InvalidateRecommendations(s.sessions, claims, c, status);
      r := s.(claims := claims, sessions := sessions);
    case StrategyAssessed(_, ids) => r := InvalidateEach(s, ids);
    case FactoryFeedback(_, ids) => r := InvalidateEach(s, ids);
    case _ => r := Apply(s, e);
  }

  // ---- what one event may touch -------------------------------------------------------------------

  /** Nothing but the session's standing changed, and not to `recommended` or `exploring`. */
  predicate OnlyDemoted(a: Session, b: Session) {
    b == a || (b == a.(status := b.status) && b.status in {ReconsiderationRequired, ChallengedSession})
  }

  lemma {:induction false} InvalidateAllDemotes(s: State, ids: seq<string>, k: string)
    requires (forall id :: id in ids ==> id in s.claims) && k in s.sessions
    ensures OnlyDemoted(s.sessions[k], InvalidateAll(s, ids).sessions[k])
  {
    hide Affected;
    if ids != [] {
      InvalidateAllDemotes(s, ids[..|ids| - 1], k);
    }
  }

  /** One event reaches other sessions only by demoting them, loses no session, claim or budget, and
      in the budgets changes no limit, gives nothing back and forgets no doubt. */
  lemma ApplyReaches(s: State, e: Event, k: string, spec: string)
    requires Applies(s, e)
    ensures var t := Apply(s, e);
            && s.sessions.Keys <= t.sessions.Keys <= s.sessions.Keys + {e.session} && s.claims.Keys <= t.claims.Keys
            && (k in s.sessions && k != e.session ==> OnlyDemoted(s.sessions[k], t.sessions[k]))
            && (spec in s.budgets ==> spec in t.budgets && KeepsBudget(s.budgets[spec], t.budgets[spec], e))
  {
    hide Affected, Restamped, InvalidateAll, AddClaims, Contradicted, Hit;
    match e
    case Observed(id, o) =>
      ContradictedKnown(s, id, o);
      InvalidationReaches(Settle(s, id, o), Contradicted(o.sightings), k);
    case StrategyAssessed(_, ids) => InvalidationReaches(s, ids, k);
    case FactoryFeedback(_, ids) => InvalidationReaches(s, ids, k);
    case CandidatesAdded(_, news, _) => AddClaimsKeys(s.claims, news, s.sessions[e.session].spec);
    case _ =>
  }

  /** Only a reservation spends, and what it spends is what it reserved. */
  predicate KeepsBudget(a: Budget, b: Budget, e: Event) {
    && b.limits == a.limits && (a.uncertain ==> b.uncertain)
    && (b == a.(uncertain := b.uncertain) || (e.Reserved? && b == Spend(a, e.reservation)))
  }

  lemma InvalidationReaches(s: State, ids: seq<string>, k: string)
    requires forall id :: id in ids ==> id in s.claims
    ensures var t := InvalidateAll(s, ids);
            t.budgets == s.budgets && (k in s.sessions ==> OnlyDemoted(s.sessions[k], t.sessions[k]))
  {
    InvalidateAllBudgets(s, ids);
    if k in s.sessions {
      InvalidateAllDemotes(s, ids, k);
    }
  }

  lemma {:induction false} InvalidateAllBudgets(s: State, ids: seq<string>)
    requires forall id :: id in ids ==> id in s.claims
    ensures InvalidateAll(s, ids).budgets == s.budgets
  {
    hide Affected;
    if ids != [] {
      InvalidateAllBudgets(s, ids[..|ids| - 1]);
    }
  }

  lemma {:induction false} AddClaimsKeys(claims: map<string, Claim>, news: seq<NewClaim>, spec: string)
    ensures claims.Keys <= AddClaims(claims, news, spec).Keys
  {
    if news != [] {
      AddClaimsKeys(claims, news[..|news| - 1], spec);
    }
  }

  lemma {:induction false} PrefixProjectable(events: seq<Event>, n: nat)
    requires n <= |events|
    ensures Projectable(events) ==> Projectable(events[..n])
    decreases |events|
  {
    if n < |events| {
      PrefixProjectable(events[..|events| - 1], n);
      assert events[..|events| - 1][..n] == events[..n];
    } else {
      assert events[..n] == events;
    }
  }
}
