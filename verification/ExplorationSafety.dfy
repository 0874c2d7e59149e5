/** What every reachable exploration log keeps: a session that stands `recommended` rests on
    nothing that has been invalidated, directly or through dependencies; invalidation is final;
    recorded claims never change what they depend on; and no shared budget is overspent. */
module ExplorationSafety {
  import opened Graphs
  import opened ExplorationRecords
  import opened ExplorationPolicy
  import opened ExplorationInvariant
  import opened Exploration
  import opened Wrappers

  // ---- what a recorded event brings with it ----------------------------------------------------------------------

  /** What the transitions establish about the event they record, on the state before it. */
  ghost predicate Fits(s: State, e: Event) {
    match e
    case Opened(_, policy, _, _, _) => PolicyFits(policy)
    case CandidatesAdded(k, claims, candidates) =>
      k in s.sessions && exists acceptance :: AdditionFits(s, s.sessions[k], acceptance, claims, candidates)
    case Assesses(k, a) =>
      k in s.sessions && forall id :: id in a.candidates ==> PredictionsFit(s.sessions[k].policy, a.candidates[id])
    case Reserved(k, _, r) => k in s.sessions && Affordable(s, s.sessions[k].spec, r) && TargetsKnown(s.claims, r)
    case Observed(_, _) => Applies(s, e)
    case Recommends(k, r) =>
      k in s.sessions && Members(r.claimIds) <= s.claims.Keys && Members(r.claimIds) !! Tainted(s.claims)
    case ClaimObserved(_, c, status) => c in s.claims && status != Active && s.claims[c].status != Invalidated
    case StrategyAssessed(_, ids) => forall id :: id in ids ==> id in s.claims
    case FactoryFeedback(_, ids) => forall id :: id in ids ==> id in s.claims
    case Noted(_) => true
    case _ => e.session in s.sessions
  }

  ghost predicate Affordable(s: State, spec: string, r: Reservation) {
    spec in s.budgets && WithinLimits(Spend(s.budgets[spec], r))
  }

  ghost predicate TargetsKnown(claims: map<string, Claim>, r: Reservation) {
    forall t :: t in r.targets && t.falsifies.Some? ==> t.falsifies.value in claims
  }

  /** `e` is what the command records on a state that keeps the invariant. */
  ghost predicate Allowed(s: State, ap: Approval, context: string, cmd: Command, e: Event) {
    Inv(s) && (forall k :: k in s.sessions ==> FullyValued(s.sessions[k])) && Transition(s, ap, context, cmd) == Some(e)
  }

  lemma TargetsAreKnown(session: Session, claimIds: set<string>, ts: seq<Target>)
    requires TargetsFit(session, claimIds, ts)
    ensures forall t :: t in ts && t.falsifies.Some? ==> t.falsifies.value in claimIds
  {
    forall t | t in ts && t.falsifies.Some? ensures t.falsifies.value in claimIds {
      var i :| 0 <= i < |ts| && ts[i] == t;
      assert TargetFits(session, claimIds, ts[i]);
    }
  }

  /** What a probe saw names only claims its reservation was to falsify. */
  lemma SightingsAreKnown(s: State, session: Session, id: string, results: Option<seq<real>>)
    requires Named(s.claims, session) && id in session.reservations
    requires results.Some? ==> |results.value| == |session.reservations[id].targets|
    ensures var o := ProbeObservation(session, id, results);
            o.reservation == id && forall i :: 0 <= i < |o.sightings| ==> o.sightings[i].claim in s.claims
  {
    var o, ts := ProbeObservation(session, id, results), session.reservations[id].targets;
    forall i | 0 <= i < |o.sightings| ensures o.sightings[i].claim in s.claims {
      var j :| 0 <= j < |ts| && ts[j].falsifies == Some(o.sightings[i].claim);
      assert ts[j] in ts;
    }
  }

  /** The chosen candidate's claims are recorded and clear of everything invalidated. */
  lemma ChosenIsClear(claims: map<string, Claim>, session: Session)
    requires FullyValued(session) && Named(claims, session)
    ensures var r := Compare(claims, session);
            r.preferred.Some? ==>
              var chosen := CandidateAt(session.candidates, r.preferred.value);
              chosen.Some? ==>
                Members(chosen.value.claimIds) <= claims.Keys && Members(chosen.value.claimIds) !! Tainted(claims)
  {
    hide FullyValued, Affected, Compare;
    var r := Compare(claims, session);
    if r.preferred.Some? {
      var k := PreferredIsClear(claims, session);
      if CandidateAt(session.candidates, r.preferred.value).Some? {
        var chosen := CandidateAt(session.candidates, r.preferred.value).value;
        var i :| 0 <= i < |session.candidates| && session.candidates[i] == chosen;
        assert Ids(session.candidates)[i] == Ids(session.candidates)[k];
        assert i == k;
      }
    }
  }

  lemma ReservationFits(s: State, ap: Approval, context: string, cmd: Command, e: Event)
    requires Allowed(s, ap, context, cmd, e)
    ensures e.Reserved? ==> Fits(s, e)
  {
    hide FullyValued, Named, Clear, Tainted, TargetsFit, AdditionFits, PredictionsFit, Compare, ProbeObservation,
         CandidateAt, PolicyFits, Families, NoRepeats, WithinLimits;
    assert ap.spec in s.budgets ==> WithinLimits(s.budgets[ap.spec]);
    hide Inv, AnyPending, KnownClaims;
    match cmd
    case ReserveProbe(k, _, units, targets, claimIds) =>
      TargetsAreKnown(s.sessions[k], Members(claimIds), targets);
      StaysWithin(s, ap.spec, e.reservation);
    case ReserveReasoning(_, _, _) => StaysWithin(s, ap.spec, e.reservation);
    case _ =>
  }

  lemma ResultFits(s: State, ap: Approval, context: string, cmd: Command, e: Event)
    requires Allowed(s, ap, context, cmd, e)
    ensures e.Observed? ==> Fits(s, e)
  {
    hide FullyValued, Named, Clear, Tainted, TargetsFit, AdditionFits, PredictionsFit, Compare, ProbeObservation,
         CandidateAt, PolicyFits, Families, NoRepeats, WithinLimits, Affordable, TargetsKnown;
    assert cmd.session in s.sessions ==> SessionOk(s, s.sessions[cmd.session]);
    hide Inv, AnyPending, KnownClaims;
    match cmd
    case FinishProbe(k, id, results) => SightingsAreKnown(s, s.sessions[k], id, results);
    case FinishReasoning(_, _, _, _) => assert e.observation.sightings == [];
    case Abandon(_, _) => assert e.observation.sightings == [];
    case _ => assert !e.Observed?;
  }

  lemma ChoiceFits(s: State, ap: Approval, context: string, cmd: Command, e: Event)
    requires Allowed(s, ap, context, cmd, e)
    ensures e.Recommends? ==> Fits(s, e)
  {
    hide FullyValued, Named, Clear, Tainted, TargetsFit, AdditionFits, PredictionsFit, Compare, ProbeObservation,
         CandidateAt, PolicyFits, Families, NoRepeats, WithinLimits, Affordable, TargetsKnown, Applies;
    assert cmd.session in s.sessions ==> SessionOk(s, s.sessions[cmd.session]);
    hide Inv, AnyPending, KnownClaims;
    match cmd
    case Recommend(k, _, _) => ChosenIsClear(s.claims, s.sessions[k]);
    case _ => assert !e.Recommends?;
  }

  lemma AdmissionFits(s: State, ap: Approval, context: string, cmd: Command, e: Event)
    requires Allowed(s, ap, context, cmd, e)
    ensures e.Opened? || e.CandidatesAdded? || e.Assesses? ==> Fits(s, e)
  {
    hide Inv, FullyValued, AdditionFits, PredictionsFit, PolicyFits, Compare, TargetsFit, ProbeObservation, CandidateAt,
         Tainted, Affordable, TargetsKnown, Families, AnyPending, NoRepeats;
  }

  /** Every permitted command records an event that fits. */
  lemma TransitionFits(s: State, ap: Approval, context: string, cmd: Command, e: Event)
    requires Allowed(s, ap, context, cmd, e)
    ensures Fits(s, e)
  {
    ReservationFits(s, ap, context, cmd, e);
    ResultFits(s, ap, context, cmd, e);
    ChoiceFits(s, ap, context, cmd, e);
    AdmissionFits(s, ap, context, cmd, e);
    if e.Reserved? || e.Observed? || e.Recommends? || e.Opened? || e.CandidatesAdded? || e.Assesses? { return; }
    StandingFits(s, ap, context, cmd, e);
  }

  lemma StandingFits(s: State, ap: Approval, context: string, cmd: Command, e: Event)
    requires Allowed(s, ap, context, cmd, e)
    requires !(e.Reserved? || e.Observed? || e.Recommends? || e.Opened? || e.CandidatesAdded? || e.Assesses?)
    ensures Fits(s, e)
  {
    hide Inv, FullyValued, AdditionFits, PredictionsFit, PolicyFits, Compare, TargetsFit, ProbeObservation, CandidateAt,
         Tainted, Affordable, TargetsKnown, Families, AnyPending, NoRepeats;
    match cmd
    case ObserveClaim(_, _, _) =>
    case Reopen(_) =>
    case AssessStrategy(_, _) =>
    case ReviewFeedback(_, _) =>
    case HandOff(_) =>
    case Note(_) =>
    case _ =>
  }

  lemma StaysWithin(s: State, spec: string, r: Reservation)
    requires spec in s.budgets && WithinLimits(s.budgets[spec]) && r.usd >= 0.0
    ensures var b := s.budgets[spec];
            && (r.calls == 0 || b.calls + r.calls <= b.limits.calls)
            && (r.usd == 0.0 || b.usd + r.usd <= b.limits.usd)
            && (r.units == 0 || b.units + r.units <= b.limits.units)
            ==> Affordable(s, spec, r)
  {
  }

  // ---- each event keeps the invariant ----------------------------------------------------------

  lemma OpenedKeeps(s: State, k: string, policy: Policy, context: string, spec: string, version: nat)
    requires Inv(s) && PolicyFits(policy)
    ensures Inv(Apply(s, Opened(k, policy, context, spec, version)))
  {
    var session := Session(policy, context, spec, version, [], [], map[], [], [], [], 1, Exploring);
    var budgets := if spec in s.budgets then s.budgets
                   else s.budgets[spec := Budget(policy.budget, 0, 0.0, 0, false)];
    SessionReplaced(s, k, session, budgets);
  }

  lemma LastFits(claims: map<string, Claim>, news: seq<NewClaim>, spec: string, acceptance: set<string>)
    requires ClaimsFit(claims, spec, acceptance, news) && news != []
    ensures var before := news[..|news| - 1];
            ClaimsFit(claims, spec, acceptance, before)
            && Last(news).id !in claims && Last(news).id !in NewIds(before)
            && Members(Last(news).dependsOn) <= KnownClaims(claims, spec) + NewIds(before)
            && NewIds(news) == NewIds(before) + {Last(news).id}
  {
    hide NewIds;
    var before := news[..|news| - 1];
    assert forall i :: 0 <= i < |before| ==> before[..i] == news[..i];
    assert NewClaimFits(claims, KnownAfter(KnownClaims(claims, spec), before), acceptance, news[|news| - 1]);
    KnownGrows(KnownClaims(claims, spec), news, |news| - 1);
    assert news[..|news|] == news;
  }

  lemma {:induction false} AddClaimsGrows(claims: map<string, Claim>, news: seq<NewClaim>, spec: string,
                                          acceptance: set<string>)
    requires ClosedClaims(claims) && ClaimsFit(claims, spec, acceptance, news)
    ensures var after := AddClaims(claims, news, spec);
            Grows(claims, after) && ClosedClaims(after)
            && Having(after, Invalidated) == Having(claims, Invalidated)
            && after.Keys == claims.Keys + NewIds(news)
    decreases |news|
  {
    hide ClaimsFit, Having, Grows, ClosedClaims, NewIds;
    if news == [] {
      NothingAdded(claims);
    } else {
      var before, last := news[..|news| - 1], Last(news);
      LastFits(claims, news, spec, acceptance);
      AddClaimsGrows(claims, before, spec, acceptance);
      LastIsFresh(claims, AddClaims(claims, before, spec), AddClaims(claims, news, spec), last, spec);
    }
  }

  lemma NothingAdded(claims: map<string, Claim>)
    ensures Grows(claims, claims) && NewIds([]) == {}
  {
  }

  lemma AddedKeeps(s: State, k: string, news: seq<NewClaim>, candidates: seq<Candidate>, acceptance: set<string>)
    requires Inv(s) && k in s.sessions && AdditionFits(s, s.sessions[k], acceptance, news, candidates)
    ensures Inv(Apply(s, CandidatesAdded(k, news, candidates)))
  {
    hide Having, FullyValued, Clear, Named, PredictionsFit, CandidatesFit, ClaimsFit;
    var session := s.sessions[k];
    var claims := AddClaims(s.claims, news, session.spec);
    AddClaimsGrows(s.claims, news, session.spec, acceptance);
    assert KnownAfter(KnownClaims(s.claims, session.spec), news) <= claims.Keys;
    var grown := s.(claims := claims);
    GrowthKeeps(s, claims);
    var larger := session.(candidates := session.candidates + Restamped(candidates, session.context));
    CandidatesNamed(session, claims, KnownAfter(KnownClaims(s.claims, session.spec), news), candidates);
    SameStanding(claims, session, larger);
    SessionReplaced(grown, k, larger, s.budgets);
  }

  lemma CandidatesNamed(session: Session, claims: map<string, Claim>, known: set<string>, cs: seq<Candidate>)
    requires FullyValued(session) && Named(claims, session) && CandidatesFit(session, known, cs) && known <= claims.Keys
    ensures var larger := session.(candidates := session.candidates + Restamped(cs, session.context));
            FullyValued(larger) && Named(claims, larger)
  {
    var more := Restamped(cs, session.context);
    forall c | c in session.candidates + more
      ensures c.predictions.Keys == CriterionIds(session.policy) && Members(c.claimIds) <= claims.Keys
    {
      if c !in session.candidates {
        var i :| 0 <= i < |more| && more[i] == c;
        assert CandidateFits(session.policy, known, Members(Ids(session.candidates)) + Members(Ids(cs[..i])), cs[i]);
      }
    }
    CandidateIdsDiffer(session, known, cs);
  }

  /** The ids of a fitting addition differ from each other and from the ids already taken. */
  lemma CandidateIdsDiffer(session: Session, known: set<string>, cs: seq<Candidate>)
    requires NoRepeats(Ids(session.candidates)) && CandidatesFit(session, known, cs)
    ensures NoRepeats(Ids(session.candidates + Restamped(cs, session.context)))
  {
    var a, b := Ids(session.candidates), Ids(cs);
    assert Ids(session.candidates + Restamped(cs, session.context)) == a + b;
    forall i, j | 0 <= i < |a| && 0 <= j < |b|
      ensures a[i] != b[j]
    {
      IdIsNew(session, known, cs, j);
    }
    forall i, j | 0 <= i < j < |b|
      ensures b[i] != b[j]
    {
      IdIsNew(session, known, cs, j);
    }
    hide CandidatesFit;
    NoRepeatsAdd(a, b);
  }

  lemma NoRepeatsAdd(a: seq<string>, b: seq<string>)
    requires NoRepeats(a) && NoRepeats(b) && forall i, j :: 0 <= i < |a| && 0 <= j < |b| ==> a[i] != b[j]
    ensures NoRepeats(a + b)
  {
  }

  lemma IdIsNew(session: Session, known: set<string>, cs: seq<Candidate>, j: nat)
    requires CandidatesFit(session, known, cs) && j < |cs|
    ensures forall i :: 0 <= i < |session.candidates| ==> session.candidates[i].id != cs[j].id
    ensures forall i :: 0 <= i < j ==> cs[i].id != cs[j].id
  {
    hide PredictionsFit, Baselines, NoRepeats;
    assert CandidateFits(session.policy, known, Members(Ids(session.candidates)) + Members(Ids(cs[..j])), cs[j]);
    forall i | 0 <= i < |session.candidates|
      ensures session.candidates[i].id != cs[j].id
    {
      assert Ids(session.candidates)[i] == session.candidates[i].id;
    }
    forall i | 0 <= i < j
      ensures cs[i].id != cs[j].id
    {
      assert Ids(cs[..j])[i] == cs[i].id;
    }
  }

  lemma AssessedKeeps(s: State, k: string, a: Assessment)
    requires Inv(s) && k in s.sessions && forall id :: id in a.candidates ==>
               PredictionsFit(s.sessions[k].policy, a.candidates[id])
    ensures Inv(Apply(s, Assesses(k, a)))
  {
    hide Named, Clear, WithinLimits;
    var session := s.sessions[k];
    assert SessionOk(s, session);
    var later := session.(assessments := session.assessments + [a]);
    forall x, id | x in later.assessments && id in x.candidates
      ensures x.candidates[id].Keys == CriterionIds(later.policy)
    {
      if x !in session.assessments {
        assert PredictionsFit(session.policy, a.candidates[id]);
      }
    }
    assert Named(s.claims, later) && Clear(s.claims, later) by { SameNames(s.claims, session, later); }
    SessionReplaced(s, k, later, s.budgets);
  }

  lemma SameNames(claims: map<string, Claim>, session: Session, later: Session)
    requires Named(claims, session) && Clear(claims, session)
    requires later == session.(assessments := later.assessments)
    ensures Named(claims, later) && Clear(claims, later)
  {
  }

  lemma ReservedKeeps(s: State, k: string, id: string, r: Reservation)
    requires Inv(s) && k in s.sessions && Affordable(s, s.sessions[k].spec, r) && TargetsKnown(s.claims, r)
    ensures Inv(Apply(s, Event.Reserved(k, id, r)))
  {
    hide FullyValued, Clear, WithinLimits;
    var session := s.sessions[k];
    assert SessionOk(s, session);
    var budgets := s.budgets[session.spec := Spend(s.budgets[session.spec], r)];
    var later := session.(reservations := session.reservations[id := r.(status := Pending)]);
    StatusKept(s.claims, session, later);
    assert Named(s.claims, later);
    SessionReplaced(s, k, later, budgets);
  }

  lemma ObservedKeeps(s: State, k: string, o: Observation)
    requires Inv(s) && Applies(s, Observed(k, o))
    ensures Inv(Apply(s, Observed(k, o)))
  {
    hide Inv, Settle, InvalidateAll;
    SettleKeeps(s, k, o);
    ContradictedKnown(s, k, o);
    SettleClaims(s, k, o);
    InvalidateAllKeeps(Settle(s, k, o), Contradicted(o.sightings));
  }

  lemma RecommendedKeeps(s: State, k: string, r: Recommendation)
    requires Inv(s) && k in s.sessions && Members(r.claimIds) <= s.claims.Keys
             && Members(r.claimIds) !! Tainted(s.claims)
    ensures Inv(Apply(s, Recommends(k, r)))
  {
    hide FullyValued, Tainted, WithinLimits;
    var session := s.sessions[k];
    assert SessionOk(s, session);
    var later := session.(recommendations := session.recommendations + [r], status := SessionStatus.Recommended);
    ValuesKept(session, later);
    assert Named(s.claims, later) && Clear(s.claims, later);
    SessionReplaced(s, k, later, s.budgets);
  }

  lemma ReopenedKeeps(s: State, k: string, context: string)
    requires Inv(s) && k in s.sessions
    ensures Inv(Apply(s, Reopened(k, context)))
  {
    hide FullyValued, Clear, Named, WithinLimits;
    var session := s.sessions[k];
    assert SessionOk(s, session);
    var later := session.(round := session.round + 1, status := Exploring, context := context);
    ValuesKept(session, later);
    ReopenedIsClear(s.claims, session, later);
    SessionReplaced(s, k, later, s.budgets);
  }

  lemma HandedOffKeeps(s: State, k: string, r: Recommendation)
    requires Inv(s) && k in s.sessions
    ensures Inv(Apply(s, HandedOff(k, r)))
  {
    hide FullyValued, Clear, WithinLimits;
    var session := s.sessions[k];
    assert SessionOk(s, session);
    var later := session.(handoffs := session.handoffs + [r]);
    StatusKept(s.claims, session, later);
    SessionReplaced(s, k, later, s.budgets);
  }

  /** Every event that fits applies and keeps the invariant. */
  lemma EventKeeps(s: State, e: Event)
    requires Inv(s) && Fits(s, e)
    ensures Applies(s, e) && Inv(Apply(s, e))
  {
    FitsApplies(s, e);
    hide Inv, Applies, Apply, AdditionFits, PredictionsFit, PolicyFits, Tainted, Affordable, TargetsKnown;
    match e
    case Opened(k, policy, context, spec, version) => OpenedKeeps(s, k, policy, context, spec, version);
    case CandidatesAdded(k, news, candidates) =>
      var acceptance :| AdditionFits(s, s.sessions[k], acceptance, news, candidates);
      AddedKeeps(s, k, news, candidates, acceptance);
    case Assesses(k, a) => AssessedKeeps(s, k, a);
    case Reserved(k, id, r) => ReservedKeeps(s, k, id, r);
    case Observed(k, o) => ObservedKeeps(s, k, o);
    case Recommends(k, r) => RecommendedKeeps(s, k, r);
    case Reopened(k, context) => ReopenedKeeps(s, k, context);
    case HandedOff(k, r) => HandedOffKeeps(s, k, r);
    case _ => StandingKeeps(s, e);
  }

  /** What bears on claims alone. */
  lemma StandingKeeps(s: State, e: Event)
    requires Inv(s) && Applies(s, e) && (e.ClaimObserved? || e.StrategyAssessed? || e.FactoryFeedback? || e.Noted?)
    requires e.ClaimObserved? ==> e.claim in s.claims && e.status != Active && s.claims[e.claim].status != Invalidated
    ensures Inv(Apply(s, e))
  {
    hide Inv, SetClaim, InvalidateAll;
    match e
    case ClaimObserved(_, c, status) => SetClaimKeeps(s, c, status);
    case StrategyAssessed(_, ids) => InvalidateAllKeeps(s, ids);
    case FactoryFeedback(_, ids) => InvalidateAllKeeps(s, ids);
    case Noted(_) =>
  }

  lemma FitsApplies(s: State, e: Event)
    requires Inv(s) && Fits(s, e)
    ensures Applies(s, e)
    ensures e.ClaimObserved? ==> e.claim in s.claims && e.status != Active && s.claims[e.claim].status != Invalidated
    ensures e.StrategyAssessed? || e.FactoryFeedback? ==> forall id :: id in e.invalidated ==> id in s.claims
  {
    hide FullyValued, Named, Clear, Tainted, AdditionFits, PredictionsFit;
  }

  /** So every permitted transition applies and keeps the invariant. */
  lemma TransitionKeeps(s: State, ap: Approval, context: string, cmd: Command, e: Event)
    requires Allowed(s, ap, context, cmd, e)
    ensures Fits(s, e) && Applies(s, e) && Inv(Apply(s, e))
  {
    TransitionFits(s, ap, context, cmd, e);
    hide Fits, Transition;
    EventKeeps(s, e);
  }

  // ---- every recorded log ---------------------------------------------------------------------------------------

  /** One permitted step, under whatever scope is approved and whatever context is observed then. */
  ghost predicate Permitted(s: State, e: Event) {
    (forall k :: k in s.sessions ==> FullyValued(s.sessions[k]))
    && exists ap, context, cmd :: Transition(s, ap, context, cmd) == Some(e)
  }

  /** A log the transitions can build. */
  ghost predicate Recorded(events: seq<Event>) {
    events == []
    || (Recorded(events[..|events| - 1]) && Projectable(events[..|events| - 1])
        && Permitted(Projection(events[..|events| - 1]), Last(events)))
  }

  lemma {:induction false} RecordedInv(events: seq<Event>)
    requires Recorded(events)
    ensures Projectable(events) && Inv(Projection(events))
  {
    hide Inv, Apply, Applies, Transition;
    if events == [] {
      EmptyInv();
    } else {
      RecordedInv(events[..|events| - 1]);
      var s, e := Projection(events[..|events| - 1]), Last(events);
      var ap, context, cmd :| Transition(s, ap, context, cmd) == Some(e);
      TransitionKeeps(s, ap, context, cmd, e);
    }
  }

  /** In every reachable log, a recommended session's latest recommendation rests on no claim in
      the dependency closure of anything invalidated. */
  lemma RecommendedStandsClear(events: seq<Event>, key: string)
    requires Recorded(events)
    ensures Projectable(events)
    ensures var s := Projection(events); key in s.sessions ==> StandsClear(s.claims, s.sessions[key])
  {
    RecordedInv(events);
    hide Inv, SessionOk;
    if key in Projection(events).sessions {
      StateStandsClear(Projection(events), key);
    }
  }

  /** Recommended means recommended on claims that nothing invalidated reaches along dependents. */
  ghost predicate StandsClear(claims: map<string, Claim>, session: Session) {
    session.status == SessionStatus.Recommended ==>
      session.recommendations != []
      && forall c :: c in Last(session.recommendations).claimIds ==> c in claims && Untouched(claims, c)
  }

  ghost predicate Untouched(claims: map<string, Claim>, c: string) {
    !exists i :: i in claims && claims[i].status == Invalidated && Reach(DependentGraph(claims), i, c)
  }

  lemma StateStandsClear(s: State, key: string)
    requires Inv(s) && key in s.sessions
    ensures StandsClear(s.claims, s.sessions[key])
  {
    hide Affected, FullyValued;
    var session := s.sessions[key];
    assert SessionOk(s, session);
    if session.status != SessionStatus.Recommended { return; }
    forall c | c in Last(session.recommendations).claimIds
      ensures c in s.claims && Untouched(s.claims, c)
    {
      assert Last(session.recommendations) in session.recommendations;
      assert c in Members(Last(session.recommendations).claimIds);
      assert c !in Tainted(s.claims);
      AffectedIsClosure(s.claims, Having(s.claims, Invalidated), c);
    }
  }

  /** No reachable log overspends a shared budget. */
  lemma BudgetsHold(events: seq<Event>, spec: string)
    requires Recorded(events)
    ensures Projectable(events)
    ensures spec in Projection(events).budgets ==> WithinLimits(Projection(events).budgets[spec])
  {
    RecordedInv(events);
  }

  // ---- what never changes back --------------------------------------------------------------------------------------

  lemma SettledTrans(a: map<string, Claim>, b: map<string, Claim>, c: map<string, Claim>)
    requires Settled(a, b) && Settled(b, c)
    ensures Settled(a, c)
  {
  }

  lemma EventSettles(s: State, e: Event)
    requires ClosedClaims(s.claims) && Fits(s, e) && Applies(s, e)
    ensures Settled(s.claims, Apply(s, e).claims)
  {
    hide FullyValued, CandidatesFit, Having, InvalidateAll, Affected, Settle, PredictionsFit, Tainted, ClaimsFit;
    match e
    case CandidatesAdded(k, claims, candidates) => AddedSettles(s, e);
    case StrategyAssessed(_, ids) => InvalidateAllSettles(s, ids);
    case FactoryFeedback(_, ids) => InvalidateAllSettles(s, ids);
    case Observed(_, _) => ObservedSettles(s, e);
    case _ =>
  }

  lemma AddedSettles(s: State, e: Event)
    requires ClosedClaims(s.claims) && Fits(s, e) && e.CandidatesAdded?
    ensures Settled(s.claims, Apply(s, e).claims)
  {
    hide FullyValued, CandidatesFit, Having, ClaimsFit, AddClaims;
    var acceptance :| AdditionFits(s, s.sessions[e.session], acceptance, e.claims, e.candidates);
    AddClaimsGrows(s.claims, e.claims, s.sessions[e.session].spec, acceptance);
  }

  /** From any point of a recorded log to any later one. */
  lemma {:induction false} ClaimsOnlySettle(events: seq<Event>, n: nat)
    requires Recorded(events) && n <= |events|
    ensures Recorded(events[..n]) && Projectable(events[..n]) && Projectable(events)
    ensures Settled(Projection(events[..n]).claims, Projection(events).claims)
    decreases |events|
  {
    hide Apply, Applies, Transition;
    RecordedInv(events);
    if n == |events| {
      assert events[..n] == events;
    } else {
      var before := events[..|events| - 1];
      ClaimsOnlySettle(before, n);
      assert before[..n] == events[..n];
      var s := Projection(before);
      var ap, context, cmd :| Transition(s, ap, context, cmd) == Some(Last(events));
      RecordedInv(before);
      TransitionKeeps(s, ap, context, cmd, Last(events));
      assert ClosedClaims(s.claims);
      hide Fits, ClosedClaims, Settled;
      EventSettles(s, Last(events));
      SettledTrans(Projection(events[..n]).claims, s.claims, Projection(events).claims);
    }
  }

  // ---- no cycle among claims ----------------------------------------------------------------------------------------

  lemma {:induction false} AddClaimsOrdered(claims: map<string, Claim>, news: seq<NewClaim>, spec: string,
                                            acceptance: set<string>)
    requires ClosedClaims(claims) && Ordered(claims) && ClaimsFit(claims, spec, acceptance, news)
    ensures Ordered(AddClaims(claims, news, spec))
    decreases |news|
  {
    hide ClaimsFit, Having, ClosedClaims, NewIds, Ordered;
    if news != [] {
      var before, last := news[..|news| - 1], Last(news);
      LastFits(claims, news, spec, acceptance);
      AddClaimsOrdered(claims, before, spec, acceptance);
      AddClaimsGrows(claims, before, spec, acceptance);
      OrderedGrows(AddClaims(claims, before, spec), AddClaims(claims, news, spec));
    }
  }

  lemma EventStaysOrdered(s: State, e: Event)
    requires ClosedClaims(s.claims) && Ordered(s.claims) && Fits(s, e) && Applies(s, e)
    ensures Ordered(Apply(s, e).claims)
  {
    hide FullyValued, CandidatesFit, InvalidateAll, Affected, PredictionsFit, Tainted, ClaimsFit, AddClaims, Ordered;
    match e
    case CandidatesAdded(k, news, _) =>
      var acceptance :| AdditionFits(s, s.sessions[k], acceptance, news, e.candidates);
      AddClaimsOrdered(s.claims, news, s.sessions[k].spec, acceptance);
    case StrategyAssessed(_, ids) => SettlingStaysOrdered(s, ids);
    case FactoryFeedback(_, ids) => SettlingStaysOrdered(s, ids);
    case Observed(k, o) =>
      ContradictedKnown(s, k, o);
      SettlingStaysOrdered(Settle(s, k, o), Contradicted(o.sightings));
    case ClaimObserved(_, _, _) => OrderedSameGraph(s.claims, Apply(s, e).claims);
    case _ =>
  }

  lemma SettlingStaysOrdered(s: State, ids: seq<string>)
    requires Ordered(s.claims) && forall id :: id in ids ==> id in s.claims
    ensures Ordered(InvalidateAll(s, ids).claims)
  {
    InvalidateAllSameGraph(s, ids);
    OrderedSameGraph(s.claims, InvalidateAll(s, ids).claims);
  }

  lemma NoClaimsOrdered()
    ensures Ordered(EMPTY.claims)
  {
    CycleIffReturningEdge(DependentGraph(EMPTY.claims));
  }

  /** No reachable log holds a cycle of claims: a claim is only ever added after what it depends on. */
  lemma {:induction false} ClaimsStayOrdered(events: seq<Event>)
    requires Recorded(events)
    ensures Projectable(events) && Acyclic(DependentGraph(Projection(events).claims))
  {
    RecordedInv(events);
    hide Apply, Applies, Transition, Fits;
    if events == [] {
      NoClaimsOrdered();
    } else {
      var before := events[..|events| - 1];
      ClaimsStayOrdered(before);
      RecordedInv(before);
      var s := Projection(before);
      var ap, context, cmd :| Transition(s, ap, context, cmd) == Some(Last(events));
      TransitionKeeps(s, ap, context, cmd, Last(events));
      assert ClosedClaims(s.claims) && Ordered(s.claims);
      EventStaysOrdered(s, Last(events));
    }
  }

  // ---- the durable log -------------------------------------------------------------------------

  const MAX_EVENTS: nat := 10000

  /** One event of the project's log: its key, the command as sent, and what it recorded here;
      nothing for another service's event. */
  datatype Entry = Entry(key: string, request: string, event: Option<Event>)

  datatype Appended = Kept(event: Event) | Replayed(at: nat) | Refused

  function Explored(entries: seq<Entry>): seq<Event> {
    if entries == [] then []
    else Explored(entries[..|entries| - 1]) + if Last(entries).event.Some? then [Last(entries).event.value] else []
  }

  function FindKey(entries: seq<Entry>, key: string): (r: Option<nat>)
    ensures r.None? <==> forall i :: 0 <= i < |entries| ==> entries[i].key != key
    ensures r.Some? ==> r.value < |entries| && entries[r.value].key == key
  {
    if entries == [] then None
    else
      var before := FindKey(entries[..|entries| - 1], key);
      if before.Some? then before else if Last(entries).key == key then Some(|entries| - 1) else None
  }

  /** The actions whose replay may name a session in a repository context that has moved on. */
  predicate ReplaysStale(cmd: Command) {
    cmd.ObserveClaim? || cmd.Reopen? || cmd.Abandon? || cmd.ReviewFeedback?
  }

  /** `replay_guard`: the session still binds the approval, and a handoff its recommendation. */
  predicate GuardHolds(s: State, ap: Approval, context: string, cmd: Command, e: Event) {
    && Current(s, ap, context, cmd.session, ReplaysStale(cmd))
    && (e.HandedOff? ==>
          var session := s.sessions[cmd.session];
          session.status == SessionStatus.Recommended && session.recommendations != []
          && Last(session.recommendations) == e.recommendation)
  }

  /** The event a command records on a history, validated against that history's own projection. */
  ghost function Decided(events: seq<Event>, ap: Approval, context: string, cmd: Command): Option<Event>
    requires Recorded(events)
  {
    RecordedInv(events);
    InvGivesValues(Projection(events));
    Transition(Projection(events), ap, context, cmd)
  }

  /** What an append is answered: the same command under its key replays, whatever the version,
      while its guard holds; another use of the key is refused; only then is the version compared
      and the command decided. */
  ghost function Answer(entries: seq<Entry>, ap: Approval, context: string, key: string, expected: int,
                        request: string, cmd: Command): Appended
    requires Recorded(Explored(entries))
  {
    RecordedInv(Explored(entries));
    var at, decided := FindKey(entries, key), Decided(Explored(entries), ap, context, cmd);
    if at.Some? then
      var entry := entries[at.value];
      if entry.event.Some? && entry.request == request
         && GuardHolds(Projection(Explored(entries)), ap, context, cmd, entry.event.value)
      then Replayed(at.value) else Refused
    else if expected != |entries| || decided.None? || |entries| + 1 > MAX_EVENTS then Refused
    else Kept(decided.value)
  }

  lemma {:induction false} FoundStays(entries: seq<Entry>, n: nat, key: string)
    requires n <= |entries|
    ensures FindKey(entries[..n], key).Some? ==> FindKey(entries, key) == FindKey(entries[..n], key)
    decreases |entries|
  {
    if n < |entries| {
      FoundStays(entries[..|entries| - 1], n, key);
      assert entries[..|entries| - 1][..n] == entries[..n];
    } else {
      assert entries[..n] == entries;
    }
  }

  /** Once an event stands under a key, no later append under it records another one, and a replay
      always returns that first event. */
  lemma KeyIsSpent(entries: seq<Entry>, n: nat, ap: Approval, context: string, key: string, expected: int,
                   request: string, cmd: Command)
    requires n <= |entries| && FindKey(entries[..n], key).Some? && Recorded(Explored(entries))
    ensures var r := Answer(entries, ap, context, key, expected, request, cmd);
            !r.Kept? && (r.Replayed? ==> r.at == FindKey(entries[..n], key).value && entries[r.at].request == request)
  {
    hide Transition, Decided, Recorded, GuardHolds, Explored;
    FoundStays(entries, n, key);
  }

  /** The project's store as the exploration service uses it; every operation validates against the
      projection of the history it appends to. */
  class ExplorationLog {
    var entries: seq<Entry>

    ghost predicate Valid()
      reads this
    {
      Recorded(Explored(entries)) && forall i, j :: 0 <= i < j < |entries| ==> entries[i].key != entries[j].key
    }

    constructor ()
      ensures Valid() && entries == []
    {
      entries := [];
    }

    /** Another service's event. */
    method Note(key: string, request: string) returns (recorded: bool)
      requires Valid()
      modifies this
      ensures Valid() && recorded == old(FindKey(entries, key).None? && |entries| < MAX_EVENTS)
      ensures entries == if recorded then old(entries) + [Entry(key, request, None)] else old(entries)
    {
      hide Recorded;
      recorded := FindKey(entries, key).None? && |entries| < MAX_EVENTS;
      if recorded {
        assert (entries + [Entry(key, request, None)])[..|entries|] == entries;
        entries := entries + [Entry(key, request, None)];
        assert Explored(entries) == old(Explored(entries));
      }
    }

    method Append(ap: Approval, context: string, key: string, expected: int, request: string, cmd: Command)
      returns (r: Appended)
      requires Valid()
      modifies this
      ensures Valid() && r == old(Answer(entries, ap, context, key, expected, request, cmd))
      ensures entries == if r.Kept? then old(entries) + [Entry(key, request, Some(r.event))] else old(entries)
    {
      hide Inv, Transition, FullyValued, TryProject, GuardHolds, Explored, Recorded, Permitted, Apply, Applies, FindKey;
      RecordedInv(Explored(entries));
      var projected := Project(Explored(entries));
      var state := projected.value;
      for i := 0 to |entries|
        invariant FindKey(entries[..i], key).None?
      {
        assert entries[..i + 1][..i] == entries[..i];
        if entries[i].key == key {
          FoundStays(entries, i + 1, key);
          var event := entries[i].event;
          if event.None? || entries[i].request != request || !GuardHolds(state, ap, context, cmd, event.value) {
            return Refused;
          }
          return Replayed(i);
        }
      }
      assert entries[..|entries|] == entries;
      if expected != |entries| {
        return Refused;
      }
      InvGivesValues(state);
      var e := Transition(state, ap, context, cmd);
      if e.None? || |entries| + 1 > MAX_EVENTS {
        return Refused;
      }
      EntryKeeps(entries, Entry(key, request, e), ap, context, cmd);
      entries := entries + [Entry(key, request, e)];
      r := Kept(e.value);
    }
  }

  lemma EntryKeeps(entries: seq<Entry>, entry: Entry, ap: Approval, context: string, cmd: Command)
    requires Recorded(Explored(entries)) && entry.event.Some?
             && entry.event == Decided(Explored(entries), ap, context, cmd)
    ensures Recorded(Explored(entries + [entry]))
  {
    hide Inv, Transition, FullyValued, TryProject;
    var events, e := Explored(entries), entry.event.value;
    RecordedInv(events);
    InvGivesValues(Projection(events));
    assert (entries + [entry])[..|entries|] == entries;
    assert Explored(entries + [entry]) == events + [e];
    assert (events + [e])[..|events|] == events;
    assert Permitted(Projection(events), e);
  }
}
