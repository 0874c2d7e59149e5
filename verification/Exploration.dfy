/** The exploration transitions over the recorded log, and what every reachable state keeps. */
module Exploration {
  import opened Graphs
  import opened ExplorationRecords
  import opened ExplorationPolicy
  import opened Wrappers

  // ---- admitting claims and candidates ---------------------------------------------------------------

  /** The claims already recorded for the session's scope. */
  function KnownClaims(claims: map<string, Claim>, spec: string): set<string> {
    set k | k in claims && claims[k].spec == spec
  }

  predicate NewClaimFits(claims: map<string, Claim>, known: set<string>, acceptance: set<string>, c: NewClaim) {
    && c.id !in claims && c.id !in known
    && NoRepeats(c.dependsOn) && Members(c.dependsOn) <= known
    && c.acceptance != [] && NoRepeats(c.acceptance) && Members(c.acceptance) <= acceptance
  }

  function NewIds(news: seq<NewClaim>): set<string> {
    set i | 0 <= i < |news| :: news[i].id
  }

  function KnownAfter(known: set<string>, news: seq<NewClaim>): set<string> {
    known + NewIds(news)
  }

  /** Each new claim depends only on recorded claims of its scope and on claims listed before it. */
  predicate ClaimsFit(claims: map<string, Claim>, spec: string, acceptance: set<string>, news: seq<NewClaim>) {
    && |news| <= 40 && |claims| + |news| <= 400
    && forall i :: 0 <= i < |news| ==>
         NewClaimFits(claims, KnownAfter(KnownClaims(claims, spec), news[..i]), acceptance, news[i])
  }

  predicate Bounded(x: real) {
    0.0 <= x <= 1000000000.0
  }

  /** `validate_predictions` */
  predicate PredictionsFit(policy: Policy, ps: Predictions) {
    && ps.Keys == CriterionIds(policy)
    && forall i :: 0 <= i < |policy.criteria| ==>
         match ps[policy.criteria[i].id]
         case Judged(_) => policy.criteria[i].kind == Judgment
         case Forecast(low, high) =>
           policy.criteria[i].kind == Measurement && Bounded(low) && Bounded(high) && low <= high
  }

  predicate CandidateFits(policy: Policy, known: set<string>, taken: set<string>, c: Candidate) {
    && c.id !in taken
    && c.claimIds != [] && NoRepeats(c.claimIds) && Members(c.claimIds) <= known
    && PredictionsFit(policy, c.predictions)
  }

  function Baselines(cs: seq<Candidate>): nat {
    if cs == [] then 0 else Baselines(cs[..|cs| - 1]) + (if Last(cs).baseline then 1 else 0)
  }

  predicate CandidatesFit(session: Session, known: set<string>, cs: seq<Candidate>) {
    && cs != [] && |cs| + |session.candidates| <= session.policy.maxCandidates
    && (forall i :: 0 <= i < |cs| ==>
          CandidateFits(session.policy, known, Members(Ids(session.candidates)) + Members(Ids(cs[..i])), cs[i]))
    && Baselines(session.candidates + cs) == 1
  }

  predicate AdditionFits(s: State, session: Session, acceptance: set<string>, news: seq<NewClaim>, cs: seq<Candidate>) {
    && ClaimsFit(s.claims, session.spec, acceptance, news)
    && CandidatesFit(session, KnownAfter(KnownClaims(s.claims, session.spec), news), cs)
  }

  /** The claim loop of `validate_addition`, with its growing set. */
  method ValidateClaims(claims: map<string, Claim>, spec: string, acceptance: set<string>, news: seq<NewClaim>)
    returns (ok: bool)
    ensures ok <==> ClaimsFit(claims, spec, acceptance, news)
  {
    hide NewClaimFits, KnownAfter, KnownClaims, NewIds;
    if |news| > 40 || |claims| + |news| > 400 {
      return false;
    }
    var known := KnownClaims(claims, spec);
    NoneKnownMore(known);
    assert news[..0] == [];
    for i := 0 to |news|
      invariant known == KnownAfter(KnownClaims(claims, spec), news[..i])
      invariant forall j :: 0 <= j < i ==>
        NewClaimFits(claims, KnownAfter(KnownClaims(claims, spec), news[..j]), acceptance, news[j])
    {
      if !NewClaimFits(claims, known, acceptance, news[i]) {
        return false;
      }
      KnownGrows(KnownClaims(claims, spec), news, i);
      known := known + {news[i].id};
    }
    ok := true;
  }

  /** The candidate loop, with the ids already taken. */
  method ValidateCandidates(session: Session, known: set<string>, cs: seq<Candidate>) returns (ok: bool)
    ensures ok <==> CandidatesFit(session, known, cs)
  {
    hide CandidateFits, Baselines;
    if cs == [] || |cs| + |session.candidates| > session.policy.maxCandidates {
      return false;
    }
    var base := Members(Ids(session.candidates));
    var taken := base;
    assert cs[..0] == [] && Members(Ids([])) == {};
    hide Members, Ids;
    for i := 0 to |cs|
      invariant taken == base + Members(Ids(cs[..i]))
      invariant forall j :: 0 <= j < i ==> CandidateFits(session.policy, known, base + Members(Ids(cs[..j])), cs[j])
    {
      if !CandidateFits(session.policy, known, taken, cs[i]) {
        return false;
      }
      IdsGrow(cs, i);
      taken := taken + {cs[i].id};
    }
    ok := Baselines(session.candidates + cs) == 1;
  }

  /** `validate_addition` */
  method ValidateAddition(s: State, session: Session, acceptance: set<string>, news: seq<NewClaim>, cs: seq<Candidate>)
    returns (ok: bool)
    ensures ok <==> AdditionFits(s, session, acceptance, news, cs)
  {
    ok := ValidateClaims(s.claims, session.spec, acceptance, news);
    if ok {
      ok := ValidateCandidates(session, KnownAfter(KnownClaims(s.claims, session.spec), news), cs);
    }
  }

  lemma NoneKnownMore(known: set<string>)
    ensures KnownAfter(known, []) == known
  {
  }

  lemma KnownGrows(known: set<string>, news: seq<NewClaim>, i: nat)
    requires i < |news|
    ensures KnownAfter(known, news[..i + 1]) == KnownAfter(known, news[..i]) + {news[i].id}
    ensures NewIds(news[..i + 1]) == NewIds(news[..i]) + {news[i].id}
  {
    assert news[..i + 1] == news[..i] + [news[i]];
  }

  lemma IdsGrow(cs: seq<Candidate>, i: nat)
    requires i < |cs|
    ensures Members(Ids(cs[..i + 1])) == Members(Ids(cs[..i])) + {cs[i].id}
  {
    assert Ids(cs[..i + 1]) == Ids(cs[..i]) + [cs[i].id];
  }

  // ---- transitions ------------------------------------------------------------------------------------

  /** The current approved scope. */
  datatype Approval = Approval(spec: string, version: nat, acceptance: set<string>)

  datatype Stop = SufficientSupport | BoundedDecision

  /** What a caller asks for; results of runners and models arrive as data. */
  datatype Command =
    | Open(session: string, policy: Policy, parent: Option<string>)
    | AddCandidates(session: string, claims: seq<NewClaim>, candidates: seq<Candidate>)
    | Assess(session: string, predictions: map<string, Predictions>)
    | ReserveProbe(session: string, id: string, units: nat, targets: seq<Target>, claimIds: seq<string>)
    | FinishProbe(session: string, reservation: string, results: Option<seq<real>>)
    | ReserveReasoning(session: string, id: string, cap: real)
    | FinishReasoning(session: string, reservation: string, failed: bool, reportedUsd: Option<real>)
    | Recommend(session: string, stop: Stop, disclosesUncertainty: bool)
    | Abandon(session: string, reservation: string)
    | ObserveClaim(session: string, claim: string, status: ClaimStatus)
    | Reopen(session: string)
    | AssessStrategy(session: string, causes: seq<string>)
    | ReviewFeedback(session: string, causes: seq<string>)
    | HandOff(session: string)
    | Note(session: string)

  /** `_session`: the session exists, binds the current approval and, unless staleness is
      allowed, the current repository context. */
  predicate Current(s: State, ap: Approval, context: string, key: string, allowStale: bool) {
    && key in s.sessions && s.sessions[key].spec == ap.spec && s.sessions[key].approvalVersion == ap.version
    && (allowStale || s.sessions[key].context == context)
  }

  predicate PolicyFits(p: Policy) {
    && 1 <= |p.criteria| <= 10
    && NoRepeats(CriterionSeq(p)) && |p.priorities| == |p.criteria|
    && Members(p.priorities) == CriterionIds(p)
    && (forall i :: 0 <= i < |p.criteria| && p.criteria[i].ceiling.Some? ==>
          Bounded(p.criteria[i].ceiling.value) && p.criteria[i].kind == Measurement)
    && p.budget.calls <= 8 && 0.0 <= p.budget.usd <= 8.0 && p.budget.units <= 10000000
    && 1 <= p.maxCandidates <= 12 && 1 <= p.maxRounds <= 8
  }

  function CriterionSeq(p: Policy): seq<string> {
    seq(|p.criteria|, i requires 0 <= i < |p.criteria| => p.criteria[i].id)
  }

  predicate AnyPending(session: Session) {
    exists id :: id in session.reservations && session.reservations[id].status == Pending
  }

  function Families(cs: seq<Candidate>): set<string> {
    set i | 0 <= i < |cs| :: cs[i].family
  }

  function CandidateAt(cs: seq<Candidate>, id: string): (r: Option<Candidate>)
    ensures r.Some? ==> r.value in cs && r.value.id == id
    ensures r.None? <==> id !in Ids(cs)
  {
    if cs == [] then None
    else if Last(cs).id == id then Some(Last(cs))
    else
      assert forall i :: 0 <= i < |cs| ==> Ids(cs)[i] == if i < |cs| - 1 then Ids(cs[..|cs| - 1])[i] else Last(cs).id;
      CandidateAt(cs[..|cs| - 1], id)
  }

  function CriterionAt(cs: seq<Criterion>, id: string): (r: Option<Criterion>)
    ensures r.Some? ==> r.value in cs && r.value.id == id
  {
    if cs == [] then None else if Last(cs).id == id then Some(Last(cs)) else CriterionAt(cs[..|cs| - 1], id)
  }

  /** A measurement target bound to a registered strategy, criterion and unit. */
  predicate TargetFits(session: Session, claimIds: set<string>, t: Target) {
    var candidate := CandidateAt(session.candidates, t.candidate);
    var criterion := CriterionAt(session.policy.criteria, t.criterion);
    && candidate.Some? && criterion.Some? && criterion.value.kind == Measurement && criterion.value.unit == t.metric
    && candidate.value.probeStrategy.Some?
    && Members(candidate.value.claimIds) * claimIds != {}
    && (t.falsifies.Some? ==> criterion.value.ceiling.Some? && t.falsifies.value in candidate.value.claimIds
                              && t.falsifies.value in claimIds)
  }

  predicate TargetsFit(session: Session, claimIds: set<string>, ts: seq<Target>) {
    && 1 <= |ts| <= 30
    && (forall i :: 0 <= i < |ts| ==> TargetFits(session, claimIds, ts[i]))
    && forall i, j :: 0 <= i < j < |ts| ==> (ts[i].candidate, ts[i].criterion) != (ts[j].candidate, ts[j].criterion)
  }

  function Measurements(ts: seq<Target>, values: seq<real>): seq<Measured>
    requires |ts| == |values|
  {
    seq(|ts|, i requires 0 <= i < |ts| => Measured(ts[i].candidate, ts[i].criterion, values[i]))
  }

  /** A measured value over its ceiling contradicts the claim the target was to falsify. */
  function Sightings(policy: Policy, ts: seq<Target>, values: seq<real>): (r: seq<Sighting>)
    requires |ts| == |values|
    ensures forall i :: 0 <= i < |r| ==> exists j :: 0 <= j < |ts| && ts[j].falsifies == Some(r[i].claim)
  {
    if ts == [] then []
    else
      var before := Sightings(policy, ts[..|ts| - 1], values[..|values| - 1]);
      var t := Last(ts);
      if t.falsifies.None? then before
      else
        var criterion := CriterionAt(policy.criteria, t.criterion);
        before + [Sighting(t.falsifies.value,
                           criterion.Some? && criterion.value.ceiling.Some?
                             && Last(values) > criterion.value.ceiling.value)]
  }

  function ProbeObservation(session: Session, id: string, results: Option<seq<real>>): Observation
    requires id in session.reservations
    requires results.Some? ==> |results.value| == |session.reservations[id].targets|
  {
    var ts := session.reservations[id].targets;
    match results
    case None => Observation(id, Failed, session.round, session.context, [], [], None)
    case Some(values) =>
      Observation(id, Complete, session.round, session.context, Measurements(ts, values),
                  Sightings(session.policy, ts, values), None)
  }

  /** The event a command records, or none when it is refused. */
  function Transition(s: State, ap: Approval, context: string, cmd: Command): Option<Event>
    requires forall k :: k in s.sessions ==> FullyValued(s.sessions[k])
  {
    var k := cmd.session;
    match cmd
    case Open(_, policy, parent) =>
      if PolicyFits(policy) && k !in s.sessions && |s.sessions| < 40
         && (parent.Some? ==> Current(s, ap, context, parent.value, false))
         && (ap.spec in s.budgets ==> s.budgets[ap.spec].limits == policy.budget)
      then Some(Opened(k, policy, context, ap.spec, ap.version)) else None
    case AddCandidates(_, claims, candidates) =>
      if Current(s, ap, context, k, false) && s.sessions[k].status == Exploring
         && AdditionFits(s, s.sessions[k], ap.acceptance, claims, candidates)
      then Some(CandidatesAdded(k, claims, candidates)) else None
    case Assess(_, predictions) =>
      if Current(s, ap, context, k, false) && s.sessions[k].status == Exploring && s.sessions[k].candidates != []
         && predictions.Keys == Members(Ids(s.sessions[k].candidates))
         && (forall id :: id in predictions ==> PredictionsFit(s.sessions[k].policy, predictions[id]))
      then Some(Assesses(k, Assessment(s.sessions[k].round, predictions))) else None
    case ReserveProbe(_, id, units, targets, claimIds) =>
      if Current(s, ap, context, k, false) && s.sessions[k].status == Exploring
         && claimIds != [] && Members(claimIds) <= s.claims.Keys
         && TargetsFit(s.sessions[k], Members(claimIds), targets)
         && ap.spec in s.budgets && s.budgets[ap.spec].units + units <= s.budgets[ap.spec].limits.units
         && id !in s.sessions[k].reservations
      then Some(Reserved(k, id, Reservation(0, 0.0, units, targets, s.sessions[k].round, s.sessions[k].context,
                                            Pending)))
      else None
    case FinishProbe(_, id, results) =>
      if Current(s, ap, context, k, false) && id in s.sessions[k].reservations
         && s.sessions[k].reservations[id].status == Pending
         && s.sessions[k].reservations[id].round == s.sessions[k].round
         && (results.Some? ==> |results.value| == |s.sessions[k].reservations[id].targets|)
      then Some(Observed(k, ProbeObservation(s.sessions[k], id, results))) else None
    case ReserveReasoning(_, id, cap) =>
      if 0.0 < cap <= 1.0 && Current(s, ap, context, k, false)
         && s.sessions[k].status in {Exploring, SessionStatus.Recommended}
         && !(s.sessions[k].handoffs != [] && s.sessions[k].recommendations != []
              && Last(s.sessions[k].handoffs) == Last(s.sessions[k].recommendations))
         && !AnyPending(s.sessions[k])
         && ap.spec in s.budgets && !s.budgets[ap.spec].uncertain
         && s.budgets[ap.spec].calls + 1 <= s.budgets[ap.spec].limits.calls
         && s.budgets[ap.spec].usd + cap <= s.budgets[ap.spec].limits.usd
      then Some(Reserved(k, id, Reservation(1, cap, 0, [], s.sessions[k].round, s.sessions[k].context, Pending)))
      else None
    case FinishReasoning(_, id, failed, reported) =>
      if Current(s, ap, context, k, false) && id in s.sessions[k].reservations
         && s.sessions[k].reservations[id].status == Pending
      then Some(Observed(k, Observation(id, if failed then Failed else Complete,
                                        s.sessions[k].round, s.sessions[k].context, [], [], reported)))
      else None
    case Recommend(_, stop, discloses) =>
      if Current(s, ap, context, k, false) && s.sessions[k].status == Exploring
         && |Families(s.sessions[k].candidates)| >= 2 && !AnyPending(s.sessions[k])
      then
        var r := Compare(s.claims, s.sessions[k]);
        if r.preferred.Some? && (if stop == SufficientSupport then r.sufficient else discloses)
        then
          var chosen := CandidateAt(s.sessions[k].candidates, r.preferred.value);
          if chosen.Some?
          then Some(Recommends(k, Recommendation(chosen.value.id, chosen.value.claimIds, s.sessions[k].round)))
          else None
        else None
      else None
    case Abandon(_, id) =>
      if Current(s, ap, context, k, true) && id in s.sessions[k].reservations
         && s.sessions[k].reservations[id].status == Pending
      then Some(Observed(k, Observation(id, Abandoned, s.sessions[k].reservations[id].round,
                                        s.sessions[k].reservations[id].context, [], [], None)))
      else None
    case ObserveClaim(_, c, status) =>
      if Current(s, ap, context, k, true) && c in s.claims && status != Active && s.claims[c].status != Invalidated
      then Some(ClaimObserved(k, c, status)) else None
    case Reopen(_) =>
      if Current(s, ap, context, k, true) && s.sessions[k].round < s.sessions[k].policy.maxRounds
         && !AnyPending(s.sessions[k])
      then Some(Reopened(k, context)) else None
    case AssessStrategy(_, contradicted) =>
      if Current(s, ap, context, k, true)
        && (forall c :: c in contradicted ==> c in s.claims && s.claims[c].status == Active)
      then Some(StrategyAssessed(k, contradicted)) else None
    case ReviewFeedback(_, claims) =>
      if Current(s, ap, context, k, true) && NoRepeats(claims)
         && (forall c :: c in claims ==> c in s.claims && s.claims[c].status != Invalidated)
      then Some(FactoryFeedback(k, claims)) else None
    case HandOff(_) =>
      if Current(s, ap, context, k, false) && s.sessions[k].status == SessionStatus.Recommended
         && s.sessions[k].recommendations != []
      then Some(HandedOff(k, Last(s.sessions[k].recommendations))) else None
    case Note(_) => if Current(s, ap, context, k, true) then Some(Noted(k)) else None
  }
}
