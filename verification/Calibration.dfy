/** Calibration: recorded outcomes joined to the forecasts that were in force, and the cohorts a
    trajectory belongs to. */
module Calibration {
  import opened ExplorationRecords
  import Exploration
  import Comparing = ExplorationPolicy
  import Safety = ExplorationSafety
  import opened Wrappers

  // ---- forecasts in force ----------------------------------------------------------------------------------------

  datatype Source = Registration | RoundAssessment

  /** A frozen forecast; its identity is the record. */
  datatype Frozen = Frozen(session: string, candidate: string, criterion: Criterion, prediction: Prediction,
                           madeUnder: string, source: Source, round: nat, applicable: bool)

  /** The predictions the session's latest assessment of its current round gives a candidate. */
  function RoundAssessed(session: Session, assessments: seq<Assessment>, candidate: string): Option<Predictions> {
    if assessments == [] then None
    else
      var last := Last(assessments);
      if last.round == session.round && candidate in last.candidates then Some(last.candidates[candidate])
      else RoundAssessed(session, assessments[..|assessments| - 1], candidate)
  }

  /** `frozen_predictions`, looked up by subject. */
  function Forecast(id: string, session: Session, candidate: string, criterion: string): (r: Option<Frozen>)
    ensures r.Some? ==> r.value.candidate == candidate && r.value.criterion.id == criterion && r.value.session == id
  {
    var c := Exploration.CandidateAt(session.candidates, candidate);
    var k := Exploration.CriterionAt(session.policy.criteria, criterion);
    if c.None? || k.None? then None
    else
      var assessed := RoundAssessed(session, session.assessments, candidate);
      var predictions := if assessed.Some? then assessed.value else c.value.predictions;
      var madeUnder := if assessed.Some? then session.context else c.value.madeUnder;
      if criterion !in predictions then None
      else Some(Frozen(id, candidate, k.value, predictions[criterion], madeUnder,
                       if assessed.Some? then RoundAssessment else Registration,
                       session.round, madeUnder == session.context))
  }

  predicate InForce(id: string, session: Session, f: Frozen) {
    Forecast(id, session, f.candidate, f.criterion.id) == Some(f)
  }

  lemma {:induction false} RoundAssessedIsCompared(session: Session, c: Candidate, n: nat)
    requires n <= |session.assessments|
    ensures var assessed := RoundAssessed(session, session.assessments[..n], c.id);
            Comparing.InForce(session, c, n)
            == if assessed.Some? then (assessed.value, false) else (c.predictions, c.madeUnder != session.context)
  {
    if n > 0 {
      RoundAssessedIsCompared(session, c, n - 1);
      assert session.assessments[..n][..n - 1] == session.assessments[..n - 1];
    }
  }

  /** The rule is the comparison's own: a subject has a forecast exactly when the comparison gives a
      registered candidate a predicted value for a registered criterion, and it is that value. */
  lemma ForecastIsCompared(id: string, session: Session, candidate: string, criterion: string)
    ensures var f := Forecast(id, session, candidate, criterion);
            var c := Exploration.CandidateAt(session.candidates, candidate);
            && (f.Some? <==> c.Some? && Exploration.CriterionAt(session.policy.criteria, criterion).Some?
                             && criterion in Comparing.Predicted(session, c.value))
            && (f.Some? ==> Comparing.Predicted(session, c.value)[criterion]
                            == Comparing.ValueOf(f.value.prediction, !f.value.applicable))
  {
    var c := Exploration.CandidateAt(session.candidates, candidate);
    if c.Some? {
      RoundAssessedIsCompared(session, c.value, |session.assessments|);
      assert session.assessments[..|session.assessments|] == session.assessments;
    }
  }

  // ---- the strict join -------------------------------------------------------------------------

  /** A recorded outcome, with the forecast it names, if any. */
  datatype Outcome = Outcome(candidate: string, criterion: string, forecast: Option<Frozen>, verdict: string)

  /** The project log: exploration events, observations carrying their outcomes, and the rest. */
  datatype Logged = Elsewhere | Plain(event: Event)
    | Recorded(session: string, observation: Observation, receipt: string, outcomes: seq<Outcome>)

  function EventOf(l: Logged): seq<Event> {
    match l
    case Elsewhere => []
    case Plain(e) => [e]
    case Recorded(k, o, _, _) => [Observed(k, o)]
  }

  function EventsOf(log: seq<Logged>): seq<Event> {
    if log == [] then [] else EventsOf(log[..|log| - 1]) + EventOf(Last(log))
  }

  datatype Key = Key(session: string, receipt: string, candidate: string, criterion: string)

  datatype JoinRow = JoinRow(key: Key, index: nat, round: nat, verdict: string, forecast: Option<Frozen>)

  datatype Joined = Joined(rows: seq<JoinRow>, unjoined: seq<JoinRow>, duplicates: nat, seen: set<Key>)

  const NOTHING := Joined([], [], 0, {})

  /** One outcome of the observation at `index`, in the session as projected before it. */
  function JoinOutcome(j: Joined, index: nat, l: Logged, session: Session, o: Outcome): Joined
    requires l.Recorded?
  {
    var key := Key(l.session, l.receipt, o.candidate, o.criterion);
    if key in j.seen then j.(duplicates := j.duplicates + 1)
    else
      var row := JoinRow(key, index, l.observation.round, o.verdict, o.forecast);
      var taken := j.(seen := j.seen + {key});
      if o.forecast.Some? && !InForce(l.session, session, o.forecast.value) then taken.(unjoined := j.unjoined + [row])
      else taken.(rows := j.rows + [row])
  }

  function JoinAll(j: Joined, index: nat, l: Logged, session: Session, outcomes: seq<Outcome>): Joined
    requires l.Recorded?
  {
    if outcomes == [] then j
    else JoinOutcome(JoinAll(j, index, l, session, outcomes[..|outcomes| - 1]), index, l, session, Last(outcomes))
  }

  /** The rows of the first n entries; none where the projection of a prefix fails. */
  function JoinPrefix(log: seq<Logged>): Option<Joined> {
    if log == [] then Some(NOTHING)
    else
      var n := |log| - 1;
      var before := JoinPrefix(log[..n]);
      if before.None? || !log[n].Recorded? then before
      else
        var state := TryProject(EventsOf(log[..n]));
        if state.None? || log[n].session !in state.value.sessions then None
        else Some(JoinAll(before.value, n, log[n], state.value.sessions[log[n].session], log[n].outcomes))
  }

  /** `join_outcomes`: the whole log must project too. */
  function Join(log: seq<Logged>): Option<Joined> {
    if TryProject(EventsOf(log)).None? then None else JoinPrefix(log)
  }

  lemma {:induction false} BrokenStays(log: seq<Logged>, n: nat)
    requires n <= |log|
    ensures JoinPrefix(log[..n]).None? ==> JoinPrefix(log).None?
    decreases |log|
  {
    if n < |log| {
      BrokenStays(log[..|log| - 1], n);
      assert log[..|log| - 1][..n] == log[..n];
    } else {
      assert log[..n] == log;
    }
  }

  lemma JoinNothing(log: seq<Logged>)
    requires log == []
    ensures JoinPrefix(log) == Some(NOTHING)
  {
  }

  /** Entry i joins onto what the entries before it joined to. */
  lemma JoinEntry(log: seq<Logged>, i: nat, j: Joined)
    requires i < |log| && JoinPrefix(log[..i]) == Some(j)
    ensures !log[i].Recorded? ==> JoinPrefix(log[..i + 1]) == Some(j)
    ensures log[i].Recorded? ==>
              var state := TryProject(EventsOf(log[..i]));
              JoinPrefix(log[..i + 1]) == if state.None? || log[i].session !in state.value.sessions then None
                                          else Some(JoinAll(j, i, log[i], state.value.sessions[log[i].session],
                                                            log[i].outcomes))
  {
    hide TryProject, EventsOf, JoinAll;
    assert log[..i + 1][..i] == log[..i];
  }

  method JoinOutcomes(log: seq<Logged>) returns (r: Option<Joined>)
    ensures r == Join(log)
  {
    hide TryProject, EventsOf, JoinAll, JoinPrefix;
    assert JoinPrefix(log[..0]) == Some(NOTHING) by { JoinNothing(log[..0]); }
    var j := NOTHING;
    var broken := false;
    for i := 0 to |log|
      invariant broken ==> JoinPrefix(log).None?
      invariant !broken ==> JoinPrefix(log[..i]) == Some(j)
    {
      if !broken { JoinEntry(log, i, j); }
      if !broken && log[i].Recorded? {
        var state := Project(EventsOf(log[..i]));
        if state.None? || log[i].session !in state.value.sessions {
          BrokenStays(log, i + 1);
          broken := true;
        } else {
          j := JoinObservation(j, i, log[i], state.value.sessions[log[i].session]);
        }
      }
    }
    assert log[..|log|] == log;
    var final := Project(EventsOf(log));
    r := if broken || final.None? then None else Some(j);
  }

  method JoinObservation(j: Joined, index: nat, l: Logged, session: Session) returns (r: Joined)
    requires l.Recorded?
    ensures r == JoinAll(j, index, l, session, l.outcomes)
  {
    r := j;
    for i := 0 to |l.outcomes|
      invariant r == JoinAll(j, index, l, session, l.outcomes[..i])
    {
      assert l.outcomes[..i + 1][..i] == l.outcomes[..i];
      r := JoinOutcome(r, index, l, session, l.outcomes[i]);
    }
    assert l.outcomes[..|l.outcomes|] == l.outcomes;
  }

  // ---- what the join keeps ---------------------------------------------------------------------

  predicate Extends(a: Joined, b: Joined) {
    a.rows <= b.rows && a.unjoined <= b.unjoined && a.duplicates <= b.duplicates && a.seen <= b.seen
  }

  lemma {:induction false} JoinAllExtends(j: Joined, index: nat, l: Logged, session: Session, outcomes: seq<Outcome>)
    requires l.Recorded?
    ensures Extends(j, JoinAll(j, index, l, session, outcomes))
  {
    if outcomes != [] {
      JoinAllExtends(j, index, l, session, outcomes[..|outcomes| - 1]);
    }
  }

  /** What a truncated log joins is a prefix of what the full log joins: nothing recorded later
      changes, removes or reorders an earlier row. */
  lemma {:induction false} PrefixStable(log: seq<Logged>, n: nat)
    requires n <= |log|
    ensures JoinPrefix(log).Some? ==>
              JoinPrefix(log[..n]).Some? && Extends(JoinPrefix(log[..n]).value, JoinPrefix(log).value)
    decreases |log|
  {
    hide TryProject, JoinAll;
    if JoinPrefix(log).None? {
    } else if n == |log| {
      assert log[..n] == log;
    } else {
      var m := |log| - 1;
      PrefixStable(log[..m], n);
      assert log[..m][..n] == log[..n];
      if log[m].Recorded? {
        var session := TryProject(EventsOf(log[..m])).value.sessions[log[m].session];
        JoinAllExtends(JoinPrefix(log[..m]).value, m, log[m], session, log[m].outcomes);
      }
    }
  }

  lemma {:induction false} PrefixProjects(log: seq<Logged>, n: nat)
    requires n <= |log| && TryProject(EventsOf(log)).Some?
    ensures TryProject(EventsOf(log[..n])).Some?
    decreases |log|
  {
    if n == |log| {
      assert log[..n] == log;
    } else {
      var m := |log| - 1;
      assert log[..m][..n] == log[..n];
      if EventOf(log[m]) == [] {
        assert EventsOf(log) == EventsOf(log[..m]);
      } else {
        assert EventsOf(log)[..|EventsOf(log)| - 1] == EventsOf(log[..m]);
      }
      PrefixProjects(log[..m], n);
    }
  }

  /** `join_outcomes` itself is prefix-stable. */
  lemma JoinIsPrefixStable(log: seq<Logged>, n: nat)
    requires n <= |log|
    ensures Join(log).Some? ==> Join(log[..n]).Some? && Extends(Join(log[..n]).value, Join(log).value)
  {
    if Join(log).Some? {
      PrefixStable(log, n);
      PrefixProjects(log, n);
    }
  }

  function OutcomeCount(log: seq<Logged>): nat {
    if log == [] then 0
    else OutcomeCount(log[..|log| - 1]) + if Last(log).Recorded? then |Last(log).outcomes| else 0
  }

  /** Rows and unjoined rows have distinct keys between them, and those keys are the ones seen. */
  ghost predicate OneRowPerKey(j: Joined) {
    && (forall i, k :: 0 <= i < k < |j.rows| ==> j.rows[i].key != j.rows[k].key)
    && (forall i, k :: 0 <= i < k < |j.unjoined| ==> j.unjoined[i].key != j.unjoined[k].key)
    && (forall i, k :: 0 <= i < |j.rows| && 0 <= k < |j.unjoined| ==> j.rows[i].key != j.unjoined[k].key)
    && (forall i :: 0 <= i < |j.rows| ==> j.rows[i].key in j.seen)
    && (forall i :: 0 <= i < |j.unjoined| ==> j.unjoined[i].key in j.seen)
    && |j.seen| == |j.rows| + |j.unjoined|
  }

  lemma OutcomeConserves(j: Joined, index: nat, l: Logged, session: Session, o: Outcome)
    requires l.Recorded? && OneRowPerKey(j)
    ensures var r := JoinOutcome(j, index, l, session, o);
            OneRowPerKey(r) && |r.rows| + |r.unjoined| + r.duplicates == |j.rows| + |j.unjoined| + j.duplicates + 1
  {
    hide InForce;
  }

  lemma {:induction false} JoinAllConserves(j: Joined, index: nat, l: Logged, session: Session, outcomes: seq<Outcome>)
    requires l.Recorded? && OneRowPerKey(j)
    ensures var r := JoinAll(j, index, l, session, outcomes);
            OneRowPerKey(r) && |r.rows| + |r.unjoined| + r.duplicates
              == |j.rows| + |j.unjoined| + j.duplicates + |outcomes|
  {
    hide InForce, JoinOutcome, OneRowPerKey;
    if outcomes != [] {
      JoinAllConserves(j, index, l, session, outcomes[..|outcomes| - 1]);
      OutcomeConserves(JoinAll(j, index, l, session, outcomes[..|outcomes| - 1]), index, l, session, Last(outcomes));
    }
  }

  /** Every recorded outcome lands in exactly one place: a row, an unjoined row, or the dropped
      duplicates; and one (session, receipt, candidate, criterion) counts once. */
  lemma {:induction false} JoinConserves(log: seq<Logged>)
    requires JoinPrefix(log).Some?
    ensures var j := JoinPrefix(log).value;
            OneRowPerKey(j) && |j.rows| + |j.unjoined| + j.duplicates == OutcomeCount(log)
  {
    hide TryProject, JoinAll, OneRowPerKey;
    if log == [] {
      NothingIsOne();
    } else {
      var n := |log| - 1;
      JoinConserves(log[..n]);
      if log[n].Recorded? {
        var session := TryProject(EventsOf(log[..n])).value.sessions[log[n].session];
        JoinAllConserves(JoinPrefix(log[..n]).value, n, log[n], session, log[n].outcomes);
      }
    }
  }

  lemma NothingIsOne()
    ensures OneRowPerKey(NOTHING)
  {
  }

  /** The row's forecast was in force in the projection of exactly the events before its own. */
  predicate WasInForce(log: seq<Logged>, row: JoinRow) {
    && row.index < |log| && log[row.index].Recorded? && log[row.index].session == row.key.session
    && (row.forecast.Some? ==>
          var state := TryProject(EventsOf(log[..row.index]));
          state.Some? && row.key.session in state.value.sessions
          && InForce(row.key.session, state.value.sessions[row.key.session], row.forecast.value))
  }

  predicate RowInForce(l: Logged, session: Session, index: nat, row: JoinRow)
    requires l.Recorded?
  {
    row.index == index && row.key.session == l.session
      && (row.forecast.Some? ==> InForce(l.session, session, row.forecast.value))
  }

  lemma {:induction false} JoinAllInForce(j: Joined, index: nat, l: Logged, session: Session, outcomes: seq<Outcome>,
                                          i: nat)
    requires l.Recorded? && |j.rows| <= i < |JoinAll(j, index, l, session, outcomes).rows|
    ensures RowInForce(l, session, index, JoinAll(j, index, l, session, outcomes).rows[i])
  {
    hide InForce;
    if outcomes != [] {
      var before := JoinAll(j, index, l, session, outcomes[..|outcomes| - 1]);
      if i < |before.rows| {
        JoinAllInForce(j, index, l, session, outcomes[..|outcomes| - 1], i);
      }
    }
  }

  /** A forecast made later never leaks into an earlier outcome. */
  lemma {:induction false} JoinedWasInForce(log: seq<Logged>, i: nat)
    requires JoinPrefix(log).Some? && i < |JoinPrefix(log).value.rows|
    ensures WasInForce(log, JoinPrefix(log).value.rows[i])
  {
    hide TryProject, JoinAll, InForce, EventsOf;
    var n := |log| - 1;
    var before := JoinPrefix(log[..n]).value;
    if i < |before.rows| {
      JoinedWasInForce(log[..n], i);
      PrefixStable(log, n);
      var row := before.rows[i];
      assert log[..n][..row.index] == log[..row.index];
    } else {
      var session := TryProject(EventsOf(log[..n])).value.sessions[log[n].session];
      JoinAllInForce(before, n, log[n], session, log[n].outcomes, i);
    }
  }

  // ---- logs the transitions record -------------------------------------------------------------

  /** The observation recorded its outcomes against the forecasts in force, as `finish` does: the
      forecast of the outcome's own subject, or none. */
  predicate Matched(l: Logged, session: Session) {
    l.Recorded? ==>
      forall i :: 0 <= i < |l.outcomes| ==>
        l.outcomes[i].forecast == Forecast(l.session, session, l.outcomes[i].candidate, l.outcomes[i].criterion)
  }

  predicate Faithful(log: seq<Logged>) {
    forall n :: 0 <= n < |log| && log[n].Recorded? ==> MatchedAt(log, n)
  }

  predicate MatchedAt(log: seq<Logged>, n: nat)
    requires n < |log|
  {
    var state := TryProject(EventsOf(log[..n]));
    state.Some? && log[n].Recorded? && log[n].session in state.value.sessions ==>
        Matched(log[n], state.value.sessions[log[n].session])
  }

  predicate OwnSubject(row: JoinRow) {
    row.forecast.Some? ==>
      row.forecast.value.candidate == row.key.candidate && row.forecast.value.criterion.id == row.key.criterion
  }

  predicate AllOwn(j: Joined) {
    forall i :: 0 <= i < |j.rows| ==> OwnSubject(j.rows[i])
  }

  lemma {:induction false} JoinAllFaithful(j: Joined, index: nat, l: Logged, session: Session, outcomes: seq<Outcome>)
    requires l.Recorded? && j.unjoined == [] && AllOwn(j)
    requires forall i :: 0 <= i < |outcomes| ==>
               outcomes[i].forecast == Forecast(l.session, session, outcomes[i].candidate, outcomes[i].criterion)
    ensures JoinAll(j, index, l, session, outcomes).unjoined == [] && AllOwn(JoinAll(j, index, l, session, outcomes))
  {
    hide Forecast;
    if outcomes != [] {
      JoinAllFaithful(j, index, l, session, outcomes[..|outcomes| - 1]);
    }
  }

  /** On a log whose outcomes were matched when recorded, nothing is left unjoined and every
      joined forecast is the one made for that row's own candidate and criterion. */
  lemma {:induction false} FaithfulJoinsAll(log: seq<Logged>)
    requires Faithful(log)
    ensures JoinPrefix(log).Some? ==> JoinPrefix(log).value.unjoined == [] && AllOwn(JoinPrefix(log).value)
  {
    hide TryProject, JoinAll, Matched, AllOwn;
    if log == [] {
      NothingIsOwn();
    } else if JoinPrefix(log).Some? {
      var n := |log| - 1;
      assert Faithful(log[..n]) by { FaithfulPrefix(log, n); }
      FaithfulJoinsAll(log[..n]);
      if log[n].Recorded? {
        var session := TryProject(EventsOf(log[..n])).value.sessions[log[n].session];
        assert MatchedAt(log, n);
        MatchedOutcomes(log[n], session);
        JoinAllFaithful(JoinPrefix(log[..n]).value, n, log[n], session, log[n].outcomes);
      }
    }
  }

  lemma NothingIsOwn()
    ensures AllOwn(NOTHING)
  {
  }

  lemma MatchedOutcomes(l: Logged, session: Session)
    requires l.Recorded? && Matched(l, session)
    ensures forall i :: 0 <= i < |l.outcomes| ==>
              l.outcomes[i].forecast == Forecast(l.session, session, l.outcomes[i].candidate, l.outcomes[i].criterion)
  {
  }

  lemma FaithfulPrefix(log: seq<Logged>, n: nat)
    requires Faithful(log) && n <= |log|
    ensures Faithful(log[..n])
  {
    hide TryProject, Matched;
    forall m | 0 <= m < n && log[..n][m].Recorded? ensures MatchedAt(log[..n], m) {
      assert MatchedAt(log, m) && log[..n][..m] == log[..m];
    }
  }

  /** `match_actual` for a measured value. */
  function Verdict(f: Frozen, value: real, unit: string, context: string): string {
    if !f.applicable || f.madeUnder != context then "inapplicable"
    else match f.prediction
      case Judged(_) => "not-comparable"
      case Forecast(low, high) =>
        if f.criterion.unit != unit then "not-comparable" else if low <= value <= high then "within" else "outside"
  }

  /** One measurement matched to the forecast in force for its subject. */
  function OutcomeFor(id: string, session: Session, m: Measured): Outcome {
    var f := Forecast(id, session, m.candidate, m.criterion);
    Outcome(m.candidate, m.criterion, f,
            if f.None? then "unknown" else Verdict(f.value, m.value, f.value.criterion.unit, session.context))
  }

  function OutcomesFor(id: string, session: Session, ms: seq<Measured>): seq<Outcome> {
    seq(|ms|, i requires 0 <= i < |ms| => OutcomeFor(id, session, ms[i]))
  }

  /** `outcomes_for`: the loop over the measurements. */
  method MatchMeasurements(id: string, session: Session, ms: seq<Measured>) returns (r: seq<Outcome>)
    ensures r == OutcomesFor(id, session, ms)
  {
    hide OutcomeFor;
    r := [];
    for i := 0 to |ms|
      invariant r == OutcomesFor(id, session, ms[..i])
    {
      r := r + [OutcomeFor(id, session, ms[i])];
    }
    assert ms[..|ms|] == ms;
  }

  /** A log the transitions can build: each entry records a permitted event, and an observation
      carries the outcomes matched against the session it was made in. */
  ghost predicate Built(log: seq<Logged>) {
    log == []
    || (Built(log[..|log| - 1]) && Projectable(EventsOf(log[..|log| - 1]))
        && Entered(Projection(EventsOf(log[..|log| - 1])), Last(log)))
  }

  ghost predicate Entered(s: State, l: Logged) {
    match l
    case Elsewhere => true
    case Plain(e) => Safety.Permitted(s, e)
    case Recorded(k, o, _, outcomes) =>
      Safety.Permitted(s, Observed(k, o)) && k in s.sessions
        && outcomes == OutcomesFor(k, s.sessions[k], o.measurements)
  }

  lemma {:induction false} BuiltIsRecorded(log: seq<Logged>)
    requires Built(log)
    ensures Safety.Recorded(EventsOf(log)) && Projectable(EventsOf(log))
  {
    hide Safety.Permitted, Apply, Applies, OutcomesFor;
    if log != [] {
      var before, l := log[..|log| - 1], Last(log);
      BuiltIsRecorded(before);
      if EventOf(l) == [] {
        assert EventsOf(log) == EventsOf(before);
      } else {
        assert EventsOf(log)[..|EventsOf(log)| - 1] == EventsOf(before);
      }
    }
    Safety.RecordedInv(EventsOf(log));
  }

  /** So a log the transitions build projects, joins every outcome, and joins it to the forecast that
      was in force for the outcome's own candidate and criterion. */
  lemma {:induction false} BuiltJoinsOwn(log: seq<Logged>)
    requires Built(log)
    ensures Faithful(log) && Join(log).Some?
    ensures Join(log).value.unjoined == [] && AllOwn(Join(log).value)
    ensures |Join(log).value.rows| + Join(log).value.duplicates == OutcomeCount(log)
  {
    BuiltIsFaithful(log);
    BuiltIsRecorded(log);
    hide TryProject, EventsOf, JoinPrefix, Built, AllOwn, Faithful;
    FaithfulJoinsAll(log);
    JoinConserves(log);
  }

  lemma {:induction false} BuiltIsFaithful(log: seq<Logged>)
    requires Built(log)
    ensures Faithful(log) && JoinPrefix(log).Some?
  {
    hide Safety.Permitted, TryProject, EventsOf, JoinAll, OutcomesFor, Matched;
    if log != [] {
      var m := |log| - 1;
      BuiltIsFaithful(log[..m]);
      var s := Projection(EventsOf(log[..m]));
      if log[m].Recorded? {
        OutcomesMatch(log[m], s.sessions[log[m].session]);
      }
      forall n | 0 <= n < |log| && log[n].Recorded?
        ensures MatchedAt(log, n)
      {
        if n < m {
          assert MatchedAt(log[..m], n) && log[..m][..n] == log[..n];
        }
      }
    }
  }

  lemma OutcomesMatch(l: Logged, session: Session)
    requires l.Recorded? && l.outcomes == OutcomesFor(l.session, session, l.observation.measurements)
    ensures Matched(l, session)
  {
    hide Forecast, Verdict;
  }

  // ---- whose forecast is joined ------------------------------------------------------------------------------------

  function KeyOf(l: Logged, o: Outcome): Key
    requires l.Recorded?
  {
    Key(l.session, l.receipt, o.candidate, o.criterion)
  }

  /** The outcome names a forecast in force that was made for another candidate or criterion. */
  predicate Borrows(id: string, session: Session, o: Outcome) {
    && o.forecast.Some? && InForce(id, session, o.forecast.value)
    && (o.forecast.value.candidate != o.candidate || o.forecast.value.criterion.id != o.criterion)
  }

  /** One of the first i outcomes of the entry has the key. */
  predicate KeyedWithin(l: Logged, i: nat, key: Key)
    requires l.Recorded? && i <= |l.outcomes|
  {
    exists k :: 0 <= k < i && KeyOf(l, l.outcomes[k]) == key
  }

  predicate EntryKeyed(l: Logged, key: Key) {
    l.Recorded? && KeyedWithin(l, |l.outcomes|, key)
  }

  /** Some outcome of the log has the key. */
  predicate Keyed(log: seq<Logged>, key: Key) {
    exists n :: 0 <= n < |log| && EntryKeyed(log[n], key)
  }

  /** Outcome i of entry n is the first recorded under its key, and borrows a forecast in force in
      the session as the entries before it left it. */
  predicate FirstBorrows(log: seq<Logged>, n: nat, i: nat) {
    && n < |log| && log[n].Recorded? && i < |log[n].outcomes|
    && !Keyed(log[..n], KeyOf(log[n], log[n].outcomes[i])) && !KeyedWithin(log[n], i, KeyOf(log[n], log[n].outcomes[i]))
    && var state := TryProject(EventsOf(log[..n]));
       state.Some? && log[n].session in state.value.sessions
       && Borrows(log[n].session, state.value.sessions[log[n].session], log[n].outcomes[i])
  }

  /** The same for one observation joined onto the keys seen before it. */
  predicate BorrowsHere(seen: set<Key>, l: Logged, session: Session, i: nat)
    requires l.Recorded? && i < |l.outcomes|
  {
    var o := l.outcomes[i];
    KeyOf(l, o) !in seen && !KeyedWithin(l, i, KeyOf(l, o)) && Borrows(l.session, session, o)
  }

  lemma OutcomeOwn(j: Joined, index: nat, l: Logged, session: Session, o: Outcome)
    requires l.Recorded?
    ensures var r := JoinOutcome(j, index, l, session, o);
            && r.seen == j.seen + {KeyOf(l, o)}
            && (AllOwn(r) <==> AllOwn(j) && !(KeyOf(l, o) !in j.seen && Borrows(l.session, session, o)))
  {
    hide InForce;
    var r := JoinOutcome(j, index, l, session, o);
    assert forall i :: 0 <= i < |j.rows| ==> r.rows[i] == j.rows[i];
    if |r.rows| > |j.rows| {
      assert OwnSubject(r.rows[|j.rows|]) <==> !Borrows(l.session, session, o);
    }
  }

  /** One observation: the keys its outcomes add, and when every joined forecast is the row's own. */
  lemma {:induction false} ObservationOwn(j: Joined, index: nat, l: Logged, session: Session, n: nat)
    requires l.Recorded? && n <= |l.outcomes|
    ensures var r := JoinAll(j, index, l, session, l.outcomes[..n]);
            && (forall key :: key in r.seen <==> key in j.seen || KeyedWithin(l, n, key))
            && (AllOwn(r) <==> AllOwn(j) && forall i :: 0 <= i < n ==> !BorrowsHere(j.seen, l, session, i))
  {
    hide AllOwn, Borrows, JoinOutcome;
    if n == 0 {
      assert JoinAll(j, index, l, session, l.outcomes[..0]) == j;
    } else {
      var before, o := JoinAll(j, index, l, session, l.outcomes[..n - 1]), l.outcomes[n - 1];
      ObservationOwn(j, index, l, session, n - 1);
      assert l.outcomes[..n][..n - 1] == l.outcomes[..n - 1];
      OutcomeOwn(before, index, l, session, o);
      assert JoinAll(j, index, l, session, l.outcomes[..n]) == JoinOutcome(before, index, l, session, o);
      assert forall key :: KeyedWithin(l, n, key) <==> KeyedWithin(l, n - 1, key) || KeyOf(l, o) == key;
      assert BorrowsHere(j.seen, l, session, n - 1) <==> KeyOf(l, o) !in before.seen && Borrows(l.session, session, o);
    }
  }

  ghost predicate SeenAreKeyed(seen: set<Key>, log: seq<Logged>) {
    forall key :: key in seen <==> Keyed(log, key)
  }

  lemma KeyedGrows(log: seq<Logged>, key: Key)
    requires log != []
    ensures Keyed(log, key) <==> Keyed(log[..|log| - 1], key) || EntryKeyed(Last(log), key)
  {
    hide EntryKeyed;
    var m := |log| - 1;
    if n :| 0 <= n < |log| && EntryKeyed(log[n], key) {
      assert n < m ==> log[..m][n] == log[n];
    }
    if n :| 0 <= n < m && EntryKeyed(log[..m][n], key) {
      assert log[n] == log[..m][n];
    }
  }

  /** An entry before the last borrows in the whole log exactly when it did in the log up to the last. */
  lemma BorrowsEarlier(log: seq<Logged>, n: nat, i: nat)
    requires n + 1 < |log|
    ensures FirstBorrows(log, n, i) <==> FirstBorrows(log[..|log| - 1], n, i)
  {
    hide TryProject, EventsOf, Keyed, KeyedWithin, Borrows;
    assert log[..|log| - 1][..n] == log[..n];
  }

  lemma LastEntryOwn(log: seq<Logged>)
    requires log != [] && JoinPrefix(log).Some?
    requires SeenAreKeyed(JoinPrefix(log[..|log| - 1]).value.seen, log[..|log| - 1])
    ensures var m := |log| - 1;
            var before, after := JoinPrefix(log[..m]).value, JoinPrefix(log).value;
            && (AllOwn(after) <==> AllOwn(before) && forall i: nat :: !FirstBorrows(log, m, i))
            && (forall key :: key in after.seen <==> key in before.seen || EntryKeyed(log[m], key))
  {
    hide AllOwn, TryProject, EventsOf, JoinAll, Keyed, KeyedWithin, Borrows;
    var m := |log| - 1;
    if log[m].Recorded? {
      var l, before := log[m], JoinPrefix(log[..m]).value;
      var session := TryProject(EventsOf(log[..m])).value.sessions[l.session];
      ObservationOwn(before, m, l, session, |l.outcomes|);
      assert l.outcomes[..|l.outcomes|] == l.outcomes;
      assert forall i: nat :: FirstBorrows(log, m, i) <==> i < |l.outcomes| && BorrowsHere(before.seen, l, session, i);
    }
  }

  /** Every joined forecast is the row's own subject's exactly when no outcome that is the first of
      its key names a forecast in force of another subject; and the keys seen are those recorded. */
  lemma {:induction false} BorrowedIff(log: seq<Logged>)
    requires JoinPrefix(log).Some?
    ensures AllOwn(JoinPrefix(log).value) <==> forall n: nat, i: nat :: !FirstBorrows(log, n, i)
    ensures SeenAreKeyed(JoinPrefix(log).value.seen, log)
  {
    hide AllOwn, TryProject, EventsOf, JoinAll, Borrows, Keyed, EntryKeyed, KeyedWithin;
    if log == [] {
      NothingIsOwn();
      NothingBorrows();
    } else {
      var m := |log| - 1;
      BorrowedIff(log[..m]);
      forall key ensures Keyed(log, key) <==> Keyed(log[..m], key) || EntryKeyed(log[m], key) {
        KeyedGrows(log, key);
      }
      forall n: nat, i: nat | n < m
        ensures FirstBorrows(log, n, i) <==> FirstBorrows(log[..m], n, i)
      {
        BorrowsEarlier(log, n, i);
      }
      LastEntryOwn(log);
      assert forall n: nat, i: nat :: n > m ==> !FirstBorrows(log, n, i);
      assert forall n: nat, i: nat :: n >= m ==> !FirstBorrows(log[..m], n, i);
    }
  }

  lemma NothingBorrows()
    ensures forall n: nat, i: nat :: !FirstBorrows([], n, i)
    ensures forall key :: !Keyed([], key)
  {
  }

  /** Every outcome that names a forecast names its own subject's. */
  predicate NamesOwn(l: Logged) {
    l.Recorded? ==> forall i :: 0 <= i < |l.outcomes| ==> OwnForecast(l.outcomes[i])
  }

  predicate OwnForecast(o: Outcome) {
    o.forecast.Some? ==> o.forecast.value.candidate == o.candidate && o.forecast.value.criterion.id == o.criterion
  }

  /** What a caller can check of any log beforehand: then nothing is borrowed, however it was recorded. */
  lemma OwnNamesJoinOwn(log: seq<Logged>)
    requires JoinPrefix(log).Some? && forall n :: 0 <= n < |log| ==> NamesOwn(log[n])
    ensures AllOwn(JoinPrefix(log).value)
  {
    BorrowedIff(log);
    hide TryProject, EventsOf, JoinPrefix, Keyed, KeyedWithin, AllOwn, InForce;
    forall n: nat, i: nat
      ensures !FirstBorrows(log, n, i)
    {
      if n < |log| && log[n].Recorded? && i < |log[n].outcomes| {
        assert NamesOwn(log[n]) && OwnForecast(log[n].outcomes[i]);
      }
    }
  }

  const TIME := Criterion("time", CriterionKind.Measurement, "ms", None)

  const TWO_CANDIDATES := [
    Candidate("A", "f", true, [], map["time" := Prediction.Forecast(1.0, 2.0)], None, "ctx"),
    Candidate("B", "g", false, [], map["time" := Prediction.Forecast(3.0, 4.0)], None, "ctx")]

  const FORECAST_OF_A := Frozen("s", "A", TIME, Prediction.Forecast(1.0, 2.0), "ctx", Registration, 1, true)

  /** A session with two candidates and one reservation. */
  const SETUP: seq<Logged> := [
    Plain(Opened("s", Policy([TIME], ["time"], Limits(1, 1.0, 1), 2, 1), "ctx", "spec", 1)),
    Plain(CandidatesAdded("s", [], TWO_CANDIDATES)),
    Plain(Event.Reserved("s", "r", Reservation(0, 0.0, 1, [], 1, "ctx", Pending)))]

  /** Candidate B's outcome names candidate A's forecast. */
  const BORROWING := Logged.Recorded("s", Observation("r", Complete, 1, "ctx", [], [], None), "receipt",
                                     [Outcome("B", "time", Some(FORECAST_OF_A), "within")])

  lemma PlainStep(log: seq<Logged>, e: Event, s: State)
    requires TryProject(EventsOf(log)) == Some(s) && Applies(s, e) && JoinPrefix(log) == Some(NOTHING)
    ensures TryProject(EventsOf(log + [Plain(e)])) == Some(Apply(s, e)) && JoinPrefix(log + [Plain(e)]) == Some(NOTHING)
  {
    hide Apply, Applies;
    var more, events := log + [Plain(e)], EventsOf(log);
    assert more[..|log|] == log;
    assert EventsOf(more) == events + [e];
    assert (events + [e])[..|events|] == events;
  }

  lemma SetupProjects()
    ensures TryProject(EventsOf(SETUP)).Some? && JoinPrefix(SETUP) == Some(NOTHING)
    ensures var s := TryProject(EventsOf(SETUP)).value;
            "s" in s.sessions && s.sessions["s"].candidates == TWO_CANDIDATES
              && s.sessions["s"].policy.criteria == [TIME]
            && s.sessions["s"].assessments == [] && s.sessions["s"].context == "ctx" && s.sessions["s"].round == 1
  {
    var e0, e1, e2 := SETUP[0].event, SETUP[1].event, SETUP[2].event;
    PlainStep([], e0, EMPTY);
    var s0 := Apply(EMPTY, e0);
    PlainStep([] + [Plain(e0)], e1, s0);
    var s1 := Apply(s0, e1);
    assert [] + TWO_CANDIDATES == TWO_CANDIDATES && Restamped(TWO_CANDIDATES, "ctx") == TWO_CANDIDATES;
    assert s1.sessions["s"].candidates == TWO_CANDIDATES;
    PlainStep([] + [Plain(e0)] + [Plain(e1)], e2, s1);
    hide TryProject, JoinPrefix, EventsOf;
    assert [] + [Plain(e0)] + [Plain(e1)] + [Plain(e2)] == SETUP;
  }

  lemma ForecastOfAInForce(session: Session)
    requires session.candidates == TWO_CANDIDATES && session.policy.criteria == [TIME]
    requires session.assessments == [] && session.context == "ctx" && session.round == 1
    ensures InForce("s", session, FORECAST_OF_A)
  {
    assert TWO_CANDIDATES[..1] == [TWO_CANDIDATES[0]];
    assert Exploration.CandidateAt([TWO_CANDIDATES[0]], "A") == Some(TWO_CANDIDATES[0]);
    assert Exploration.CandidateAt(TWO_CANDIDATES, "A") == Some(TWO_CANDIDATES[0]);
  }

  /** So one candidate's outcome can be scored against another's forecast. */
  lemma BorrowedForecastIsJoined()
    ensures JoinPrefix(SETUP + [BORROWING]).Some? && !AllOwn(JoinPrefix(SETUP + [BORROWING]).value)
  {
    SetupProjects();
    hide EventsOf, TryProject, Forecast, InForce;
    var log := SETUP + [BORROWING];
    assert log[..3] == SETUP;
    var session := TryProject(EventsOf(SETUP)).value.sessions["s"];
    ForecastOfAInForce(session);
    assert BORROWING.outcomes[..0] == [];
    assert JoinAll(NOTHING, 3, BORROWING, session, BORROWING.outcomes)
           == JoinOutcome(NOTHING, 3, BORROWING, session, BORROWING.outcomes[0]);
    assert !OwnSubject(JoinPrefix(log).value.rows[0]);
  }
}
