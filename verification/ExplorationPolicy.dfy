/** Admitting claims and candidates, and comparing candidates by evidence intervals in the
    registered priority order. */
module ExplorationPolicy {
  import opened Graphs
  import opened ExplorationRecords
  import opened Wrappers

  // ---- evidence values ------------------------------------------------------------------------------

  datatype ValueKind = PredictedValue | JudgedValue | StaleValue | MeasuredValue

  datatype Value = Value(low: real, high: real, kind: ValueKind)

  type Values = map<string, Value>

  function CriterionIds(p: Policy): set<string> {
    set i | 0 <= i < |p.criteria| :: p.criteria[i].id
  }

  function RankOf(a: Assessed): (real, real) {
    match a
    case Favourable => (0.0, 0.0)
    case Mixed => (1.0, 1.0)
    case Adverse => (2.0, 2.0)
    case Unknown => (0.0, 2.0)
  }

  function ValueOf(p: Prediction, stale: bool): Value {
    if stale then Value(0.0, 1000000000.0, StaleValue)
    else match p
      case Forecast(low, high) => Value(low, high, PredictedValue)
      case Judged(a) => Value(RankOf(a).0, RankOf(a).1, JudgedValue)
  }

  /** The assessment of the current round wins over the registration; the last one counts. */
  function InForce(session: Session, c: Candidate, n: nat): (r: (Predictions, bool))
    requires n <= |session.assessments|
  {
    if n == 0 then (c.predictions, c.madeUnder != session.context)
    else
      var a := session.assessments[n - 1];
      if a.round == session.round && c.id in a.candidates then (a.candidates[c.id], false)
      else InForce(session, c, n - 1)
  }

  function Predicted(session: Session, c: Candidate): Values {
    var r := InForce(session, c, |session.assessments|);
    map k | k in r.0 :: ValueOf(r.0[k], r.1)
  }

  predicate Counts(session: Session, o: Observation) {
    o.status == Complete && o.round == session.round && o.context == session.context
  }

  function WithMeasurements(values: Values, ms: seq<Measured>, id: string): Values {
    if ms == [] then values
    else
      var before := WithMeasurements(values, ms[..|ms| - 1], id);
      var m := Last(ms);
      if m.candidate == id then before[m.criterion := Value(m.value, m.value, MeasuredValue)] else before
  }

  function WithObservations(session: Session, values: Values, n: nat, id: string): Values
    requires n <= |session.observations|
  {
    if n == 0 then values
    else
      var before := WithObservations(session, values, n - 1, id);
      var o := session.observations[n - 1];
      if Counts(session, o) then WithMeasurements(before, o.measurements, id) else before
  }

  /** Predictions, then measurements of this round and context over them. */
  function ValuesOf(session: Session, c: Candidate): Values {
    WithObservations(session, Predicted(session, c), |session.observations|, c.id)
  }

  /** Every criterion has a value for every candidate; assessments cover what they name. */
  predicate FullyValued(session: Session) {
    && (forall c :: c in session.candidates ==> c.predictions.Keys == CriterionIds(session.policy))
    && (forall a, id :: a in session.assessments && id in a.candidates ==>
          a.candidates[id].Keys == CriterionIds(session.policy))
    && Members(session.policy.priorities) == CriterionIds(session.policy)
  }

  lemma {:induction false} InForceComplete(session: Session, c: Candidate, n: nat)
    requires FullyValued(session) && c in session.candidates && n <= |session.assessments|
    ensures InForce(session, c, n).0.Keys == CriterionIds(session.policy)
  {
    if n > 0 {
      InForceComplete(session, c, n - 1);
      assert session.assessments[n - 1] in session.assessments;
    }
  }

  lemma {:induction false} WithMeasurementsKeeps(values: Values, ms: seq<Measured>, id: string)
    ensures values.Keys <= WithMeasurements(values, ms, id).Keys
  {
    if ms != [] {
      WithMeasurementsKeeps(values, ms[..|ms| - 1], id);
    }
  }

  lemma {:induction false} WithObservationsKeeps(session: Session, values: Values, n: nat, id: string)
    requires n <= |session.observations|
    ensures values.Keys <= WithObservations(session, values, n, id).Keys
  {
    if n > 0 {
      WithObservationsKeeps(session, values, n - 1, id);
      WithMeasurementsKeeps(WithObservations(session, values, n - 1, id), session.observations[n - 1].measurements, id);
    }
  }

  lemma ValuesComplete(session: Session, c: Candidate)
    requires FullyValued(session) && c in session.candidates
    ensures CriterionIds(session.policy) <= ValuesOf(session, c).Keys
  {
    InForceComplete(session, c, |session.assessments|);
    WithObservationsKeeps(session, Predicted(session, c), |session.observations|, c.id);
  }

  // ---- the comparison ---------------------------------------------------------------------------------

  datatype RowStatus = RejectedAssumption | ScreenedOut | Viable

  datatype Row = Row(values: Values, status: RowStatus, conflicts: set<string>, uncertain: set<string>,
                     challenged: set<string>)

  datatype Comparison = Comparison(rows: map<string, Row>, preferred: Option<string>, sufficient: bool)

  function Having(claims: map<string, Claim>, status: ClaimStatus): set<string> {
    set k | k in claims && claims[k].status == status
  }

  /** Ceilings already exceeded by the low end. */
  function Conflicts(p: Policy, values: Values): set<string>
    requires CriterionIds(p) <= values.Keys
  {
    set i | 0 <= i < |p.criteria| && p.criteria[i].ceiling.Some?
            && values[p.criteria[i].id].low > p.criteria[i].ceiling.value :: p.criteria[i].id
  }

  /** Ceilings the interval straddles. */
  function Uncertain(p: Policy, values: Values): set<string>
    requires CriterionIds(p) <= values.Keys
  {
    set i | 0 <= i < |p.criteria| && p.criteria[i].ceiling.Some?
            && values[p.criteria[i].id].low <= p.criteria[i].ceiling.value < values[p.criteria[i].id].high
            :: p.criteria[i].id
  }

  function RowOf(claims: map<string, Claim>, session: Session, c: Candidate): Row
    requires FullyValued(session) && c in session.candidates
  {
    ValuesComplete(session, c);
    var values := ValuesOf(session, c);
    var invalid := Affected(claims, Having(claims, Invalidated));
    var challenged := Affected(claims, Having(claims, Challenged));
    var conflicts := Conflicts(session.policy, values);
    Row(values,
        if invalid * Members(c.claimIds) != {} then RejectedAssumption
        else if conflicts != {} then ScreenedOut else Viable,
        conflicts, Uncertain(session.policy, values), challenged * Members(c.claimIds))
  }

  /** Every row of the candidates is there and values every priority. */
  predicate Valued(rows: map<string, Row>, ids: seq<string>, priorities: seq<string>) {
    forall id :: id in ids ==> id in rows && Members(priorities) <= rows[id].values.Keys
  }

  function Midpoint(v: Value): real {
    (v.low + v.high) / 2.0
  }

  /** Tuple order of the midpoints. */
  predicate MidpointsBelow(a: Values, b: Values, priorities: seq<string>)
    requires Members(priorities) <= a.Keys && Members(priorities) <= b.Keys
  {
    priorities != []
    && (assert priorities[0] in Members(priorities);
        assert Members(priorities[1..]) <= Members(priorities);
        Midpoint(a[priorities[0]]) < Midpoint(b[priorities[0]])
        || (Midpoint(a[priorities[0]]) == Midpoint(b[priorities[0]]) && MidpointsBelow(a, b, priorities[1..])))
  }

  /** The head of the stable sort by midpoints: the earliest least candidate. */
  function FirstLeast(rows: map<string, Row>, ids: seq<string>, priorities: seq<string>): (r: Option<string>)
    requires Valued(rows, ids, priorities)
    ensures r.None? <==> ids == []
    ensures r.Some? ==> r.value in ids
  {
    if ids == [] then None
    else
      var before := FirstLeast(rows, ids[..|ids| - 1], priorities);
      if before.None? || MidpointsBelow(rows[Last(ids)].values, rows[before.value].values, priorities)
        then Some(Last(ids))
      else before
  }

  predicate Fixed(a: Value, b: Value) {
    a.low == a.high == b.low == b.high
  }

  /** The priority walk: one interval wholly below the other, after equal known values only. */
  predicate Distinguishes(a: Values, b: Values, priorities: seq<string>)
    requires Members(priorities) <= a.Keys && Members(priorities) <= b.Keys
  {
    priorities != []
    && (assert priorities[0] in Members(priorities);
        assert Members(priorities[1..]) <= Members(priorities);
        var left, right := a[priorities[0]], b[priorities[0]];
        left.high < right.low || (Fixed(left, right) && Distinguishes(a, b, priorities[1..])))
  }

  function Ids(candidates: seq<Candidate>): (r: seq<string>)
    ensures |r| == |candidates| && forall i :: 0 <= i < |candidates| ==> r[i] == candidates[i].id
  {
    seq(|candidates|, i requires 0 <= i < |candidates| => candidates[i].id)
  }

  function RowsUpTo(claims: map<string, Claim>, session: Session, n: nat): (r: map<string, Row>)
    requires FullyValued(session) && n <= |session.candidates|
    ensures r.Keys == Members(Ids(session.candidates)[..n])
  {
    if n == 0 then map[]
    else
      assert Ids(session.candidates)[..n] == Ids(session.candidates)[..n - 1] + [session.candidates[n - 1].id];
      var c := session.candidates[n - 1];
      RowsUpTo(claims, session, n - 1)[c.id := RowOf(claims, session, c)]
  }

  function ViableIds(rows: map<string, Row>, ids: seq<string>): (r: seq<string>)
    requires forall id :: id in ids ==> id in rows
    ensures forall id :: id in r <==> id in ids && rows[id].status == Viable
  {
    if ids == [] then []
    else ViableIds(rows, ids[..|ids| - 1]) + (if rows[Last(ids)].status == Viable then [Last(ids)] else [])
  }

  lemma {:induction false} RowsValued(claims: map<string, Claim>, session: Session, n: nat)
    requires FullyValued(session) && n <= |session.candidates|
    ensures Valued(RowsUpTo(claims, session, n), Ids(session.candidates)[..n], session.policy.priorities)
    ensures forall id :: id in RowsUpTo(claims, session, n) ==>
              exists i :: 0 <= i < n && session.candidates[i].id == id
                          && RowsUpTo(claims, session, n)[id] == RowOf(claims, session, session.candidates[i])
  {
    if n > 0 {
      RowsValued(claims, session, n - 1);
      ValuesComplete(session, session.candidates[n - 1]);
      assert Ids(session.candidates)[..n] == Ids(session.candidates)[..n - 1] + [session.candidates[n - 1].id];
    }
  }

  /** The preferred candidate is distinguished from every other viable one. */
  predicate Separated(rows: map<string, Row>, viable: seq<string>, best: string, priorities: seq<string>)
    requires Valued(rows, viable, priorities) && best in viable
  {
    forall id :: id in viable && id != best ==> Distinguishes(rows[best].values, rows[id].values, priorities)
  }

  /** `comparison` */
  function Compare(claims: map<string, Claim>, session: Session): Comparison
    requires FullyValued(session)
  {
    var n := |session.candidates|;
    var rows := RowsUpTo(claims, session, n);
    var ids := Ids(session.candidates);
    RowsValued(claims, session, n);
    assert ids[..n] == ids;
    var viable := ViableIds(rows, ids);
    var priorities := session.policy.priorities;
    var preferred := FirstLeast(rows, viable, priorities);
    var judged := exists i :: 0 <= i < |session.policy.criteria| && session.policy.criteria[i].kind == Judgment;
    var supported := preferred.Some?
      && Separated(rows, viable, preferred.value, priorities)
      && rows[preferred.value].uncertain == {} && rows[preferred.value].challenged == {} && !judged;
    Comparison(rows, preferred, supported)
  }

  /** The dictionary-filling loops for one candidate. */
  method FillValues(session: Session, c: Candidate) returns (values: Values)
    ensures values == ValuesOf(session, c)
  {
    var predictions, stale := c.predictions, c.madeUnder != session.context;
    for i := 0 to |session.assessments|
      invariant (predictions, stale) == InForce(session, c, i)
    {
      var a := session.assessments[i];
      if a.round == session.round && c.id in a.candidates {
        predictions, stale := a.candidates[c.id], false;
      }
    }
    values := map k | k in predictions :: ValueOf(predictions[k], stale);
    for i := 0 to |session.observations|
      invariant values == WithObservations(session, Predicted(session, c), i, c.id)
    {
      var o := session.observations[i];
      if Counts(session, o) {
        ghost var start := values;
        for j := 0 to |o.measurements|
          invariant values == WithMeasurements(start, o.measurements[..j], c.id)
        {
          assert o.measurements[..j + 1][..j] == o.measurements[..j];
          var m := o.measurements[j];
          if m.candidate == c.id {
            values := values[m.criterion := Value(m.value, m.value, MeasuredValue)];
          }
        }
        assert o.measurements[..|o.measurements|] == o.measurements;
      }
    }
  }

  /** The walk over the priorities for one rival, with its break. */
  method WalkPriorities(left: Values, right: Values, priorities: seq<string>) returns (distinguishes: bool)
    requires Members(priorities) <= left.Keys && Members(priorities) <= right.Keys
    ensures distinguishes <==> Distinguishes(left, right, priorities)
  {
    distinguishes := false;
    for i := 0 to |priorities|
      invariant !distinguishes
      invariant Members(priorities[i..]) <= left.Keys && Members(priorities[i..]) <= right.Keys
      invariant Distinguishes(left, right, priorities) <==> Distinguishes(left, right, priorities[i..])
    {
      assert priorities[i..][0] == priorities[i] && priorities[i..][1..] == priorities[i + 1..];
      assert priorities[i] in Members(priorities[i..]);
      assert Members(priorities[i + 1..]) <= Members(priorities[i..]);
      var l, r := left[priorities[i]], right[priorities[i]];
      if l.high < r.low {
        distinguishes := true;
        break;
      }
      if !Fixed(l, r) {
        break;
      }
    }
  }

  /** One candidate's row. */
  method FillRow(claims: map<string, Claim>, session: Session, c: Candidate,
                 invalid: set<string>, challenged: set<string>)
    returns (row: Row)
    requires FullyValued(session) && c in session.candidates
    requires invalid == Affected(claims, Having(claims, Invalidated))
    requires challenged == Affected(claims, Having(claims, Challenged))
    ensures row == RowOf(claims, session, c)
  {
    hide ValuesOf, Affected, FullyValued, Having, Conflicts, Uncertain;
    var values := FillValues(session, c);
    ValuesComplete(session, c);
    var conflicts := Conflicts(session.policy, values);
    var status := if invalid * Members(c.claimIds) != {} then RejectedAssumption
                  else if conflicts != {} then ScreenedOut else Viable;
    row := Row(values, status, conflicts, Uncertain(session.policy, values), challenged * Members(c.claimIds));
  }

  /** The rows of the comparison, candidate by candidate. */
  method FillRows(claims: map<string, Claim>, session: Session) returns (rows: map<string, Row>)
    requires FullyValued(session)
    ensures rows == RowsUpTo(claims, session, |session.candidates|)
  {
    hide RowOf, Affected, FullyValued, Having;
    var invalid := AffectedClaims(claims, Having(claims, Invalidated));
    var challenged := AffectedClaims(claims, Having(claims, Challenged));
    rows := map[];
    for i := 0 to |session.candidates|
      invariant rows == RowsUpTo(claims, session, i)
    {
      var c := session.candidates[i];
      assert c in session.candidates;
      var row := FillRow(claims, session, c, invalid, challenged);
      rows := rows[c.id := row];
    }
  }

  /** `comparison`, with its rows, its midpoint order and its separation flag. */
  method RunComparison(claims: map<string, Claim>, session: Session) returns (r: Comparison)
    requires FullyValued(session)
    ensures r == Compare(claims, session)
  {
    hide RowOf, Distinguishes, RowsUpTo, Separated, ViableIds, FirstLeast;
    var rows := FillRows(claims, session);
    var ids, priorities := Ids(session.candidates), session.policy.priorities;
    RowsValued(claims, session, |session.candidates|);
    assert ids[..|session.candidates|] == ids;
    var viable := ViableIds(rows, ids);
    var preferred := FirstLeast(rows, viable, priorities);
    var separated := false;
    if preferred.Some? {
      separated := Separates(rows, viable, preferred.value, priorities);
    }
    var judged := exists i :: 0 <= i < |session.policy.criteria| && session.policy.criteria[i].kind == Judgment;
    var supported := separated && rows[preferred.value].uncertain == {}
                     && rows[preferred.value].challenged == {} && !judged;
    r := Comparison(rows, preferred, supported);
  }

  /** The flag loop over the other viable candidates. */
  method Separates(rows: map<string, Row>, viable: seq<string>, best: string, priorities: seq<string>)
    returns (separated: bool)
    requires Valued(rows, viable, priorities) && best in viable
    ensures separated <==> Separated(rows, viable, best, priorities)
  {
    hide Distinguishes;
    separated := true;
    for i := 0 to |viable|
      invariant separated <==> forall j :: 0 <= j < i && viable[j] != best ==>
                  Distinguishes(rows[best].values, rows[viable[j]].values, priorities)
    {
      assert viable[i] in viable;
      if viable[i] != best {
        var distinguishes := WalkPriorities(rows[best].values, rows[viable[i]].values, priorities);
        separated := separated && distinguishes;
      }
    }
  }

  // ---- what sufficient support means --------------------------------------------------------------------

  /** Actual outcomes, one per candidate and criterion. */
  type Outcomes = (string, string) -> real

  /** The outcomes of `id` lie inside its intervals. */
  ghost predicate Within(v: Outcomes, id: string, values: Values) {
    forall c :: c in values ==> values[c].low <= v(id, c) <= values[c].high
  }

  /** Strictly smaller in the first criterion that differs, in priority order. */
  ghost predicate LexSmaller(v: Outcomes, a: string, b: string, priorities: seq<string>) {
    exists i :: 0 <= i < |priorities| && v(a, priorities[i]) < v(b, priorities[i])
                && forall j :: 0 <= j < i ==> v(a, priorities[j]) == v(b, priorities[j])
  }

  lemma {:induction false} DistinguishedIsSmaller(v: Outcomes, a: string, b: string, left: Values, right: Values,
                                                  priorities: seq<string>)
    requires Members(priorities) <= left.Keys && Members(priorities) <= right.Keys
    requires Within(v, a, left) && Within(v, b, right) && Distinguishes(left, right, priorities)
    ensures LexSmaller(v, a, b, priorities)
  {
    var p, rest := priorities[0], priorities[1..];
    assert p in Members(priorities);
    if left[p].high >= right[p].low {
      assert Members(rest) <= Members(priorities);
      DistinguishedIsSmaller(v, a, b, left, right, rest);
      var i :| 0 <= i < |rest| && v(a, rest[i]) < v(b, rest[i]) && forall j :: 0 <= j < i ==>
          v(a, rest[j]) == v(b, rest[j]);
      assert priorities[i + 1] == rest[i];
      forall j | 0 <= j < i + 1
        ensures v(a, priorities[j]) == v(b, priorities[j])
      {
        if j > 0 { assert priorities[j] == rest[j - 1]; }
      }
    } else {
      assert v(a, priorities[0]) < v(b, priorities[0]);
    }
  }

  /** The comparison reports sufficient support, and the outcomes lie inside every interval. */
  ghost predicate SupportedWithin(claims: map<string, Claim>, session: Session, v: Outcomes)
    requires FullyValued(session)
  {
    var r := Compare(claims, session);
    r.sufficient && forall id :: id in r.rows ==> Within(v, id, r.rows[id].values)
  }

  /** The preferred candidate is strictly before every other viable one. */
  ghost predicate First(r: Comparison, priorities: seq<string>, v: Outcomes) {
    r.preferred.Some? && r.preferred.value in r.rows && r.rows[r.preferred.value].status == Viable
    && forall id :: id in r.rows && r.rows[id].status == Viable && id != r.preferred.value ==>
         LexSmaller(v, r.preferred.value, id, priorities)
  }

  ghost predicate UnderCeilings(id: string, criteria: seq<Criterion>, v: Outcomes) {
    forall i :: 0 <= i < |criteria| && criteria[i].ceiling.Some? ==> v(id, criteria[i].id) <= criteria[i].ceiling.value
  }

  /** The candidate's claims avoid the closure of everything invalidated or challenged. */
  ghost predicate RestsClear(claims: map<string, Claim>, c: Candidate) {
    && Affected(claims, Having(claims, Invalidated)) !! Members(c.claimIds)
    && Affected(claims, Having(claims, Challenged)) !! Members(c.claimIds)
  }

  /** Sufficient support is support whatever the values turn out to be: any outcomes inside the
      intervals put the preferred candidate strictly before every other viable one in the
      registered order, and keep it under every ceiling. Its claims rest on nothing
      invalidated or challenged. */
  lemma SufficientIsDominant(claims: map<string, Claim>, session: Session, v: Outcomes)
    requires FullyValued(session)
    ensures SupportedWithin(claims, session, v) ==>
              var r := Compare(claims, session);
              && First(r, session.policy.priorities, v)
              && UnderCeilings(r.preferred.value, session.policy.criteria, v)
              && exists c :: c in session.candidates && c.id == r.preferred.value && RestsClear(claims, c)
  {
    if SupportedWithin(claims, session, v) {
      hide Compare, First, UnderCeilings, RestsClear, LexSmaller;
      var k := SufficientRow(claims, session);
      PreferredUnderCeilings(claims, session, v);
      OthersAreWorse(claims, session, v);
      assert session.candidates[k] in session.candidates;
    }
  }

  lemma SufficientRow(claims: map<string, Claim>, session: Session) returns (k: nat)
    requires FullyValued(session)
    ensures Compare(claims, session).sufficient ==>
              k < |session.candidates| && RestsClear(claims, session.candidates[k])
              && Compare(claims, session).preferred == Some(session.candidates[k].id)
  {
    if !Compare(claims, session).sufficient { return 0; }
    assert Compare(claims, session).preferred.Some?;
    hide Compare, RowOf, Affected;
    k := PreferredRow(claims, session);
    ViableRow(claims, session, session.candidates[k]);
    NoCommon(Affected(claims, Having(claims, Challenged)), Members(session.candidates[k].claimIds));
  }

  lemma OthersAreWorse(claims: map<string, Claim>, session: Session, v: Outcomes)
    requires FullyValued(session)
    ensures SupportedWithin(claims, session, v) ==> First(Compare(claims, session), session.policy.priorities, v)
  {
    var r := Compare(claims, session);
    if SupportedWithin(claims, session, v) {
      assert r.preferred.Some?;
      hide Compare, LexSmaller, Distinguishes;
      var best := r.preferred.value;
      var k := PreferredRow(claims, session);
      forall id | id in r.rows && r.rows[id].status == Viable && id != best
        ensures LexSmaller(v, best, id, session.policy.priorities)
      {
        OtherDistinguished(claims, session, id);
        DistinguishedIsSmaller(v, best, id, r.rows[best].values, r.rows[id].values, session.policy.priorities);
      }
    }
  }

  lemma OtherDistinguished(claims: map<string, Claim>, session: Session, id: string)
    requires FullyValued(session)
    ensures var r := Compare(claims, session);
            r.sufficient && r.preferred.Some? && id in r.rows && r.rows[id].status == Viable
              && id != r.preferred.value ==>
              r.preferred.value in r.rows
              && Members(session.policy.priorities) <= r.rows[r.preferred.value].values.Keys
              && Members(session.policy.priorities) <= r.rows[id].values.Keys
              && Distinguishes(r.rows[r.preferred.value].values, r.rows[id].values, session.policy.priorities)
  {
    hide RowOf, Distinguishes, Members;
    var r := Compare(claims, session);
    if !(r.sufficient && r.preferred.Some? && id in r.rows && r.rows[id].status == Viable
         && id != r.preferred.value) { return; }
    var n, ids := |session.candidates|, Ids(session.candidates);
    RowsValued(claims, session, n);
    assert ids[..n] == ids;
    assert id in ids by { RowsAreCandidates(claims, session, id); }
    assert id in ViableIds(r.rows, ids);
  }

  lemma RowsAreCandidates(claims: map<string, Claim>, session: Session, id: string)
    requires FullyValued(session) && id in RowsUpTo(claims, session, |session.candidates|)
    ensures id in Ids(session.candidates)
  {
    assert Ids(session.candidates)[..|session.candidates|] == Ids(session.candidates);
  }

  /** The preferred row is a viable one, computed from one of the candidates. */
  lemma PreferredRow(claims: map<string, Claim>, session: Session) returns (k: nat)
    requires FullyValued(session)
    ensures var r := Compare(claims, session);
            r.preferred.Some? ==>
              k < |session.candidates| && session.candidates[k].id == r.preferred.value
              && r.preferred.value in r.rows
              && r.rows[r.preferred.value] == RowOf(claims, session, session.candidates[k])
              && r.rows[r.preferred.value].status == Viable
              && (r.sufficient ==>
                    r.rows[r.preferred.value].uncertain == {} && r.rows[r.preferred.value].challenged == {})
  {
    hide RowOf;
    var r := Compare(claims, session);
    if r.preferred.None? { return 0; }
    var n, ids := |session.candidates|, Ids(session.candidates);
    RowsValued(claims, session, n);
    assert ids[..n] == ids;
    assert r.preferred.value in ViableIds(r.rows, ids);
    k :| 0 <= k < n && session.candidates[k].id == r.preferred.value
         && r.rows[r.preferred.value] == RowOf(claims, session, session.candidates[k]);
  }

  /** What a viable row says of its candidate. */
  lemma ViableRow(claims: map<string, Claim>, session: Session, c: Candidate)
    requires FullyValued(session) && c in session.candidates && RowOf(claims, session, c).status == Viable
    ensures var row := RowOf(claims, session, c);
            CriterionIds(session.policy) <= row.values.Keys
            && Conflicts(session.policy, row.values) == {} && row.uncertain == Uncertain(session.policy, row.values)
            && Affected(claims, Having(claims, Invalidated)) !! Members(c.claimIds)
            && row.challenged == Affected(claims, Having(claims, Challenged)) * Members(c.claimIds)
  {
    hide Affected, Conflicts, Uncertain, ValuesOf, Having;
    ValuesComplete(session, c);
    NoCommon(Affected(claims, Having(claims, Invalidated)), Members(c.claimIds));
  }

  lemma NoCommon(a: set<string>, b: set<string>)
    ensures a * b == {} <==> a !! b
  {
    assert forall x :: x in a && x in b ==> x in a * b;
  }

  lemma UnderCeiling(p: Policy, values: Values, i: nat)
    requires CriterionIds(p) <= values.Keys && Conflicts(p, values) == {} && Uncertain(p, values) == {}
    requires i < |p.criteria| && p.criteria[i].ceiling.Some?
    ensures p.criteria[i].id in values && values[p.criteria[i].id].high <= p.criteria[i].ceiling.value
  {
    var c := p.criteria[i];
    assert c.id in CriterionIds(p);
    assert c.id !in Conflicts(p, values) && c.id !in Uncertain(p, values);
  }

  lemma PreferredUnderCeilings(claims: map<string, Claim>, session: Session, v: Outcomes)
    requires FullyValued(session)
    ensures var r := Compare(claims, session);
            SupportedWithin(claims, session, v) ==>
              r.preferred.Some? && UnderCeilings(r.preferred.value, session.policy.criteria, v)
  {
    var r := Compare(claims, session);
    if SupportedWithin(claims, session, v) {
      assert r.preferred.Some?;
      hide Compare, RowOf, Conflicts, Uncertain, Affected;
      var k := PreferredRow(claims, session);
      ViableRow(claims, session, session.candidates[k]);
      forall i | 0 <= i < |session.policy.criteria| && session.policy.criteria[i].ceiling.Some?
        ensures v(r.preferred.value, session.policy.criteria[i].id) <= session.policy.criteria[i].ceiling.value
      {
        UnderCeiling(session.policy, r.rows[r.preferred.value].values, i);
      }
    }
  }

  /** The preferred candidate's claims avoid the closure of everything invalidated. */
  lemma PreferredIsClear(claims: map<string, Claim>, session: Session) returns (k: nat)
    requires FullyValued(session)
    ensures Compare(claims, session).preferred.Some? ==>
              k < |session.candidates| && session.candidates[k].id == Compare(claims, session).preferred.value
              && Affected(claims, Having(claims, Invalidated)) !! Members(session.candidates[k].claimIds)
  {
    hide RowOf, Compare, Affected;
    k := PreferredRow(claims, session);
    if Compare(claims, session).preferred.Some? {
      ViableRow(claims, session, session.candidates[k]);
    }
  }
}
