/** The execution budget: an append-only project log whose reservations are charged before any
    call and never refunded. */
module Budget {
  import opened Wrappers

  const MAX_MICROUSD: nat := 1000000000
  const MAX_CALLS: nat := 10000
  const MAX_EVENTS: nat := 10000

  /** A worker call as the exchange names it; its digest is the record itself. */
  datatype Call = Call(id: string, runId: nat, sourceSha: string, programme: string, role: string,
                       microusd: nat, requestSha: string)

  datatype Execution = Worker(call: Call) | Local(name: string)

  datatype Scope = Scope(spec: string, id: string)

  datatype Request =
    | ApproveRequest(spec: string, limit: nat, maxCalls: nat)
    | ReserveRequest(programme: string, role: string, microusd: nat, attempt: nat, execution: Execution)
    | StartRequest(id: string, execution: Execution)
    | ObserveRequest(id: string, reported: Option<nat>, returned: bool)

  /** What an event recorded. `Scoped` stands for an intake event and the scope approved after
      it; `Beside` for any other service's event. */
  datatype Body =
    | Scoped(scope: Option<Scope>)
    | Beside
    | Approved(limit: nat, maxCalls: nat, scopeId: string, openingVerified: bool)
    | Reserved(id: string, microusd: nat, attempt: nat, execution: Execution, spec: string, version: nat)
    | Started(id: string, execution: Execution)
    | Observed(id: string, reported: Option<nat>, returned: bool)

  /** `expected` is the version the command named, which is the number of events before it. */
  datatype Event = Event(key: string, expected: nat, request: Option<Request>, body: Body)

  /** What came back from a call: its reported spend, if known, and whether it returned. */
  datatype Report = Report(reported: Option<nat>, returned: bool)

  datatype Row = Row(microusd: nat, attempt: nat, execution: Execution, spec: string, version: nat,
                     started: bool, observation: Option<Report>)

  datatype Allowance = Allowance(limit: nat, maxCalls: nat, scopeId: string, openingVerified: bool)

  datatype State = State(allowance: Option<Allowance>, reserved: nat, calls: nat, rows: map<string, Row>)

  const FRESH := State(None, 0, 0, map[])

  // ---- projection -----------------------------------------------------------------------------------

  predicate Applies(s: State, b: Body) {
    match b
    case Approved(_, _, _, _) => s.allowance.None?
    case Reserved(id, _, _, _, _, _) => s.allowance.Some? && id !in s.rows
    case Started(id, _) => id in s.rows && !s.rows[id].started && s.rows[id].observation.None?
    case Observed(id, _, _) => id in s.rows && s.rows[id].observation.None?
    case _ => true
  }

  function Apply(s: State, b: Body): State
    requires Applies(s, b)
  {
    match b
    case Approved(limit, maxCalls, scopeId, opening) =>
      s.(allowance := Some(Allowance(limit, maxCalls, scopeId, opening)))
    case Reserved(id, microusd, attempt, execution, spec, version) =>
      s.(rows := s.rows[id := Row(microusd, attempt, execution, spec, version, false, None)],
         reserved := s.reserved + microusd, calls := s.calls + 1)
    case Started(id, _) => s.(rows := s.rows[id := s.rows[id].(started := true)])
    case Observed(id, reported, returned) =>
      s.(rows := s.rows[id := s.rows[id].(observation := Some(Report(reported, returned)))])
    case _ => s
  }

  /** None when the history is refused as invalid. */
  function Projection(events: seq<Event>): Option<State> {
    if events == [] then Some(FRESH)
    else
      var before := Projection(events[..|events| - 1]);
      if before.Some? && Applies(before.value, events[|events| - 1].body)
      then Some(Apply(before.value, events[|events| - 1].body)) else None
  }

  /** `projection`: totals and rows accumulated in place. */
  method Project(events: seq<Event>) returns (r: Option<State>)
    ensures r == Projection(events)
  {
    var s := FRESH;
    for i := 0 to |events|
      invariant Projection(events[..i]) == Some(s)
    {
      assert events[..i + 1][..i] == events[..i];
      if !Applies(s, events[i].body) {
        RefusedStays(events, i + 1);
        return None;
      }
      s := Apply(s, events[i].body);
    }
    assert events[..|events|] == events;
    r := Some(s);
  }

  lemma {:induction false} RefusedStays(events: seq<Event>, n: nat)
    requires n <= |events|
    ensures Projection(events[..n]).None? ==> Projection(events).None?
    decreases |events|
  {
    if n < |events| {
      RefusedStays(events[..|events| - 1], n);
      assert events[..|events| - 1][..n] == events[..n];
    } else {
      assert events[..n] == events;
    }
  }

  datatype Status = NotApproved | HistoricalSpendUnknown | Overrun | UnresolvedAttempt | Exhausted | Available

  predicate Unknown(row: Row) {
    row.observation.None? || row.observation.value.reported.None?
  }

  predicate Over(row: Row) {
    row.observation.Some? && row.observation.value.reported.Some? && row.observation.value.reported.value > row.microusd
  }

  function StatusOf(s: State): Status {
    if s.allowance.None? then NotApproved
    else if !s.allowance.value.openingVerified then HistoricalSpendUnknown
    else if exists id :: id in s.rows && Over(s.rows[id]) then Overrun
    else if exists id :: id in s.rows && Unknown(s.rows[id]) then UnresolvedAttempt
    else if s.calls >= s.allowance.value.maxCalls || s.reserved >= s.allowance.value.limit then Exhausted
    else Available
  }

  /** The scope approved after the latest intake event. */
  function ApprovedScope(events: seq<Event>): Option<Scope> {
    if events == [] then None
    else match events[|events| - 1].body
      case Scoped(scope) => scope
      case _ => ApprovedScope(events[..|events| - 1])
  }

  // ---- the append primitive ---------------------------------------------------------------------------

  function FindKey(events: seq<Event>, key: string): (r: Option<nat>)
    ensures r.None? <==> forall i :: 0 <= i < |events| ==> events[i].key != key
    ensures r.Some? ==> r.value < |events| && events[r.value].key == key
  {
    if events == [] then None
    else
      var before := FindKey(events[..|events| - 1], key);
      if before.Some? then before
      else if events[|events| - 1].key == key then Some(|events| - 1) else None
  }

  datatype Appended = Recorded(events: seq<Event>) | Replayed(index: nat) | Refused

  predicate SameKind(b: Body, req: Request) {
    match req
    case ApproveRequest(_, _, _) => b.Approved?
    case ReserveRequest(_, _, _, _, _) => b.Reserved?
    case StartRequest(_, _) => b.Started?
    case ObserveRequest(_, _, _) => b.Observed?
  }

  /** `ProjectEvents.append` for a budget command: the same command replays, another use of the
      key is refused, and only then is the version compared and the transition validated. */
  function Append(events: seq<Event>, key: string, expected: nat, req: Request, body: Option<Body>): Appended {
    var at := FindKey(events, key);
    if at.Some? then
      var old' := events[at.value];
      if old'.request == Some(req) && old'.expected == expected && SameKind(old'.body, req) then Replayed(at.value)
        else Refused
    else if expected != |events| || body.None? || |events| + 1 > MAX_EVENTS then Refused
    else Recorded(events + [Event(key, expected, Some(req), body.value)])
  }

  // ---- the four commands ---------------------------------------------------------------------------------

  function ApproveBody(events: seq<Event>, req: Request, openingVerified: bool): Option<Body>
    requires req.ApproveRequest?
  {
    var state, scope := Projection(events), ApprovedScope(events);
    if state.Some? && state.value.allowance.None? && scope.Some? && scope.value.spec == req.spec
       && 1 <= req.limit <= MAX_MICROUSD && 1 <= req.maxCalls <= MAX_CALLS
    then Some(Approved(req.limit, req.maxCalls, scope.value.id, openingVerified)) else None
  }

  /** What the executor's own source read compiled to; none when any of its controls refused. */
  datatype Source = Source(programme: string, scope: Scope)

  /** The validation of `reserve`, under the lock. */
  function ReserveBody(events: seq<Event>, key: string, req: Request, source: Option<Source>): Option<Body>
    requires req.ReserveRequest?
  {
    var state, scope := Projection(events), ApprovedScope(events);
    if source.None? || source.value.programme != req.programme || state.None? || scope.None? then None
    else if !(1 <= req.microusd <= MAX_MICROUSD && 1 <= req.attempt <= MAX_CALLS) then None
    else if StatusOf(state.value) != Available then None
    else if source.value.scope != scope.value || scope.value.id != state.value.allowance.value.scopeId then None
    else if state.value.reserved + req.microusd > state.value.allowance.value.limit then None
    else if exists id :: id in state.value.rows && state.value.rows[id].execution == req.execution
                         && state.value.rows[id].attempt == req.attempt then None
    else Some(Reserved(key, req.microusd, req.attempt, req.execution, scope.value.spec, |events| + 1))
  }

  /** `reserve`: the source is read and checked before the store is touched, replay or not. */
  function ReserveCommand(events: seq<Event>, key: string, expected: nat, req: Request,
                          source: Option<Source>): Appended
    requires req.ReserveRequest?
  {
    if source.None? || source.value.programme != req.programme then Refused
    else Append(events, key, expected, req, ReserveBody(events, key, req, source))
  }

  function StartBody(events: seq<Event>, expected: nat, req: Request): Option<Body>
    requires req.StartRequest?
  {
    var state, scope := Projection(events), ApprovedScope(events);
    if state.None? || scope.None? || req.id !in state.value.rows then None
    else
      var row := state.value.rows[req.id];
      if row.execution != req.execution || row.version != expected || row.spec != scope.value.spec
         || row.started || row.observation.Some? then None
      else Some(Started(req.id, req.execution))
  }

  function ObserveBody(events: seq<Event>, req: Request): Option<Body>
    requires req.ObserveRequest?
  {
    var state := Projection(events);
    if state.None? || req.id !in state.value.rows || state.value.rows[req.id].observation.Some? then None
    else if req.reported.Some? && req.reported.value > MAX_MICROUSD then None
    else Some(Observed(req.id, req.reported, req.returned))
  }

  // ---- histories the ledger can hold ------------------------------------------------------------------------

  ghost predicate Commanded(events: seq<Event>, e: Event) {
    e.request.Some? &&
    match e.request.value
    case ApproveRequest(_, _, _) => exists v :: ApproveBody(events, e.request.value, v) == Some(e.body)
    case ReserveRequest(_, _, _, _, _) => exists src :: ReserveBody(events, e.key, e.request.value, src) == Some(e.body)
    case StartRequest(_, _) => StartBody(events, e.expected, e.request.value) == Some(e.body)
    case ObserveRequest(_, _, _) => ObserveBody(events, e.request.value) == Some(e.body)
  }

  /** One appended event: its key is new, its version current, and it is another service's or
      what a budget command validated. */
  ghost predicate Permitted(events: seq<Event>, e: Event) {
    && e.expected == |events| && FindKey(events, e.key).None?
    && (if e.body.Scoped? || e.body.Beside? then e.request.None? else Commanded(events, e))
  }

  ghost predicate History(events: seq<Event>) {
    events == [] || (History(events[..|events| - 1]) && Permitted(events[..|events| - 1], events[|events| - 1]))
  }

  lemma {:induction false} PrefixHistory(events: seq<Event>, n: nat)
    requires History(events) && n <= |events|
    ensures History(events[..n])
    decreases |events|
  {
    if n == |events| {
      assert events[..n] == events;
    } else {
      PrefixHistory(events[..|events| - 1], n);
      assert events[..|events| - 1][..n] == events[..n];
    }
  }

  function Sum(rows: map<string, Row>, order: seq<string>): nat
    requires forall id :: id in order ==> id in rows
  {
    if order == [] then 0 else Sum(rows, order[..|order| - 1]) + rows[order[|order| - 1]].microusd
  }

  /** The ids reserved so far, in order. */
  function ReservedIds(events: seq<Event>): seq<string> {
    if events == [] then []
    else match events[|events| - 1].body
      case Reserved(id, _, _, _, _, _) => ReservedIds(events[..|events| - 1]) + [id]
      case _ => ReservedIds(events[..|events| - 1])
  }

  /** A reservation whose report is known and within its charge. */
  predicate Resolved(row: Row) {
    !Unknown(row) && !Over(row)
  }

  /** What every history keeps. */
  ghost predicate Sound(events: seq<Event>, s: State) {
    SoundRows(ReservedIds(events), s)
  }

  ghost predicate SoundRows(ids: seq<string>, s: State) {
    && (forall id :: id in ids <==> id in s.rows)
    && (forall i, j :: 0 <= i < j < |ids| ==> ids[i] != ids[j])
    && s.calls == |ids|
    && s.reserved == Sum(s.rows, ids)
    && (s.allowance.None? ==> ids == [])
    && (s.allowance.Some? ==> s.reserved <= s.allowance.value.limit && s.calls <= s.allowance.value.maxCalls)
    && (forall i :: 0 <= i < |ids| - 1 ==> Resolved(s.rows[ids[i]]))
  }

  lemma {:induction false} SumSame(a: map<string, Row>, b: map<string, Row>, order: seq<string>)
    requires forall id :: id in order ==> id in a && id in b && a[id].microusd == b[id].microusd
    ensures Sum(a, order) == Sum(b, order)
    decreases |order|
  {
    if order != [] {
      SumSame(a, b, order[..|order| - 1]);
    }
  }

  /** What a recorded reservation was validated against. */
  lemma ReserveFacts(before: seq<Event>, e: Event, s: State)
    requires Projection(before) == Some(s) && e.body.Reserved? && Commanded(before, e)
    ensures s.allowance.Some? && StatusOf(s) == Available && e.body.id == e.key && e.body.version == |before| + 1
    ensures s.reserved + e.body.microusd <= s.allowance.value.limit && e.body.microusd <= MAX_MICROUSD
    ensures e.request.value.ReserveRequest? && e.request.value.microusd == e.body.microusd
    ensures e.request.value.execution == e.body.execution
  {
    var src :| ReserveBody(before, e.key, e.request.value, src) == Some(e.body);
  }

  lemma AvailableFacts(s: State)
    requires StatusOf(s) == Available
    ensures s.allowance.Some? && s.calls < s.allowance.value.maxCalls && s.allowance.value.openingVerified
    ensures forall id :: id in s.rows ==> Resolved(s.rows[id])
  {
  }

  lemma ReservedStep(before: seq<Event>, e: Event, s: State)
    requires Projection(before) == Some(s) && Sound(before, s) && e.body.Reserved? && Commanded(before, e)
    requires e.body.id !in ReservedIds(before)
    ensures Applies(s, e.body) && Sound(before + [e], Apply(s, e.body))
  {
    ReserveFacts(before, e, s);
    AvailableFacts(s);
    var events := before + [e];
    assert events[..|events| - 1] == before;
    ReservedRows(ReservedIds(before), s, e.body);
  }

  lemma ReservedRows(ids: seq<string>, s: State, b: Body)
    requires SoundRows(ids, s) && b.Reserved? && b.id !in ids && s.allowance.Some?
    requires s.calls < s.allowance.value.maxCalls && s.reserved + b.microusd <= s.allowance.value.limit
    requires forall id :: id in s.rows ==> Resolved(s.rows[id])
    ensures Applies(s, b) && SoundRows(ids + [b.id], Apply(s, b))
  {
    hide Resolved;
    var more, t := ids + [b.id], Apply(s, b);
    assert more[..|ids|] == ids;
    SumSame(s.rows, t.rows, ids);
    assert Sum(t.rows, more) == Sum(t.rows, ids) + b.microusd;
    forall i | 0 <= i < |more| - 1
      ensures Resolved(t.rows[more[i]])
    {
      assert more[i] == ids[i];
    }
  }

  /** Keys are used once, and a reservation's id is its key. */
  lemma {:induction false} ReservedIdIsKey(events: seq<Event>, id: string)
    requires History(events) && id in ReservedIds(events)
    ensures FindKey(events, id).Some?
  {
    var before, e := events[..|events| - 1], events[|events| - 1];
    if e.body.Reserved? && e.body.id == id {
      var src :| ReserveBody(before, e.key, e.request.value, src) == Some(e.body);
    } else {
      ReservedIdIsKey(before, id);
    }
  }

  lemma IdsKept(before: seq<Event>, e: Event)
    requires !e.body.Reserved?
    ensures ReservedIds(before + [e]) == ReservedIds(before)
  {
    assert (before + [e])[..|before|] == before;
  }

  lemma SettledStep(before: seq<Event>, e: Event, s: State)
    requires Projection(before) == Some(s) && Sound(before, s) && (e.body.Started? || e.body.Observed?)
             && Commanded(before, e)
    ensures Applies(s, e.body) && Sound(before + [e], Apply(s, e.body))
  {
    SettledFacts(before, e, s);
    IdsKept(before, e);
    hide Commanded, SoundRows, Applies, Apply, ReservedIds, Projection;
    SettledRows(ReservedIds(before), s, e.body);
  }

  lemma SettledRows(ids: seq<string>, s: State, b: Body)
    requires SoundRows(ids, s) && (b.Started? || b.Observed?) && Applies(s, b)
    ensures SoundRows(ids, Apply(s, b))
  {
    var t := Apply(s, b);
    SumSame(s.rows, t.rows, ids);
    forall i | 0 <= i < |ids| - 1
      ensures Resolved(t.rows[ids[i]])
    {
      assert Resolved(s.rows[ids[i]]);
    }
  }

  /** A start or a report is of a reservation without a report yet. */
  lemma SettledFacts(before: seq<Event>, e: Event, s: State)
    requires Projection(before) == Some(s) && (e.body.Started? || e.body.Observed?) && Commanded(before, e)
    ensures Applies(s, e.body)
  {
    hide Projection, ApprovedScope;
  }

  lemma OtherStep(before: seq<Event>, e: Event, s: State)
    requires Projection(before) == Some(s) && Sound(before, s)
    requires e.body.Scoped? || e.body.Beside? || (e.body.Approved? && Commanded(before, e))
    ensures Applies(s, e.body) && Sound(before + [e], Apply(s, e.body))
  {
    var events := before + [e];
    assert events[..|events| - 1] == before;
    SumSame(s.rows, Apply(s, e.body).rows, ReservedIds(before));
  }

  /** In every history the charge is the sum of all reservations and within the allowance, calls
      are within theirs, and every reservation but the newest has a known report no larger than
      its charge. */
  lemma {:induction false} HistorySound(events: seq<Event>)
    requires History(events)
    ensures Projection(events).Some? && Sound(events, Projection(events).value)
  {
    if events != [] {
      var before, e := events[..|events| - 1], events[|events| - 1];
      HistorySound(before);
      var s := Projection(before).value;
      assert events == before + [e];
      if e.body.Reserved? {
        FreshId(before, e);
        ReservedStep(before, e, s);
      } else if e.body.Started? || e.body.Observed? {
        SettledStep(before, e, s);
      } else {
        OtherStep(before, e, s);
      }
    }
  }

  lemma FreshId(before: seq<Event>, e: Event)
    requires History(before) && Permitted(before, e) && e.body.Reserved?
    ensures e.body.id == e.key && e.body.id !in ReservedIds(before)
  {
    var src :| ReserveBody(before, e.key, e.request.value, src) == Some(e.body);
    if e.key in ReservedIds(before) {
      ReservedIdIsKey(before, e.key);
    }
  }

  // ---- nothing is refunded, and doubt is final -------------------------------------------------------------

  /** A report that is unknown or over its charge. */
  predicate Doubtful(row: Row) {
    row.observation.Some? && !Resolved(row)
  }

  /** From `a` to `b`: charges and reports already made stay as they were. */
  ghost predicate KeepsRows(a: State, b: State) {
    forall id :: id in a.rows ==> id in b.rows && KeepsRow(a.rows[id], b.rows[id])
  }

  predicate KeepsRow(a: Row, b: Row) {
    && b.microusd == a.microusd && b.execution == a.execution
    && (a.observation.Some? ==> b.observation == a.observation)
    && (a.started ==> b.started)
  }

  lemma StepKeepsRows(s: State, b: Body)
    requires Applies(s, b)
    ensures KeepsRows(s, Apply(s, b)) && s.reserved <= Apply(s, b).reserved
  {
  }

  lemma KeepsRowsTrans(a: State, b: State, c: State)
    requires KeepsRows(a, b) && KeepsRows(b, c)
    ensures KeepsRows(a, c)
  {
  }

  /** Reservations are only ever added: charges stay, reports stay, and the total never falls. */
  lemma {:induction false} NothingRefunded(events: seq<Event>, n: nat)
    requires History(events) && n <= |events|
    ensures Projection(events).Some? && Projection(events[..n]).Some?
    ensures KeepsRows(Projection(events[..n]).value, Projection(events).value)
    ensures ReservedIds(events[..n]) <= ReservedIds(events)
    ensures Projection(events[..n]).value.reserved <= Projection(events).value.reserved
    decreases |events|
  {
    HistorySound(events);
    hide KeepsRows, Sound, Apply, Applies, Permitted;
    if n == |events| {
      assert events[..n] == events;
      NothingChanged(Projection(events).value);
    } else {
      var before := events[..|events| - 1];
      NothingRefunded(before, n);
      assert before[..n] == events[..n];
      StepKeepsRows(Projection(before).value, events[|events| - 1].body);
      KeepsRowsTrans(Projection(events[..n]).value, Projection(before).value, Projection(events).value);
    }
  }

  lemma NothingChanged(s: State)
    ensures KeepsRows(s, s)
  {
  }

  /** Once a report is unknown or over its charge, no later reservation is ever recorded. */
  lemma {:induction false} DoubtIsFinal(events: seq<Event>, n: nat, id: string)
    requires History(events) && n <= |events|
    requires Projection(events[..n]).Some? && id in Projection(events[..n]).value.rows
    requires Doubtful(Projection(events[..n]).value.rows[id])
    ensures ReservedIds(events) == ReservedIds(events[..n])
    decreases |events|
  {
    if n == |events| {
      assert events[..n] == events;
    } else {
      var before, e := events[..|events| - 1], events[|events| - 1];
      assert before[..n] == events[..n];
      DoubtIsFinal(before, n, id);
      NothingRefunded(before, n);
      if e.body.Reserved? {
        ReserveFacts(before, e, Projection(before).value);
        AvailableFacts(Projection(before).value);
        assert false;
      }
    }
  }

  // ---- a start directly follows its reservation -----------------------------------------------------------------

  ghost predicate ReservedAt(events: seq<Event>, j: nat, id: string, row: Row) {
    j < |events| && row.version == j + 1
    && events[j].body == Reserved(id, row.microusd, row.attempt, row.execution, row.spec, row.version)
  }

  lemma {:induction false} RowWasReserved(events: seq<Event>, id: string)
    requires History(events) && Projection(events).Some? && id in Projection(events).value.rows
    ensures exists j :: ReservedAt(events, j, id, Projection(events).value.rows[id])
  {
    var before, e := events[..|events| - 1], events[|events| - 1];
    var row := Projection(events).value.rows[id];
    if e.body.Reserved? && e.body.id == id {
      ReserveFacts(before, e, Projection(before).value);
      assert ReservedAt(events, |before|, id, row);
    } else {
      RowWasReserved(before, id);
      var j :| ReservedAt(before, j, id, Projection(before).value.rows[id]);
      assert ReservedAt(events, j, id, row);
    }
  }

  lemma StartFacts(before: seq<Event>, e: Event)
    requires Permitted(before, e) && e.body.Started?
    ensures Projection(before).Some? && e.body.id in Projection(before).value.rows
    ensures var row := Projection(before).value.rows[e.body.id];
            row.version == |before| && row.execution == e.body.execution && !row.started
    ensures e.request.value.StartRequest? && e.request.value.id == e.body.id
            && e.request.value.execution == e.body.execution
  {
  }

  /** Every start is recorded immediately after the reservation it consumes, for the same
      execution. */
  lemma StartFollowsReserve(events: seq<Event>, i: nat)
    requires History(events) && i < |events| && events[i].body.Started?
    ensures i > 0 && events[i - 1].body.Reserved?
    ensures events[i - 1].body.id == events[i].body.id && events[i - 1].body.execution == events[i].body.execution
  {
    PrefixHistory(events, i + 1);
    var upto := events[..i + 1];
    var before := upto[..|upto| - 1];
    assert before == events[..i] && upto[|upto| - 1] == events[i];
    StartFacts(before, events[i]);
    hide Permitted, Projection;
    var id := events[i].body.id;
    RowWasReserved(before, id);
    var j :| ReservedAt(before, j, id, Projection(before).value.rows[id]);
    assert j == i - 1;
  }

  /** At most one start per reservation. */
  lemma {:induction false} StartIsOnce(events: seq<Event>, i: nat, j: nat)
    requires History(events) && i < |events| && j < |events|
    requires events[i].body.Started? && events[j].body.Started? && events[i].body.id == events[j].body.id
    ensures i == j
    decreases |events|
  {
    if i != j {
      var lo, hi := if i < j then i else j, if i < j then j else i;
      PrefixHistory(events, hi + 1);
      var upto := events[..hi + 1];
      var before := upto[..|upto| - 1];
      assert before == events[..hi] && upto[|upto| - 1] == events[hi];
      StartFacts(before, events[hi]);
      hide Permitted, Projection, Sound, History;
      StartedStays(before, lo);
      assert false;
    }
  }

  lemma {:induction false} StartedStays(events: seq<Event>, i: nat)
    requires History(events) && i < |events| && events[i].body.Started? && Projection(events).Some?
    ensures events[i].body.id in Projection(events).value.rows
            && Projection(events).value.rows[events[i].body.id].started
    decreases |events|
  {
    var before, e := events[..|events| - 1], events[|events| - 1];
    HistorySound(before);
    hide Sound, Permitted;
    if i < |events| - 1 {
      StartedStays(before, i);
      StepKeepsRows(Projection(before).value, e.body);
    }
  }

  // ---- the ledger ------------------------------------------------------------------------------

  /** The project's store as the budget service uses it. */
  class Ledger {
    var events: seq<Event>

    ghost predicate Valid()
      reads this
    {
      History(events)
    }

    constructor ()
      ensures Valid() && events == []
    {
      events := [];
    }

    /** Another service's event; intake ones may change the approved scope. */
    method Note(key: string, body: Body) returns (recorded: bool)
      requires Valid() && (body.Scoped? || body.Beside?)
      modifies this
      ensures Valid()
      ensures recorded <==> old(FindKey(events, key).None? && |events| < MAX_EVENTS)
      ensures events == if recorded then old(events) + [Event(key, |old(events)|, None, body)] else old(events)
    {
      recorded := FindKey(events, key).None? && |events| < MAX_EVENTS;
      if recorded {
        Extended(events, Event(key, |events|, None, body));
        events := events + [Event(key, |events|, None, body)];
      }
    }

    method Approve(key: string, expected: nat, req: Request, openingVerified: bool) returns (r: Appended)
      requires Valid() && req.ApproveRequest?
      modifies this
      ensures Valid() && r == old(Append(events, key, expected, req, ApproveBody(events, req, openingVerified)))
      ensures events == if r.Recorded? then r.events else old(events)
    {
      r := Append(events, key, expected, req, ApproveBody(events, req, openingVerified));
      if r.Recorded? {
        Extended(events, r.events[|events|]);
        events := r.events;
      }
    }

    /** `reserve`; `execute` in the original is `r.Recorded?`, so a replay never grants a call. */
    method Reserve(key: string, expected: nat, req: Request, source: Option<Source>) returns (r: Appended)
      requires Valid() && req.ReserveRequest?
      modifies this
      ensures Valid() && r == old(ReserveCommand(events, key, expected, req, source))
      ensures events == if r.Recorded? then r.events else old(events)
    {
      r := ReserveCommand(events, key, expected, req, source);
      if r.Recorded? {
        Extended(events, r.events[|events|]);
        events := r.events;
      }
    }

    method Start(key: string, expected: nat, req: Request) returns (r: Appended)
      requires Valid() && req.StartRequest?
      modifies this
      ensures Valid() && r == old(Append(events, key, expected, req, StartBody(events, expected, req)))
      ensures events == if r.Recorded? then r.events else old(events)
    {
      r := Append(events, key, expected, req, StartBody(events, expected, req));
      if r.Recorded? {
        Extended(events, r.events[|events|]);
        events := r.events;
      }
    }

    method Observe(key: string, expected: nat, req: Request) returns (r: Appended)
      requires Valid() && req.ObserveRequest?
      modifies this
      ensures Valid() && r == old(Append(events, key, expected, req, ObserveBody(events, req)))
      ensures events == if r.Recorded? then r.events else old(events)
    {
      r := Append(events, key, expected, req, ObserveBody(events, req));
      if r.Recorded? {
        Extended(events, r.events[|events|]);
        events := r.events;
      }
    }
  }

  lemma Extended(events: seq<Event>, e: Event)
    requires History(events) && Permitted(events, e)
    ensures History(events + [e])
  {
    assert (events + [e])[..|events + [e]| - 1] == events;
  }
}
