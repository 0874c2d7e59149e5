/** The intent log: the store that appends to it and the explainer that checks it again. */
module IntentHistory {
  import opened Wrappers

  /** A specification; its digest is the record. `compiles` is whether it compiles at all. */
  datatype Spec = Spec(id: string, revision: nat, body: string, compiles: bool)

  datatype Payload =
    | RecordIntent(wording: string)
    | AddExploration(wording: string)
    | ProposeSpec(spec: Spec, assumptions: seq<string>, open: seq<string>, technical: seq<string>)
    | ApproveSpec(draftVersion: int, spec: Spec, wording: string)
    | OtherService

  datatype Role = Owner | Proposal | OtherRole

  datatype Actor = Actor(identity: string, role: Role)

  /** The event at index i has project version i + 1. */
  datatype Event = Event(key: string, expected: nat, payload: Payload, actor: Actor)

  const MAX_EVENTS: nat := 10000

  predicate Text(s: string, limit: nat) {
    |s| <= limit && HasText(s)
  }

  predicate Texts(ss: seq<string>) {
    |ss| <= 50 && forall i :: 0 <= i < |ss| ==> Text(ss[i], 2000)
  }

  // ---- the store's snapshot --------------------------------------------------------------------------------------

  datatype LedgerRow = LedgerRow(version: nat, intent: bool, wording: string)

  datatype Draft = Draft(spec: Spec, open: seq<string>, version: nat, source: nat)

  datatype Approval = Approval(spec: Spec, draftVersion: int, source: nat, version: nat)

  datatype Snapshot = Snapshot(ledger: seq<LedgerRow>, draft: Option<Draft>, approvals: seq<Approval>)

  const BLANK := Snapshot([], None, [])

  /** The version of the latest recorded intent. */
  function LatestIntent(ledger: seq<LedgerRow>): Option<nat> {
    if ledger == [] then None
    else if ledger[|ledger| - 1].intent then Some(ledger[|ledger| - 1].version)
    else LatestIntent(ledger[..|ledger| - 1])
  }

  /** One event of `_snapshot`; none where the original would raise. */
  function Shown(s: Snapshot, version: nat, p: Payload): Option<Snapshot> {
    match p
    case RecordIntent(wording) => Some(s.(ledger := s.ledger + [LedgerRow(version, true, wording)], draft := None))
    case AddExploration(wording) => Some(s.(ledger := s.ledger + [LedgerRow(version, false, wording)]))
    case ProposeSpec(spec, _, open, _) =>
      var source := LatestIntent(s.ledger);
      if source.None? then None else Some(s.(draft := Some(Draft(spec, open, version, source.value))))
    case ApproveSpec(draftVersion, _, _) =>
      if s.draft.None? then None
      else Some(s.(approvals := s.approvals
                   + [Approval(s.draft.value.spec, draftVersion, s.draft.value.source, version)]))
    case OtherService => Some(s)
  }

  function SnapshotOf(events: seq<Event>): Option<Snapshot> {
    if events == [] then Some(BLANK)
    else
      var before := SnapshotOf(events[..|events| - 1]);
      if before.None? then None else Shown(before.value, |events|, events[|events| - 1].payload)
  }

  /** `_snapshot`, event by event. */
  method TakeSnapshot(events: seq<Event>) returns (r: Option<Snapshot>)
    ensures r == SnapshotOf(events)
  {
    r := Some(BLANK);
    for i := 0 to |events|
      invariant r == SnapshotOf(events[..i])
    {
      assert events[..i + 1][..i] == events[..i];
      if r.Some? { r := Shown(r.value, i + 1, events[i].payload); }
    }
    assert events[..|events|] == events;
  }

  // ---- what the store appends ---------------------------------------------------------------------------------------

  predicate NextSpec(approvals: seq<Approval>, spec: Spec) {
    if approvals == [] then spec.revision == 1
    else spec.revision == approvals[|approvals| - 1].spec.revision + 1 && spec.id == approvals[|approvals| - 1].spec.id
  }

  /** `validate_transition`. */
  predicate Validates(s: Snapshot, p: Payload) {
    match p
    case RecordIntent(wording) => Text(wording, 10000)
    case AddExploration(wording) => Text(wording, 10000)
    case ProposeSpec(spec, assumptions, open, technical) =>
      && LatestIntent(s.ledger).Some? && spec.compiles && NextSpec(s.approvals, spec)
      && Texts(assumptions) && Texts(open) && Texts(technical)
    case ApproveSpec(draftVersion, spec, wording) =>
      && Text(wording, 10000) && s.draft.Some? && draftVersion == s.draft.value.version && spec == s.draft.value.spec
      && s.draft.value.open == []
      && !(s.approvals != [] && s.approvals[|s.approvals| - 1].draftVersion == s.draft.value.version)
    case OtherService => true
  }

  /** Who may append what: proposals may come from another principal. */
  predicate Authorized(owner: string, a: Actor, p: Payload) {
    && a.identity != "" && (a.role == Owner ==> a.identity == owner) && a.role != OtherRole
    && (a.role == Owner || p.ProposeSpec?)
  }

  predicate Used(events: seq<Event>, key: string) {
    exists i :: 0 <= i < |events| && events[i].key == key
  }

  predicate Appendable(owner: string, events: seq<Event>, e: Event) {
    var s := SnapshotOf(events);
    && Text(e.key, 100) && !Used(events, e.key) && e.expected == |events| && |events| < MAX_EVENTS
    && Authorized(owner, e.actor, e.payload) && s.Some? && Validates(s.value, e.payload)
  }

  /** A history the store can have built; other services append only as the owner. */
  predicate Built(owner: string, events: seq<Event>) {
    events == [] || (Built(owner, events[..|events| - 1])
                     && Appendable(owner, events[..|events| - 1], events[|events| - 1]))
  }

  // ---- the explainer ---------------------------------------------------------------------------

  datatype DraftRow = DraftRow(spec: Spec, open: seq<string>, basis: Option<nat>)

  /** An explained event; event ids are versions. */
  datatype HistoryRow = HistoryRow(version: nat, basis: seq<nat>, spec: Option<Spec>, supersedes: Option<nat>)

  /** The explainer's loop variables; `latestDraft` is the newest key of `drafts`. */
  datatype Telling = Telling(seen: set<string>, drafts: map<nat, DraftRow>, latestDraft: Option<nat>,
                             approved: set<nat>, source: Option<nat>, latestApproval: Option<nat>,
                             rows: seq<HistoryRow>)

  const UNTOLD := Telling({}, map[], None, {}, None, None, [])

  function Listed(o: Option<nat>): seq<nat> {
    if o.Some? then [o.value] else []
  }

  predicate NamesPrincipal(owner: string, a: Actor, p: Payload) {
    && a.identity != "" && (a.role == Owner || a.role == Proposal) && (a.role == Owner ==> a.identity == owner)
    && (!p.ProposeSpec? ==> a == Actor(owner, Owner))
  }

  /** One event of `explain_history`; none where it refuses. */
  function Tell(owner: string, t: Telling, version: nat, e: Event): Option<Telling> {
    if e.key in t.seen || e.expected + 1 != version || !NamesPrincipal(owner, e.actor, e.payload) then None
    else
      var u := t.(seen := t.seen + {e.key});
      match e.payload
      case RecordIntent(_) => Some(u.(source := Some(version), rows := t.rows + [HistoryRow(version, [], None, None)]))
      case AddExploration(_) => Some(u.(rows := t.rows + [HistoryRow(version, [], None, None)]))
      case ProposeSpec(spec, _, open, _) =>
        Some(u.(drafts := t.drafts[version := DraftRow(spec, open, t.source)], latestDraft := Some(version),
                rows := t.rows + [HistoryRow(version, Listed(t.source), Some(spec), None)]))
      case ApproveSpec(draftVersion, spec, _) =>
        if draftVersion < 0 || draftVersion !in t.drafts then None
        else
          var draft := t.drafts[draftVersion];
          if draft.spec != spec || draft.basis.None? || draft.basis != t.source || t.latestDraft != Some(draftVersion)
             || draftVersion in t.approved || draft.open != [] then None
          else Some(u.(approved := t.approved + {draftVersion}, latestApproval := Some(version),
                       rows := t.rows + [HistoryRow(version, [draftVersion], Some(spec), t.latestApproval)]))
      case OtherService => Some(u.(rows := t.rows + [HistoryRow(version, Listed(t.latestApproval), None, None)]))
  }

  function Explained(owner: string, events: seq<Event>): Option<Telling> {
    if events == [] then Some(UNTOLD)
    else
      var before := Explained(owner, events[..|events| - 1]);
      if before.None? then None else Tell(owner, before.value, |events|, events[|events| - 1])
  }

  /** `explain_history`: the rows, unless the history is refused. */
  method ExplainHistory(owner: string, events: seq<Event>) returns (r: Option<seq<HistoryRow>>)
    ensures var t := Explained(owner, events); r == if t.Some? then Some(t.value.rows) else None
  {
    var t := UNTOLD;
    for i := 0 to |events|
      invariant Explained(owner, events[..i]) == Some(t)
    {
      assert events[..i + 1][..i] == events[..i];
      var next := Tell(owner, t, i + 1, events[i]);
      if next.None? {
        RefusedStays(owner, events, i + 1);
        return None;
      }
      t := next.value;
    }
    assert events[..|events|] == events;
    r := Some(t.rows);
  }

  lemma {:induction false} RefusedStays(owner: string, events: seq<Event>, n: nat)
    requires n <= |events|
    ensures Explained(owner, events[..n]).None? ==> Explained(owner, events).None?
    decreases |events|
  {
    if n < |events| {
      RefusedStays(owner, events[..|events| - 1], n);
      assert events[..|events| - 1][..n] == events[..n];
    } else {
      assert events[..n] == events;
    }
  }

  // ---- the two readings of one log -------------------------------------------------------------

  /** The store's snapshot and the explainer's variables describe the same history of n events. */
  ghost predicate Agree(s: Snapshot, t: Telling, n: nat) {
    && t.source == LatestIntent(s.ledger)
    && (t.latestDraft.Some? ==> t.latestDraft.value in t.drafts && t.latestDraft.value <= n)
    && (t.latestDraft.None? ==> t.drafts == map[])
    && (s.draft.Some? ==> DraftAgrees(s.draft.value, t))
    && (s.draft.None? && t.latestDraft.Some? ==> t.drafts[t.latestDraft.value].basis != t.source)
    && (t.source.Some? ==> t.source.value <= n)
    && (forall v :: v in t.drafts && t.drafts[v].basis.Some? ==>
          t.source.Some? && t.drafts[v].basis.value <= t.source.value)
    && ApprovedAgrees(s.approvals, t, n)
  }

  predicate DraftAgrees(d: Draft, t: Telling) {
    t.latestDraft == Some(d.version) && d.version in t.drafts
      && t.drafts[d.version] == DraftRow(d.spec, d.open, t.source)
    && t.source == Some(d.source)
  }

  ghost predicate ApprovedAgrees(approvals: seq<Approval>, t: Telling, n: nat) {
    && (forall v :: v in t.approved <==> exists i :: 0 <= i < |approvals| && approvals[i].draftVersion == v)
    && (forall v :: v in t.approved ==> t.latestDraft.Some? && v <= t.latestDraft.value)
    && (forall i, j :: 0 <= i < j < |approvals| ==> approvals[i].draftVersion < approvals[j].draftVersion)
    && (t.latestApproval == if approvals == [] then None else Some(approvals[|approvals| - 1].version))
  }

  /** What the store asks for beyond what the explainer checks again: texts, capacity, and that
      a proposal compiles, follows a recorded intent and names the next revision. */
  predicate WellFormed(s: Snapshot, n: nat, e: Event) {
    && Text(e.key, 100) && n < MAX_EVENTS
    && match e.payload
       case ApproveSpec(_, _, wording) => Text(wording, 10000)
       case p => Validates(s, p)
  }

  lemma ApprovedIff(s: Snapshot, t: Telling, n: nat)
    requires Agree(s, t, n) && s.draft.Some?
    ensures s.draft.value.version in t.approved
            <==> s.approvals != [] && s.approvals[|s.approvals| - 1].draftVersion == s.draft.value.version
  {
    var v := s.draft.value.version;
    if v in t.approved {
      var i :| 0 <= i < |s.approvals| && s.approvals[i].draftVersion == v;
      assert s.approvals[|s.approvals| - 1].draftVersion in t.approved;
    }
  }

  predicate Accepts(owner: string, s: Snapshot, t: Telling, n: nat, e: Event) {
    && Text(e.key, 100) && e.key !in t.seen && e.expected == n && n < MAX_EVENTS
    && Authorized(owner, e.actor, e.payload) && Validates(s, e.payload)
  }

  /** On agreeing readings the store accepts the next event exactly when the explainer does and
      the event is well formed. */
  lemma StepIff(owner: string, s: Snapshot, t: Telling, n: nat, e: Event)
    requires Agree(s, t, n)
    ensures Accepts(owner, s, t, n, e) <==> Tell(owner, t, n + 1, e).Some? && WellFormed(s, n, e)
  {
    hide Text, Texts, ApprovedAgrees, LatestIntent, NextSpec;
    if e.payload.ApproveSpec? && s.draft.Some? {
      ApprovedIff(s, t, n);
    }
  }

  /** An accepted event leaves the readings in agreement: one lemma per kind of event. */
  lemma IntentAgrees(s: Snapshot, t: Telling, n: nat, u: Telling, wording: string)
    requires Agree(s, t, n) && u.source == Some(n + 1)
    requires u.drafts == t.drafts && u.latestDraft == t.latestDraft && u.approved == t.approved
             && u.latestApproval == t.latestApproval
    ensures Agree(s.(ledger := s.ledger + [LedgerRow(n + 1, true, wording)], draft := None), u, n + 1)
  {
    ApprovedStays(s, t, n);
    hide ApprovedAgrees;
    assert (s.ledger + [LedgerRow(n + 1, true, wording)])[..|s.ledger|] == s.ledger;
  }

  lemma OtherAgrees(s: Snapshot, t: Telling, n: nat, u: Telling, ledger: seq<LedgerRow>)
    requires Agree(s, t, n) && LatestIntent(ledger) == LatestIntent(s.ledger) && u.source == t.source
    requires u.drafts == t.drafts && u.latestDraft == t.latestDraft && u.approved == t.approved
             && u.latestApproval == t.latestApproval
    ensures Agree(s.(ledger := ledger), u, n + 1)
  {
    ApprovedStays(s, t, n);
    hide ApprovedAgrees, LatestIntent;
  }

  lemma DraftAgreesNow(s: Snapshot, t: Telling, n: nat, u: Telling, spec: Spec, open: seq<string>)
    requires Agree(s, t, n) && t.source.Some? && u.source == t.source
    requires u.drafts == t.drafts[n + 1 := DraftRow(spec, open, t.source)] && u.latestDraft == Some(n + 1)
    requires u.approved == t.approved && u.latestApproval == t.latestApproval
    ensures Agree(s.(draft := Some(Draft(spec, open, n + 1, t.source.value))), u, n + 1)
  {
    ProposalAgrees(s, t, n, s.(draft := Some(Draft(spec, open, n + 1, t.source.value))), u);
    hide ApprovedAgrees, LatestIntent;
  }

  lemma ApprovalStays(s: Snapshot, t: Telling, n: nat, u: Telling)
    requires Agree(s, t, n) && s.draft.Some? && s.draft.value.version !in t.approved
    requires u.approved == t.approved + {s.draft.value.version} && u.latestApproval == Some(n + 1)
    requires u.drafts == t.drafts && u.latestDraft == t.latestDraft && u.source == t.source
    ensures Agree(s.(approvals := s.approvals
                     + [Approval(s.draft.value.spec, s.draft.value.version, s.draft.value.source, n + 1)]), u, n + 1)
  {
    var after := s.(approvals := s.approvals
                    + [Approval(s.draft.value.spec, s.draft.value.version, s.draft.value.source, n + 1)]);
    ApprovalAgrees(s, t, n, s.draft.value.version, after, u);
    hide ApprovedAgrees, LatestIntent;
  }

  lemma StepAgrees(owner: string, s: Snapshot, t: Telling, n: nat, e: Event)
    requires Agree(s, t, n) && Accepts(owner, s, t, n, e)
    ensures Tell(owner, t, n + 1, e).Some? && Shown(s, n + 1, e.payload).Some?
    ensures Agree(Shown(s, n + 1, e.payload).value, Tell(owner, t, n + 1, e).value, n + 1)
  {
    StepIff(owner, s, t, n, e);
    assert t.source == LatestIntent(s.ledger);
    hide Text, Texts, NextSpec, Authorized, NamesPrincipal, Agree;
    var u := Tell(owner, t, n + 1, e).value;
    match e.payload
    case RecordIntent(wording) => IntentAgrees(s, t, n, u, wording);
    case AddExploration(wording) =>
      assert (s.ledger + [LedgerRow(n + 1, false, wording)])[..|s.ledger|] == s.ledger;
      OtherAgrees(s, t, n, u, s.ledger + [LedgerRow(n + 1, false, wording)]);
    case ProposeSpec(spec, _, open, _) => DraftAgreesNow(s, t, n, u, spec, open);
    case ApproveSpec(v, spec, wording) => ApprovalStays(s, t, n, u);
    case OtherService => OtherAgrees(s, t, n, u, s.ledger);
  }

  lemma ApprovedStays(s: Snapshot, t: Telling, n: nat)
    requires Agree(s, t, n)
    ensures forall u: Telling ::
              u.approved == t.approved && u.latestDraft == t.latestDraft && u.latestApproval == t.latestApproval ==>
                ApprovedAgrees(s.approvals, u, n + 1)
  {
  }

  lemma ProposalAgrees(s: Snapshot, t: Telling, n: nat, after: Snapshot, u: Telling)
    requires Agree(s, t, n) && after.approvals == s.approvals
    requires u.approved == t.approved && u.latestDraft == Some(n + 1) && u.latestApproval == t.latestApproval
    ensures ApprovedAgrees(after.approvals, u, n + 1)
  {
  }

  lemma ApprovalAgrees(s: Snapshot, t: Telling, n: nat, v: nat, after: Snapshot, u: Telling)
    requires Agree(s, t, n) && s.draft.Some? && v == s.draft.value.version && v !in t.approved
    requires after == s.(approvals := s.approvals + [Approval(s.draft.value.spec, v, s.draft.value.source, n + 1)])
    requires u.approved == t.approved + {v} && u.latestDraft == t.latestDraft && u.latestApproval == Some(n + 1)
    ensures ApprovedAgrees(after.approvals, u, n + 1)
  {
    var m := |s.approvals|;
    forall w ensures w in u.approved <==> exists i :: 0 <= i <= m && after.approvals[i].draftVersion == w {
      if w in t.approved {
        var i :| 0 <= i < m && s.approvals[i].draftVersion == w;
        assert after.approvals[i].draftVersion == w;
      }
      assert after.approvals[m].draftVersion == v;
    }
    forall i | 0 <= i < m ensures after.approvals[i].draftVersion < v {
      assert s.approvals[i].draftVersion in t.approved;
    }
  }

  lemma {:induction false} SeenAreKeys(owner: string, events: seq<Event>)
    requires Explained(owner, events).Some?
    ensures forall key :: key in Explained(owner, events).value.seen <==> Used(events, key)
  {
    if events != [] {
      SeenAreKeys(owner, events[..|events| - 1]);
    }
  }

  /** Every event the store recorded is well formed where it stands. */
  predicate AllWellFormed(events: seq<Event>) {
    events == [] ||
    (AllWellFormed(events[..|events| - 1]) && SnapshotOf(events[..|events| - 1]).Some?
     && WellFormed(SnapshotOf(events[..|events| - 1]).value, |events| - 1, events[|events| - 1]))
  }

  /** The store and the explainer, written separately, agree on every log: the store can have
      built a history exactly when the explainer accepts it and each of its events is well
      formed, and then their readings of it agree. */
  lemma {:induction false} ReadersAgree(owner: string, events: seq<Event>)
    ensures Built(owner, events) <==> Explained(owner, events).Some? && AllWellFormed(events)
    ensures Built(owner, events) ==>
              SnapshotOf(events).Some? && Agree(SnapshotOf(events).value, Explained(owner, events).value, |events|)
  {
    if events != [] {
      var before, e := events[..|events| - 1], events[|events| - 1];
      ReadersAgree(owner, before);
      if Built(owner, before) {
        var s, t := SnapshotOf(before).value, Explained(owner, before).value;
        SeenAreKeys(owner, before);
        StepIff(owner, s, t, |before|, e);
        hide Agree, Text, Texts, Validates, Authorized, WellFormed, Tell, Shown;
        if Accepts(owner, s, t, |before|, e) {
          StepAgrees(owner, s, t, |before|, e);
        }
      }
    }
  }

  // ---- what an approval rests on ---------------------------------------------------------------

  /** The intent recorded at `source` is the latest before version `upto`. */
  predicate IsLatestIntent(events: seq<Event>, source: nat, upto: nat) {
    && 1 <= source < upto <= |events| + 1 && events[source - 1].payload.RecordIntent?
    && forall k :: source <= k < upto - 1 ==> !events[k].payload.RecordIntent?
  }

  /** The proposal at `version` is the latest before `upto`, naming this specification. */
  predicate IsLatestProposal(events: seq<Event>, version: nat, upto: nat, spec: Spec, open: seq<string>) {
    && 1 <= version < upto <= |events| + 1 && events[version - 1].payload.ProposeSpec?
    && events[version - 1].payload.spec == spec && events[version - 1].payload.open == open
    && forall k :: version <= k < upto - 1 ==> !events[k].payload.ProposeSpec?
  }

  /** An approval names the latest proposal, free of open questions and made under the intent
      that was still the latest when the approval was given. */
  predicate Stands(events: seq<Event>, a: Approval) {
    && 1 <= a.version <= |events| && events[a.version - 1].payload.ApproveSpec?
    && events[a.version - 1].payload.draftVersion == a.draftVersion && events[a.version - 1].payload.spec == a.spec
    && a.source < a.draftVersion
    && IsLatestIntent(events, a.source, a.version) && IsLatestProposal(events, a.draftVersion, a.version, a.spec, [])
  }

  predicate Numbered(approvals: seq<Approval>) {
    forall i :: 0 <= i < |approvals| ==>
        approvals[i].spec.revision == i + 1 && approvals[i].spec.id == approvals[0].spec.id
  }

  ghost predicate Grounded(events: seq<Event>, s: Snapshot) {
    && Numbered(s.approvals)
    && (forall i :: 0 <= i < |s.approvals| ==> Stands(events, s.approvals[i]))
    && (var source := LatestIntent(s.ledger); source.Some? ==> IsLatestIntent(events, source.value, |events| + 1))
    && (s.draft.Some? ==> DraftStands(events, s, s.draft.value))
  }

  predicate DraftStands(events: seq<Event>, s: Snapshot, d: Draft) {
    && d.source < d.version && LatestIntent(s.ledger) == Some(d.source)
    && IsLatestProposal(events, d.version, |events| + 1, d.spec, d.open)
    && (NextSpec(s.approvals, d.spec)
        || (s.approvals != [] && s.approvals[|s.approvals| - 1].draftVersion == d.version))
  }

  lemma StandsLater(events: seq<Event>, e: Event, a: Approval)
    requires Stands(events, a)
    ensures Stands(events + [e], a)
  {
  }

  lemma IntentStep(events: seq<Event>, e: Event, source: nat)
    requires IsLatestIntent(events, source, |events| + 1) && !e.payload.RecordIntent?
    ensures IsLatestIntent(events + [e], source, |events| + 2)
  {
  }

  lemma ProposalStep(events: seq<Event>, e: Event, d: Draft)
    requires IsLatestProposal(events, d.version, |events| + 1, d.spec, d.open) && !e.payload.ProposeSpec?
    ensures IsLatestProposal(events + [e], d.version, |events| + 2, d.spec, d.open)
  {
  }

  lemma GroundedStep(owner: string, events: seq<Event>, e: Event, s: Snapshot)
    requires SnapshotOf(events) == Some(s) && Grounded(events, s) && Appendable(owner, events, e)
    ensures Shown(s, |events| + 1, e.payload).Some? && Grounded(events + [e], Shown(s, |events| + 1, e.payload).value)
  {
    hide Text, Texts, Authorized, SnapshotOf, Stands, IsLatestIntent, IsLatestProposal, NextSpec, Numbered, Used;
    var after := Shown(s, |events| + 1, e.payload).value;
    forall i | 0 <= i < |s.approvals| ensures Stands(events + [e], s.approvals[i]) {
      StandsLater(events, e, s.approvals[i]);
    }
    LedgerStep(events, e, s);
    assert Validates(s, e.payload);
    hide DraftStands, Appendable, NextSpec;
    match e.payload
    case ProposeSpec(spec, _, open, _) => NewDraftStands(events, e, s, after);
    case ApproveSpec(v, spec, _) =>
      NewApprovalStands(events, e, s, after);
      DraftStandsStill(events, e, s, after);
    case RecordIntent(_) =>
    case _ => if s.draft.Some? { DraftStandsStill(events, e, s, after); }
  }

  lemma LedgerStep(events: seq<Event>, e: Event, s: Snapshot)
    requires Shown(s, |events| + 1, e.payload).Some?
    requires LatestIntent(s.ledger).Some? ==> IsLatestIntent(events, LatestIntent(s.ledger).value, |events| + 1)
    ensures var source := LatestIntent(Shown(s, |events| + 1, e.payload).value.ledger);
            && (source.Some? ==> IsLatestIntent(events + [e], source.value, |events| + 2))
            && (!e.payload.RecordIntent? ==> source == LatestIntent(s.ledger))
  {
    var after := Shown(s, |events| + 1, e.payload).value;
    if e.payload.AddExploration? || e.payload.RecordIntent? {
      assert after.ledger[..|s.ledger|] == s.ledger;
    }
    if LatestIntent(s.ledger).Some? && !e.payload.RecordIntent? {
      IntentStep(events, e, LatestIntent(s.ledger).value);
    }
  }

  /** The draft stays the latest proposal until another is made; an approval marks it approved. */
  lemma DraftStandsStill(events: seq<Event>, e: Event, s: Snapshot, after: Snapshot)
    requires s.draft.Some? && DraftStands(events, s, s.draft.value) && Validates(s, e.payload)
    requires !e.payload.ProposeSpec? && !e.payload.RecordIntent? && Shown(s, |events| + 1, e.payload) == Some(after)
    requires LatestIntent(after.ledger) == LatestIntent(s.ledger)
    ensures DraftStands(events + [e], after, s.draft.value)
  {
    ProposalStep(events, e, s.draft.value);
    hide IsLatestProposal, Text, Texts, LatestIntent;
  }

  lemma NewDraftStands(events: seq<Event>, e: Event, s: Snapshot, after: Snapshot)
    requires Grounded(events, s) && e.payload.ProposeSpec? && Validates(s, e.payload)
    requires Shown(s, |events| + 1, e.payload) == Some(after)
    ensures DraftStands(events + [e], after, after.draft.value)
  {
    hide Stands, Texts, Numbered;
  }

  lemma NewApprovalStands(events: seq<Event>, e: Event, s: Snapshot, after: Snapshot)
    requires Grounded(events, s) && e.payload.ApproveSpec? && Validates(s, e.payload)
    requires Shown(s, |events| + 1, e.payload) == Some(after)
    ensures Stands(events + [e], after.approvals[|s.approvals|]) && Numbered(after.approvals)
  {
  }

  lemma {:induction false} BuiltIsGrounded(owner: string, events: seq<Event>)
    requires Built(owner, events)
    ensures SnapshotOf(events).Some? && Grounded(events, SnapshotOf(events).value)
  {
    if events != [] {
      var before, e := events[..|events| - 1], events[|events| - 1];
      BuiltIsGrounded(owner, before);
      GroundedStep(owner, before, e, SnapshotOf(before).value);
      assert events == before + [e];
    }
  }

  /** In every history the store can build, the i-th approval has revision i under one
      specification id, and names the latest proposal, which has no open questions and was made
      under the intent that was the latest at approval time. */
  lemma ApprovalsStand(owner: string, events: seq<Event>, i: nat)
    requires Built(owner, events) && SnapshotOf(events).Some? && i < |SnapshotOf(events).value.approvals|
    ensures var approvals := SnapshotOf(events).value.approvals;
            approvals[i].spec.revision == i + 1 && approvals[i].spec.id == approvals[0].spec.id
              && Stands(events, approvals[i])
  {
    BuiltIsGrounded(owner, events);
  }

  /** What the explanation says of an approval: it rests on its proposal, the proposal on its
      intent, and it supersedes the approval before it. */
  predicate Tells(t: Telling, approvals: seq<Approval>, i: nat)
    requires i < |approvals|
  {
    var a := approvals[i];
    && 1 <= a.version <= |t.rows| && 1 <= a.draftVersion
    && t.rows[a.version - 1] == HistoryRow(a.version, [a.draftVersion], Some(a.spec),
                                           if i == 0 then None else Some(approvals[i - 1].version))
    && ProposalTold(t, a.draftVersion, a.spec, a.source)
  }

  predicate ProposalTold(t: Telling, version: nat, spec: Spec, source: nat) {
    1 <= version <= |t.rows| && t.rows[version - 1] == HistoryRow(version, [source], Some(spec), None)
  }

  ghost predicate WellTold(s: Snapshot, t: Telling, n: nat) {
    && |t.rows| == n
    && (forall i :: 0 <= i < |s.approvals| ==> Tells(t, s.approvals, i))
    && (s.draft.Some? ==> ProposalTold(t, s.draft.value.version, s.draft.value.spec, s.draft.value.source))
  }

  lemma ToldStep(owner: string, s: Snapshot, t: Telling, n: nat, e: Event)
    requires Agree(s, t, n) && WellTold(s, t, n) && Tell(owner, t, n + 1, e).Some? && Validates(s, e.payload)
    requires Shown(s, n + 1, e.payload).Some?
    ensures WellTold(Shown(s, n + 1, e.payload).value, Tell(owner, t, n + 1, e).value, n + 1)
  {
    hide Text, Texts, NextSpec, LatestIntent;
    var after, u := Shown(s, n + 1, e.payload).value, Tell(owner, t, n + 1, e).value;
    assert u.rows[..n] == t.rows;
    forall i | 0 <= i < |after.approvals| ensures Tells(u, after.approvals, i) {
      assert i < |s.approvals| ==> Tells(t, s.approvals, i);
    }
  }

  /** The explanation of every history the store can build tells where each approval came from. */
  lemma {:induction false} BuiltIsWellTold(owner: string, events: seq<Event>)
    requires Built(owner, events)
    ensures SnapshotOf(events).Some? && Explained(owner, events).Some?
    ensures WellTold(SnapshotOf(events).value, Explained(owner, events).value, |events|)
  {
    ReadersAgree(owner, events);
    if events != [] {
      var before, e := events[..|events| - 1], events[|events| - 1];
      BuiltIsWellTold(owner, before);
      ReadersAgree(owner, before);
      hide Agree, WellTold, Validates, Tell, Shown;
      ToldStep(owner, SnapshotOf(before).value, Explained(owner, before).value, |before|, e);
    }
  }

  // ---- the store -------------------------------------------------------------------------------

  datatype Executed = Recorded | Replayed(at: nat) | Refused

  /** A project's history as `execute` appends to it. */
  class IntentStore {
    const owner: string
    var events: seq<Event>

    ghost predicate Valid()
      reads this
    {
      Built(owner, events)
    }

    constructor (owner: string)
      ensures Valid() && events == [] && this.owner == owner
    {
      this.owner := owner;
      events := [];
    }

    /** The same command by the same actor replays; any other use of its key is refused, and only
        then are the version and the transition checked. */
    method Execute(e: Event) returns (r: Executed)
      requires Valid()
      modifies this`events
      ensures Valid()
      ensures r.Recorded? <==> old(Appendable(owner, events, e))
      ensures r.Replayed? <==> Authorized(owner, e.actor, e.payload) && Text(e.key, 100)
                               && old(exists i :: 0 <= i < |events| && IsReplay(events[i], e))
      ensures r.Replayed? ==> r.at < |events| && IsReplay(events[r.at], e)
      ensures events == if r.Recorded? then old(events) + [e] else old(events)
    {
      if !Authorized(owner, e.actor, e.payload) || !Text(e.key, 100) { return Refused; }
      KeysAreFirst(owner, events);
      for i := 0 to |events|
        invariant forall j :: 0 <= j < i ==> events[j].key != e.key
      {
        if events[i].key == e.key {
          return if IsReplay(events[i], e) then Replayed(i) else Refused;
        }
      }
      var s := TakeSnapshot(events);
      if e.expected != |events| || s.None? || !Validates(s.value, e.payload)
        || |events| + 1 > MAX_EVENTS { return Refused; }
      assert (events + [e])[..|events + [e]| - 1] == events;
      events := events + [e];
      r := Recorded;
    }
  }

  predicate IsReplay(recorded: Event, e: Event) {
    recorded.key == e.key && recorded.actor == e.actor && recorded.payload == e.payload
  }

  lemma {:induction false} KeysAreFirst(owner: string, events: seq<Event>)
    requires Built(owner, events)
    ensures forall i, j :: 0 <= i < j < |events| ==> events[i].key != events[j].key
  {
    if events != [] {
      KeysAreFirst(owner, events[..|events| - 1]);
    }
  }
}
