/** The worker exchange over an unreliable network: reserve, start, launch and observe, with
    messages lost, delayed, repeated or reordered and clients that may stop at any point. */
module WorkerProtocol {

  import opened Budget
  import opened Wrappers

  // ---- the exchange -----------------------------------------------------------------------------------

  datatype Phase = ReservePhase | StartPhase(version: nat) | ObservePhase(report: Report)

  /** A sealed request. The nonce is drawn once and never repeats. */
  datatype Challenge = Challenge(nonce: nat, phase: Phase, call: Call)

  datatype Answer =
    | NewlyReserved | AlreadyReserved | StartOnce | AlreadyStarted | NewlyObserved | AlreadyObserved

  datatype Decision = Decision(call: Call, id: string, version: nat, answer: Answer)

  /** A sealed response: the exchange's decision on one challenge. */
  datatype Reply = Reply(challenge: Challenge, decision: Decision)

  function WorkerId(call: Call): string { "worker-" + call.id }

  function ReserveCall(call: Call): Request {
    ReserveRequest(call.programme, call.role, call.microusd, 1, Worker(call))
  }

  datatype Served = Served(events: seq<Event>, decision: Option<Decision>)

  /** `ExecutionExchange.apply`. The row is looked up in a snapshot of the first `seen` events,
      the command runs against the log as it is by then, and `later` events may be recorded
      before the version is read back. No decision means the request was refused. */
  function Serve(events: seq<Event>, seen: nat, challenge: Challenge, source: Option<Source>, later: nat): Served
    requires seen <= |events|
  {
    var call, id := challenge.call, WorkerId(challenge.call);
    var refused := Served(events, None);
    var state := Projection(events[..seen]);
    if state.None? then refused
    else
      var row := if id in state.value.rows then Some(state.value.rows[id]) else None;
      if row.Some? && row.value.execution != Worker(call) then refused
      else match challenge.phase
        case ReservePhase =>
          if row.Some? then Served(events, Some(Decision(call, id, seen, AlreadyReserved)))
          else Settled(events, ReserveCommand(events, id, seen, ReserveCall(call), source),
                       call, later, NewlyReserved, AlreadyReserved)
        case StartPhase(version) =>
          if row.None? then refused
          else if row.value.started then Served(events, Some(Decision(call, id, seen, AlreadyStarted)))
          else
            var req := StartRequest(id, Worker(call));
            Settled(events, Append(events, "start-" + id, version, req, StartBody(events, version, req)),
                    call, later, StartOnce, AlreadyStarted)
        case ObservePhase(report) =>
          if row.None? || !row.value.started then refused
          else if row.value.observation.Some? then
            if row.value.observation.value == report
            then Served(events, Some(Decision(call, id, seen, AlreadyObserved))) else refused
          else
            var req := ObserveRequest(id, report.reported, report.returned);
            Settled(events, Append(events, "observed-" + id, seen, req, ObserveBody(events, req)),
                    call, later, NewlyObserved, NewlyObserved)
  }

  /** What an append is answered with. */
  function Settled(events: seq<Event>, r: Appended, call: Call, later: nat, first: Answer, again: Answer): Served {
    match r
    case Recorded(es) => Served(es, Some(Decision(call, WorkerId(call), |es| + later, first)))
    case Replayed(_) => Served(events, Some(Decision(call, WorkerId(call), |events| + later, again)))
    case Refused => Served(events, None)
  }

  /** `apply` driving the ledger itself. */
  class Exchange {
    const ledger: Ledger

    constructor (ledger: Ledger)
      ensures this.ledger == ledger
    {
      this.ledger := ledger;
    }

    method Apply(seen: nat, challenge: Challenge, source: Option<Source>, later: nat)
      returns (decision: Option<Decision>)
      requires ledger.Valid() && seen <= |ledger.events|
      modifies ledger
      ensures ledger.Valid()
      ensures Served(ledger.events, decision) == old(Serve(ledger.events, seen, challenge, source, later))
    {
      hide Projection, ApprovedScope, Append, StartBody, ObserveBody, ReserveCommand, History;
      var call, id := challenge.call, WorkerId(challenge.call);
      var state := Project(ledger.events[..seen]);
      if state.None? { return None; }
      var row := if id in state.value.rows then Some(state.value.rows[id]) else None;
      if row.Some? && row.value.execution != Worker(call) { return None; }
      var result: Appended;
      var first, again;
      match challenge.phase {
        case ReservePhase =>
          if row.Some? { return Some(Decision(call, id, seen, AlreadyReserved)); }
          result := ledger.Reserve(id, seen, ReserveCall(call), source);
          first, again := NewlyReserved, AlreadyReserved;
        case StartPhase(version) =>
          if row.None? { return None; }
          if row.value.started { return Some(Decision(call, id, seen, AlreadyStarted)); }
          result := ledger.Start("start-" + id, version, StartRequest(id, Worker(call)));
          first, again := StartOnce, AlreadyStarted;
        case ObservePhase(report) =>
          if row.None? || !row.value.started { return None; }
          if row.value.observation.Some? {
            if row.value.observation.value != report { return None; }
            return Some(Decision(call, id, seen, AlreadyObserved));
          }
          result := ledger.Observe("observed-" + id, seen, ObserveRequest(id, report.reported, report.returned));
          first, again := NewlyObserved, NewlyObserved;
      }
      if result.Refused? { return None; }
      decision := Some(Decision(call, id, |ledger.events| + later, if result.Recorded? then first else again));
    }
  }

  // ---- the client -------------------------------------------------------------------------------------------

  /** Where a client's `run` stands. */
  datatype Client =
    | Reserving(call: Call, nonce: nat)
    | Starting(call: Call, nonce: nat)
    | Launched(call: Call)
    | Settling(call: Call, nonce: nat)
    | Stopped

  predicate Waits(c: Client) {
    c.Reserving? || c.Starting? || c.Settling?
  }

  predicate Allowed(phase: Phase, answer: Answer) {
    match phase
    case ReservePhase => answer == NewlyReserved || answer == AlreadyReserved
    case StartPhase(_) => answer == StartOnce || answer == AlreadyStarted
    case ObservePhase(_) => answer == NewlyObserved || answer == AlreadyObserved
  }

  /** `ExecutionProtocol.verify`: the reply answers this very challenge and is bound to its call. */
  predicate Verifies(challenge: Challenge, r: Reply) {
    && r.challenge == challenge && r.decision.call == challenge.call && r.decision.id == WorkerId(challenge.call)
    && Allowed(challenge.phase, r.decision.answer)
  }

  /** Accepting the decision on its own challenge: only a new reservation is started, and only a
      first start launches the provider. Every other answer ends the run. `nonce` is the next one. */
  function AcceptDecision(c: Client, d: Decision, nonce: nat): Client {
    match c
    case Reserving(call, _) => if d.answer == NewlyReserved then Starting(call, nonce) else Stopped
    case Starting(call, _) => if d.answer == StartOnce then Launched(call) else Stopped
    case _ => Stopped
  }

  /** The request a client sends on entering a state. */
  function Sends(c: Client, d: Decision): Option<Phase> {
    if c.Reserving? && d.answer == NewlyReserved then Some(StartPhase(d.version)) else None
  }

  // ---- the whole system --------------------------------------------------------------------------------------

  /** `sent[n]` is the challenge with nonce n; a challenge once sent may reach the exchange any
      number of times, and a reply once given may reach its client or be lost. */
  datatype System = System(events: seq<Event>, sent: seq<Challenge>, replies: set<Reply>,
                           clients: seq<Client>, launches: seq<Challenge>)

  datatype Label =
    | Note(event: Event)
    | Begin(call: Call)
    | Deliver(nonce: nat, seen: nat, source: Option<Source>, later: nat)
    | Accept(client: nat, reply: Reply)
    | Finish(client: nat, report: Report)
    | Stop(client: nat)

  ghost predicate Enabled(s: System, l: Label) {
    match l
    case Note(e) => Permitted(s.events, e)
    case Begin(_) => true
    case Deliver(n, seen, _, _) => n < |s.sent| && seen <= |s.events|
    case Accept(i, r) =>
      i < |s.clients| && Waits(s.clients[i]) && s.clients[i].nonce < |s.sent| && r in s.replies
      && Verifies(s.sent[s.clients[i].nonce], r)
    case Finish(i, _) => i < |s.clients| && s.clients[i].Launched?
    case Stop(i) => i < |s.clients|
  }

  function Send(s: System, phase: Phase, call: Call): System {
    s.(sent := s.sent + [Challenge(|s.sent|, phase, call)])
  }

  ghost function Next(s: System, l: Label): System
    requires Enabled(s, l)
  {
    match l
    case Note(e) => s.(events := s.events + [e])
    case Begin(call) => Send(s, ReservePhase, call).(clients := s.clients + [Reserving(call, |s.sent|)])
    case Deliver(n, seen, source, later) =>
      var r := Serve(s.events, seen, s.sent[n], source, later);
      s.(events := r.events,
         replies := if r.decision.Some? then s.replies + {Reply(s.sent[n], r.decision.value)} else s.replies)
    case Accept(i, r) => Accepted(s, i, r)
    case Finish(i, report) =>
      var call := s.clients[i].call;
      Send(s, ObservePhase(report), call).(clients := s.clients[i := Settling(call, |s.sent|)])
    case Stop(i) => s.(clients := s.clients[i := Stopped])
  }

  /** A client takes its reply: it sends the next request, launches the provider, or stops. */
  function Accepted(s: System, i: nat, r: Reply): System
    requires i < |s.clients| && Waits(s.clients[i])
  {
    var c := s.clients[i];
    var after := AcceptDecision(c, r.decision, |s.sent|);
    var phase := Sends(c, r.decision);
    var t := if phase.Some? then Send(s, phase.value, c.call) else s;
    t.(clients := s.clients[i := after],
       launches := if after.Launched? then s.launches + [r.challenge] else s.launches)
  }

  const INITIAL := System([], [], {}, [], [])

  /** The states a run goes through. */
  ghost predicate IsRun(run: seq<System>) {
    |run| > 0 && run[0] == INITIAL
    && forall k :: 0 <= k < |run| - 1 ==> Steps(run[k], run[k + 1])
  }

  ghost predicate Steps(s: System, t: System) {
    exists l :: Enabled(s, l) && t == Next(s, l)
  }

  // ---- what one request does ------------------------------------------------------------------------------------

  lemma WorkerIdsAreInjective(a: Call, b: Call)
    ensures WorkerId(a) == WorkerId(b) <==> a.id == b.id
  {
    assert WorkerId(a)[7..] == a.id && WorkerId(b)[7..] == b.id;
  }

  ghost predicate StartedAt(events: seq<Event>, k: nat, call: Call) {
    k < |events| && events[k].body == Started(WorkerId(call), Worker(call))
  }

  /** The log holds the reservation the exchange makes for a call: under its name, of its ceiling. */
  ghost predicate OwnReserve(events: seq<Event>, call: Call) {
    exists k: nat :: ReservedFor(events, k, call)
  }

  ghost predicate ReservedFor(events: seq<Event>, k: nat, call: Call) {
    k < |events| && events[k].body.Reserved? && events[k].body.id == WorkerId(call)
    && events[k].body.execution == Worker(call) && events[k].body.microusd == call.microusd
  }

  /** The log only grows, by at most one permitted event. */
  ghost predicate Grows(events: seq<Event>, after: seq<Event>) {
    after == events || (|after| == |events| + 1 && after[..|events|] == events && Permitted(events, after[|events|]))
  }

  lemma ReserveGrows(events: seq<Event>, seen: nat, call: Call, source: Option<Source>)
    ensures var r := ReserveCommand(events, WorkerId(call), seen, ReserveCall(call), source);
            r.Recorded? ==>
              Grows(events, r.events) && |r.events| == |events| + 1 && ReservedFor(r.events, |events|, call)
  {
    hide Projection, ApprovedScope, StatusOf;
    var r := ReserveCommand(events, WorkerId(call), seen, ReserveCall(call), source);
    if r.Recorded? {
      assert ReserveBody(events, WorkerId(call), ReserveCall(call), source) == Some(r.events[|events|].body);
      assert Commanded(events, r.events[|events|]);
    }
  }

  lemma StartGrows(events: seq<Event>, key: string, version: nat, req: Request)
    requires req.StartRequest?
    ensures var r := Append(events, key, version, req, StartBody(events, version, req));
            r.Recorded? ==>
              Grows(events, r.events) && |r.events| == |events| + 1
              && r.events[|events|].body == Started(req.id, req.execution)
  {
    hide Projection, ApprovedScope;
  }

  lemma ObserveGrows(events: seq<Event>, key: string, seen: nat, req: Request)
    requires req.ObserveRequest?
    ensures var r := Append(events, key, seen, req, ObserveBody(events, req)); r.Recorded? ==> Grows(events, r.events)
  {
    hide Projection;
  }

  /** Serving one request appends at most one event, and the decision is bound to the call and
      allowed in its phase. */
  lemma ServeGrows(events: seq<Event>, seen: nat, ch: Challenge, source: Option<Source>, later: nat)
    requires seen <= |events|
    ensures var r := Serve(events, seen, ch, source, later);
            Grows(events, r.events) && (r.decision.Some? ==> Verifies(ch, Reply(ch, r.decision.value)))
  {
    hide Append, ReserveCommand, StartBody, ObserveBody, Grows, Projection;
    GrowsRefl(events);
    match ch.phase
    case ReservePhase => ReserveGrows(events, seen, ch.call, source);
    case StartPhase(version) => StartGrows(events, "start-" + WorkerId(ch.call), version,
                                           StartRequest(WorkerId(ch.call), Worker(ch.call)));
    case ObservePhase(report) =>
      ObserveGrows(events, "observed-" + WorkerId(ch.call), seen,
                   ObserveRequest(WorkerId(ch.call), report.reported, report.returned));
  }

  /** A new reservation is answered only when it was recorded, in the call's name and of its ceiling. */
  lemma NewlyReservedIsRecorded(events: seq<Event>, seen: nat, ch: Challenge, source: Option<Source>, later: nat)
    requires seen <= |events|
    ensures var r := Serve(events, seen, ch, source, later);
            r.decision.Some? && r.decision.value.answer == NewlyReserved ==> OwnReserve(r.events, ch.call)
  {
    hide Append, ReserveCommand, StartBody, ObserveBody, Grows, Projection, WorkerId;
    if ch.phase.ReservePhase? {
      ReserveGrows(events, seen, ch.call, source);
    }
  }

  lemma GrowsRefl(events: seq<Event>)
    ensures Grows(events, events)
  {
  }

  lemma StartOnceAppends(events: seq<Event>, seen: nat, ch: Challenge, source: Option<Source>, later: nat)
    requires seen <= |events|
    ensures var r := Serve(events, seen, ch, source, later);
            r.decision.Some? && r.decision.value.answer == StartOnce ==>
              Grows(events, r.events) && StartedAt(r.events, |events|, ch.call)
  {
    hide Append, ReserveCommand, StartBody, ObserveBody, Grows, Projection, WorkerId;
    if ch.phase.StartPhase? {
      StartGrows(events, "start-" + WorkerId(ch.call), ch.phase.version,
                 StartRequest(WorkerId(ch.call), Worker(ch.call)));
    }
  }

  /** Only a start not recorded before is answered `StartOnce`, and it is recorded by then. */
  lemma StartOnceIsFirst(events: seq<Event>, seen: nat, ch: Challenge, source: Option<Source>, later: nat, k: nat)
    requires seen <= |events| && History(events)
    ensures var r := Serve(events, seen, ch, source, later);
            r.decision.Some? && r.decision.value.answer == StartOnce ==>
              StartedAt(r.events, |events|, ch.call)
              && (k < |events| && events[k].body.Started? ==> events[k].body.id != WorkerId(ch.call))
  {
    hide Serve, History, Commanded, Projection;
    var r := Serve(events, seen, ch, source, later);
    StartOnceAppends(events, seen, ch, source, later);
    if r.decision.Some? && r.decision.value.answer == StartOnce {
      StartFacts(events, r.events[|events|]);
      hide Permitted;
      if k < |events| && events[k].body.Started? {
        StartedStays(events, k);
      }
    }
  }

  // ---- what every run keeps ---------------------------------------------------------------------------------------

  predicate IsNewReserve(r: Reply) { r.decision.answer == NewlyReserved }

  /** Every reservation answered as new is the log's own, and a start is asked for only after one. */
  ghost predicate ReserveInv(events: seq<Event>, sent: seq<Challenge>, replies: set<Reply>) {
    && (forall r :: r in replies && IsNewReserve(r) ==> OwnReserve(events, r.challenge.call))
    && (forall n :: 0 <= n < |sent| && sent[n].phase.StartPhase? ==> OwnReserve(events, sent[n].call))
  }

  predicate IsStartOnce(r: Reply) { r.decision.answer == StartOnce }

  ghost predicate HasStart(events: seq<Event>, call: Call) {
    exists k: nat :: StartedAt(events, k, call)
  }

  /** Replies answer challenges that were sent; a first start is on the log, and answered once. */
  ghost predicate ReplyInv(events: seq<Event>, sent: seq<Challenge>, replies: set<Reply>) {
    && (forall r :: r in replies ==> Answers(sent, r))
    && (forall r :: r in replies && IsStartOnce(r) ==> HasStart(events, r.challenge.call))
    && (forall r, q :: r in replies && q in replies && SameStart(r, q) ==> r == q)
  }

  predicate SameStart(r: Reply, q: Reply) {
    IsStartOnce(r) && IsStartOnce(q) && r.challenge.call.id == q.challenge.call.id
  }

  predicate Answers(sent: seq<Challenge>, r: Reply) {
    r.challenge.nonce < |sent| && sent[r.challenge.nonce] == r.challenge && Verifies(r.challenge, r)
  }

  predicate Asks(c: Client, phase: Phase) {
    match c
    case Reserving(_, _) => phase.ReservePhase?
    case Starting(_, _) => phase.StartPhase?
    case _ => phase.ObservePhase?
  }

  /** A waiting client's challenge is its own, and no launch has used it. */
  ghost predicate ClientInv(s: System) {
    && (forall n :: 0 <= n < |s.sent| ==> s.sent[n].nonce == n)
    && (forall i :: 0 <= i < |s.clients| && Waits(s.clients[i]) ==> Awaiting(s, s.clients[i]))
    && (forall i, j :: 0 <= i < j < |s.clients| && Waits(s.clients[i]) && Waits(s.clients[j])
          ==> s.clients[i].nonce != s.clients[j].nonce)
  }

  ghost predicate Awaiting(s: System, c: Client)
    requires Waits(c)
  {
    && c.nonce < |s.sent| && s.sent[c.nonce].call == c.call && Asks(c, s.sent[c.nonce].phase)
    && forall m :: 0 <= m < |s.launches| ==> s.launches[m].nonce != c.nonce
  }

  /** Each launch used a reply of its own that said `StartOnce`. */
  ghost predicate LaunchInv(sent: seq<Challenge>, replies: set<Reply>, launches: seq<Challenge>) {
    && (forall m :: 0 <= m < |launches| ==> launches[m].nonce < |sent| && Granted(replies, launches[m]))
    && (forall m, n :: 0 <= m < n < |launches| ==> launches[m].nonce != launches[n].nonce)
  }

  ghost predicate Granted(replies: set<Reply>, ch: Challenge) {
    exists r :: r in replies && IsStartOnce(r) && r.challenge == ch
  }

  ghost predicate Inv(s: System) {
    && History(s.events) && ReserveInv(s.events, s.sent, s.replies) && ReplyInv(s.events, s.sent, s.replies)
    && ClientInv(s) && LaunchInv(s.sent, s.replies, s.launches)
  }

  lemma GrowsKeepsLog(events: seq<Event>, after: seq<Event>)
    requires History(events) && Grows(events, after)
    ensures History(after)
  {
    if after != events {
      assert after == events + [after[|events|]];
      Extended(events, after[|events|]);
    }
  }

  lemma OwnReserveStays(events: seq<Event>, after: seq<Event>, call: Call)
    requires OwnReserve(events, call) && Grows(events, after)
    ensures OwnReserve(after, call)
  {
    var k: nat :| ReservedFor(events, k, call);
    assert after == events || after[..|events|][k] == events[k];
    assert ReservedFor(after, k, call);
  }

  /** The log grew, requests were sent and replies given: each new one has its reservation. */
  lemma ReserveInvFrame(events: seq<Event>, after: seq<Event>, sent: seq<Challenge>, more: seq<Challenge>,
                        replies: set<Reply>, added: set<Reply>)
    requires ReserveInv(events, sent, replies) && Grows(events, after)
    requires forall r :: r in added && IsNewReserve(r) ==> OwnReserve(after, r.challenge.call)
    requires forall n :: 0 <= n < |more| && more[n].phase.StartPhase? ==> OwnReserve(after, more[n].call)
    ensures ReserveInv(after, sent + more, replies + added)
  {
    hide Grows, OwnReserve;
    forall r | r in replies && IsNewReserve(r)
      ensures OwnReserve(after, r.challenge.call)
    {
      OwnReserveStays(events, after, r.challenge.call);
    }
    forall n | 0 <= n < |sent| && sent[n].phase.StartPhase?
      ensures OwnReserve(after, sent[n].call)
    {
      OwnReserveStays(events, after, sent[n].call);
    }
  }

  lemma HasStartStays(events: seq<Event>, after: seq<Event>, call: Call)
    requires HasStart(events, call) && Grows(events, after)
    ensures HasStart(after, call)
  {
    var k: nat :| StartedAt(events, k, call);
    assert after == events || after[..|events|][k] == events[k];
    assert StartedAt(after, k, call);
  }

  lemma ReplyInvFrame(events: seq<Event>, after: seq<Event>, sent: seq<Challenge>, more: seq<Challenge>,
                      replies: set<Reply>)
    requires ReplyInv(events, sent, replies) && Grows(events, after)
    ensures ReplyInv(after, sent + more, replies)
  {
    hide Grows, HasStart, Verifies;
    forall r | r in replies && IsStartOnce(r) ensures HasStart(after, r.challenge.call) {
      HasStartStays(events, after, r.challenge.call);
    }
  }

  lemma LaunchInvFrame(sent: seq<Challenge>, more: seq<Challenge>, replies: set<Reply>, added: set<Reply>,
                       launches: seq<Challenge>)
    requires LaunchInv(sent, replies, launches)
    ensures LaunchInv(sent + more, replies + added, launches)
  {
    forall m | 0 <= m < |launches| ensures Granted(replies + added, launches[m]) {
      assert Granted(replies, launches[m]);
      var r :| r in replies && IsStartOnce(r) && r.challenge == launches[m];
      assert r in replies + added;
    }
  }

  lemma NoteKeeps(s: System, e: Event)
    requires Inv(s) && Permitted(s.events, e)
    ensures Inv(Next(s, Note(e)))
  {
    assert (s.events + [e])[..|s.events|] == s.events;
    assert Grows(s.events, s.events + [e]);
    hide History, Permitted, ReserveInv, ReplyInv, LaunchInv, Grows;
    GrowsKeepsLog(s.events, s.events + [e]);
    ReserveInvFrame(s.events, s.events + [e], s.sent, [], s.replies, {});
    assert s.replies + {} == s.replies;
    ReplyInvFrame(s.events, s.events + [e], s.sent, [], s.replies);
    assert s.sent + [] == s.sent;
  }

  lemma DeliverKeeps(s: System, n: nat, seen: nat, source: Option<Source>, later: nat)
    requires Inv(s) && n < |s.sent| && seen <= |s.events|
    ensures Inv(Next(s, Deliver(n, seen, source, later)))
  {
    DeliverKeepsReplies(s, n, seen, source, later);
    hide Serve, History, Verifies, Grows, LaunchInv, ReplyInv, ReserveInv, OwnReserve;
    var t := Next(s, Deliver(n, seen, source, later));
    ServeGrows(s.events, seen, s.sent[n], source, later);
    NewlyReservedIsRecorded(s.events, seen, s.sent[n], source, later);
    GrowsKeepsLog(s.events, t.events);
    ReserveInvFrame(s.events, t.events, s.sent, [], s.replies, t.replies - s.replies);
    LaunchInvFrame(s.sent, [], s.replies, t.replies - s.replies, s.launches);
    assert s.sent + [] == s.sent && s.replies + (t.replies - s.replies) == t.replies;
  }

  lemma DeliverKeepsReplies(s: System, n: nat, seen: nat, source: Option<Source>, later: nat)
    requires History(s.events) && ReplyInv(s.events, s.sent, s.replies) && ClientInv(s) && n < |s.sent|
             && seen <= |s.events|
    ensures var t := Next(s, Deliver(n, seen, source, later)); ReplyInv(t.events, s.sent, t.replies)
  {
    hide History, Serve, Verifies, Grows, HasStart;
    var t := Next(s, Deliver(n, seen, source, later));
    var served, ch := Serve(s.events, seen, s.sent[n], source, later), s.sent[n];
    ServeGrows(s.events, seen, ch, source, later);
    ReplyInvFrame(s.events, t.events, s.sent, [], s.replies);
    assert s.sent + [] == s.sent;
    if served.decision.Some? {
      var reply := Reply(ch, served.decision.value);
      if IsStartOnce(reply) {
        StartIsRecorded(s.events, seen, ch, source, later);
        forall r | r in s.replies ensures !SameStart(r, reply) {
          NoOtherStart(s, r, ch, seen, source, later);
        }
      }
    }
  }

  lemma StartIsRecorded(events: seq<Event>, seen: nat, ch: Challenge, source: Option<Source>, later: nat)
    requires seen <= |events| && History(events)
    ensures var r := Serve(events, seen, ch, source, later);
            r.decision.Some? && r.decision.value.answer == StartOnce ==> HasStart(r.events, ch.call)
  {
    StartOnceIsFirst(events, seen, ch, source, later, 0);
    hide Serve, History;
  }

  lemma NoOtherStart(s: System, r: Reply, ch: Challenge, seen: nat, source: Option<Source>, later: nat)
    requires History(s.events) && seen <= |s.events| && (IsStartOnce(r) ==> HasStart(s.events, r.challenge.call))
    ensures var d := Serve(s.events, seen, ch, source, later).decision;
            d.Some? ==> !SameStart(r, Reply(ch, d.value))
  {
    hide History, Serve;
    if IsStartOnce(r) {
      var k: nat :| StartedAt(s.events, k, r.challenge.call);
      StartOnceIsFirst(s.events, seen, ch, source, later, k);
      WorkerIdsAreInjective(r.challenge.call, ch.call);
    }
  }

  lemma AcceptKeeps(s: System, i: nat, r: Reply)
    requires Inv(s) && Enabled(s, Accept(i, r))
    ensures Inv(Next(s, Accept(i, r)))
  {
    AcceptClients(s, i, r);
    AcceptReserved(s, i, r);
    hide History, HasStart, ReserveInv, OwnReserve, ReplyInv, LaunchInv, ClientInv;
    var t := Next(s, Accept(i, r));
    var more := t.sent[|s.sent|..];
    assert t.sent == s.sent + more;
    GrowsRefl(s.events);
    ReserveInvFrame(s.events, s.events, s.sent, more, s.replies, {});
    ReplyInvFrame(s.events, s.events, s.sent, more, s.replies);
    LaunchInvFrame(s.sent, more, s.replies, {}, s.launches);
    assert s.replies + {} == s.replies;
    assert LaunchInv(t.sent, s.replies, t.launches) by { AcceptLaunches(s, i, r, t.sent); }
  }

  /** A start is only asked for by a client that was told its reservation is new. */
  lemma AcceptReserved(s: System, i: nat, r: Reply)
    requires ClientInv(s) && ReserveInv(s.events, s.sent, s.replies) && Enabled(s, Accept(i, r))
    ensures var more := Accepted(s, i, r).sent[|s.sent|..];
            forall n :: 0 <= n < |more| && more[n].phase.StartPhase? ==> OwnReserve(s.events, more[n].call)
  {
    hide OwnReserve, WorkerId;
    assert Awaiting(s, s.clients[i]);
  }

  lemma AcceptClients(s: System, i: nat, r: Reply)
    requires ClientInv(s) && LaunchInv(s.sent, s.replies, s.launches) && Enabled(s, Accept(i, r))
    ensures ClientInv(Accepted(s, i, r))
  {
    hide Granted, WorkerId;
    var t := Accepted(s, i, r);
    forall j | 0 <= j < |t.clients| && Waits(t.clients[j]) ensures Awaiting(t, t.clients[j]) {
      assert j != i ==> Awaiting(s, s.clients[j]);
    }
  }

  lemma LocalClients(s: System, l: Label)
    requires ClientInv(s) && LaunchInv(s.sent, s.replies, s.launches)
    requires Enabled(s, l) && (l.Begin? || l.Finish? || l.Stop?)
    ensures ClientInv(Next(s, l))
  {
    hide Granted;
    var t := Next(s, l);
    forall j | 0 <= j < |t.clients| && Waits(t.clients[j]) ensures Awaiting(t, t.clients[j]) {
      assert j < |s.clients| && s.clients[j] == t.clients[j] ==> Awaiting(s, s.clients[j]);
    }
  }

  lemma AcceptLaunches(s: System, i: nat, r: Reply, sent: seq<Challenge>)
    requires ClientInv(s) && Enabled(s, Accept(i, r)) && LaunchInv(sent, s.replies, s.launches) && |s.sent| <= |sent|
    ensures LaunchInv(sent, s.replies, Accepted(s, i, r).launches)
  {
    if AcceptDecision(s.clients[i], r.decision, |s.sent|).Launched? {
      assert r in s.replies && IsStartOnce(r);
      assert Granted(s.replies, r.challenge);
    }
  }

  lemma LocalKeeps(s: System, l: Label)
    requires Inv(s) && Enabled(s, l) && (l.Begin? || l.Finish? || l.Stop?)
    ensures Inv(Next(s, l))
  {
    LocalClients(s, l);
    hide History, HasStart, ReserveInv, OwnReserve, ReplyInv, LaunchInv, ClientInv;
    var t := Next(s, l);
    var more := t.sent[|s.sent|..];
    assert t.sent == s.sent + more;
    GrowsRefl(s.events);
    ReserveInvFrame(s.events, s.events, s.sent, more, s.replies, {});
    ReplyInvFrame(s.events, s.events, s.sent, more, s.replies);
    LaunchInvFrame(s.sent, more, s.replies, {}, s.launches);
    assert s.replies + {} == s.replies;
  }

  lemma StepKeeps(s: System, l: Label)
    requires Inv(s) && Enabled(s, l)
    ensures Inv(Next(s, l))
  {
    hide Inv, Next;
    match l
    case Note(e) => NoteKeeps(s, e);
    case Deliver(n, seen, source, later) => DeliverKeeps(s, n, seen, source, later);
    case Accept(i, r) => AcceptKeeps(s, i, r);
    case _ => LocalKeeps(s, l);
  }

  lemma {:induction false} RunKeeps(run: seq<System>, k: nat)
    requires IsRun(run) && k < |run|
    ensures Inv(run[k])
  {
    if k > 0 {
      RunKeeps(run, k - 1);
      assert Steps(run[k - 1], run[k - 1 + 1]);
      var l :| Enabled(run[k - 1], l) && run[k] == Next(run[k - 1], l);
      StepKeeps(run[k - 1], l);
    }
  }

  // ---- what every run guarantees ------------------------------------------------------------------------------------

  /** However messages are lost, repeated or reordered and whoever crashes, no call identity
      launches the provider twice. */
  lemma LaunchedOnce(run: seq<System>, k: nat, m: nat, n: nat)
    requires IsRun(run) && k < |run| && m < n < |run[k].launches|
    ensures run[k].launches[m].call.id != run[k].launches[n].call.id
  {
    RunKeeps(run, k);
    hide IsRun, History, ReserveInv, ClientInv;
    OneGrantEach(run[k], m, n);
  }

  lemma OneGrantEach(s: System, m: nat, n: nat)
    requires ReplyInv(s.events, s.sent, s.replies) && LaunchInv(s.sent, s.replies, s.launches) && m < n < |s.launches|
    ensures s.launches[m].call.id != s.launches[n].call.id
  {
    assert Granted(s.replies, s.launches[m]) && Granted(s.replies, s.launches[n]);
    var r :| r in s.replies && IsStartOnce(r) && r.challenge == s.launches[m];
    var q :| q in s.replies && IsStartOnce(q) && q.challenge == s.launches[n];
    assert r != q;
    assert !SameStart(r, q);
  }

  /** The call's charge is on the log at i, for its own ceiling, and its start directly after. */
  ghost predicate ChargedAndStarted(events: seq<Event>, i: nat, call: Call) {
    && i + 1 < |events| && events[i].body.Reserved? && events[i].body.id == WorkerId(call)
    && events[i].body.execution == Worker(call) && events[i].body.microusd == call.microusd
    && StartedAt(events, i + 1, call)
  }

  /** Whenever the provider has been launched, its charge and start were already recorded. */
  lemma LaunchWasCharged(run: seq<System>, k: nat, m: nat) returns (i: nat)
    requires IsRun(run) && k < |run| && m < |run[k].launches|
    ensures ChargedAndStarted(run[k].events, i, run[k].launches[m].call)
  {
    RunKeeps(run, k);
    hide IsRun;
    i := LaunchCharge(run[k], m);
  }

  lemma LaunchCharge(s: System, m: nat) returns (i: nat)
    requires Inv(s) && m < |s.launches|
    ensures ChargedAndStarted(s.events, i, s.launches[m].call)
  {
    hide History;
    var call := s.launches[m].call;
    assert Granted(s.replies, s.launches[m]);
    var j: nat :| StartedAt(s.events, j, call);
    StartFollowsReserve(s.events, j);
    i := j - 1;
    assert s.launches[m].phase.StartPhase? && OwnReserve(s.events, call);
    var k: nat :| ReservedFor(s.events, k, call);
    ReservedOnce(s.events, i, k);
  }

  /** No two reservations have the same id. */
  lemma ReservedOnce(events: seq<Event>, i: nat, k: nat)
    requires History(events) && i < |events| && k < |events| && events[i].body.Reserved? && events[k].body.Reserved?
    requires events[i].body.id == events[k].body.id
    ensures i == k
  {
    if i != k {
      var first, last := if i < k then i else k, if i < k then k else i;
      PrefixHistory(events, last + 1);
      PrefixHistory(events, last);
      LastPermitted(events[..last + 1]);
      hide History, Permitted;
      var before := events[..last];
      assert events[..last + 1][..last] == before && events[..last + 1][last] == events[last];
      assert before[first] == events[first];
      ReservedIn(before, first);
      FreshId(before, events[last]);
    }
  }

  lemma LastPermitted(events: seq<Event>)
    requires History(events) && events != []
    ensures Permitted(events[..|events| - 1], events[|events| - 1])
  {
  }

  lemma {:induction false} ReservedIn(events: seq<Event>, i: nat)
    requires i < |events| && events[i].body.Reserved?
    ensures events[i].body.id in ReservedIds(events)
  {
    if i < |events| - 1 {
      ReservedIn(events[..|events| - 1], i);
    }
  }

  /** A recorded reservation keeps its row: same ceiling, same execution. */
  lemma ReservationStays(events: seq<Event>, i: nat)
    requires History(events) && i < |events| && events[i].body.Reserved?
    ensures Projection(events).Some? && events[i].body.id in Projection(events).value.rows
    ensures var row := Projection(events).value.rows[events[i].body.id];
            row.microusd == events[i].body.microusd && row.execution == events[i].body.execution
  {
    NothingRefunded(events, i + 1);
    hide History;
    var upto := events[..i + 1];
    assert upto[|upto| - 1] == events[i];
    assert events[i].body.id in Projection(upto).value.rows;
  }

  // ---- launches against the allowance ----------------------------------------------------------

  function LaunchIds(launches: seq<Challenge>): (ids: seq<string>)
    ensures |ids| == |launches|
    ensures forall m :: 0 <= m < |ids| ==> ids[m] == WorkerId(launches[m].call)
  {
    if launches == [] then [] else LaunchIds(launches[..|launches| - 1]) + [WorkerId(launches[|launches| - 1].call)]
  }

  /** The summed ceilings of the launched calls. */
  function Ceilings(launches: seq<Challenge>): nat {
    if launches == [] then 0 else Ceilings(launches[..|launches| - 1]) + launches[|launches| - 1].call.microusd
  }

  lemma {:induction false} CeilingsAreCharges(rows: map<string, Row>, launches: seq<Challenge>)
    requires forall m :: 0 <= m < |launches| ==> var id := WorkerId(launches[m].call);
                         id in rows && rows[id].microusd == launches[m].call.microusd
    ensures forall id :: id in LaunchIds(launches) ==> id in rows
    ensures Sum(rows, LaunchIds(launches)) == Ceilings(launches)
  {
    if launches != [] {
      var rest := launches[..|launches| - 1];
      CeilingsAreCharges(rows, rest);
      assert LaunchIds(launches)[..|rest|] == LaunchIds(rest);
    }
  }

  predicate Distinct(ids: seq<string>) {
    forall i, j :: 0 <= i < j < |ids| ==> ids[i] != ids[j]
  }

  lemma {:induction false} SumWithout(rows: map<string, Row>, ids: seq<string>, at: nat)
    requires at < |ids| && forall id :: id in ids ==> id in rows
    ensures Sum(rows, ids) == Sum(rows, ids[..at] + ids[at + 1..]) + rows[ids[at]].microusd
    decreases |ids|
  {
    var n := |ids| - 1;
    var without := ids[..at] + ids[at + 1..];
    if at == n {
      assert without == ids[..n];
    } else {
      SumWithout(rows, ids[..n], at);
      assert without[..|without| - 1] == ids[..n][..at] + ids[..n][at + 1..];
    }
  }

  /** Distinct ids drawn from a list are no more, and cost no more, than the list. */
  lemma {:induction false} PartCostsNoMore(rows: map<string, Row>, part: seq<string>, whole: seq<string>)
    requires Distinct(part) && forall id :: id in part ==> id in whole
    requires forall id :: id in whole ==> id in rows
    ensures |part| <= |whole| && Sum(rows, part) <= Sum(rows, whole)
    decreases |part|
  {
    if part != [] {
      var n := |part| - 1;
      assert part[n] in whole;
      var at :| 0 <= at < |whole| && whole[at] == part[n];
      var rest := whole[..at] + whole[at + 1..];
      forall id | id in part[..n] ensures id in rest {
        var i :| 0 <= i < n && part[i] == id;
        assert part[i] in whole;
        var j :| 0 <= j < |whole| && whole[j] == id;
        assert j != at;
        assert if j < at then rest[j] == id else rest[j - 1] == id;
      }
      SumWithout(rows, whole, at);
      PartCostsNoMore(rows, part[..n], rest);
    }
  }

  /** In every state of every run, launches stay within the approved calls and their ceilings
      sum to no more than the approved limit. */
  lemma LaunchesWithinAllowance(run: seq<System>, k: nat)
    requires IsRun(run) && k < |run| && run[k].launches != []
    ensures Projection(run[k].events).Some? && Projection(run[k].events).value.allowance.Some?
    ensures var allowance := Projection(run[k].events).value.allowance.value;
            |run[k].launches| <= allowance.maxCalls && Ceilings(run[k].launches) <= allowance.limit
  {
    RunKeeps(run, k);
    hide IsRun;
    var s := run[k];
    forall m, n | 0 <= m < n < |s.launches| ensures LaunchIds(s.launches)[m] != LaunchIds(s.launches)[n] {
      LaunchedOnce(run, k, m, n);
      WorkerIdsAreInjective(s.launches[m].call, s.launches[n].call);
    }
    LaunchesAreCharged(s);
    hide Inv;
    HistorySound(s.events);
    var state := Projection(s.events).value;
    CeilingsAreCharges(state.rows, s.launches);
    PartCostsNoMore(state.rows, LaunchIds(s.launches), ReservedIds(s.events));
  }

  lemma LaunchesAreCharged(s: System)
    requires Inv(s)
    ensures History(s.events) && Projection(s.events).Some?
    ensures var rows := Projection(s.events).value.rows;
            forall m :: 0 <= m < |s.launches| ==> Charged(rows, s.launches[m].call)
  {
    HistorySound(s.events);
    hide History, Projection, Sound;
    forall m | 0 <= m < |s.launches| ensures Charged(Projection(s.events).value.rows, s.launches[m].call) {
      var i := LaunchCharge(s, m);
      ReservationStays(s.events, i);
    }
  }

  predicate Charged(rows: map<string, Row>, call: Call) {
    WorkerId(call) in rows && rows[WorkerId(call)].microusd == call.microusd
      && rows[WorkerId(call)].execution == Worker(call)
  }

  /** At no point are two launched calls both without a known report within their charge. */
  lemma OneLaunchUnresolved(run: seq<System>, k: nat, m: nat, n: nat)
    requires IsRun(run) && k < |run| && m < n < |run[k].launches|
    ensures Projection(run[k].events).Some?
    ensures var rows := Projection(run[k].events).value.rows;
            var a, b := WorkerId(run[k].launches[m].call), WorkerId(run[k].launches[n].call);
            a in rows && b in rows && (Resolved(rows[a]) || Resolved(rows[b]))
  {
    RunKeeps(run, k);
    LaunchedOnce(run, k, m, n);
    hide IsRun;
    var s := run[k];
    WorkerIdsAreInjective(s.launches[m].call, s.launches[n].call);
    LaunchesAreCharged(s);
    assert Charged(Projection(s.events).value.rows, s.launches[m].call)
           && Charged(Projection(s.events).value.rows, s.launches[n].call);
    hide Inv, History, Resolved;
    HistorySound(s.events);
    var ids := ReservedIds(s.events);
    var i :| 0 <= i < |ids| && ids[i] == WorkerId(s.launches[m].call);
    var j :| 0 <= j < |ids| && ids[j] == WorkerId(s.launches[n].call);
    assert i < |ids| - 1 || j < |ids| - 1;
  }
}
