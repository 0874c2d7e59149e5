/** The effect broker: a grant is consumed in a durable journal before the one remote operation
    it allows, whatever the remote does and wherever the process stops. */
module EffectBroker {
  import opened Wrappers

  datatype Operation = Merge | Publish | Observe

  /** What a grant is about, with the head it is bound to. */
  datatype Subject =
    | PullRequest(number: nat, head: string)
    | Candidate(branch: string, head: string, tree: string)

  datatype Grant = Grant(id: string, operation: Operation, subject: Subject, request: string,
                         maxUses: nat, expires: int, epoch: string)

  datatype State = Refused | Started | Success | Failure | Uncertain

  datatype PrView = PrView(state: string, head: string, mergedAt: bool, mergeCommit: bool)

  datatype Tree = Tree(head: string, tree: string, branch: string, dirty: bool)

  datatype Created = Created(number: Option<int>, head: Option<string>)

  datatype Observation = Nothing | Seen(view: PrView) | Worktree(tree: Tree) | Opened(created: Created)

  datatype Reason =
    | ClockInvalid | Expired | RevokedByEpoch | UsesExhausted | OperationMismatch | HeadDiffersFromGrant | Pending
    | Unobservable | HeadDiffers | TreeDiffers | BranchDiffers | Dirty | NotOpen | HeadMoved | BaseInvalid

  /** One journal line; `called` is its `remote_call` field. */
  datatype Row = Row(state: State, id: string, operation: Operation, request: string, called: bool,
                     reasons: set<Reason>, observation: Observation)

  datatype Remote = MergeCall(id: string, number: nat, head: string) | Push(id: string, branch: string)
    | Create(id: string)

  /** What happened, in order: lines made durable and calls made to the platform. */
  datatype Entry = Line(row: Row) | Called(call: Remote)

  // ---- the journal --------------------------------------------------------------------------------------------

  function Rows(trace: seq<Entry>): seq<Row> {
    if trace == [] then []
    else match trace[|trace| - 1]
      case Line(row) => Rows(trace[..|trace| - 1]) + [row]
      case Called(_) => Rows(trace[..|trace| - 1])
  }

  /** The latest row recorded for a grant. */
  function Latest(rows: seq<Row>, id: string): (r: Option<Row>)
    ensures r.Some? ==> r.value in rows && r.value.id == id
    ensures r.None? <==> forall i :: 0 <= i < |rows| ==> rows[i].id != id
  {
    if rows == [] then None
    else if rows[|rows| - 1].id == id then Some(rows[|rows| - 1])
    else Latest(rows[..|rows| - 1], id)
  }

  /** The row found is the last one of its grant. */
  lemma {:induction false} LatestIsLast(rows: seq<Row>, id: string, i: nat)
    requires i < |rows| && rows[i].id == id && forall j :: i < j < |rows| ==> rows[j].id != id
    ensures Latest(rows, id) == Some(rows[i])
  {
    if i < |rows| - 1 {
      LatestIsLast(rows[..|rows| - 1], id, i);
    }
  }

  /** The latest state of the grant is a start or an uncertain outcome. */
  predicate IsPending(rows: seq<Row>, id: string) {
    var last := Latest(rows, id);
    last.Some? && (last.value.state == Started || last.value.state == Uncertain)
  }

  predicate Spends(row: Row, id: string) {
    row.id == id && row.state == Started
  }

  function Uses(rows: seq<Row>, id: string): nat {
    if rows == [] then 0
    else Uses(rows[..|rows| - 1], id) + (if Spends(rows[|rows| - 1], id) then 1 else 0)
  }

  function Record(g: Grant, state: State, called: bool, reasons: set<Reason>, observation: Observation): Row {
    Row(state, g.id, g.operation, g.request, called, reasons, observation)
  }

  // ---- the gates -------------------------------------------------------------------------------------------------

  /** `validate_grant` as the broker calls it: every failing gate is listed. */
  function ValidateGrant(g: Grant, now: int, epoch: string, uses: nat, operation: Operation): set<Reason> {
    (if now < 0 then {ClockInvalid} else if now >= g.expires then {Expired} else {})
    + (if epoch != g.epoch then {RevokedByEpoch} else {})
    + (if uses >= g.maxUses then {UsesExhausted} else {})
    + (if operation != g.operation then {OperationMismatch} else {})
  }

  /** What a read of the platform or the worktree gave: it may fail with a refusal, or raise. */
  datatype Read<T> = Raises | Refuses | Gives(value: T)

  datatype Reply<T> = TimedOut | Fails | Returns(value: T)

  /** Where the process stops, if it does. */
  datatype Crash = Never | BeforeRecord | AfterStart | AfterCall | AfterSecondCall

  datatype World = World(now: int, epoch: string, pr: Read<PrView>, tree: Read<Tree>, stopped: bool,
                         merge: Reply<()>, push: Reply<()>, create: Reply<Created>, after: Read<PrView>, crash: Crash)

  datatype Gated = Passes(observation: Observation) | Blocked(reasons: set<Reason>, observation: Observation) | Aborts

  function CandidateReasons(g: Grant, t: Tree): set<Reason> {
    (if t.head != g.subject.head then {HeadDiffers} else {})
    + (if !g.subject.Candidate? || t.tree != g.subject.tree then {TreeDiffers} else {})
    + (if !g.subject.Candidate? || t.branch != g.subject.branch then {BranchDiffers} else {})
    + (if t.dirty then {Dirty} else {})
  }

  function MergeReasons(g: Grant, v: PrView): set<Reason> {
    (if v.state != "OPEN" then {NotOpen} else {}) + (if v.head != g.subject.head then {HeadMoved} else {})
  }

  function GrantReasons(rows: seq<Row>, g: Grant, operation: Operation, expected: Option<string>,
                        w: World): set<Reason> {
    ValidateGrant(g, w.now, w.epoch, Uses(rows, g.id), operation)
    + (if expected.Some? && expected.value != g.subject.head then {HeadDiffersFromGrant} else {})
    + (if IsPending(rows, g.id) then {Pending} else {})
  }

  /** `_gate`: the subject is read only when the grant itself passed. */
  function Gate(rows: seq<Row>, g: Grant, operation: Operation, expected: Option<string>, w: World): Gated {
    var reasons := GrantReasons(rows, g, operation, expected, w);
    if reasons != {} then Blocked(reasons, Nothing)
    else if operation == Publish then
      match w.tree
      case Raises => Blocked({Unobservable}, Nothing)
      case Refuses => Blocked({Unobservable}, Nothing)
      case Gives(t) =>
        if CandidateReasons(g, t) == {} then Passes(Worktree(t)) else Blocked(CandidateReasons(g, t), Worktree(t))
    else
      match w.pr
      case Raises => Aborts
      case Refuses => Blocked({Unobservable}, Nothing)
      case Gives(v) =>
        if operation == Merge && MergeReasons(g, v) != {} then Blocked(MergeReasons(g, v), Seen(v)) else Passes(Seen(v))
  }

  // ---- the operations ----------------------------------------------------------------------------------------------

  datatype Result = Done(observation: Observation, replayed: bool) | Refusal(reasons: set<Reason>) | Unsure | Failed
    | Crashed

  datatype Outcome = Outcome(trace: seq<Entry>, result: Result)

  /** The journal already holds this very request's observed success as the grant's latest row. */
  predicate Replays(rows: seq<Row>, g: Grant, operation: Operation) {
    var last := Latest(rows, g.id);
    last.Some? && last.value.state == Success && last.value.operation == operation && last.value.request == g.request
  }

  function Ends(trace: seq<Entry>, row: Row, result: Result, stops: bool): Outcome {
    if stops then Outcome(trace, Crashed) else Outcome(trace + [Line(row)], result)
  }

  function RunMerge(trace: seq<Entry>, g: Grant, expected: string, w: World): Outcome {
    var rows := Rows(trace);
    if Replays(rows, g, Merge) && expected == g.subject.head
      then Outcome(trace, Done(Latest(rows, g.id).value.observation, true))
    else match Gate(rows, g, Merge, Some(expected), w)
      case Aborts => Outcome(trace, Failed)
      case Blocked(reasons, seen) => Ends(trace, Record(g, Refused, false, reasons, seen), Refusal(reasons),
                                          w.crash == BeforeRecord)
      case Passes(seen) =>
        if w.crash == BeforeRecord then Outcome(trace, Crashed)
        else MergeOnce(Consume(trace, g, seen), g, w)
  }

  /** After the grant is consumed. */
  function MergeOnce(trace: seq<Entry>, g: Grant, w: World): Outcome {
    if w.crash == AfterStart then Outcome(trace, Crashed)
    else if w.stopped then Ends(trace, Record(g, Failure, false, {}, Nothing), Failed, false)
    else
      var number := if g.subject.PullRequest? then g.subject.number else 0;
      var called := trace + [Called(MergeCall(g.id, number, g.subject.head))];
      var stops := w.crash == AfterCall;
      match w.merge
      case TimedOut => Ends(called, Record(g, Uncertain, true, {}, Nothing), Unsure, stops)
      case Fails => Ends(called, Record(g, Failure, true, {}, Nothing), Failed, stops)
      case Returns(_) =>
        match w.after
        case Gives(v) => Ends(called, Record(g, Success, true, {}, Seen(v)), Done(Seen(v), false), stops)
        case _ => Ends(called, Record(g, Uncertain, true, {}, Nothing), Unsure, stops)
  }

  predicate BaseAccepted(base: string) {
    HasText(base) && base[0] != '-'
  }

  function RunPublish(trace: seq<Entry>, g: Grant, base: string, w: World): Outcome {
    var rows := Rows(trace);
    if Replays(rows, g, Publish) then Outcome(trace, Done(Latest(rows, g.id).value.observation, true))
    else match Gate(rows, g, Publish, None, w)
      case Aborts => Outcome(trace, Failed)
      case Blocked(reasons, seen) => Ends(trace, Record(g, Refused, false, reasons, seen), Refusal(reasons),
                                          w.crash == BeforeRecord)
      case Passes(seen) =>
        if !BaseAccepted(base) then Ends(trace, Record(g, Refused, false, {BaseInvalid}, seen), Refusal({BaseInvalid}),
                                         w.crash == BeforeRecord)
        else if w.crash == BeforeRecord then Outcome(trace, Crashed)
        else PublishOnce(Consume(trace, g, seen), g, w)
  }

  function PublishOnce(trace: seq<Entry>, g: Grant, w: World): Outcome {
    if w.crash == AfterStart then Outcome(trace, Crashed)
    else if w.stopped then Ends(trace, Record(g, Failure, false, {}, Nothing), Failed, false)
    else
      var branch := if g.subject.Candidate? then g.subject.branch else "";
      var pushed := trace + [Called(Push(g.id, branch))];
      var stops := w.crash == AfterCall;
      match w.push
      case TimedOut => Ends(pushed, Record(g, Uncertain, true, {}, Nothing), Unsure, stops)
      case Fails => Ends(pushed, Record(g, Failure, true, {}, Nothing), Failed, stops)
      case Returns(_) => if stops then Outcome(pushed, Crashed) else CreateOnce(pushed + [Called(Create(g.id))], g, w)
  }

  function CreateOnce(trace: seq<Entry>, g: Grant, w: World): Outcome {
    var stops := w.crash == AfterSecondCall;
    match w.create
    case TimedOut => Ends(trace, Record(g, Uncertain, true, {}, Nothing), Unsure, stops)
    case Fails => Ends(trace, Record(g, Failure, true, {}, Nothing), Failed, stops)
    case Returns(c) =>
      if c.number.None? || c.number.value <= 0
        then Ends(trace, Record(g, Uncertain, true, {}, Opened(c)), Unsure, stops)
      else if c.head.Some? && c.head.value != g.subject.head
        then Ends(trace, Record(g, Failure, true, {}, Opened(c)), Failed, stops)
      else Ends(trace, Record(g, Success, true, {}, Opened(c)), Done(Opened(c), false), stops)
  }

  function RunObserve(trace: seq<Entry>, g: Grant, w: World): Outcome {
    match Gate(Rows(trace), g, Observe, None, w)
    case Aborts => Outcome(trace, Failed)
    case Blocked(reasons, seen) => Ends(trace, Record(g, Refused, false, reasons, seen), Refusal(reasons),
                                        w.crash == BeforeRecord)
    case Passes(seen) =>
      if w.crash == BeforeRecord then Outcome(trace, Crashed)
      else Ends(Consume(trace, g, seen), Record(g, Success, false, {}, seen), Done(seen, false),
                w.crash == AfterStart)
  }

  datatype Command =
    | MergeExactHead(grant: Grant, expected: string, world: World)
    | PublishCandidate(grant: Grant, base: string, world: World)
    | ObserveSubject(grant: Grant, world: World)

  function OperationOf(c: Command): Operation {
    match c
    case MergeExactHead(_, _, _) => Merge
    case PublishCandidate(_, _, _) => Publish
    case ObserveSubject(_, _) => Observe
  }

  function Perform(trace: seq<Entry>, c: Command): Outcome {
    match c
    case MergeExactHead(g, expected, w) => RunMerge(trace, g, expected, w)
    case PublishCandidate(g, base, w) => RunPublish(trace, g, base, w)
    case ObserveSubject(g, w) => RunObserve(trace, g, w)
  }

  /** What the journal and the platform have seen after these broker calls, crashes included. */
  function After(commands: seq<Command>): seq<Entry> {
    if commands == [] then [] else Perform(After(commands[..|commands| - 1]), commands[|commands| - 1]).trace
  }

  // ---- the order of things ---------------------------------------------------------------------

  predicate IsLine(e: Entry, id: string, state: State) {
    e.Line? && e.row.id == id && e.row.state == state
  }

  /** An outcome's line and the entry it reports on: its call, or the start no call followed. */
  predicate Reports(row: Row, e: Entry) {
    if row.called then e.Called? && e.call.id == row.id else IsLine(e, row.id, Started)
  }

  /** How entry i follows from what came before: a call directly follows the line that consumed
      its grant for that operation, and an outcome directly follows what it reports on. */
  predicate InOrder(trace: seq<Entry>, i: nat)
    requires i < |trace|
  {
    match trace[i]
    case Called(MergeCall(id, _, _)) =>
      i > 0 && IsLine(trace[i - 1], id, Started) && trace[i - 1].row.operation == Merge
    case Called(Push(id, _)) => i > 0 && IsLine(trace[i - 1], id, Started) && trace[i - 1].row.operation == Publish
    case Called(Create(id)) => i > 0 && trace[i - 1].Called? && trace[i - 1].call.Push? && trace[i - 1].call.id == id
    case Line(row) =>
      match row.state
      case Refused => !row.called
      case Started => !row.called && !IsPending(Rows(trace[..i]), row.id)
      case Uncertain => i > 0 && row.called && Reports(row, trace[i - 1])
      case _ => i > 0 && Reports(row, trace[i - 1])
  }

  ghost predicate Orderly(trace: seq<Entry>) {
    forall i :: 0 <= i < |trace| ==> InOrder(trace, i)
  }

  lemma OrderlyAppend(trace: seq<Entry>, e: Entry)
    requires Orderly(trace) && InOrder(trace + [e], |trace|)
    ensures Orderly(trace + [e])
  {
    hide IsPending;
    var t := trace + [e];
    forall i | 0 <= i < |t| ensures InOrder(t, i) {
      if i < |trace| {
        assert InOrder(trace, i);
        assert t[..i] == trace[..i];
      }
    }
  }

  lemma EndsOrderly(trace: seq<Entry>, row: Row, result: Result, stops: bool)
    requires Orderly(trace) && row.state != Started
    requires if row.state == Refused then !row.called else |trace| > 0 && Reports(row, trace[|trace| - 1])
    requires row.state == Uncertain ==> row.called
    ensures Orderly(Ends(trace, row, result, stops).trace)
  {
    hide Orderly;
    if !stops {
      OrderlyAppend(trace, Line(row));
    }
  }

  lemma MergeOnceOrderly(trace: seq<Entry>, g: Grant, w: World)
    requires Orderly(trace) && |trace| > 0 && IsLine(trace[|trace| - 1], g.id, Started)
             && trace[|trace| - 1].row.operation == Merge
    ensures Orderly(MergeOnce(trace, g, w).trace)
  {
    hide Orderly, Ends;
    var stops := w.crash == AfterCall;
    var number := if g.subject.PullRequest? then g.subject.number else 0;
    var called := trace + [Called(MergeCall(g.id, number, g.subject.head))];
    OrderlyAppend(trace, Called(MergeCall(g.id, number, g.subject.head)));
    EndsOrderly(trace, Record(g, Failure, false, {}, Nothing), Failed, false);
    EndsOrderly(called, Record(g, Failure, true, {}, Nothing), Failed, stops);
    EndsOrderly(called, Record(g, Uncertain, true, {}, Nothing), Unsure, stops);
    if w.after.Gives? {
      EndsOrderly(called, Record(g, Success, true, {}, Seen(w.after.value)), Done(Seen(w.after.value), false), stops);
    }
  }

  lemma CreateOnceOrderly(trace: seq<Entry>, g: Grant, w: World)
    requires Orderly(trace) && |trace| > 0 && trace[|trace| - 1] == Called(Create(g.id))
    ensures Orderly(CreateOnce(trace, g, w).trace)
  {
    hide Orderly, Ends;
    var stops := w.crash == AfterSecondCall;
    EndsOrderly(trace, Record(g, Failure, true, {}, Nothing), Failed, stops);
    EndsOrderly(trace, Record(g, Uncertain, true, {}, Nothing), Unsure, stops);
    if w.create.Returns? {
      var c := w.create.value;
      EndsOrderly(trace, Record(g, Uncertain, true, {}, Opened(c)), Unsure, stops);
      EndsOrderly(trace, Record(g, Failure, true, {}, Opened(c)), Failed, stops);
      EndsOrderly(trace, Record(g, Success, true, {}, Opened(c)), Done(Opened(c), false), stops);
    }
  }

  lemma PublishOnceOrderly(trace: seq<Entry>, g: Grant, w: World)
    requires Orderly(trace) && |trace| > 0 && IsLine(trace[|trace| - 1], g.id, Started)
             && trace[|trace| - 1].row.operation == Publish
    ensures Orderly(PublishOnce(trace, g, w).trace)
  {
    hide Orderly, Ends, CreateOnce;
    var stops := w.crash == AfterCall;
    var branch := if g.subject.Candidate? then g.subject.branch else "";
    var pushed := trace + [Called(Push(g.id, branch))];
    OrderlyAppend(trace, Called(Push(g.id, branch)));
    OrderlyAppend(pushed, Called(Create(g.id)));
    EndsOrderly(trace, Record(g, Failure, false, {}, Nothing), Failed, false);
    EndsOrderly(pushed, Record(g, Failure, true, {}, Nothing), Failed, stops);
    EndsOrderly(pushed, Record(g, Uncertain, true, {}, Nothing), Unsure, stops);
    CreateOnceOrderly(pushed + [Called(Create(g.id))], g, w);
  }

  /** A passed gate means the grant has a use left, is for this operation, and nothing is pending. */
  lemma GatePasses(rows: seq<Row>, g: Grant, operation: Operation, expected: Option<string>, w: World)
    requires Gate(rows, g, operation, expected, w).Passes?
    ensures !IsPending(rows, g.id) && Uses(rows, g.id) < g.maxUses && operation == g.operation
  {
    hide Latest;
    var reasons := GrantReasons(rows, g, operation, expected, w);
    assert UsesExhausted !in reasons && OperationMismatch !in reasons && Pending !in reasons;
  }

  /** Consuming a grant, then whatever follows. */
  function Consume(trace: seq<Entry>, g: Grant, seen: Observation): seq<Entry> {
    trace + [Line(Record(g, Started, false, {}, seen))]
  }

  lemma ConsumeOrderly(trace: seq<Entry>, g: Grant, seen: Observation)
    requires Orderly(trace) && !IsPending(Rows(trace), g.id)
    ensures Orderly(Consume(trace, g, seen))
  {
    hide Orderly, IsPending;
    assert (trace + [Line(Record(g, Started, false, {}, seen))])[..|trace|] == trace;
    OrderlyAppend(trace, Line(Record(g, Started, false, {}, seen)));
  }

  lemma PerformOrderly(trace: seq<Entry>, c: Command)
    requires Orderly(trace)
    ensures Orderly(Perform(trace, c).trace)
  {
    hide Orderly, Ends, MergeOnce, PublishOnce, Gate, IsPending, BaseAccepted, Replays;
    var rows, g := Rows(trace), c.grant;
    var operation := OperationOf(c);
    var gated := Gate(rows, g, operation, if c.MergeExactHead? then Some(c.expected) else None, c.world);
    match gated
    case Aborts =>
    case Blocked(reasons, seen) =>
      EndsOrderly(trace, Record(g, Refused, false, reasons, seen), Refusal(reasons), c.world.crash == BeforeRecord);
    case Passes(seen) =>
      GatePasses(rows, g, operation, if c.MergeExactHead? then Some(c.expected) else None, c.world);
      ConsumeOrderly(trace, g, seen);
      PassedOrderly(trace, c, seen);
  }

  lemma PassedOrderly(trace: seq<Entry>, c: Command, seen: Observation)
    requires Orderly(trace) && Orderly(Consume(trace, c.grant, seen))
    requires !c.ObserveSubject? ==> c.grant.operation == OperationOf(c)
    ensures match c
            case MergeExactHead(g, _, w) => Orderly(MergeOnce(Consume(trace, g, seen), g, w).trace)
            case PublishCandidate(g, _, w) =>
              Orderly(PublishOnce(Consume(trace, g, seen), g, w).trace)
              && Orderly(Ends(trace, Record(g, Refused, false, {BaseInvalid}, seen), Refusal({BaseInvalid}),
                              w.crash == BeforeRecord).trace)
            case ObserveSubject(g, w) =>
              Orderly(Ends(Consume(trace, g, seen), Record(g, Success, false, {}, seen), Done(seen, false),
                           w.crash == AfterStart).trace)
  {
    hide Orderly, Ends, MergeOnce, PublishOnce;
    match c
    case MergeExactHead(g, _, w) => MergeOnceOrderly(Consume(trace, g, seen), g, w);
    case PublishCandidate(g, _, w) =>
      PublishOnceOrderly(Consume(trace, g, seen), g, w);
      EndsOrderly(trace, Record(g, Refused, false, {BaseInvalid}, seen), Refusal({BaseInvalid}),
                  w.crash == BeforeRecord);
    case ObserveSubject(g, w) =>
      EndsOrderly(Consume(trace, g, seen), Record(g, Success, false, {}, seen), Done(seen, false),
                  w.crash == AfterStart);
  }

  /** After any sequence of broker calls, whatever the platform did and wherever they crashed:
      every remote call directly follows the durable line that consumed its grant (a pull request
      is opened only after its push), and no outcome is recorded for anything else. */
  lemma {:induction false} EveryTraceIsOrderly(commands: seq<Command>)
    ensures Orderly(After(commands))
  {
    if commands != [] {
      var before := commands[..|commands| - 1];
      EveryTraceIsOrderly(before);
      PerformOrderly(After(before), commands[|commands| - 1]);
    }
  }

  // ---- attempts, starts and the allowed uses ---------------------------------------------------

  function Starts(trace: seq<Entry>, id: string): nat {
    Uses(Rows(trace), id)
  }

  predicate Attempts(e: Entry, id: string) {
    e.Called? && (e.call.MergeCall? || e.call.Push?) && e.call.id == id
  }

  /** The effects the platform was asked for under a grant: a merge, or a push with its request. */
  function AttemptCount(trace: seq<Entry>, id: string): nat {
    if trace == [] then 0
    else AttemptCount(trace[..|trace| - 1], id) + (if Attempts(trace[|trace| - 1], id) then 1 else 0)
  }

  lemma StartsAppend(trace: seq<Entry>, e: Entry, id: string)
    ensures Starts(trace + [e], id) == Starts(trace, id) + if IsLine(e, id, Started) then 1 else 0
  {
    assert (trace + [e])[..|trace|] == trace;
    if e.Line? {
      assert (Rows(trace) + [e.row])[..|Rows(trace)|] == Rows(trace);
    }
  }

  lemma OrderlyPrefix(trace: seq<Entry>, n: nat)
    requires Orderly(trace) && n <= |trace|
    ensures Orderly(trace[..n])
  {
    hide IsPending;
    forall i | 0 <= i < n ensures InOrder(trace[..n], i) {
      assert trace[..n][..i] == trace[..i] && InOrder(trace, i);
    }
  }

  function Unspent(trace: seq<Entry>, id: string): nat {
    if |trace| > 0 && IsLine(trace[|trace| - 1], id, Started) then 1 else 0
  }

  /** Every attempt spent a start of its own. */
  lemma {:induction false} AttemptsWithinStarts(trace: seq<Entry>, id: string)
    requires Orderly(trace)
    ensures AttemptCount(trace, id) + Unspent(trace, id) <= Starts(trace, id)
  {
    if trace != [] {
      var before, e := trace[..|trace| - 1], trace[|trace| - 1];
      OrderlyPrefix(trace, |before|);
      AttemptsWithinStarts(before, id);
      assert trace == before + [e];
      StartsAppend(before, e, id);
      assert InOrder(trace, |before|);
    }
  }

  lemma OnceStarts(trace: seq<Entry>, g: Grant, w: World, id: string)
    ensures Starts(MergeOnce(trace, g, w).trace, id) == Starts(trace, id)
    ensures Starts(CreateOnce(trace, g, w).trace, id) == Starts(trace, id)
  {
    hide Starts;
    forall t: seq<Entry>, e: Entry
      ensures Starts(t + [e], id) == Starts(t, id) + if IsLine(e, id, Started) then 1 else 0
    {
      StartsAppend(t, e, id);
    }
  }

  lemma PublishStarts(trace: seq<Entry>, g: Grant, w: World, id: string)
    ensures Starts(PublishOnce(trace, g, w).trace, id) == Starts(trace, id)
  {
    hide Starts, CreateOnce;
    forall t: seq<Entry>, e: Entry
      ensures Starts(t + [e], id) == Starts(t, id) + if IsLine(e, id, Started) then 1 else 0
    {
      StartsAppend(t, e, id);
    }
    var branch := if g.subject.Candidate? then g.subject.branch else "";
    OnceStarts(trace + [Called(Push(g.id, branch))] + [Called(Create(g.id))], g, w, id);
  }

  /** One broker call starts its own grant at most once, and never past its uses. */
  lemma PerformStarts(trace: seq<Entry>, c: Command, id: string)
    ensures var after := Starts(Perform(trace, c).trace, id);
            after == Starts(trace, id) || (after == Starts(trace, id) + 1 && c.grant.id == id
                                           && Starts(trace, id) < c.grant.maxUses)
  {
    hide MergeOnce, PublishOnce, Gate, Replays, BaseAccepted, Rows, Uses;
    var g, rows := c.grant, Rows(trace);
    forall t: seq<Entry>, e: Entry
      ensures Starts(t + [e], id) == Starts(t, id) + if IsLine(e, id, Started) then 1 else 0
    {
      StartsAppend(t, e, id);
    }
    forall t: seq<Entry>
      ensures Starts(MergeOnce(t, g, c.world).trace, id) == Starts(t, id)
    {
      OnceStarts(t, g, c.world, id);
    }
    forall t: seq<Entry>
      ensures Starts(PublishOnce(t, g, c.world).trace, id) == Starts(t, id)
    {
      PublishStarts(t, g, c.world, id);
    }
    var operation := OperationOf(c);
    var expected := if c.MergeExactHead? then Some(c.expected) else None;
    if Gate(rows, g, operation, expected, c.world).Passes? {
      GatePasses(rows, g, operation, expected, c.world);
    }
  }

  /** The calls that carry this grant's id carry this grant. */
  predicate Carries(commands: seq<Command>, g: Grant) {
    forall i :: 0 <= i < |commands| && commands[i].grant.id == g.id ==> commands[i].grant == g
  }

  lemma {:induction false} StartsWithinUses(commands: seq<Command>, g: Grant)
    requires Carries(commands, g)
    ensures Starts(After(commands), g.id) <= g.maxUses
  {
    if commands != [] {
      var before, c := commands[..|commands| - 1], commands[|commands| - 1];
      StartsWithinUses(before, g);
      PerformStarts(After(before), c, g.id);
      assert c == commands[|commands| - 1];
    }
  }

  /** Over every sequence of broker calls, with any remote outcomes and a crash anywhere, a
      grant's remote attempts never exceed its recorded starts, nor those its uses. */
  lemma AttemptsWithinUses(commands: seq<Command>, g: Grant)
    requires Carries(commands, g)
    ensures AttemptCount(After(commands), g.id) <= Starts(After(commands), g.id) <= g.maxUses
  {
    EveryTraceIsOrderly(commands);
    AttemptsWithinStarts(After(commands), g.id);
    StartsWithinUses(commands, g);
  }

  // ---- a spent grant ---------------------------------------------------------------------------

  /** Nothing but, perhaps, a refusal is added to the journal. */
  ghost predicate OnlyRefuses(trace: seq<Entry>, after: seq<Entry>, g: Grant) {
    after == trace || exists reasons, seen :: after == trace + [Line(Record(g, Refused, false, reasons, seen))]
  }

  predicate RecordedSuccess(rows: seq<Row>, g: Grant, observation: Observation) {
    exists i :: 0 <= i < |rows| && rows[i].id == g.id && rows[i].state == Success && rows[i].request == g.request
                && rows[i].observation == observation
  }

  /** Once a grant has no use left, a broker call returns the success its journal recorded or
      refuses (or stops); it reaches no remote. */
  lemma SpentRefuses(trace: seq<Entry>, c: Command)
    requires Starts(trace, c.grant.id) >= c.grant.maxUses
    ensures var r := Perform(trace, c);
            && OnlyRefuses(trace, r.trace, c.grant) && (r.result.Done? || r.result.Refusal? || r.result.Crashed?)
            && (r.result.Done? ==>
                  && r.trace == trace && r.result.replayed
                  && RecordedSuccess(Rows(trace), c.grant, r.result.observation)
                  && Latest(Rows(trace), c.grant.id).Some?
                  && Latest(Rows(trace), c.grant.id).value.state == Success)
  {
    hide MergeOnce, PublishOnce, BaseAccepted, Rows, Uses;
    var g, rows := c.grant, Rows(trace);
    var operation := OperationOf(c);
    var expected := if c.MergeExactHead? then Some(c.expected) else None;
    assert UsesExhausted in GrantReasons(rows, g, operation, expected, c.world);
    var gated := Gate(rows, g, operation, expected, c.world);
    assert gated.Blocked?;
    var refusal := Record(g, Refused, false, gated.reasons, gated.observation);
    assert OnlyRefuses(trace, trace + [Line(refusal)], g);
    var last := Latest(rows, g.id);
    if last.Some? {
      var i :| 0 <= i < |rows| && rows[i] == last.value;
    }
  }

  /** Attempts less starts. */
  function Owed(trace: seq<Entry>, id: string): int {
    AttemptCount(trace, id) - Starts(trace, id)
  }

  function Weight(e: Entry, id: string): int {
    if Attempts(e, id) then 1 else if IsLine(e, id, Started) then -1 else 0
  }

  lemma OwedAppend(trace: seq<Entry>, e: Entry, id: string)
    ensures Owed(trace + [e], id) == Owed(trace, id) + Weight(e, id)
  {
    assert (trace + [e])[..|trace|] == trace;
    StartsAppend(trace, e, id);
  }

  lemma EndsOwed(trace: seq<Entry>, row: Row, result: Result, stops: bool, id: string)
    requires row.state != Started
    ensures Owed(Ends(trace, row, result, stops).trace, id) == Owed(trace, id)
  {
    OwedAppend(trace, Line(row), id);
  }

  lemma MergeOwes(trace: seq<Entry>, g: Grant, w: World, id: string)
    ensures Owed(MergeOnce(trace, g, w).trace, id) <= Owed(trace, id) + if g.id == id then 1 else 0
  {
    hide Owed, Ends;
    var number := if g.subject.PullRequest? then g.subject.number else 0;
    OwedAppend(trace, Called(MergeCall(g.id, number, g.subject.head)), id);
    forall t: seq<Entry>, row: Row, result: Result, stops: bool | row.state != Started
      ensures Owed(Ends(t, row, result, stops).trace, id) == Owed(t, id)
    {
      EndsOwed(t, row, result, stops, id);
    }
  }

  lemma CreateOwes(trace: seq<Entry>, g: Grant, w: World, id: string)
    ensures Owed(CreateOnce(trace, g, w).trace, id) == Owed(trace, id)
  {
    hide Owed, Ends;
    forall t: seq<Entry>, row: Row, result: Result, stops: bool | row.state != Started
      ensures Owed(Ends(t, row, result, stops).trace, id) == Owed(t, id)
    {
      EndsOwed(t, row, result, stops, id);
    }
  }

  lemma PublishOwes(trace: seq<Entry>, g: Grant, w: World, id: string)
    ensures Owed(PublishOnce(trace, g, w).trace, id) <= Owed(trace, id) + if g.id == id then 1 else 0
  {
    hide Owed, Ends, CreateOnce;
    var branch := if g.subject.Candidate? then g.subject.branch else "";
    var pushed := trace + [Called(Push(g.id, branch))];
    OwedAppend(trace, Called(Push(g.id, branch)), id);
    OwedAppend(pushed, Called(Create(g.id)), id);
    CreateOwes(pushed + [Called(Create(g.id))], g, w, id);
    forall t: seq<Entry>, row: Row, result: Result, stops: bool | row.state != Started
      ensures Owed(Ends(t, row, result, stops).trace, id) == Owed(t, id)
    {
      EndsOwed(t, row, result, stops, id);
    }
  }

  /** What a broker call attempts, it pays for with a start of its own: a start left behind by a
      crash is never used later. */
  lemma AttemptsArePaid(trace: seq<Entry>, c: Command, id: string)
    ensures Owed(Perform(trace, c).trace, id) <= Owed(trace, id)
  {
    hide MergeOnce, PublishOnce, Gate, Replays, BaseAccepted, Rows, Owed, Ends;
    var g, w := c.grant, c.world;
    forall seen: Observation
      ensures Owed(MergeOnce(Consume(trace, g, seen), g, w).trace, id) <= Owed(trace, id)
      ensures Owed(PublishOnce(Consume(trace, g, seen), g, w).trace, id) <= Owed(trace, id)
      ensures Owed(Consume(trace, g, seen), id) <= Owed(trace, id)
    {
      OwedAppend(trace, Line(Record(g, Started, false, {}, seen)), id);
      MergeOwes(Consume(trace, g, seen), g, w, id);
      PublishOwes(Consume(trace, g, seen), g, w, id);
    }
    forall t: seq<Entry>, row: Row, result: Result, stops: bool | row.state != Started
      ensures Owed(Ends(t, row, result, stops).trace, id) == Owed(t, id)
    {
      EndsOwed(t, row, result, stops, id);
    }
  }

  /** Once a grant's uses are started, no later sequence of broker calls attempts it again. */
  lemma {:induction false} SpentForGood(commands: seq<Command>, more: seq<Command>, g: Grant)
    requires Carries(commands + more, g)
    ensures Starts(After(commands), g.id) >= g.maxUses ==>
              AttemptCount(After(commands + more), g.id) <= AttemptCount(After(commands), g.id)
              && Starts(After(commands + more), g.id) >= g.maxUses
    decreases |more|
  {
    if Starts(After(commands), g.id) < g.maxUses {
    } else if more == [] {
      assert commands + more == commands;
    } else {
      var less, c := more[..|more| - 1], more[|more| - 1];
      assert (commands + more)[..|commands + more| - 1] == commands + less;
      assert Carries(commands + less, g) by {
        forall i | 0 <= i < |commands + less| && (commands + less)[i].grant.id == g.id
          ensures (commands + less)[i].grant == g
        {
          assert (commands + more)[i] == (commands + less)[i];
        }
      }
      SpentForGood(commands, less, g);
      var before := After(commands + less);
      assert After(commands + more) == Perform(before, c).trace;
      AttemptsArePaid(before, c, g.id);
      PerformStarts(before, c, g.id);
      StartsWithinUses(commands + more, g);
    }
  }

  // ---- what an uncertain outcome prevents ------------------------------------------------------

  predicate IsOutcome(e: Entry, id: string) {
    e.Line? && e.row.id == id && e.row.state != Started && e.row.state != Refused
  }

  /** A later line that is not a refusal means the grant was started again in between. */
  lemma NewStart(trace: seq<Entry>, i: nat, m: nat, id: string) returns (p: nat)
    requires Orderly(trace) && i < m < |trace| && (IsOutcome(trace[i], id) || IsLine(trace[i], id, Refused))
    requires trace[m].Line? && trace[m].row.id == id && trace[m].row.state != Refused
    ensures i < p <= m && IsLine(trace[p], id, Started)
  {
    hide IsPending;
    assert InOrder(trace, m);
    if trace[m].row.state == Started {
      p := m;
    } else if !trace[m].row.called {
      p := m - 1;
    } else {
      assert InOrder(trace, m - 1);
      if trace[m - 1].call.Create? {
        assert InOrder(trace, m - 2);
        p := m - 3;
      } else {
        p := m - 2;
      }
    }
  }

  /** Every outcome is of a start before it. */
  lemma StartBefore(trace: seq<Entry>, i: nat, id: string) returns (p: nat)
    requires Orderly(trace) && i < |trace| && IsOutcome(trace[i], id)
    ensures p < i && IsLine(trace[p], id, Started)
  {
    hide IsPending;
    assert InOrder(trace, i);
    if !trace[i].row.called {
      p := i - 1;
    } else {
      assert InOrder(trace, i - 1);
      if trace[i - 1].call.Create? {
        assert InOrder(trace, i - 2);
        p := i - 3;
      } else {
        p := i - 2;
      }
    }
  }

  lemma {:induction false} StartsGrow(trace: seq<Entry>, n: nat, id: string)
    requires n <= |trace|
    ensures Starts(trace[..n], id) <= Starts(trace, id)
    decreases |trace|
  {
    if n < |trace| {
      var before := trace[..|trace| - 1];
      StartsGrow(before, n, id);
      assert before[..n] == trace[..n] && trace == before + [trace[|trace| - 1]];
      StartsAppend(before, trace[|trace| - 1], id);
    } else {
      assert trace[..n] == trace;
    }
  }

  lemma TwoStarts(trace: seq<Entry>, p: nat, q: nat, id: string)
    requires p < q < |trace| && IsLine(trace[p], id, Started) && IsLine(trace[q], id, Started)
    ensures Starts(trace, id) >= 2
  {
    StartsGrow(trace, q + 1, id);
    assert trace[..q + 1] == trace[..q] + [trace[q]];
    StartsAppend(trace[..q], trace[q], id);
    StartsGrow(trace[..q], p + 1, id);
    assert trace[..q][..p + 1] == trace[..p] + [trace[p]];
    StartsAppend(trace[..p], trace[p], id);
  }

  /** The latest row before k is the line at i when the grant has none between. */
  lemma {:induction false} LatestAt(trace: seq<Entry>, i: nat, k: nat, id: string)
    requires i < k <= |trace| && trace[i].Line? && trace[i].row.id == id
    requires forall j :: i < j < k && trace[j].Line? ==> trace[j].row.id != id
    ensures Latest(Rows(trace[..k]), id) == Some(trace[i].row)
    decreases k
  {
    var upto := trace[..k];
    assert upto[..|upto| - 1] == trace[..k - 1];
    if k > i + 1 {
      LatestAt(trace, i, k - 1, id);
    }
    if trace[k - 1].Line? {
      var rows := Rows(trace[..k - 1]);
      assert (rows + [trace[k - 1].row])[..|rows|] == rows;
    }
  }

  /** The first line of a grant after i. */
  lemma FirstLine(trace: seq<Entry>, i: nat, m: nat, id: string) returns (k: nat)
    requires i < m < |trace| && trace[m].Line? && trace[m].row.id == id
    ensures i < k <= m && trace[k].Line? && trace[k].row.id == id
    ensures forall j :: i < j < k && trace[j].Line? ==> trace[j].row.id != id
  {
    k := i + 1;
    while !(trace[k].Line? && trace[k].row.id == id)
      invariant i < k <= m
      invariant forall j :: i < j < k && trace[j].Line? ==> trace[j].row.id != id
      decreases m - k
    {
      k := k + 1;
    }
  }

  /** A remote attempt after an uncertain outcome of the same grant has a refusal of that grant
      between them, and cost it a second use. */
  lemma UncertainThenRefused(trace: seq<Entry>, i: nat, j: nat, id: string) returns (k: nat)
    requires Orderly(trace) && i < j < |trace| && IsLine(trace[i], id, Uncertain) && Attempts(trace[j], id)
    ensures i < k < j && IsLine(trace[k], id, Refused) && Starts(trace, id) >= 2
  {
    hide IsPending;
    assert InOrder(trace, j);
    k := FirstLine(trace, i, j - 1, id);
    if trace[k].row.state != Refused {
      var p := NewStart(trace, i, k, id);
      assert p == k && InOrder(trace, k);
      StillPending(trace, i, k, id);
      assert false;
    }
    var p := StartBefore(trace, i, id);
    TwoStarts(trace, p, j - 1, id);
  }

  lemma StillPending(trace: seq<Entry>, i: nat, k: nat, id: string)
    requires i < k <= |trace| && IsLine(trace[i], id, Uncertain)
    requires forall j :: i < j < k && trace[j].Line? ==> trace[j].row.id != id
    ensures IsPending(Rows(trace[..k]), id)
  {
    LatestAt(trace, i, k, id);
  }

  ghost predicate NeverAgain(trace: seq<Entry>, id: string) {
    forall i, j :: 0 <= i < j < |trace| && IsLine(trace[i], id, Uncertain) ==> !Attempts(trace[j], id)
  }

  // ---- when an uncertain or a successful outcome is hidden -------------------------------------

  /** Some world lets the grant through to the platform. */
  predicate CanAttempt(g: Grant) {
    g.expires > 0 && (g.operation == Merge || (g.operation == Publish && g.subject.Candidate?))
  }

  /** The subject is as it was granted; the platform answers, or every call times out. */
  function Usual(g: Grant, answers: bool): World {
    World(0, g.epoch, Gives(PrView("OPEN", g.subject.head, false, false)),
          if g.subject.Candidate? then Gives(Tree(g.subject.head, g.subject.tree, g.subject.branch, false)) else Raises,
          false,
          if answers then Returns(()) else TimedOut,
          if answers then Returns(()) else TimedOut,
          if answers then Returns(Created(Some(1), None)) else TimedOut,
          Gives(PrView("MERGED", g.subject.head, true, true)), Never)
  }

  /** The grant's own request, as made for the first time and for every time after. */
  function Try(g: Grant, answers: bool): Command {
    if g.operation == Publish then PublishCandidate(g, "main", Usual(g, answers))
    else MergeExactHead(g, g.subject.head, Usual(g, answers))
  }

  /** The grant presented for looking instead. */
  function LookInstead(g: Grant): Command {
    ObserveSubject(g, Usual(g, true))
  }

  /** The call is the grant's own request. */
  predicate Identical(g: Grant, c: Command) {
    match c
    case MergeExactHead(h, expected, _) => h == g && g.operation == Merge && expected == g.subject.head
    case PublishCandidate(h, _, _) => h == g && g.operation == Publish
    case ObserveSubject(_, _) => false
  }

  /** The journal line at k is the observed success of this very request. */
  predicate RecordsSuccess(trace: seq<Entry>, k: nat, g: Grant) {
    k < |trace| && IsLine(trace[k], g.id, Success) && trace[k].row.operation == g.operation
      && trace[k].row.request == g.request
  }

  /** The trace went on with a start of the grant and the attempt it paid for. */
  predicate TriedNext(t: seq<Entry>, u: seq<Entry>, id: string) {
    |u| >= |t| + 3 && u[..|t|] == t && IsLine(u[|t|], id, Started) && Attempts(u[|t| + 1], id)
  }

  predicate RefusedNext(t: seq<Entry>, u: seq<Entry>, id: string) {
    |u| == |t| + 1 && u[..|t|] == t && IsLine(u[|t|], id, Refused)
  }

  /** A usable grant whose latest row, if any, is a refusal: the request starts, attempts and
      records its outcome. */
  lemma UsableTries(trace: seq<Entry>, g: Grant, answers: bool)
    requires CanAttempt(g) && Starts(trace, g.id) < g.maxUses
    requires Latest(Rows(trace), g.id).None? || Latest(Rows(trace), g.id).value.state == Refused
    ensures var t := Perform(trace, Try(g, answers)).trace;
            && TriedNext(trace, t, g.id)
            && (!answers ==> |t| == |trace| + 3 && IsLine(t[|trace| + 2], g.id, Uncertain))
            && (answers ==> RecordsSuccess(t, |t| - 1, g))
  {
    if g.operation == Merge {
      UsableMerges(trace, g, answers);
    } else {
      UsablePublishes(trace, g, answers);
    }
  }

  lemma UsableMerges(trace: seq<Entry>, g: Grant, answers: bool)
    requires CanAttempt(g) && Starts(trace, g.id) < g.maxUses && g.operation == Merge
    requires Latest(Rows(trace), g.id).None? || Latest(Rows(trace), g.id).value.state == Refused
    ensures var t := Perform(trace, Try(g, answers)).trace;
            && TriedNext(trace, t, g.id)
            && (!answers ==> |t| == |trace| + 3 && IsLine(t[|trace| + 2], g.id, Uncertain))
            && (answers ==> RecordsSuccess(t, |t| - 1, g))
  {
    hide Uses, Latest;
    var rows, w := Rows(trace), Usual(g, answers);
    assert GrantReasons(rows, g, Merge, Some(g.subject.head), w) == {};
    assert MergeReasons(g, w.pr.value) == {};
    hide GrantReasons, MergeReasons, Rows, Replays;
    assert !Replays(rows, g, Merge) by { NothingToReplay(rows, g); }
    assert Perform(trace, Try(g, answers)) == MergeOnce(Consume(trace, g, Seen(w.pr.value)), g, w);
  }

  lemma NothingToReplay(rows: seq<Row>, g: Grant)
    requires Latest(rows, g.id).None? || Latest(rows, g.id).value.state == Refused
    ensures !Replays(rows, g, g.operation)
  {
  }

  lemma UsablePublishes(trace: seq<Entry>, g: Grant, answers: bool)
    requires CanAttempt(g) && Starts(trace, g.id) < g.maxUses && g.operation == Publish
    requires Latest(Rows(trace), g.id).None? || Latest(Rows(trace), g.id).value.state == Refused
    ensures var t := Perform(trace, Try(g, answers)).trace;
            && TriedNext(trace, t, g.id)
            && (!answers ==> |t| == |trace| + 3 && IsLine(t[|trace| + 2], g.id, Uncertain))
            && (answers ==> RecordsSuccess(t, |t| - 1, g))
  {
    hide Uses, Latest;
    var rows, w := Rows(trace), Usual(g, answers);
    assert GrantReasons(rows, g, Publish, None, w) == {};
    assert CandidateReasons(g, w.tree.value) == {};
    hide GrantReasons, CandidateReasons, Rows, Replays;
    assert !Replays(rows, g, Publish) by { NothingToReplay(rows, g); }
    assert !IsSpace("main"[0]);
    assert Perform(trace, Try(g, answers)) == PublishOnce(Consume(trace, g, Worktree(w.tree.value)), g, w);
    PublishesOnce(Consume(trace, g, Worktree(w.tree.value)), g, answers);
  }

  lemma PublishesOnce(trace: seq<Entry>, g: Grant, answers: bool)
    requires g.subject.Candidate?
    ensures var r, pushed := PublishOnce(trace, g, Usual(g, answers)), trace + [Called(Push(g.id, g.subject.branch))];
            r.trace == if answers
                       then pushed + [Called(Create(g.id))]
                            + [Line(Record(g, Success, true, {}, Opened(Created(Some(1), None))))]
                       else pushed + [Line(Record(g, Uncertain, true, {}, Nothing))]
  {
  }

  /** While an outcome is pending the request is refused, and the refusal journaled. */
  lemma PendingRefused(trace: seq<Entry>, g: Grant, answers: bool)
    requires CanAttempt(g) && IsPending(Rows(trace), g.id)
    ensures RefusedNext(trace, Perform(trace, Try(g, answers)).trace, g.id)
  {
    hide Uses, Latest;
    var expected := if g.operation == Merge then Some(g.subject.head) else None;
    assert Pending in GrantReasons(Rows(trace), g, g.operation, expected, Usual(g, answers));
  }

  /** A grant for an effect is refused for looking, and the refusal journaled. */
  lemma LookRefused(trace: seq<Entry>, g: Grant)
    requires CanAttempt(g)
    ensures RefusedNext(trace, Perform(trace, LookInstead(g)).trace, g.id)
  {
    hide Uses, Latest;
    assert OperationMismatch in GrantReasons(Rows(trace), g, Observe, None, Usual(g, true));
  }

  lemma AfterThree(a: Command, b: Command, c: Command)
    ensures After([a]) == Perform([], a).trace
    ensures After([a, b]) == Perform(After([a]), b).trace
    ensures After([a, b, c]) == Perform(After([a, b]), c).trace
  {
    hide Perform;
    assert [a, b, c][..2] == [a, b] && [a, b][..1] == [a] && [a][..0] == [];
  }

  /** One line added: it is the latest of its grant, and a start only if it says so. */
  lemma OneLineMore(trace: seq<Entry>, more: seq<Entry>, id: string)
    requires RefusedNext(trace, more, id)
    ensures Latest(Rows(more), id) == Some(more[|trace|].row) && Starts(more, id) == Starts(trace, id)
  {
    hide Latest;
    assert more == trace + [more[|trace|]];
    assert (trace + [more[|trace|]])[..|trace|] == trace;
    var rows := Rows(trace);
    LatestIsLast(rows + [more[|trace|].row], id, |rows|);
    StartsAppend(trace, more[|trace|], id);
  }

  /** The first request under a usable grant. */
  lemma FirstTry(g: Grant, answers: bool)
    requires CanAttempt(g) && g.maxUses >= 1
    ensures var t := Perform([], Try(g, answers)).trace;
            && |t| >= 3 && Starts(t, g.id) <= 1
            && (!answers ==> |t| == 3 && IsLine(t[2], g.id, Uncertain))
            && (answers ==> RecordsSuccess(t, |t| - 1, g))
  {
    hide Try, Perform;
    UsableTries([], g, answers);
    PerformStarts([], Try(g, answers), g.id);
    assert Starts([], g.id) == 0;
  }

  /** A refusal leaves a grant with a use left free to attempt again. */
  lemma TriesAgain(t: seq<Entry>, u: seq<Entry>, g: Grant, answers: bool)
    requires CanAttempt(g) && Starts(t, g.id) < g.maxUses && RefusedNext(t, u, g.id)
    ensures TriedNext(u, Perform(u, Try(g, answers)).trace, g.id)
  {
    hide Perform, Try, TriedNext, Rows, Uses, Latest;
    OneLineMore(t, u, g.id);
    UsableTries(u, g, answers);
  }

  /** Three times the very same request: the second is refused because the first is uncertain, and
      that refusal hides the uncertainty from the third, which attempts again on a second use. */
  lemma UncertainIsHidden(g: Grant)
    requires CanAttempt(g) && g.maxUses >= 2
    ensures !NeverAgain(After([Try(g, false), Try(g, false), Try(g, false)]), g.id)
  {
    hide Try, Perform, After, Starts, Rows, Latest;
    var a := Try(g, false);
    AfterThree(a, a, a);
    FirstTry(g, false);
    var t1, t2, t3 := After([a]), After([a, a]), After([a, a, a]);
    assert t1[..3] == t1;
    StillPending(t1, 2, 3, g.id);
    PendingRefused(t1, g, false);
    TriesAgain(t1, t2, g, false);
    assert t3[2] == t3[..4][2] && t2[2] == t2[..3][2];
    assert IsLine(t3[2], g.id, Uncertain) && Attempts(t3[5], g.id);
  }

  /** An uncertain outcome is final, whatever is called and however the platform answers, exactly
      when the grant allows at most one use or can never attempt anything. */
  lemma UncertainIsFinalIff(g: Grant)
    ensures (forall commands :: Carries(commands, g) ==> NeverAgain(After(commands), g.id))
            <==> g.maxUses <= 1 || !CanAttempt(g)
  {
    hide After, Try, CanAttempt;
    if g.maxUses <= 1 || !CanAttempt(g) {
      forall commands | Carries(commands, g)
        ensures NeverAgain(After(commands), g.id)
      {
        if g.maxUses <= 1 {
          EveryTraceIsOrderly(commands);
          StartsWithinUses(commands, g);
          NeverAgainWhenSingle(After(commands), g.id);
        } else {
          NeverAttempted(commands, g);
        }
      }
    } else {
      UncertainIsHidden(g);
      GrantsOf(g);
      TryCarries(g, Try(g, false), false);
    }
  }

  lemma TryCarries(g: Grant, b: Command, answers: bool)
    requires b.grant == g
    ensures Carries([Try(g, answers), b, Try(g, answers)], g) && Carries([Try(g, answers), b], g)
  {
  }

  lemma NeverAgainWhenSingle(trace: seq<Entry>, id: string)
    requires Orderly(trace) && Starts(trace, id) <= 1
    ensures NeverAgain(trace, id)
  {
    hide Orderly;
    forall i, j | 0 <= i < j < |trace| && IsLine(trace[i], id, Uncertain)
      ensures !Attempts(trace[j], id)
    {
      if Attempts(trace[j], id) {
        var k := UncertainThenRefused(trace, i, j, id);
      }
    }
  }

  lemma AttemptAppend(trace: seq<Entry>, e: Entry, id: string)
    ensures AttemptCount(trace + [e], id) == AttemptCount(trace, id) + if Attempts(e, id) then 1 else 0
  {
    assert (trace + [e])[..|trace|] == trace;
  }

  lemma {:induction false} NoneCounted(trace: seq<Entry>, id: string)
    requires AttemptCount(trace, id) == 0
    ensures forall j :: 0 <= j < |trace| ==> !Attempts(trace[j], id)
  {
    if trace != [] {
      NoneCounted(trace[..|trace| - 1], id);
    }
  }

  /** A grant that cannot attempt, or another grant, makes no attempt under this id. */
  lemma NoNewAttempt(trace: seq<Entry>, c: Command, id: string)
    requires c.grant.id != id || !CanAttempt(c.grant)
    ensures AttemptCount(Perform(trace, c).trace, id) <= AttemptCount(trace, id)
  {
    if c.grant.id != id {
      AttemptsArePaid(trace, c, id);
      PerformStarts(trace, c, id);
    } else {
      OnlyLines(trace, c, id);
    }
  }

  lemma OnlyLines(trace: seq<Entry>, c: Command, id: string)
    requires !CanAttempt(c.grant)
    ensures AttemptCount(Perform(trace, c).trace, id) == AttemptCount(trace, id)
  {
    hide MergeOnce, PublishOnce, BaseAccepted, Rows, Uses, Latest, AttemptCount, Replays;
    forall t: seq<Entry>, row: Row
      ensures AttemptCount(t + [Line(row)], id) == AttemptCount(t, id)
    {
      AttemptAppend(t, Line(row), id);
    }
    var g, w := c.grant, c.world;
    assert c.MergeExactHead? ==> !Gate(Rows(trace), g, Merge, Some(c.expected), w).Passes? by {
      if c.MergeExactHead? { NeedsCanAttempt(Rows(trace), g, Merge, Some(c.expected), w); }
    }
    assert c.PublishCandidate? ==> !Gate(Rows(trace), g, Publish, None, w).Passes? by {
      if c.PublishCandidate? { NeedsCanAttempt(Rows(trace), g, Publish, None, w); }
    }
    hide Gate;
  }

  lemma NeedsCanAttempt(rows: seq<Row>, g: Grant, operation: Operation, expected: Option<string>, w: World)
    requires operation == Merge || operation == Publish
    ensures Gate(rows, g, operation, expected, w).Passes? ==> CanAttempt(g)
  {
    hide Uses, Latest, IsPending;
    if Gate(rows, g, operation, expected, w).Passes? {
      var reasons := GrantReasons(rows, g, operation, expected, w);
      assert OperationMismatch !in reasons && Expired !in reasons && ClockInvalid !in reasons;
      if operation == Publish {
        assert TreeDiffers !in CandidateReasons(g, w.tree.value);
      }
    }
  }

  lemma {:induction false} NeverAttempted(commands: seq<Command>, g: Grant)
    requires Carries(commands, g) && !CanAttempt(g)
    ensures AttemptCount(After(commands), g.id) == 0 && NeverAgain(After(commands), g.id)
  {
    hide Perform;
    if commands != [] {
      var before, c := commands[..|commands| - 1], commands[|commands| - 1];
      NeverAttempted(before, g);
      assert c.grant.id == g.id ==> c.grant == g;
      NoNewAttempt(After(before), c, g.id);
    }
    NoneCounted(After(commands), g.id);
  }

  // ---- what an observed success answers --------------------------------------------------------

  ghost predicate NoLineAfter(trace: seq<Entry>, k: nat, id: string) {
    forall m :: k < m < |trace| && trace[m].Line? ==> trace[m].row.id != id
  }

  /** The last line of the grant is an observed success of this request. */
  ghost predicate StandsLast(trace: seq<Entry>, m: nat, g: Grant) {
    RecordsSuccess(trace, m, g) && NoLineAfter(trace, m, g.id)
  }

  /** An identical request after an observed success at k is answered from the journal exactly when
      the grant's last line is such a success, and then by that line's observation. For a
      single-use grant that means nothing was recorded since k; otherwise it is refused. */
  lemma SuccessAnsweredIff(commands: seq<Command>, g: Grant, k: nat, c: Command)
    requires Carries(commands, g) && Identical(g, c)
    ensures var trace := After(commands); var r := Perform(trace, c);
            RecordsSuccess(trace, k, g) ==>
              && (forall m: nat :: k <= m && StandsLast(trace, m, g) ==>
                    r == Outcome(trace, Done(trace[m].row.observation, true)))
              && ((r.result.Done? && r.result.replayed) <==> exists m: nat :: k <= m && StandsLast(trace, m, g))
              && (g.maxUses == 1 && !NoLineAfter(trace, k, g.id) ==> r.result.Refusal? || r.result.Crashed?)
  {
    EveryTraceIsOrderly(commands);
    StartsWithinUses(commands, g);
    hide After;
    if RecordsSuccess(After(commands), k, g) {
      AnsweredByLast(After(commands), g, k, c);
      if g.maxUses == 1 && !NoLineAfter(After(commands), k, g.id) {
        RefusedWhenSingle(After(commands), g, k, c);
      }
    }
  }

  lemma LastIsReplayed(trace: seq<Entry>, g: Grant, m: nat, c: Command)
    requires Identical(g, c) && m < |trace| && trace[m].Line? && trace[m].row.id == g.id && NoLineAfter(trace, m, g.id)
    ensures Replays(Rows(trace), g, g.operation) <==> RecordsSuccess(trace, m, g)
    ensures Latest(Rows(trace), g.id) == Some(trace[m].row)
  {
    hide Latest;
    LatestAt(trace, m, |trace|, g.id);
    assert trace[..|trace|] == trace;
  }

  lemma AnsweredByLast(trace: seq<Entry>, g: Grant, k: nat, c: Command)
    requires Identical(g, c) && RecordsSuccess(trace, k, g)
    ensures var r := Perform(trace, c);
            && (forall m: nat :: k <= m && StandsLast(trace, m, g) ==>
                  r == Outcome(trace, Done(trace[m].row.observation, true)))
            && ((r.result.Done? && r.result.replayed) <==> exists m: nat :: k <= m && StandsLast(trace, m, g))
  {
    hide Gate, Rows, Latest, BaseAccepted;
    var last := k;
    if !NoLineAfter(trace, k, g.id) {
      last := LastLine(trace, k, g.id);
    }
    LastIsReplayed(trace, g, last, c);
    assert forall m: nat :: k <= m && StandsLast(trace, m, g) ==> m == last;
    NotReplayed(trace, c);
    assert RecordsSuccess(trace, last, g) ==> StandsLast(trace, last, g);
  }

  lemma NotReplayed(trace: seq<Entry>, c: Command)
    ensures !Replays(Rows(trace), c.grant, if c.MergeExactHead? then Merge else Publish) ==>
              var r := Perform(trace, c).result; !(r.Done? && r.replayed)
  {
    hide Gate, Rows, Replays, BaseAccepted;
  }

  lemma RefusedWhenSingle(trace: seq<Entry>, g: Grant, k: nat, c: Command)
    requires Orderly(trace) && g.maxUses == 1 && Starts(trace, g.id) <= 1 && RecordsSuccess(trace, k, g)
             && Identical(g, c)
    requires !NoLineAfter(trace, k, g.id)
    ensures var r := Perform(trace, c).result; r.Refusal? || r.Crashed?
  {
    hide Orderly, Starts, Perform;
    SuccessIsSpent(trace, k, g.id);
    OnlyRefusedSince(trace, k, g.id);
    SpentRefuses(trace, c);
  }

  lemma SuccessIsSpent(trace: seq<Entry>, k: nat, id: string)
    requires Orderly(trace) && k < |trace| && IsLine(trace[k], id, Success)
    ensures Starts(trace, id) >= 1
  {
    var p := StartBefore(trace, k, id);
    StartsGrow(trace, p + 1, id);
    assert trace[..p + 1] == trace[..p] + [trace[p]];
    StartsAppend(trace[..p], trace[p], id);
  }

  lemma OnlyRefusedSince(trace: seq<Entry>, k: nat, id: string)
    requires Orderly(trace) && Starts(trace, id) <= 1 && k < |trace| && IsLine(trace[k], id, Success)
             && !NoLineAfter(trace, k, id)
    ensures Latest(Rows(trace), id).Some? && Latest(Rows(trace), id).value.state == Refused
  {
    hide Orderly;
    var m := LastLine(trace, k, id);
    LatestAt(trace, m, |trace|, id);
    assert trace[..|trace|] == trace;
    if trace[m].row.state != Refused {
      var p := StartBefore(trace, k, id);
      var q := NewStart(trace, k, m, id);
      TwoStarts(trace, p, q, id);
      assert false;
    }
  }

  lemma LastLine(trace: seq<Entry>, k: nat, id: string) returns (m: nat)
    requires k < |trace| && !NoLineAfter(trace, k, id)
    ensures k < m < |trace| && trace[m].Line? && trace[m].row.id == id && NoLineAfter(trace, m, id)
  {
    m := |trace| - 1;
    while !(trace[m].Line? && trace[m].row.id == id)
      invariant k < m < |trace| && NoLineAfter(trace, m, id)
      decreases m
    {
      m := m - 1;
    }
  }

  /** A success, and then a refusal that hides it. */
  lemma SuccessIsHidden(g: Grant)
    requires CanAttempt(g) && g.maxUses >= 1
    ensures var t1, t2 := After([Try(g, true)]), After([Try(g, true), LookInstead(g)]);
            && RefusedNext(t1, t2, g.id) && Starts(t1, g.id) <= 1
            && |t1| > 0 && RecordsSuccess(t2, |t1| - 1, g) && !NoLineAfter(t2, |t1| - 1, g.id)
  {
    hide Try, LookInstead, Perform, After, Starts;
    var a, b := Try(g, true), LookInstead(g);
    AfterThree(a, b, a);
    FirstTry(g, true);
    var t1, t2 := After([a]), After([a, b]);
    LookRefused(t1, g);
    assert t2[..|t1|][|t1| - 1] == t1[|t1| - 1];
    assert t2[|t1|].row.id == g.id;
  }

  ghost predicate HoldsSuccess(trace: seq<Entry>, g: Grant) {
    exists k :: RecordsSuccess(trace, k, g)
  }

  /** The success of a single-use grant, hidden by a refusal, is no longer answered: the identical
      request is refused. */
  lemma SuccessHiddenIsRefused(g: Grant)
    requires CanAttempt(g) && g.maxUses == 1
    ensures HoldsSuccess(After([Try(g, true), LookInstead(g)]), g)
    ensures Perform(After([Try(g, true), LookInstead(g)]), Try(g, true)).result.Refusal?
  {
    hide Try, LookInstead, Perform, After, Starts, CanAttempt;
    var a, b := Try(g, true), LookInstead(g);
    SuccessIsHidden(g);
    GrantsOf(g);
    TryCarries(g, b, true);
    TryIsIdentical(g, true);
    SuccessAnsweredIff([a, b], g, |After([a])| - 1, a);
    TryNeverStops(After([a, b]), g);
  }

  lemma GrantsOf(g: Grant)
    ensures Try(g, true).grant == g && Try(g, false).grant == g && LookInstead(g).grant == g
  {
  }

  lemma TryNeverStops(trace: seq<Entry>, g: Grant)
    ensures !Perform(trace, Try(g, true)).result.Crashed?
  {
    hide Gate, Rows, Replays;
  }

  lemma {:induction false} AttemptGrows(trace: seq<Entry>, n: nat, id: string)
    requires n <= |trace|
    ensures AttemptCount(trace[..n], id) <= AttemptCount(trace, id)
    ensures (exists j :: n <= j < |trace| && Attempts(trace[j], id)) ==>
              AttemptCount(trace[..n], id) < AttemptCount(trace, id)
    decreases |trace|
  {
    if n < |trace| {
      AttemptGrows(trace[..|trace| - 1], n, id);
      assert trace[..|trace| - 1][..n] == trace[..n];
      if j :| n <= j < |trace| - 1 && Attempts(trace[j], id) {
        assert Attempts(trace[..|trace| - 1][j], id);
      }
    } else {
      assert trace[..n] == trace;
    }
  }

  /** With a second use the hidden success is executed again. */
  lemma SuccessHiddenIsRepeated(g: Grant)
    requires CanAttempt(g) && g.maxUses >= 2
    ensures HoldsSuccess(After([Try(g, true), LookInstead(g)]), g)
    ensures var t := After([Try(g, true), LookInstead(g)]);
            AttemptCount(Perform(t, Try(g, true)).trace, g.id) == AttemptCount(t, g.id) + 1
  {
    hide Try, LookInstead, Perform, After, CanAttempt;
    var t1, t2 := After([Try(g, true)]), After([Try(g, true), LookInstead(g)]);
    SuccessIsHidden(g);
    TriesAgain(t1, t2, g, true);
    AttemptGrows(Perform(t2, Try(g, true)).trace, |t2|, g.id);
    AttemptsArePaid(t2, Try(g, true), g.id);
    PerformStarts(t2, Try(g, true), g.id);
  }

  /** No later identical request repeats what the journal records as done. */
  ghost predicate NotRepeated(trace: seq<Entry>, g: Grant) {
    forall k, c :: RecordsSuccess(trace, k, g) && Identical(g, c) ==>
      AttemptCount(Perform(trace, c).trace, g.id) <= AttemptCount(trace, g.id)
  }

  lemma NotRepeatedWhenSpent(trace: seq<Entry>, g: Grant)
    requires Orderly(trace) && (g.maxUses <= 1 || !CanAttempt(g))
    ensures NotRepeated(trace, g)
  {
    hide Orderly, Perform, CanAttempt, Starts, Identical;
    forall k: nat, c | RecordsSuccess(trace, k, g) && Identical(g, c)
      ensures AttemptCount(Perform(trace, c).trace, g.id) <= AttemptCount(trace, g.id)
    {
      IdenticalIsOwn(g, c);
      if CanAttempt(g) {
        SuccessIsSpent(trace, k, g.id);
        SpentRefuses(trace, c);
        RefusingAttemptsNothing(trace, Perform(trace, c).trace, g);
      } else {
        NoNewAttempt(trace, c, g.id);
      }
    }
  }

  lemma IdenticalIsOwn(g: Grant, c: Command)
    requires Identical(g, c)
    ensures c.grant == g
  {
  }

  lemma RefusingAttemptsNothing(trace: seq<Entry>, after: seq<Entry>, g: Grant)
    requires OnlyRefuses(trace, after, g)
    ensures AttemptCount(after, g.id) == AttemptCount(trace, g.id)
  {
    if reasons, seen :| after == trace + [Line(Record(g, Refused, false, reasons, seen))] {
      AttemptAppend(trace, Line(Record(g, Refused, false, reasons, seen)), g.id);
    }
  }

  lemma TryIsIdentical(g: Grant, answers: bool)
    requires CanAttempt(g)
    ensures Identical(g, Try(g, answers))
  {
  }

  /** An observed success is never executed again by an identical request, over all runs, exactly
      when the grant allows at most one use or can never attempt anything. */
  lemma SuccessIsFinalIff(g: Grant)
    ensures (forall commands :: Carries(commands, g) ==> NotRepeated(After(commands), g))
            <==> g.maxUses <= 1 || !CanAttempt(g)
  {
    hide After, Try, CanAttempt, Perform;
    if g.maxUses <= 1 || !CanAttempt(g) {
      forall commands | Carries(commands, g)
        ensures NotRepeated(After(commands), g)
      {
        EveryTraceIsOrderly(commands);
        NotRepeatedWhenSpent(After(commands), g);
      }
    } else {
      var commands := [Try(g, true), LookInstead(g)];
      SuccessHiddenIsRepeated(g);
      GrantsOf(g);
      TryCarries(g, LookInstead(g), true);
      TryIsIdentical(g, true);
    }
  }

  // ---- the broker itself -----------------------------------------------------------------------

  /** The append-only journal file. */
  class Journal {
    var rows: seq<Row>

    constructor ()
      ensures rows == []
    {
      rows := [];
    }

    method Append(row: Row)
      modifies this
      ensures rows == old(rows) + [row]
    {
      rows := rows + [row];
    }

    method StateOf(id: string) returns (latest: Option<Row>)
      ensures latest == Latest(rows, id)
    {
      latest := None;
      for i := 0 to |rows|
        invariant latest == Latest(rows[..i], id)
      {
        assert rows[..i + 1][..i] == rows[..i];
        if rows[i].id == id { latest := Some(rows[i]); }
      }
      assert rows[..|rows|] == rows;
    }

    method CountUses(id: string) returns (n: nat)
      ensures n == Uses(rows, id)
    {
      n := 0;
      for i := 0 to |rows|
        invariant n == Uses(rows[..i], id)
      {
        assert rows[..i + 1][..i] == rows[..i];
        if rows[i].id == id && rows[i].state == Started { n := n + 1; }
      }
      assert rows[..|rows|] == rows;
    }
  }

  /** `trace` is the order in which lines became durable and the platform was called. */
  class Broker {
    const journal: Journal
    ghost var trace: seq<Entry>

    ghost predicate Valid()
      reads this, journal
    {
      journal.rows == Rows(trace)
    }

    constructor (journal: Journal)
      requires journal.rows == []
      ensures Valid() && trace == [] && this.journal == journal
    {
      this.journal := journal;
      trace := [];
    }

    method Write(row: Row)
      requires Valid()
      modifies this, journal
      ensures Valid() && trace == old(trace) + [Line(row)]
    {
      journal.Append(row);
      trace := trace + [Line(row)];
      assert trace[..|trace| - 1] == old(trace);
    }

    ghost method Ask(call: Remote)
      requires Valid()
      modifies this
      ensures Valid() && trace == old(trace) + [Called(call)]
    {
      trace := trace + [Called(call)];
      assert trace[..|trace| - 1] == old(trace);
    }

    method CheckGate(g: Grant, operation: Operation, expected: Option<string>, w: World) returns (gated: Gated)
      requires Valid()
      ensures gated == Gate(Rows(trace), g, operation, expected, w)
    {
      var uses := journal.CountUses(g.id);
      var reasons := ValidateGrant(g, w.now, w.epoch, uses, operation);
      if expected.Some? && expected.value != g.subject.head { reasons := reasons + {HeadDiffersFromGrant}; }
      var last := journal.StateOf(g.id);
      if last.Some? && last.value.state in {Started, Uncertain} { reasons := reasons + {Pending}; }
      assert reasons == GrantReasons(Rows(trace), g, operation, expected, w);
      hide GrantReasons;
      var observed := Nothing;
      if reasons == {} && operation == Publish {
        if w.tree.Gives? {
          observed := Worktree(w.tree.value);
          reasons := CandidateReasons(g, w.tree.value);
        } else {
          reasons := {Unobservable};
        }
      } else if reasons == {} {
        if w.pr.Raises? { return Aborts; }
        if w.pr.Gives? {
          observed := Seen(w.pr.value);
          if operation == Merge { reasons := MergeReasons(g, w.pr.value); }
        } else {
          reasons := {Unobservable};
        }
      }
      gated := if reasons != {} then Blocked(reasons, observed) else Passes(observed);
    }

    method MergeExact(g: Grant, expected: string, w: World) returns (r: Result)
      requires Valid()
      modifies this, journal
      ensures Valid() && Outcome(trace, r) == old(RunMerge(trace, g, expected, w))
    {
      hide Gate, Rows, Latest;
      var last := journal.StateOf(g.id);
      if last.Some? && last.value.state == Success && last.value.operation == Merge && last.value.request == g.request
         && expected == g.subject.head {
        return Done(last.value.observation, true);
      }
      var gated := CheckGate(g, Merge, Some(expected), w);
      if gated.Aborts? { return Failed; }
      if w.crash == BeforeRecord { return Crashed; }
      if gated.Blocked? {
        Write(Record(g, Refused, false, gated.reasons, gated.observation));
        return Refusal(gated.reasons);
      }
      Write(Record(g, Started, false, {}, gated.observation));
      if w.crash == AfterStart { return Crashed; }
      if w.stopped {
        Write(Record(g, Failure, false, {}, Nothing));
        return Failed;
      }
      Ask(MergeCall(g.id, if g.subject.PullRequest? then g.subject.number else 0, g.subject.head));
      if w.crash == AfterCall { return Crashed; }
      match w.merge {
        case TimedOut =>
          Write(Record(g, Uncertain, true, {}, Nothing));
          r := Unsure;
        case Fails =>
          Write(Record(g, Failure, true, {}, Nothing));
          r := Failed;
        case Returns(_) =>
          if w.after.Gives? {
            Write(Record(g, Success, true, {}, Seen(w.after.value)));
            r := Done(Seen(w.after.value), false);
          } else {
            Write(Record(g, Uncertain, true, {}, Nothing));
            r := Unsure;
          }
      }
    }

    method PublishBranch(g: Grant, base: string, w: World) returns (r: Result)
      requires Valid()
      modifies this, journal
      ensures Valid() && Outcome(trace, r) == old(RunPublish(trace, g, base, w))
    {
      hide Gate, Rows, Latest, BaseAccepted;
      var last := journal.StateOf(g.id);
      if last.Some? && last.value.state == Success && last.value.operation == Publish
        && last.value.request == g.request {
        return Done(last.value.observation, true);
      }
      var gated := CheckGate(g, Publish, None, w);
      if gated.Aborts? { return Failed; }
      if w.crash == BeforeRecord { return Crashed; }
      if gated.Blocked? {
        Write(Record(g, Refused, false, gated.reasons, gated.observation));
        return Refusal(gated.reasons);
      }
      if !BaseAccepted(base) {
        Write(Record(g, Refused, false, {BaseInvalid}, gated.observation));
        return Refusal({BaseInvalid});
      }
      Write(Record(g, Started, false, {}, gated.observation));
      if w.crash == AfterStart { return Crashed; }
      if w.stopped {
        Write(Record(g, Failure, false, {}, Nothing));
        return Failed;
      }
      Ask(Push(g.id, if g.subject.Candidate? then g.subject.branch else ""));
      if w.crash == AfterCall { return Crashed; }
      match w.push {
        case TimedOut =>
          Write(Record(g, Uncertain, true, {}, Nothing));
          r := Unsure;
        case Fails =>
          Write(Record(g, Failure, true, {}, Nothing));
          r := Failed;
        case Returns(_) =>
          Ask(Create(g.id));
          r := OpenRequest(g, w);
      }
    }

    /** After the push: the pull request is opened and looked at once. */
    method OpenRequest(g: Grant, w: World) returns (r: Result)
      requires Valid()
      modifies this, journal
      ensures Valid() && Outcome(trace, r) == old(CreateOnce(trace, g, w))
    {
      if w.crash == AfterSecondCall { return Crashed; }
      match w.create {
        case TimedOut =>
          Write(Record(g, Uncertain, true, {}, Nothing));
          r := Unsure;
        case Fails =>
          Write(Record(g, Failure, true, {}, Nothing));
          r := Failed;
        case Returns(c) =>
          if c.number.None? || c.number.value <= 0 {
            Write(Record(g, Uncertain, true, {}, Opened(c)));
            r := Unsure;
          } else if c.head.Some? && c.head.value != g.subject.head {
            Write(Record(g, Failure, true, {}, Opened(c)));
            r := Failed;
          } else {
            Write(Record(g, Success, true, {}, Opened(c)));
            r := Done(Opened(c), false);
          }
      }
    }

    method LookOnly(g: Grant, w: World) returns (r: Result)
      requires Valid()
      modifies this, journal
      ensures Valid() && Outcome(trace, r) == old(RunObserve(trace, g, w))
    {
      hide Gate, Rows;
      var gated := CheckGate(g, Observe, None, w);
      if gated.Aborts? { return Failed; }
      if w.crash == BeforeRecord { return Crashed; }
      if gated.Blocked? {
        Write(Record(g, Refused, false, gated.reasons, gated.observation));
        return Refusal(gated.reasons);
      }
      Write(Record(g, Started, false, {}, gated.observation));
      if w.crash == AfterStart { return Crashed; }
      Write(Record(g, Success, false, {}, gated.observation));
      r := Done(gated.observation, false);
    }
  }
}
