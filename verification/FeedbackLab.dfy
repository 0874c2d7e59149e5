/** Paired check-and-repair experiments: what a worker is shown, what an arm may spend, and when
    an experiment halts. */
module FeedbackLab {
  import opened Wrappers

  // ---- comparing JSON values ------------------------------------------------------------------------------------

  datatype Json =
    | Null
    | Bool(b: bool)
    | Int(n: int)
    | Float(x: real)
    | Str(s: string)
    | Arr(items: seq<Json>)
    | Obj(fields: map<string, Json>)

  predicate IsNumber(j: Json) { j.Int? || j.Float? }

  function NumberOf(j: Json): real
    requires IsNumber(j)
  {
    if j.Int? then j.n as real else j.x
  }

  predicate SameType(a: Json, b: Json) {
    match a
    case Null => b.Null?
    case Bool(_) => b.Bool?
    case Int(_) => b.Int?
    case Float(_) => b.Float?
    case Str(_) => b.Str?
    case Arr(_) => b.Arr?
    case Obj(_) => b.Obj?
  }

  /** `same_json`: 2 and 2.0 are the same number, and no boolean is a number. */
  predicate SameJson(expected: Json, actual: Json)
    decreases expected
  {
    if IsNumber(expected) && IsNumber(actual) then NumberOf(expected) == NumberOf(actual)
    else if !SameType(expected, actual) then false
    else match expected
      case Arr(items) =>
        |items| == |actual.items| && forall i :: 0 <= i < |items| ==> SameJson(items[i], actual.items[i])
      case Obj(fields) =>
        fields.Keys == actual.fields.Keys && forall k :: k in fields ==> SameJson(fields[k], actual.fields[k])
      case _ => expected == actual
  }

  /** The value with every number written one way. */
  function Normal(j: Json): Json {
    match j
    case Int(n) => Float(n as real)
    case Arr(items) => Arr(seq(|items|, i requires 0 <= i < |items| => Normal(items[i])))
    case Obj(fields) => Obj(map k | k in fields :: Normal(fields[k]))
    case _ => j
  }

  /** Two values compare the same exactly when they are equal once numbers are written one way:
      the comparison is an equivalence, and blind to nothing else. */
  lemma {:induction false} SameJsonIff(a: Json, b: Json)
    ensures SameJson(a, b) <==> Normal(a) == Normal(b)
    decreases a, 1
  {
    if a.Arr? && b.Arr? {
      SameItemsIff(a, b);
    } else if a.Obj? && b.Obj? {
      SameFieldsIff(a, b);
    } else {
      NormalKeepsKind(a);
      NormalKeepsKind(b);
    }
  }

  /** Everything but a number keeps its type. */
  lemma NormalKeepsKind(j: Json)
    ensures IsNumber(j) ==> Normal(j) == Float(NumberOf(j))
    ensures !IsNumber(j) && !j.Arr? && !j.Obj? ==> Normal(j) == j
    ensures Normal(j).Arr? <==> j.Arr?
    ensures Normal(j).Obj? <==> j.Obj?
  {
  }

  lemma {:induction false} SameItemsIff(a: Json, b: Json)
    requires a.Arr? && b.Arr?
    ensures SameJson(a, b) <==> Normal(a) == Normal(b)
    decreases a, 0
  {
    var s, t := Normal(a).items, Normal(b).items;
    assert |s| == |a.items| && |t| == |b.items|;
    assert Normal(a) == Normal(b) <==> s == t;
    if |a.items| == |b.items| {
      forall i | 0 <= i < |a.items|
        ensures SameJson(a.items[i], b.items[i]) <==> s[i] == t[i]
      {
        SameJsonIff(a.items[i], b.items[i]);
      }
      hide Normal;
      if SameJson(a, b) {
        assert forall i :: 0 <= i < |s| ==> s[i] == t[i];
      }
    }
  }

  lemma {:induction false} SameFieldsIff(a: Json, b: Json)
    requires a.Obj? && b.Obj?
    ensures SameJson(a, b) <==> Normal(a) == Normal(b)
    decreases a, 0
  {
    var s, t := Normal(a).fields, Normal(b).fields;
    assert s.Keys == a.fields.Keys && t.Keys == b.fields.Keys;
    assert Normal(a) == Normal(b) <==> s == t;
    forall k | k in a.fields && k in b.fields
      ensures SameJson(a.fields[k], b.fields[k]) <==> s[k] == t[k]
    {
      SameJsonIff(a.fields[k], b.fields[k]);
    }
    assert SameJson(a, b) <==>
             a.fields.Keys == b.fields.Keys && forall k :: k in a.fields ==> SameJson(a.fields[k], b.fields[k]);
    hide Normal, SameJson;
    if SameJson(a, b) {
      assert forall k :: k in s ==> k in t && s[k] == t[k];
    }
  }

  // ---- tasks, limits and the world around an arm -----------------------------------------------

  datatype Case = Case(input: Json, expected: Json)

  datatype Split = Development | Screening | Confirmation

  datatype Task = Task(id: string, group: string, split: Split, instruction: string, public: seq<Case>,
                       acceptance: seq<Case>)

  datatype Limits = Limits(rounds: nat, turns: nat, dollars: real, seconds: real, checkSeconds: real)

  predicate ValidLimits(l: Limits) {
    && 1 <= l.rounds <= 3 && l.rounds <= l.turns <= 12
    && 0.0 < l.dollars <= 5.0 && 0.0 < l.seconds <= 600.0 && 0.0 < l.checkSeconds <= 120.0
  }

  /** What comes back from the public checks of a draft. */
  datatype Feedback = Compared(actual: seq<Json>, passes: seq<bool>) | ExecutionError(message: string)

  predicate Passed(f: Feedback) {
    f.Compared? && forall i :: 0 <= i < |f.passes| ==> f.passes[i]
  }

  /** All a worker is shown. */
  datatype Prompt = Prompt(instruction: string, public: seq<Case>, previous: Option<(string, Option<Feedback>)>)

  datatype Dispatch = Dispatch(prompt: Prompt, turns: nat, dollars: real, seconds: real)

  datatype Telemetry = Unreported | Reported(usd: real) | Malformed

  datatype Reply = Raises | Replies(cost: Telemetry, code: Option<string>)

  datatype Trial = Trial(code: string, inputs: seq<Json>, seconds: real)

  datatype Evaluation = Values(values: seq<Json>) | CandidateFails(message: string) | CleanupFails | Breaks

  /** The worker and the sandbox may answer by everything they were asked so far; `cancelled`
      and `clock` by how often they were read. */
  datatype World = World(cancelled: nat -> bool, clock: nat -> real, worker: seq<Dispatch> -> Reply,
                         sandbox: seq<Trial> -> Evaluation)

  datatype Failure = Stopped | WorkerRaised | BadTelemetry | BudgetExceeded | BadSource | Incomplete | CandidateError
    | CleanupError | SandboxError

  datatype RowStatus = ReservedRow | Drafted | Checked

  datatype Row = Row(round: nat, reserved: real, turnCap: nat, status: RowStatus, cost: Option<real>,
                     code: Option<string>, public: Option<Feedback>)

  /** A reservation announced, or the worker called. */
  datatype Step = Reserves(dollars: real, turns: nat) | Calls(dispatch: Dispatch)

  /** The variables of a running arm, with what it has asked of the worker and the sandbox, and its
      reservations and worker calls in the order they were made. */
  datatype Progress = Progress(code: Option<string>, feedback: Option<Feedback>, costs: seq<Option<real>>,
                               rows: seq<Row>, reserved: real, dispatches: seq<Dispatch>, trials: seq<Trial>,
                               readings: nat, steps: seq<Step>)

  const OUTSET := Progress(None, None, [], [], 0.0, [], [], 0, [])

  function Inputs(cases: seq<Case>): (r: seq<Json>)
    ensures |r| == |cases| && forall i :: 0 <= i < |r| ==> r[i] == cases[i].input
  {
    seq(|cases|, i requires 0 <= i < |cases| => cases[i].input)
  }

  /** `compare`; none when the observations are incomplete. */
  function Compare(cases: seq<Case>, values: seq<Json>): (r: Option<Feedback>)
    ensures r.Some? <==> |values| == |cases|
    ensures r.Some? ==> (Passed(r.value) <==> forall i :: 0 <= i < |cases| ==> SameJson(cases[i].expected, values[i]))
  {
    if |values| != |cases| then None
    else
      var passes := seq(|cases|, i requires 0 <= i < |cases| => SameJson(cases[i].expected, values[i]));
      assert forall i :: 0 <= i < |cases| ==> passes[i] == SameJson(cases[i].expected, values[i]);
      Some(Compared(values, passes))
  }

  function PromptFor(task: Task, code: Option<string>, feedback: Option<Feedback>): Prompt {
    Prompt(task.instruction, task.public, if code.Some? then Some((code.value, feedback)) else None)
  }

  /** What is left of the wall budget at the n-th reading after the start; none when the arm is
      cancelled or out of time. */
  function Remaining(w: World, limits: Limits, n: nat): Option<real> {
    var left := w.clock(0) + limits.seconds - w.clock(n + 1);
    if w.cancelled(n) || left <= 0.0 then None else Some(left)
  }

  predicate GoodSource(code: Option<string>) {
    code.Some? && |code.value| <= 24000 && HasText(code.value)
  }

  function TurnCap(limits: Limits, rounds: nat, index: nat): nat
    requires rounds > 0
  {
    limits.turns / rounds + if index < limits.turns % rounds then 1 else 0
  }

  // ---- one arm ---------------------------------------------------------------------------------

  /** How a round ends: another may follow, the draft passed its public checks, or the arm fails. */
  datatype Ending = Goes(progress: Progress) | Passes(progress: Progress) | Fails(progress: Progress, failure: Failure)

  /** The charge of a round, made before its worker is called. */
  function Charge(limits: Limits, rounds: nat, p: Progress): Progress
    requires rounds > 0
  {
    var index := |p.rows|;
    var share := limits.dollars / rounds as real;
    p.(rows := p.rows + [Row(index + 1, share, TurnCap(limits, rounds, index), ReservedRow, None, None, None)],
       reserved := p.reserved + share, readings := p.readings + 1,
       steps := p.steps + [Reserves(share, TurnCap(limits, rounds, index))])
  }

  function SetLast(rows: seq<Row>, row: Row): seq<Row>
    requires rows != []
  {
    rows[|rows| - 1 := row]
  }

  /** Round |p.rows| of an arm. */
  function Round(task: Task, limits: Limits, rounds: nat, w: World, p: Progress): Ending
    requires |p.rows| < rounds
  {
    var index, left := |p.rows|, Remaining(w, limits, p.readings);
    if left.None? then Fails(p.(readings := p.readings + 1), Stopped)
    else
      var charged := Charge(limits, rounds, p);
      var row := charged.rows[index];
      var dispatch := Dispatch(PromptFor(task, p.code, p.feedback), row.turnCap, row.reserved,
                               MaxReal(0.1, left.value / (rounds - index) as real));
      var asked := charged.(dispatches := p.dispatches + [dispatch], steps := charged.steps + [Calls(dispatch)]);
      Answered(task, limits, w, asked, row, w.worker(asked.dispatches))
  }

  /** The worker's reply: its telemetry first, then its draft. */
  function Answered(task: Task, limits: Limits, w: World, p: Progress, row: Row, reply: Reply): Ending
    requires p.rows != []
  {
    if reply.Raises? then Fails(p, WorkerRaised)
    else if reply.cost.Malformed? || (reply.cost.Reported? && reply.cost.usd < 0.0) then Fails(p, BadTelemetry)
    else
      var cost := if reply.cost.Reported? then Some(reply.cost.usd) else None;
      var known := p.(rows := SetLast(p.rows, row.(cost := cost)), costs := p.costs + [cost]);
      if cost.Some? && cost.value > row.reserved then Fails(known, BudgetExceeded)
      else if !GoodSource(reply.code) then Fails(known.(code := reply.code), BadSource)
      else
        var drafted := row.(cost := cost, status := Drafted, code := reply.code);
        CheckPublic(task, limits, w, known.(code := reply.code, rows := SetLast(p.rows, drafted)), drafted)
  }

  function CheckPublic(task: Task, limits: Limits, w: World, p: Progress, row: Row): Ending
    requires p.rows != [] && p.code.Some?
  {
    var left := Remaining(w, limits, p.readings);
    if left.None? then Fails(p.(readings := p.readings + 1), Stopped)
    else
      var tried := p.(trials := p.trials
                      + [Trial(p.code.value, Inputs(task.public), MinReal(limits.checkSeconds, left.value))],
                      readings := p.readings + 1);
      match w.sandbox(tried.trials)
      case Values(values) =>
        var feedback := Compare(task.public, values);
        if feedback.None? then Fails(tried, Incomplete) else Settled(tried, row, feedback.value)
      case CandidateFails(message) => Settled(tried, row, ExecutionError(message))
      case CleanupFails => Fails(tried, CleanupError)
      case Breaks => Fails(tried, SandboxError)
  }

  function Settled(p: Progress, row: Row, feedback: Feedback): Ending
    requires p.rows != []
  {
    var q := p.(feedback := Some(feedback), rows := SetLast(p.rows, row.(status := Checked, public := Some(feedback))));
    if Passed(feedback) then Passes(q) else Goes(q)
  }

  lemma RoundGoesOn(task: Task, limits: Limits, rounds: nat, w: World, p: Progress)
    requires |p.rows| < rounds
    ensures var e := Round(task, limits, rounds, w, p);
            && (!e.Fails? ==> |e.progress.rows| == |p.rows| + 1 && e.progress.code.Some? && e.progress.feedback.Some?)
            && (e.Passes? ==> Passed(e.progress.feedback.value))
  {
  }

  /** The rounds from `p` on: until a draft passes, the rounds are used up, or the arm fails. */
  function Rounds(task: Task, limits: Limits, rounds: nat, w: World, p: Progress): Ending
    requires |p.rows| <= rounds
    decreases rounds - |p.rows|
  {
    if |p.rows| == rounds then Goes(p)
    else
      RoundGoesOn(task, limits, rounds, w, p);
      var e := Round(task, limits, rounds, w, p);
      if e.Goes? then Rounds(task, limits, rounds, w, e.progress) else e
  }

  datatype Kind = Single | Repair

  function RoundsOf(kind: Kind, limits: Limits): nat {
    if kind == Single then 1 else limits.rounds
  }

  /** An arm's outcome; `acceptance` is the final comparison when it was made. */
  datatype Outcome = Outcome(progress: Progress, failure: Option<Failure>, accepted: bool, acceptance: Option<Feedback>,
                             reportedCost: Option<real>)

  function Total(costs: seq<Option<real>>): Option<real> {
    if costs == [] then Some(0.0)
    else
      var before := Total(costs[..|costs| - 1]);
      var last := costs[|costs| - 1];
      if before.None? || last.None? then None else Some(before.value + last.value)
  }

  /** The cost is known only when every reserved round reported one. */
  function KnownCost(p: Progress): Option<real> {
    if |p.costs| == |p.rows| && p.costs != [] then Total(p.costs) else None
  }

  function FinalChecks(task: Task, limits: Limits, w: World, p: Progress): Outcome
    requires p.code.Some? && p.feedback.Some?
  {
    var left := Remaining(w, limits, p.readings);
    if left.None? then Outcome(p.(readings := p.readings + 1), Some(Stopped), false, None, KnownCost(p))
    else
      var tried := p.(trials := p.trials
                      + [Trial(p.code.value, Inputs(task.acceptance), MinReal(limits.checkSeconds, left.value))],
                      readings := p.readings + 1);
      match w.sandbox(tried.trials)
      case Values(values) =>
        var result := Compare(task.acceptance, values);
        if result.None? then Outcome(tried, Some(Incomplete), false, None, KnownCost(p))
        else Outcome(tried, None, Passed(p.feedback.value) && Passed(result.value), result, KnownCost(p))
      case CandidateFails(_) => Outcome(tried, Some(CandidateError), false, None, KnownCost(p))
      case CleanupFails => Outcome(tried, Some(CleanupError), false, None, KnownCost(p))
      case Breaks => Outcome(tried, Some(SandboxError), false, None, KnownCost(p))
  }

  lemma {:induction false} RoundsEnd(task: Task, limits: Limits, rounds: nat, w: World, p: Progress)
    requires |p.rows| <= rounds && rounds > 0 && (p.rows != [] ==> p.code.Some? && p.feedback.Some?)
    ensures var e := Rounds(task, limits, rounds, w, p); !e.Fails? ==>
              e.progress.code.Some? && e.progress.feedback.Some?
    decreases rounds - |p.rows|
  {
    if |p.rows| < rounds {
      RoundGoesOn(task, limits, rounds, w, p);
      var e := Round(task, limits, rounds, w, p);
      hide Round;
      if e.Goes? { RoundsEnd(task, limits, rounds, w, e.progress); }
    }
  }

  function Arm(task: Task, kind: Kind, limits: Limits, w: World): Outcome
    requires ValidLimits(limits)
  {
    RoundsEnd(task, limits, RoundsOf(kind, limits), w, OUTSET);
    var e := Rounds(task, limits, RoundsOf(kind, limits), w, OUTSET);
    if e.Fails? then Outcome(e.progress, Some(e.failure), false, None, KnownCost(e.progress))
    else FinalChecks(task, limits, w, e.progress)
  }

  /** `run_arm` */
  method RunArm(task: Task, kind: Kind, limits: Limits, w: World) returns (r: Outcome)
    requires ValidLimits(limits)
    ensures r == Arm(task, kind, limits, w)
  {
    hide Round, FinalChecks;
    var rounds := RoundsOf(kind, limits);
    RoundsEnd(task, limits, rounds, w, OUTSET);
    var p := OUTSET;
    while |p.rows| < rounds
      invariant |p.rows| <= rounds && (p.rows != [] ==> p.code.Some? && p.feedback.Some?)
      invariant Rounds(task, limits, rounds, w, p) == Rounds(task, limits, rounds, w, OUTSET)
      decreases rounds - |p.rows|
    {
      RoundGoesOn(task, limits, rounds, w, p);
      var e := Round(task, limits, rounds, w, p);
      if e.Fails? { return Outcome(e.progress, Some(e.failure), false, None, KnownCost(e.progress)); }
      p := e.progress;
      if e.Passes? { return FinalChecks(task, limits, w, p); }
    }
    r := FinalChecks(task, limits, w, p);
  }

  // ---- what a worker can learn -----------------------------------------------------------------

  predicate SamePublicly(a: Task, b: Task) {
    a.instruction == b.instruction && a.public == b.public
  }

  lemma {:induction false} RoundsShowNoMore(a: Task, b: Task, limits: Limits, rounds: nat, w: World, p: Progress)
    requires SamePublicly(a, b) && |p.rows| <= rounds
    ensures Rounds(a, limits, rounds, w, p) == Rounds(b, limits, rounds, w, p)
    decreases rounds - |p.rows|
  {
    if |p.rows| < rounds {
      RoundShowsNoMore(a, b, limits, rounds, w, p);
      RoundGoesOn(a, limits, rounds, w, p);
      var e := Round(a, limits, rounds, w, p);
      hide Round;
      if e.Goes? { RoundsShowNoMore(a, b, limits, rounds, w, e.progress); }
    }
  }

  lemma RoundShowsNoMore(a: Task, b: Task, limits: Limits, rounds: nat, w: World, p: Progress)
    requires SamePublicly(a, b) && |p.rows| < rounds
    ensures Round(a, limits, rounds, w, p) == Round(b, limits, rounds, w, p)
  {
  }

  lemma FinalChecksKeep(task: Task, limits: Limits, w: World, p: Progress)
    requires p.code.Some? && p.feedback.Some?
    ensures var r := FinalChecks(task, limits, w, p);
            && r.progress.(trials := p.trials, readings := p.readings) == p && r.reportedCost == KnownCost(p)
  {
    hide Compare, Passed, Inputs, Remaining;
  }

  /** The final checks change nothing the rounds decided. */
  lemma ArmKeepsRounds(task: Task, kind: Kind, limits: Limits, w: World)
    requires ValidLimits(limits)
    ensures var r, p := Arm(task, kind, limits, w), Rounds(task, limits, RoundsOf(kind, limits), w, OUTSET).progress;
            && r.progress.(trials := p.trials, readings := p.readings) == p && r.reportedCost == KnownCost(p)
  {
    RoundsEnd(task, limits, RoundsOf(kind, limits), w, OUTSET);
    hide Rounds, FinalChecks;
    var e := Rounds(task, limits, RoundsOf(kind, limits), w, OUTSET);
    if !e.Fails? {
      FinalChecksKeep(task, limits, w, e.progress);
    }
  }

  /** Two tasks that differ only in their identity, group, split and final checks draw the same
      prompts, caps, drafts, charges and costs from the same worker, sandbox and clock. */
  lemma FinalChecksNeverLeak(a: Task, b: Task, kind: Kind, limits: Limits, w: World)
    requires SamePublicly(a, b) && ValidLimits(limits)
    ensures var x, y := Arm(a, kind, limits, w), Arm(b, kind, limits, w);
            && x.progress.dispatches == y.progress.dispatches && x.progress.rows == y.progress.rows
            && x.progress.code == y.progress.code && x.progress.feedback == y.progress.feedback
            && x.progress.reserved == y.progress.reserved && x.reportedCost == y.reportedCost
  {
    RoundsShowNoMore(a, b, limits, RoundsOf(kind, limits), w, OUTSET);
    ArmKeepsRounds(a, kind, limits, w);
    ArmKeepsRounds(b, kind, limits, w);
    hide Rounds, Arm, KnownCost, SamePublicly, ValidLimits;
  }

  // ---- what an arm may spend -------------------------------------------------------------------

  function Share(limits: Limits, rounds: nat): real
    requires rounds > 0
  {
    limits.dollars / rounds as real
  }

  function Times(n: nat, share: real): real {
    n as real * share
  }

  lemma TimesStep(n: nat, share: real)
    ensures Times(n + 1, share) == Times(n, share) + share
  {
  }

  lemma TimesGrow(m: nat, n: nat, share: real)
    requires m <= n && share > 0.0
    ensures Times(m, share) <= Times(n, share)
  {
  }

  /** Every round was charged its share and its cap before its worker was called with them. */
  ghost predicate Charged(limits: Limits, rounds: nat, p: Progress)
    requires rounds > 0
  {
    && p.reserved == Times(|p.rows|, Share(limits, rounds))
    && (forall i :: 0 <= i < |p.rows| ==>
          p.rows[i].reserved == Share(limits, rounds) && p.rows[i].turnCap == TurnCap(limits, rounds, i))
    && |p.dispatches| == |p.rows|
    && (forall i :: 0 <= i < |p.dispatches| ==>
          p.dispatches[i].turns == TurnCap(limits, rounds, i) && p.dispatches[i].dollars == Share(limits, rounds))
    && |p.steps| == 2 * |p.rows|
    && (forall i :: 0 <= i < |p.rows| ==> StepsOf(limits, rounds, p.steps, p.dispatches, i))
  }

  /** Round i reserved first and then called. */
  ghost predicate StepsOf(limits: Limits, rounds: nat, steps: seq<Step>, dispatches: seq<Dispatch>, i: nat)
    requires rounds > 0
  {
    && 2 * i + 1 < |steps| && i < |dispatches|
    && steps[2 * i] == Reserves(Share(limits, rounds), TurnCap(limits, rounds, i))
    && steps[2 * i + 1] == Calls(dispatches[i])
  }

  lemma StepsStay(limits: Limits, rounds: nat, p: Progress, reserve: Step, dispatch: Dispatch, i: nat)
    requires rounds > 0 && StepsOf(limits, rounds, p.steps, p.dispatches, i)
    ensures StepsOf(limits, rounds, p.steps + [reserve] + [Calls(dispatch)], p.dispatches + [dispatch], i)
  {
  }

  /** One more round charged and called. */
  lemma AskedCharged(limits: Limits, rounds: nat, p: Progress, dispatch: Dispatch)
    requires |p.rows| < rounds && Charged(limits, rounds, p)
    requires dispatch.turns == TurnCap(limits, rounds, |p.rows|) && dispatch.dollars == Share(limits, rounds)
    ensures var c := Charge(limits, rounds, p);
            Charged(limits, rounds, c.(dispatches := p.dispatches + [dispatch], steps := c.steps + [Calls(dispatch)]))
  {
    var share, cap := Share(limits, rounds), TurnCap(limits, rounds, |p.rows|);
    var c := Charge(limits, rounds, p);
    assert c.steps == p.steps + [Reserves(share, cap)] && c.reserved == p.reserved + share;
    TimesStep(|p.rows|, share);
    var asked := c.(dispatches := p.dispatches + [dispatch], steps := c.steps + [Calls(dispatch)]);
    assert StepsOf(limits, rounds, asked.steps, asked.dispatches, |p.rows|);
    hide StepsOf, Share, TurnCap, Times;
    forall i | 0 <= i < |p.rows|
      ensures StepsOf(limits, rounds, asked.steps, asked.dispatches, i)
    {
      StepsStay(limits, rounds, p, Reserves(share, cap), dispatch, i);
    }
  }

  lemma RoundCharges(task: Task, limits: Limits, rounds: nat, w: World, p: Progress)
    requires |p.rows| < rounds && Charged(limits, rounds, p)
    ensures var q := Round(task, limits, rounds, w, p).progress;
            Charged(limits, rounds, q) && |q.rows| <= |p.rows| + 1
  {
    hide PromptFor, Compare, GoodSource, TurnCap, Passed, Remaining, Times, StepsOf, Answered;
    var index, left := |p.rows|, Remaining(w, limits, p.readings);
    ReadingKeeps(limits, rounds, p);
    if left.Some? {
      var charged := Charge(limits, rounds, p);
      var row := charged.rows[index];
      var dispatch := Dispatch(PromptFor(task, p.code, p.feedback), row.turnCap, row.reserved,
                               MaxReal(0.1, left.value / (rounds - index) as real));
      var asked := charged.(dispatches := p.dispatches + [dispatch], steps := charged.steps + [Calls(dispatch)]);
      AskedCharged(limits, rounds, p, dispatch);
      AnswerKeepsCharges(task, limits, rounds, w, asked, row, w.worker(asked.dispatches));
      hide Charged;
    }
  }

  lemma ReadingKeeps(limits: Limits, rounds: nat, p: Progress)
    requires rounds > 0 && Charged(limits, rounds, p)
    ensures Charged(limits, rounds, p.(readings := p.readings + 1))
  {
    hide Share, TurnCap, StepsOf, Times;
  }

  /** Nothing after the charge changes what was reserved or what the worker was asked. */
  lemma AnswerKeepsCharges(task: Task, limits: Limits, rounds: nat, w: World, p: Progress, row: Row, reply: Reply)
    requires rounds > 0 && Charged(limits, rounds, p) && p.rows != [] && row == p.rows[|p.rows| - 1]
    ensures var q := Answered(task, limits, w, p, row, reply).progress;
            Charged(limits, rounds, q) && |q.rows| == |p.rows|
  {
    hide PromptFor, Compare, GoodSource, TurnCap, Passed, Remaining, Share, Times, StepsOf;
  }

  lemma {:induction false} RoundsCharge(task: Task, limits: Limits, rounds: nat, w: World, p: Progress)
    requires |p.rows| <= rounds && rounds > 0 && Charged(limits, rounds, p)
    ensures var q := Rounds(task, limits, rounds, w, p).progress; Charged(limits, rounds, q) && |q.rows| <= rounds
    decreases rounds - |p.rows|
  {
    if |p.rows| < rounds {
      RoundCharges(task, limits, rounds, w, p);
      RoundGoesOn(task, limits, rounds, w, p);
      var e := Round(task, limits, rounds, w, p);
      hide Round, Charged;
      if e.Goes? { RoundsCharge(task, limits, rounds, w, e.progress); }
    }
  }

  function TurnsGiven(dispatches: seq<Dispatch>): nat {
    if dispatches == [] then 0 else TurnsGiven(dispatches[..|dispatches| - 1]) + dispatches[|dispatches| - 1].turns
  }

  /** After n rounds the caps sum to n whole shares and the first of the turns left over. */
  lemma {:induction false} CapsSum(limits: Limits, rounds: nat, dispatches: seq<Dispatch>)
    requires 0 < rounds && |dispatches| <= rounds
    requires forall i :: 0 <= i < |dispatches| ==> dispatches[i].turns == TurnCap(limits, rounds, i)
    ensures TurnsGiven(dispatches) == |dispatches| * (limits.turns / rounds)
                                      + if |dispatches| < limits.turns % rounds then |dispatches|
                                        else limits.turns % rounds
    decreases |dispatches|
  {
    if dispatches != [] {
      var n := |dispatches| - 1;
      CapsSum(limits, rounds, dispatches[..n]);
      assert (n + 1) * (limits.turns / rounds) == n * (limits.turns / rounds) + limits.turns / rounds;
    }
  }

  lemma TurnsWithin(limits: Limits, rounds: nat, dispatches: seq<Dispatch>)
    requires 0 < rounds && |dispatches| <= rounds
    requires forall i :: 0 <= i < |dispatches| ==> dispatches[i].turns == TurnCap(limits, rounds, i)
    ensures TurnsGiven(dispatches) <= limits.turns
            && (|dispatches| == rounds ==> TurnsGiven(dispatches) == limits.turns)
  {
    CapsSum(limits, rounds, dispatches);
    TurnShares(limits.turns, rounds, |dispatches|);
  }

  lemma ChargesWithin(limits: Limits, rounds: nat, p: Progress)
    requires 0 < rounds && limits.dollars > 0.0 && Charged(limits, rounds, p) && |p.rows| <= rounds
    ensures TurnsGiven(p.dispatches) <= limits.turns && p.reserved <= limits.dollars && |p.dispatches| == |p.rows|
    ensures |p.rows| == rounds ==> TurnsGiven(p.dispatches) == limits.turns && p.reserved == limits.dollars
  {
    hide TurnCap, Share;
    TurnsWithin(limits, rounds, p.dispatches);
    DollarShares(limits, rounds, |p.rows|);
  }

  lemma OutsetCharged(limits: Limits, rounds: nat)
    requires rounds > 0
    ensures Charged(limits, rounds, OUTSET)
  {
  }

  /** What has been reserved, and what the worker has been given, up to now. */
  function DollarsReserved(steps: seq<Step>): real {
    if steps == [] then 0.0
    else
      var last := steps[|steps| - 1];
      DollarsReserved(steps[..|steps| - 1]) + if last.Reserves? then last.dollars else 0.0
  }

  function DollarsGiven(steps: seq<Step>): real {
    if steps == [] then 0.0
    else
      var last := steps[|steps| - 1];
      DollarsGiven(steps[..|steps| - 1]) + if last.Calls? then last.dispatch.dollars else 0.0
  }

  /** The call at j directly follows the reservation of just what it gives the worker. */
  predicate PaidBefore(steps: seq<Step>, j: nat)
    requires j < |steps| && steps[j].Calls?
  {
    j > 0 && steps[j - 1] == Reserves(steps[j].dispatch.dollars, steps[j].dispatch.turns)
  }

  lemma {:induction false} RunningCharge(limits: Limits, rounds: nat, p: Progress, j: nat)
    requires 0 < rounds && Charged(limits, rounds, p) && j <= |p.steps|
    ensures DollarsReserved(p.steps[..j]) == Times((j + 1) / 2, Share(limits, rounds))
    ensures DollarsGiven(p.steps[..j]) == Times(j / 2, Share(limits, rounds))
    ensures j > 0 && p.steps[j - 1].Calls? ==> PaidBefore(p.steps, j - 1)
  {
    if j == 0 {
      assert Times(0, Share(limits, rounds)) == 0.0;
    } else {
      RunningCharge(limits, rounds, p, j - 1);
      assert StepsOf(limits, rounds, p.steps, p.dispatches, (j - 1) / 2);
      assert p.steps[..j][..j - 1] == p.steps[..j - 1];
      var share := Share(limits, rounds);
      assert j % 2 == 1 ==> p.steps[j - 1].Reserves? && p.steps[j - 1].dollars == share;
      assert j % 2 == 0 ==> p.steps[j - 1].Calls? && p.steps[j - 1].dispatch.dollars == share;
      assert p.steps[j - 1].Calls? ==> PaidBefore(p.steps, j - 1);
      hide Share, Charged, Times, PaidBefore;
      if j % 2 == 1 {
        assert (j - 1) / 2 == j / 2 && (j + 1) / 2 == j / 2 + 1;
        TimesStep(j / 2, share);
      } else {
        assert (j + 1) / 2 == j / 2 && (j - 1) / 2 == j / 2 - 1;
        TimesStep(j / 2 - 1, share);
      }
    }
  }

  lemma ChargedAt(limits: Limits, rounds: nat, p: Progress, j: nat)
    requires 0 < rounds && limits.dollars > 0.0 && Charged(limits, rounds, p) && |p.rows| <= rounds && j <= |p.steps|
    ensures DollarsGiven(p.steps[..j]) <= DollarsReserved(p.steps[..j]) <= limits.dollars
    ensures DollarsReserved(p.steps) == p.reserved
    ensures j < |p.steps| && p.steps[j].Calls? ==> PaidBefore(p.steps, j)
  {
    hide Charged, Share, Times, DollarsGiven, DollarsReserved, PaidBefore;
    ChargedLengths(limits, rounds, p);
    RunningCharge(limits, rounds, p, j);
    if j < |p.steps| { RunningCharge(limits, rounds, p, j + 1); }
    RunningCharge(limits, rounds, p, |p.steps|);
    assert p.steps[..|p.steps|] == p.steps;
    assert (|p.steps| + 1) / 2 == |p.rows|;
    ShareIsPositive(limits, rounds);
    TimesGrow(j / 2, (j + 1) / 2, Share(limits, rounds));
    DollarShares(limits, rounds, (j + 1) / 2);
  }

  /** At every moment of an arm: what was given to the worker had been reserved, the reservations
      are within the limit, and a call directly follows the reservation of what it gives. */
  lemma EveryCallIsPaidBefore(task: Task, kind: Kind, limits: Limits, w: World, j: nat)
    requires ValidLimits(limits) && j <= |Arm(task, kind, limits, w).progress.steps|
    ensures var p := Arm(task, kind, limits, w).progress;
            && DollarsGiven(p.steps[..j]) <= DollarsReserved(p.steps[..j]) <= limits.dollars
            && DollarsReserved(p.steps) == p.reserved
            && (j < |p.steps| && p.steps[j].Calls? ==> PaidBefore(p.steps, j))
  {
    hide Arm, Charged, DollarsGiven, DollarsReserved, PaidBefore;
    ArmCharged(task, kind, limits, w);
    ChargedAt(limits, RoundsOf(kind, limits), Arm(task, kind, limits, w).progress, j);
  }

  lemma ShareIsPositive(limits: Limits, rounds: nat)
    requires rounds > 0 && limits.dollars > 0.0
    ensures Share(limits, rounds) > 0.0
  {
  }

  lemma ChargedLengths(limits: Limits, rounds: nat, p: Progress)
    requires rounds > 0 && Charged(limits, rounds, p)
    ensures |p.steps| == 2 * |p.rows| && p.reserved == Times(|p.rows|, Share(limits, rounds))
  {
  }

  /** What was charged does not depend on the trials and the clock. */
  lemma ChargedAlike(limits: Limits, rounds: nat, p: Progress, q: Progress)
    requires rounds > 0 && Charged(limits, rounds, q) && p.(trials := q.trials, readings := q.readings) == q
    ensures Charged(limits, rounds, p) && p.rows == q.rows
  {
    hide Share, TurnCap, StepsOf;
  }

  lemma ArmCharged(task: Task, kind: Kind, limits: Limits, w: World)
    requires ValidLimits(limits)
    ensures var p := Arm(task, kind, limits, w).progress;
            Charged(limits, RoundsOf(kind, limits), p) && |p.rows| <= RoundsOf(kind, limits)
  {
    hide Rounds, Arm, Charged;
    var rounds := RoundsOf(kind, limits);
    OutsetCharged(limits, rounds);
    RoundsCharge(task, limits, rounds, w, OUTSET);
    ArmKeepsRounds(task, kind, limits, w);
    ChargedAlike(limits, rounds, Arm(task, kind, limits, w).progress, Rounds(task, limits, rounds, w, OUTSET).progress);
  }

  /** No arm reserves more than the allowed dollars or gives out more than the allowed turns, and
      one that uses all its rounds gives out exactly the turns and reserves exactly the dollars. */
  lemma ArmWithinLimits(task: Task, kind: Kind, limits: Limits, w: World)
    requires ValidLimits(limits)
    ensures var p := Arm(task, kind, limits, w).progress;
            && TurnsGiven(p.dispatches) <= limits.turns && p.reserved <= limits.dollars
            && |p.dispatches| == |p.rows| <= RoundsOf(kind, limits)
            && (|p.rows| == RoundsOf(kind, limits) ==>
                  TurnsGiven(p.dispatches) == limits.turns && p.reserved == limits.dollars)
  {
    ArmCharged(task, kind, limits, w);
    hide Rounds, Arm, Charged;
    ChargesWithin(limits, RoundsOf(kind, limits), Arm(task, kind, limits, w).progress);
  }

  lemma DollarShares(limits: Limits, rounds: nat, n: nat)
    requires limits.dollars > 0.0 && n <= rounds && rounds > 0
    ensures Times(n, Share(limits, rounds)) <= limits.dollars && Times(rounds, Share(limits, rounds)) == limits.dollars
  {
    var share := limits.dollars / rounds as real;
    assert rounds as real * share == limits.dollars;
    assert n as real * share <= rounds as real * share;
  }

  lemma TurnShares(turns: nat, rounds: nat, n: nat)
    requires n <= rounds && rounds > 0
    ensures n * (turns / rounds) + (if n < turns % rounds then n else turns % rounds) <= turns
    ensures rounds * (turns / rounds) + turns % rounds == turns
  {
    var each, left := turns / rounds, turns % rounds;
    assert turns == rounds * each + left;
    assert n * each <= rounds * each;
  }

  predicate MeetsAll(cases: seq<Case>, e: Evaluation) {
    e.Values? && |e.values| == |cases| && forall i :: 0 <= i < |cases| ==> SameJson(cases[i].expected, e.values[i])
  }

  /** The last trial of the sandbox was of the current draft on the public checks, and the feedback
      says passed only when the sandbox's answer met them all. */
  predicate PubliclyTried(task: Task, w: World, p: Progress) {
    && p.trials != [] && p.code.Some? && p.feedback.Some?
    && p.trials[|p.trials| - 1].code == p.code.value && p.trials[|p.trials| - 1].inputs == Inputs(task.public)
    && (Passed(p.feedback.value) <==> MeetsAll(task.public, w.sandbox(p.trials)))
  }

  lemma RoundTries(task: Task, limits: Limits, rounds: nat, w: World, p: Progress)
    requires |p.rows| < rounds
    ensures var e := Round(task, limits, rounds, w, p); !e.Fails? ==> PubliclyTried(task, w, e.progress)
  {
    RoundGoesOn(task, limits, rounds, w, p);
    hide PromptFor, TurnCap, Remaining, GoodSource, Inputs;
  }

  lemma {:induction false} RoundsTry(task: Task, limits: Limits, rounds: nat, w: World, p: Progress)
    requires |p.rows| <= rounds && (|p.rows| == rounds ==> PubliclyTried(task, w, p))
    ensures var e := Rounds(task, limits, rounds, w, p); !e.Fails? ==> PubliclyTried(task, w, e.progress)
    decreases rounds - |p.rows|
  {
    if |p.rows| < rounds {
      RoundGoesOn(task, limits, rounds, w, p);
      RoundTries(task, limits, rounds, w, p);
      var e := Round(task, limits, rounds, w, p);
      hide Round, PubliclyTried;
      if e.Goes? { RoundsTry(task, limits, rounds, w, e.progress); }
    }
  }

  /** The sandbox's answer to the n-th trial of a run. */
  predicate Met(cases: seq<Case>, w: World, trials: seq<Trial>, n: nat, code: string)
    requires n < |trials|
  {
    trials[n].code == code && trials[n].inputs == Inputs(cases) && MeetsAll(cases, w.sandbox(trials[..n + 1]))
  }

  /** The outcome's draft was the last but one trial, on the public checks, and the last, on the
      final ones, and met them all. */
  predicate BothMet(task: Task, w: World, r: Outcome) {
    && r.failure.None? && r.progress.code.Some? && |r.progress.trials| >= 2
    && Met(task.public, w, r.progress.trials, |r.progress.trials| - 2, r.progress.code.value)
    && Met(task.acceptance, w, r.progress.trials, |r.progress.trials| - 1, r.progress.code.value)
  }

  /** An arm that was accepted had its last draft tried on the public checks and then on the final
      ones, and the sandbox's answers met every one of both. */
  lemma AcceptedMeansPassed(task: Task, kind: Kind, limits: Limits, w: World)
    requires ValidLimits(limits)
    ensures var r := Arm(task, kind, limits, w);
            r.accepted ==> BothMet(task, w, r)
  {
    var rounds := RoundsOf(kind, limits);
    RoundsEnd(task, limits, rounds, w, OUTSET);
    RoundsTry(task, limits, rounds, w, OUTSET);
    hide Rounds, Round, FinalChecks, BothMet, PubliclyTried, KnownCost;
    var e := Rounds(task, limits, rounds, w, OUTSET);
    assert Arm(task, kind, limits, w)
           == if e.Fails? then Outcome(e.progress, Some(e.failure), false, None, KnownCost(e.progress))
              else FinalChecks(task, limits, w, e.progress);
    hide Arm;
    if !e.Fails? { FinalMeans(task, limits, w, e.progress); }
  }

  lemma FinalMeans(task: Task, limits: Limits, w: World, p: Progress)
    requires PubliclyTried(task, w, p)
    ensures var r := FinalChecks(task, limits, w, p);
            r.accepted ==> BothMet(task, w, r)
  {
    hide Remaining, Inputs, KnownCost;
    var r := FinalChecks(task, limits, w, p);
    if r.accepted {
      assert r.progress.trials[..|p.trials|] == p.trials;
      assert r.progress.trials[..|p.trials| + 1] == r.progress.trials;
    }
  }

  // ---- the experiment --------------------------------------------------------------------------

  predicate Halts(r: Outcome) {
    r.failure == Some(BudgetExceeded) || r.failure == Some(CleanupError)
  }

  /** The world of an arm that starts once an earlier one halted the experiment. */
  function Cancelled(w: World): World {
    w.(cancelled := _ => true)
  }

  /** The arms in execution order: counterbalanced task by task. */
  function Order(tasks: seq<Task>): seq<(Task, Kind)> {
    if tasks == [] then []
    else
      var n := |tasks| - 1;
      var last := tasks[n];
      Order(tasks[..n]) + if n % 2 == 0 then [(last, Single), (last, Repair)] else [(last, Repair), (last, Single)]
  }

  predicate AnyHalts(rs: seq<Outcome>) {
    exists i :: 0 <= i < |rs| && Halts(rs[i])
  }

  /** The outcomes of the arms so far; each arm has its own world. */
  function Outcomes(arms: seq<(Task, Kind)>, limits: Limits, worlds: nat -> World): (rs: seq<Outcome>)
    requires ValidLimits(limits)
    ensures |rs| == |arms|
  {
    if arms == [] then []
    else
      var n := |arms| - 1;
      var before := Outcomes(arms[..n], limits, worlds);
      before + [Arm(arms[n].0, arms[n].1, limits, if AnyHalts(before) then Cancelled(worlds(n)) else worlds(n))]
  }

  /** `run_experiment` over its arms */
  method RunExperiment(tasks: seq<Task>, limits: Limits, worlds: nat -> World) returns (rows: seq<Outcome>)
    requires ValidLimits(limits)
    ensures rows == Outcomes(Order(tasks), limits, worlds)
  {
    hide Arm;
    rows := [];
    var halted := false;
    var arms := Order(tasks);
    for i := 0 to |arms|
      invariant rows == Outcomes(arms[..i], limits, worlds) && halted == AnyHalts(rows)
    {
      assert arms[..i + 1][..i] == arms[..i];
      var r := RunArm(arms[i].0, arms[i].1, limits, if halted then Cancelled(worlds(i)) else worlds(i));
      assert AnyHalts(rows + [r]) == (halted || Halts(r)) by { HaltsAppend(rows, r); }
      rows := rows + [r];
      halted := halted || Halts(r);
    }
    assert arms[..|arms|] == arms;
  }

  lemma HaltsAppend(rs: seq<Outcome>, r: Outcome)
    ensures AnyHalts(rs + [r]) == (AnyHalts(rs) || Halts(r))
  {
    if AnyHalts(rs) {
      var i :| 0 <= i < |rs| && Halts(rs[i]);
      assert Halts((rs + [r])[i]);
    }
    if Halts(r) {
      assert Halts((rs + [r])[|rs|]);
    }
  }

  lemma CancelledArmIsIdle(task: Task, kind: Kind, limits: Limits, w: World)
    requires ValidLimits(limits)
    ensures var r := Arm(task, kind, limits, Cancelled(w));
            r.failure == Some(Stopped) && r.progress.dispatches == [] && r.progress.reserved == 0.0 && !r.accepted
  {
    var rounds, v := RoundsOf(kind, limits), Cancelled(w);
    assert Remaining(v, limits, 0).None?;
    assert Round(task, limits, rounds, v, OUTSET) == Fails(OUTSET.(readings := 1), Stopped);
    assert Rounds(task, limits, rounds, v, OUTSET) == Fails(OUTSET.(readings := 1), Stopped);
  }

  /** After an arm reports a budget breach or an unsafe cleanup no later arm calls a worker or
      reserves anything; each still keeps its place in the experiment. */
  lemma {:induction false} HaltedForGood(arms: seq<(Task, Kind)>, limits: Limits, worlds: nat -> World, i: nat, j: nat)
    requires ValidLimits(limits) && i < j < |arms| && Halts(Outcomes(arms, limits, worlds)[i])
    ensures var r := Outcomes(arms, limits, worlds)[j];
            r.failure == Some(Stopped) && r.progress.dispatches == [] && r.progress.reserved == 0.0 && !r.accepted
    decreases |arms|
  {
    hide Arm;
    var n := |arms| - 1;
    var before := Outcomes(arms[..n], limits, worlds);
    assert Outcomes(arms, limits, worlds)[i] == before[i];
    if j < n {
      HaltedForGood(arms[..n], limits, worlds, i, j);
    } else {
      assert AnyHalts(before);
      CancelledArmIsIdle(arms[n].0, arms[n].1, limits, worlds(n));
    }
  }
}
