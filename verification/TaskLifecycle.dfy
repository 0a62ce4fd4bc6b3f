/** The life of tasks under concurrent create and cancel requests and one runner per task, and
    what their runs cost their users. Every action below is one database commit, or one read that
    a later commit relies on; any action may follow any other. The owner of a task exists, as the
    foreign key says; a user without an entry in a map has the counter 0. */
module TaskLifecycle {
  import opened Common
  import opened TaskStatus

  const MAX_ACTIVE := 5
  const DEFAULT_ITERATIONS := 30
  const ITERATIONS_CAP := 50

  datatype Task = Task(user: nat, status: Status, startedAt: Option<int>, completedAt: Option<int>,
                       totalTokens: nat, totalSteps: nat, maxIterations: int)

  /** Where the runner of a task stands. */
  datatype Phase =
    | Idle
    | Admitted                                     // has read a task that is not terminal
    | Planned
    | Working                                      // the graph is being executed
    | Summed(tokens: nat, count: nat)
    | UsageRead(tokens: nat, count: nat, seen: nat)
    | Charged(tokens: nat, count: nat)
    | Failing
    | Reported

  /** History, which no operation reads: the tokens charged for the task so far, those among them
      charged by runs that ended before they completed the task, and whether the task was set going
      again after a cancel. */
  datatype Past = Past(charged: nat, lapsed: nat, revived: bool)

  /** A task, the tokens of its persisted steps, its runner, and the number of cancel requests that
      have read the task, found something to cancel, and not committed. */
  datatype Slot = Slot(task: Task, steps: seq<nat>, runner: Phase, cancelling: nat, past: Past)

  /** `pending` holds the users of create requests that passed the check and have not committed.
      History: `peak`, the most requests of a user pending at once; `lost`, what stale writes took
      off a user's counter. */
  datatype World = World(slots: seq<Slot>, usage: map<nat, nat>, pending: multiset<nat>,
                         peak: map<nat, nat>, lost: map<nat, int>)

  /** No tasks yet; the counters may start anywhere. */
  function Fresh(start: map<nat, nat>): World { World([], start, multiset{}, map[], map[]) }

  function Get(m: map<nat, nat>, u: nat): nat { if u in m then m[u] else 0 }
  function GetInt(m: map<nat, int>, u: nat): int { if u in m then m[u] else 0 }

  function Sum(s: seq<nat>): nat {
    if s == [] then 0 else Sum(Front(s)) + Last(s)
  }

  /** A zero or missing request means the default; there is a cap but no lower bound. */
  function ClampIterations(requested: Option<int>): int {
    var wanted := if requested.None? || requested.value == 0 then DEFAULT_ITERATIONS else requested.value;
    Min(wanted, ITERATIONS_CAP)
  }

  /** An absent or zero request is stored as 30, a request over 50 as 50, any other as it is. */
  lemma ClampMeaning(requested: Option<int>)
    ensures ClampIterations(requested)
         == if requested.None? || requested.value == 0 then 30
            else if requested.value > 50 then 50 else requested.value
  {
  }

  function NewSlot(user: nat, requested: Option<int>): Slot {
    Slot(Task(user, Submitted, None, None, 0, 0, ClampIterations(requested)), [], Idle, 0, Past(0, 0, false))
  }

  // ---- sums over tasks ----

  function SumBy(slots: seq<Slot>, f: Slot -> nat): nat {
    if slots == [] then 0 else SumBy(Front(slots), f) + f(Last(slots))
  }

  lemma {:induction false} SumUpdate(slots: seq<Slot>, t: nat, s: Slot, f: Slot -> nat)
    requires t < |slots|
    ensures SumBy(slots[t := s], f) == SumBy(slots, f) - f(slots[t]) + f(s)
  {
    var after := slots[t := s];
    if t == |slots| - 1 {
      assert Front(after) == Front(slots);
    } else {
      SumUpdate(Front(slots), t, s, f);
      assert Front(after) == Front(slots)[t := s];
    }
  }

  lemma SumAppend(slots: seq<Slot>, s: Slot, f: Slot -> nat)
    ensures SumBy(slots + [s], f) == SumBy(slots, f) + f(s)
  {
    assert Front(slots + [s]) == slots;
  }

  lemma {:induction false} SumCompare(slots: seq<Slot>, f: Slot -> nat, g: Slot -> nat, h: Slot -> nat)
    requires forall s | s in slots :: f(s) == g(s) + h(s)
    ensures SumBy(slots, f) == SumBy(slots, g) + SumBy(slots, h)
  {
    if slots != [] {
      assert Last(slots) in slots;
      SumCompare(Front(slots), f, g, h);
    }
  }

  /** Tasks that count against the cap. */
  function ActiveOf(u: nat): Slot -> nat {
    (s: Slot) => if s.task.user == u && !Terminal(s.task.status) then 1 else 0
  }

  function RevivedOf(u: nat): Slot -> nat {
    (s: Slot) => if s.task.user == u && s.past.revived then 1 else 0
  }

  function SteadyOf(u: nat): Slot -> nat {
    (s: Slot) => if s.task.user == u && !Terminal(s.task.status) && !s.past.revived then 1 else 0
  }

  function ChargedTo(u: nat): Slot -> nat {
    (s: Slot) => if s.task.user == u then s.past.charged else 0
  }

  function TotalOf(u: nat): Slot -> nat {
    (s: Slot) => if s.task.user == u then s.task.totalTokens else 0
  }

  function CountActive(slots: seq<Slot>, u: nat): nat { SumBy(slots, ActiveOf(u)) }

  // ---- cancelling ----

  /** get_task: other people's tasks are invisible, except to administrators. */
  predicate Visible(t: Task, caller: nat, admin: bool) { admin || t.user == caller }

  /** Whether cancel_task reports success. */
  predicate Cancellable(t: Task, caller: nat, admin: bool) {
    Visible(t, caller, admin) && t.status != Completed && t.status != Failed
  }

  /** A cancel request that nothing interrupts. */
  function CancelTask(t: Task, caller: nat, admin: bool, now: int): Task {
    if Cancellable(t, caller, admin) && t.status != Cancelled
    then t.(status := Cancelled, completedAt := Some(now))
    else t
  }

  // ---- actions ----

  /** What happens to one task: requests about it, and the steps of its runner. */
  datatype Op =
    | CheckCancel(caller: nat, admin: bool)
    | CommitCancel(now: int)
    | AbandonCancel
    | ReportCancelled
    | Admit
    | SetPlanning(now: int)
    | SetRunning
    | Emit(tokens: nat)
    | SumSteps
    | ReadUsage
    | Charge
    | Complete(now: int)
    | Raise
    | ReportFailure
    | Fail(now: int)
    | Kill

  datatype Action =
    | CheckCap(user: nat)
    | CommitCreate(user: nat, requested: Option<int>)
    | AbandonCreate(user: nat)
    | OnTask(t: nat, op: Op)

  /** _set_status with a status that is not terminal: it overwrites whatever was there. */
  function SetGoing(s: Slot, status: Status, runner: Phase): Slot {
    s.(task := s.task.(status := status), runner := runner,
       past := s.past.(revived := s.past.revived || s.task.status == Cancelled))
  }

  /** Tokens charged for a run that has still to complete the task. */
  function InFlight(s: Slot): nat { if s.runner.Charged? then s.runner.tokens else 0 }

  function EndRun(s: Slot, runner: Phase): Slot {
    s.(runner := runner, past := s.past.(lapsed := s.past.lapsed + InFlight(s)))
  }

  /** The effect of an operation on its task. `usage` is the user's counter. */
  function StepSlot(s: Slot, op: Op, usage: nat): Slot {
    match op
    case CheckCancel(caller, admin) =>
      if Cancellable(s.task, caller, admin) && s.task.status != Cancelled
      then s.(cancelling := s.cancelling + 1) else s
    case CommitCancel(now) =>
      if s.cancelling == 0 then s
      else s.(task := s.task.(status := Cancelled, completedAt := Some(now)),
              cancelling := s.cancelling - 1, past := s.past.(revived := false))
    case AbandonCancel => if s.cancelling == 0 then s else s.(cancelling := s.cancelling - 1)
    case ReportCancelled => s.(steps := s.steps + [0])
    case Admit => if s.runner == Idle && !Terminal(s.task.status) then s.(runner := Admitted) else s
    case SetPlanning(now) =>
      if s.runner == Admitted then SetGoing(s.(task := s.task.(startedAt := Some(now))), Planning, Planned) else s
    case SetRunning => if s.runner == Planned then SetGoing(s, Running, Working) else s
    case Emit(tokens) => if s.runner == Working then s.(steps := s.steps + [tokens]) else s
    case SumSteps => if s.runner == Working then s.(runner := Summed(Sum(s.steps), |s.steps|)) else s
    case ReadUsage =>
      if s.runner.Summed? then s.(runner := UsageRead(s.runner.tokens, s.runner.count, usage)) else s
    case Charge =>
      if !s.runner.UsageRead? then s
      else s.(runner := Charged(s.runner.tokens, s.runner.count),
              past := s.past.(charged := s.past.charged + s.runner.tokens))
    case Complete(now) =>
      if !s.runner.Charged? then s
      else s.(task := s.task.(status := Completed, completedAt := Some(now),
                              totalTokens := s.runner.tokens, totalSteps := s.runner.count),
              runner := Idle, past := s.past.(revived := false))
    case Raise =>
      if s.runner in {Idle, Admitted, Failing, Reported} then s else EndRun(s, Failing)
    case ReportFailure => if s.runner == Failing then s.(steps := s.steps + [0], runner := Reported) else s
    case Fail(now) =>
      if s.runner != Reported then s
      else s.(task := s.task.(status := Failed, completedAt := Some(now)), runner := Idle,
              past := s.past.(revived := false))
    case Kill => EndRun(s, Idle)
  }

  /** Charging writes the counter that was read earlier plus the tokens. */
  predicate Charges(s: Slot, op: Op) { op == Charge && s.runner.UsageRead? }

  function StepTask(w: World, t: nat, op: Op): World
    requires t < |w.slots|
  {
    var s := w.slots[t];
    var u := s.task.user;
    var w' := w.(slots := w.slots[t := StepSlot(s, op, Get(w.usage, u))]);
    if !Charges(s, op) then w'
    else w'.(usage := w.usage[u := s.runner.seen + s.runner.tokens],
             lost := w.lost[u := GetInt(w.lost, u) + Get(w.usage, u) - s.runner.seen])
  }

  function Step(w: World, a: Action): World {
    match a
    case CheckCap(u) =>
      if CountActive(w.slots, u) >= MAX_ACTIVE then w
      else
        var pending := w.pending + multiset{u};
        w.(pending := pending, peak := w.peak[u := Max(Get(w.peak, u), pending[u])])
    case CommitCreate(u, requested) =>
      if u !in w.pending then w
      else w.(slots := w.slots + [NewSlot(u, requested)], pending := w.pending - multiset{u})
    case AbandonCreate(u) => w.(pending := w.pending - multiset{u})
    case OnTask(t, op) => if t < |w.slots| then StepTask(w, t, op) else w
  }

  function Run(start: map<nat, nat>, actions: seq<Action>): World {
    if actions == [] then Fresh(start) else Step(Run(start, Front(actions)), Last(actions))
  }

  lemma RunThen(start: map<nat, nat>, front: seq<Action>, a: Action)
    ensures Run(start, front + [a]) == Step(Run(start, front), a)
  {
    assert Front(front + [a]) == front;
  }

  lemma RunMore(start: map<nat, nat>, actions: seq<Action>, more: seq<Action>)
    requires more != []
    ensures Run(start, actions + more) == Step(Run(start, actions + Front(more)), Last(more))
    ensures Front(actions + more) == actions + Front(more) && Last(actions + more) == Last(more)
  {
    assert Front(actions + more) == actions + Front(more);
  }

  // ---- one task ----

  ghost predicate GoodSlot(s: Slot) {
    && GoodStatus(s) && GoodTokens(s)
  }

  ghost predicate GoodStatus(s: Slot) {
    var status := s.task.status;
    && (Terminal(status) <==> s.task.completedAt.Some? && !s.past.revived)
    && (s.past.revived ==> s.task.completedAt.Some?)
    && (status == Completed || status == Failed ==> s.runner == Idle)
  }

  ghost predicate GoodTokens(s: Slot) {
    var status, tokens := s.task.status, s.task.totalTokens;
    && (status == Completed ==> tokens == Sum(s.steps))
    && (status == Failed ==> tokens == 0)
    && (tokens != 0 ==> tokens == Sum(s.steps) && Terminal(status) && s.runner == Idle)
    && (s.runner.Summed? || s.runner.UsageRead? || s.runner.Charged? ==> s.runner.tokens == Sum(s.steps))
    && s.past.charged == tokens + s.past.lapsed + InFlight(s)
  }

  lemma SumOneMore(steps: seq<nat>, tokens: nat)
    ensures Sum(steps + [tokens]) == Sum(steps) + tokens
  {
    assert Front(steps + [tokens]) == steps;
  }

  lemma StepSlotKeepsGood(s: Slot, op: Op, usage: nat)
    requires GoodSlot(s)
    ensures GoodSlot(StepSlot(s, op, usage))
  {
    SumOneMore(s.steps, if op.Emit? then op.tokens else 0);
  }

  lemma NewSlotIsGood(u: nat, requested: Option<int>)
    ensures GoodSlot(NewSlot(u, requested))
  {
  }

  ghost predicate AllGood(w: World) {
    forall i | 0 <= i < |w.slots| :: GoodSlot(w.slots[i])
  }

  lemma StepKeepsGood(w: World, a: Action)
    requires AllGood(w)
    ensures AllGood(Step(w, a)) && |w.slots| <= |Step(w, a).slots|
  {
    hide GoodSlot, StepSlot, NewSlot;
    match a {
      case CommitCreate(u, requested) => NewSlotIsGood(u, requested);
      case OnTask(t, op) =>
        if t < |w.slots| {
          StepSlotKeepsGood(w.slots[t], op, Get(w.usage, w.slots[t].task.user));
        }
      case _ =>
    }
  }

  lemma {:induction false} AlwaysGood(start: map<nat, nat>, actions: seq<Action>)
    ensures AllGood(Run(start, actions))
  {
    if actions != [] {
      AlwaysGood(start, Front(actions));
      StepKeepsGood(Run(start, Front(actions)), Last(actions));
    }
  }

  /** In every reachable state a task is terminal exactly when completed_at is set, unless a live
      runner has set a cancelled task going again. */
  lemma TerminalIffCompletedAt(start: map<nat, nat>, actions: seq<Action>, t: nat)
    requires t < |Run(start, actions).slots|
    ensures var s := Run(start, actions).slots[t];
      && (Terminal(s.task.status) <==> s.task.completedAt.Some? && !s.past.revived)
      && (s.past.revived ==> !Terminal(s.task.status) && s.task.completedAt.Some?)
  {
    AlwaysGood(start, actions);
    assert GoodSlot(Run(start, actions).slots[t]);
  }

  /** The commits of a live runner that overwrite whatever status a task has. */
  predicate Overwrites(s: Slot, op: Op) {
    || (op.SetPlanning? && s.runner == Admitted)
    || (op.SetRunning? && s.runner == Planned)
    || (op.Complete? && s.runner.Charged?)
    || (op.Fail? && s.runner == Reported)
  }

  predicate Revives(s: Slot, op: Op) {
    s.task.status == Cancelled && Overwrites(s, op) && (op.SetPlanning? || op.SetRunning?)
  }

  /** A cancelled task stops being cancelled exactly by such a commit; it becomes active again, or
      leaves a terminal state for an active one at all, exactly by the first two of them. */
  lemma LeavesCancelledIff(s: Slot, op: Op, usage: nat)
    requires GoodSlot(s)
    ensures var s' := StepSlot(s, op, usage);
      && (s.task.status == Cancelled ==> (s'.task.status != Cancelled <==> Overwrites(s, op)))
      && (Terminal(s.task.status) && !Terminal(s'.task.status) <==> Revives(s, op))
      && (!s.past.revived && s'.past.revived <==> Revives(s, op))
  {
  }

  /** The same on every reachable state. */
  lemma RevivedOnlyByRunner(start: map<nat, nat>, actions: seq<Action>, t: nat, op: Op)
    requires t < |Run(start, actions).slots|
    ensures t < |Step(Run(start, actions), OnTask(t, op)).slots|
    ensures var s, s' := Run(start, actions).slots[t], Step(Run(start, actions), OnTask(t, op)).slots[t];
      && (s.task.status == Cancelled ==> (s'.task.status != Cancelled <==> Overwrites(s, op)))
      && (Terminal(s.task.status) && !Terminal(s'.task.status) <==> Revives(s, op))
      && (!s.past.revived && s'.past.revived <==> Revives(s, op))
  {
    hide Run, Step, StepSlot, GoodSlot, Overwrites, Revives;
    AlwaysGood(start, actions);
    TaskAfter(Run(start, actions), t, OnTask(t, op));
    LeavesCancelledIff(Run(start, actions).slots[t], op, Get(Run(start, actions).usage, Run(start, actions).slots[t].task.user));
  }

  /** A cancel request gets past its check exactly for an administrator or the task's owner, and only
      while the task is active; anybody else's leaves no trace. */
  lemma CheckOpensIff(s: Slot, caller: nat, admin: bool, usage: nat)
    ensures var s' := StepSlot(s, CheckCancel(caller, admin), usage);
      var status := s.task.status;
      && (s'.cancelling == s.cancelling + 1 <==>
            && (admin || caller == s.task.user)
            && (status == Submitted || status == Status.Planning || status == Status.Running || status == WaitingForInput))
      && (s'.cancelling != s.cancelling + 1 ==> s' == s)
      && (!admin && s.task.user != caller ==> s' == s)
  {
  }

  /** The cancel requests under way: one more with each that passes its check, one less with each that
      commits or gives up. */
  lemma CancelsCounted(s: Slot, op: Op, usage: nat)
    ensures var opens := op.CheckCancel? && (op.admin || op.caller == s.task.user) && !Terminal(s.task.status);
      var closes := s.cancelling > 0 && (op.CommitCancel? || op.AbandonCancel?);
      StepSlot(s, op, usage).cancelling == s.cancelling + (if opens then 1 else 0) - (if closes then 1 else 0)
  {
  }

  /** The create requests under way, in the same way. */
  lemma CreatesCounted(w: World, a: Action, u: nat)
    ensures var opens := a == CheckCap(u) && CountActive(w.slots, u) < 5;
      var closes := w.pending[u] > 0 && (a == AbandonCreate(u) || (a.CommitCreate? && a.user == u));
      Step(w, a).pending[u] == w.pending[u] + (if opens then 1 else 0) - (if closes then 1 else 0)
  {
    hide CountActive, StepSlot, NewSlot;
  }

  /** An exception is handled only inside the try block, which begins after planning is set: there the
      run goes on to report and to fail. Before, or while handling another, nothing catches it. */
  lemma RaiseIsHandled(s: Slot, usage: nat)
    ensures var s' := StepSlot(s, Raise, usage);
      var inTry := s.runner == Planned || s.runner == Working || s.runner.Summed? || s.runner.UsageRead? || s.runner.Charged?;
      && (s'.runner == Failing <==> inTry || s.runner == Failing)
      && (!inTry ==> s' == s)
      && s'.task == s.task && s'.steps == s.steps
  {
  }

  // ---- when a cancel is final ----

  function OnTasks(t: nat, ops: seq<Op>): (actions: seq<Action>)
    ensures |actions| == |ops| && forall i | 0 <= i < |ops| :: actions[i] == OnTask(t, ops[i])
  {
    seq(|ops|, i requires 0 <= i < |ops| => OnTask(t, ops[i]))
  }

  lemma CancelledStays(s: Slot, op: Op, usage: nat)
    requires s.task.status == Cancelled && s.runner == Idle
    ensures StepSlot(s, op, usage).task.status == Cancelled && StepSlot(s, op, usage).runner == Idle
  {
  }

  lemma IdleCancelStep(w: World, a: Action, t: nat)
    requires t < |w.slots| && w.slots[t].task.status == Cancelled && w.slots[t].runner == Idle
    ensures t < |Step(w, a).slots|
    ensures Step(w, a).slots[t].task.status == Cancelled && Step(w, a).slots[t].runner == Idle
  {
    hide Step, StepSlot;
    TaskAfter(w, t, a);
    if a.OnTask? {
      CancelledStays(w.slots[t], a.op, Get(w.usage, w.slots[t].task.user));
    }
  }

  lemma {:induction false} IdleCancelStays(start: map<nat, nat>, actions: seq<Action>, more: seq<Action>, t: nat)
    requires t < |Run(start, actions).slots|
    requires Run(start, actions).slots[t].task.status == Cancelled && Run(start, actions).slots[t].runner == Idle
    ensures t < |Run(start, actions + more).slots|
    ensures Run(start, actions + more).slots[t].task.status == Cancelled
         && Run(start, actions + more).slots[t].runner == Idle
  {
    if more == [] {
      assert actions + more == actions;
    } else {
      hide Run, Step;
      IdleCancelStays(start, actions, Front(more), t);
      RunMore(start, actions, more);
      IdleCancelStep(Run(start, actions + Front(more)), Last(more), t);
    }
  }

  /** Operations that take a cancelled task out of cancelled, from each phase of a live runner. */
  function Undo(runner: Phase): seq<Op> {
    match runner
    case Admitted => [SetPlanning(0)]
    case Planned => [SetRunning]
    case Failing => [ReportFailure, Fail(0)]
    case Reported => [Fail(0)]
    case _ => [Raise, ReportFailure, Fail(0)]
  }

  lemma UndoSlot(s: Slot, usage: nat)
    requires s.task.status == Cancelled && s.runner != Idle
    ensures var ops := Undo(s.runner);
      var s1 := StepSlot(s, ops[0], usage);
      && (|ops| == 1 ==> s1.task.status != Cancelled)
      && (|ops| == 2 ==> StepSlot(s1, ops[1], usage).task.status != Cancelled)
      && (|ops| == 3 ==> StepSlot(StepSlot(s1, ops[1], usage), ops[2], usage).task.status != Cancelled)
      && 1 <= |ops| <= 3
      && forall k | 0 <= k < |ops| :: ops[k] != Charge
  {
  }

  /** The task at t after operations on it that charge nothing. */
  lemma QuietStep(start: map<nat, nat>, actions: seq<Action>, t: nat, op: Op)
    requires t < |Run(start, actions).slots| && op != Charge
    ensures var w, w' := Run(start, actions), Run(start, actions + [OnTask(t, op)]);
      && t < |w'.slots| && w'.usage == w.usage
      && w'.slots[t] == StepSlot(w.slots[t], op, Get(w.usage, w.slots[t].task.user))
      && w'.slots[t].task.user == w.slots[t].task.user
  {
    RunThen(start, actions, OnTask(t, op));
    KeepsUser(Run(start, actions).slots[t], op, Get(Run(start, actions).usage, Run(start, actions).slots[t].task.user));
    hide Run, StepSlot;
  }

  lemma KeepsUser(s: Slot, op: Op, usage: nat)
    ensures StepSlot(s, op, usage).task.user == s.task.user
  {
  }

  lemma LiveCancelCanBeUndone(start: map<nat, nat>, actions: seq<Action>, t: nat) returns (more: seq<Action>)
    requires t < |Run(start, actions).slots|
    requires Run(start, actions).slots[t].task.status == Cancelled && Run(start, actions).slots[t].runner != Idle
    ensures t < |Run(start, actions + more).slots|
    ensures Run(start, actions + more).slots[t].task.status != Cancelled
  {
    hide Run, Step, StepSlot, Undo;
    var s := Run(start, actions).slots[t];
    var ops := Undo(s.runner);
    UndoSlot(s, Get(Run(start, actions).usage, s.task.user));
    QuietStep(start, actions, t, ops[0]);
    more := [OnTask(t, ops[0])];
    if |ops| > 1 {
      QuietStep(start, actions + more, t, ops[1]);
      more := more + [OnTask(t, ops[1])];
      assert actions + more == actions + [OnTask(t, ops[0])] + [OnTask(t, ops[1])];
    }
    if |ops| > 2 {
      var two := actions + more;
      QuietStep(start, two, t, ops[2]);
      more := more + [OnTask(t, ops[2])];
      assert actions + more == two + [OnTask(t, ops[2])];
    }
  }

  ghost predicate CancelledAfter(start: map<nat, nat>, actions: seq<Action>, t: nat) {
    t < |Run(start, actions).slots| && Run(start, actions).slots[t].task.status == Cancelled
  }

  /** A cancel is final - the task is cancelled in every continuation - if and only if no runner is
      live on the task. */
  lemma CancelIsFinalIff(start: map<nat, nat>, actions: seq<Action>, t: nat)
    requires CancelledAfter(start, actions, t)
    ensures (forall more :: CancelledAfter(start, actions + more, t)) <==> Run(start, actions).slots[t].runner == Idle
  {
    hide Run;
    if Run(start, actions).slots[t].runner == Idle {
      forall more ensures CancelledAfter(start, actions + more, t) {
        IdleCancelStays(start, actions, more, t);
      }
    } else {
      var more := LiveCancelCanBeUndone(start, actions, t);
      assert !CancelledAfter(start, actions + more, t);
    }
  }

  /** A cancel request is refused exactly for invisible, completed and failed tasks; accepted, it
      leaves the task cancelled, and repeating it changes nothing. Check and commit with nothing in
      between have this effect. */
  lemma CancelMeaning(s: Slot, caller: nat, admin: bool, now: int, later: int, usage: nat)
    requires s.cancelling == 0
    ensures var t, t' := s.task, CancelTask(s.task, caller, admin, now);
      && (Cancellable(t, caller, admin) ==> t'.status == Cancelled)
      && (!Cancellable(t, caller, admin) ==> t' == t)
      && Cancellable(t, caller, admin) == Cancellable(t', caller, admin)
      && CancelTask(t', caller, admin, later) == t'
      && (t.status == Cancelled ==> t' == t)
      && StepSlot(StepSlot(s, CheckCancel(caller, admin), usage), CommitCancel(now), usage).task == t'
  {
  }

  /** The task after any action: untouched, or changed by an operation on it. */
  lemma TaskAfter(w: World, t: nat, a: Action)
    requires t < |w.slots|
    ensures t < |Step(w, a).slots|
    ensures Step(w, a).slots[t] == if a.OnTask? && a.t == t
              then StepSlot(w.slots[t], a.op, Get(w.usage, w.slots[t].task.user)) else w.slots[t]
  {
    hide StepSlot;
  }

  /** A commit of a cancel request that was checked before. */
  predicate StaleCancel(s: Slot, op: Op) { op.CommitCancel? && s.cancelling > 0 }

  lemma SlotEndings(s: Slot, op: Op, usage: nat)
    requires GoodSlot(s)
    ensures var s' := StepSlot(s, op, usage);
      && (s.task.status == Completed || s.task.status == Failed ==>
            if StaleCancel(s, op) then s'.task.status == Cancelled else s'.task == s.task)
      && (s.runner != Idle && op != Kill && s'.runner == Idle ==>
            s'.task.status == Completed || s'.task.status == Failed)
  {
  }

  /** Completed and failed are left exactly by the commit of a cancel request that had read the task
      before it got there, and then for cancelled. */
  lemma FinalStates(start: map<nat, nat>, actions: seq<Action>, t: nat, a: Action)
    requires t < |Run(start, actions).slots|
    ensures t < |Step(Run(start, actions), a).slots|
    ensures var s, s' := Run(start, actions).slots[t], Step(Run(start, actions), a).slots[t];
      s.task.status == Completed || s.task.status == Failed ==>
        if a.OnTask? && a.t == t && StaleCancel(s, a.op) then s'.task.status == Cancelled else s'.task == s.task
  {
    hide Run, Step, StepSlot, GoodSlot;
    AlwaysGood(start, actions);
    TaskAfter(Run(start, actions), t, a);
    if a.OnTask? && a.t == t {
      SlotEndings(Run(start, actions).slots[t], a.op, Get(Run(start, actions).usage, Run(start, actions).slots[t].task.user));
    }
  }

  lemma SettledSlot(s: Slot, op: Op, usage: nat)
    requires GoodSlot(s) && (s.task.status == Completed || s.task.status == Failed) && s.cancelling == 0
    ensures StepSlot(s, op, usage).task == s.task && StepSlot(s, op, usage).cancelling == 0
  {
  }

  lemma {:induction false} SettledStays(start: map<nat, nat>, actions: seq<Action>, more: seq<Action>, t: nat)
    requires t < |Run(start, actions).slots| && Run(start, actions).slots[t].cancelling == 0
    requires var status := Run(start, actions).slots[t].task.status; status == Completed || status == Failed
    ensures t < |Run(start, actions + more).slots| && Run(start, actions + more).slots[t].cancelling == 0
    ensures Run(start, actions + more).slots[t].task == Run(start, actions).slots[t].task
  {
    if more == [] {
      assert actions + more == actions;
    } else {
      hide Run, Step, StepSlot, GoodSlot;
      SettledStays(start, actions, Front(more), t);
      RunMore(start, actions, more);
      AlwaysGood(start, actions + Front(more));
      var w := Run(start, actions + Front(more));
      TaskAfter(w, t, Last(more));
      if Last(more).OnTask? {
        SettledSlot(w.slots[t], Last(more).op, Get(w.usage, w.slots[t].task.user));
      }
    }
  }

  /** After these actions the task at t is this one. */
  ghost predicate TaskIs(start: map<nat, nat>, actions: seq<Action>, t: nat, task: Task) {
    t < |Run(start, actions).slots| && Run(start, actions).slots[t].task == task
  }

  lemma StaleCancelTakes(start: map<nat, nat>, actions: seq<Action>, t: nat)
    requires t < |Run(start, actions).slots| && Run(start, actions).slots[t].cancelling > 0
    ensures CancelledAfter(start, actions + [OnTask(t, CommitCancel(0))], t)
  {
    QuietStep(start, actions, t, CommitCancel(0));
    hide Run;
  }

  /** A completed or failed task is the same in every continuation if and only if no cancel request
      that has read it is still to commit. */
  lemma FinishedIsFinalIff(start: map<nat, nat>, actions: seq<Action>, t: nat)
    requires t < |Run(start, actions).slots|
    requires var status := Run(start, actions).slots[t].task.status; status == Completed || status == Failed
    ensures (forall more :: TaskIs(start, actions + more, t, Run(start, actions).slots[t].task))
       <==> Run(start, actions).slots[t].cancelling == 0
  {
    hide Run;
    var s := Run(start, actions).slots[t];
    if s.cancelling == 0 {
      forall more ensures TaskIs(start, actions + more, t, s.task) {
        SettledStays(start, actions, more, t);
      }
    } else {
      StaleCancelTakes(start, actions, t);
      assert !TaskIs(start, actions + [OnTask(t, CommitCancel(0))], t, s.task);
    }
  }

  /** What atomic cancel requests let follow a check. */
  predicate ClosesCancel(a: Action, b: Action) {
    a.OnTask? && a.op.CheckCancel? ==> b.OnTask? && b.t == a.t && (b.op.CommitCancel? || b.op == AbandonCancel)
  }

  /** Cancel requests are atomic: nothing comes between check and commit, unless there is no commit. */
  predicate CancelsAtomic(actions: seq<Action>) {
    forall i | 0 <= i < |actions| - 1 :: ClosesCancel(actions[i], actions[i + 1])
  }

  /** Only the action just taken can have left a cancel request open, on a task still cancellable. */
  ghost predicate OpenCancel(actions: seq<Action>, w: World, t: nat)
    requires t < |w.slots|
  {
    w.slots[t].cancelling > 0 ==>
      && w.slots[t].cancelling == 1 && actions != []
      && Last(actions).OnTask? && Last(actions).t == t && Last(actions).op.CheckCancel?
      && w.slots[t].task.status != Completed && w.slots[t].task.status != Failed
  }

  lemma OpenSlot(s: Slot, op: Op, usage: nat)
    requires s.cancelling > 0 ==> s.cancelling == 1 && (op.CommitCancel? || op == AbandonCancel)
    ensures StepSlot(s, op, usage).cancelling > 0 ==>
              op.CheckCancel? && StepSlot(s, op, usage).cancelling == 1
              && s.task.status != Completed && s.task.status != Failed && StepSlot(s, op, usage).task == s.task
  {
  }

  lemma OpenStep(front: seq<Action>, a: Action, w: World)
    requires forall t | 0 <= t < |w.slots| :: OpenCancel(front, w, t)
    requires front != [] ==> ClosesCancel(Last(front), a)
    ensures forall t | 0 <= t < |Step(w, a).slots| :: OpenCancel(front + [a], Step(w, a), t)
  {
    hide StepSlot, Step;
    forall t | 0 <= t < |Step(w, a).slots| ensures OpenCancel(front + [a], Step(w, a), t) {
      if t < |w.slots| {
        assert OpenCancel(front, w, t);
        TaskAfter(w, t, a);
        if a.OnTask? && a.t == t {
          OpenSlot(w.slots[t], a.op, Get(w.usage, w.slots[t].task.user));
        }
      } else {
        NewestSlot(w, a, t);
      }
    }
  }

  lemma NewestSlot(w: World, a: Action, t: nat)
    requires |w.slots| <= t < |Step(w, a).slots|
    ensures a.CommitCreate? && Step(w, a).slots[t] == NewSlot(a.user, a.requested)
    ensures Step(w, a).slots[t].cancelling == 0
  {
    hide StepSlot;
  }

  lemma AtomicCancelFront(actions: seq<Action>)
    requires CancelsAtomic(actions) && actions != []
    ensures CancelsAtomic(Front(actions))
    ensures Front(actions) != [] ==> ClosesCancel(Last(Front(actions)), Last(actions))
  {
    var n := |actions| - 1;
    forall i | 0 <= i < n - 1 ensures ClosesCancel(Front(actions)[i], Front(actions)[i + 1]) {
      assert ClosesCancel(actions[i], actions[i + 1]);
    }
    if n > 0 {
      assert ClosesCancel(actions[n - 1], actions[n - 1 + 1]);
    }
  }

  lemma {:induction false} AlwaysOpen(start: map<nat, nat>, actions: seq<Action>)
    requires CancelsAtomic(actions)
    ensures forall t | 0 <= t < |Run(start, actions).slots| :: OpenCancel(actions, Run(start, actions), t)
  {
    if actions != [] {
      hide Step, CancelsAtomic, OpenCancel, ClosesCancel;
      AtomicCancelFront(actions);
      AlwaysOpen(start, Front(actions));
      OpenStep(Front(actions), Last(actions), Run(start, Front(actions)));
      assert Front(actions) + [Last(actions)] == actions;
    }
  }

  /** With atomic cancel requests a completed or failed task never changes again. */
  lemma {:induction false} AtomicFinality(start: map<nat, nat>, actions: seq<Action>, more: seq<Action>, t: nat)
    requires CancelsAtomic(actions + more) && t < |Run(start, actions).slots|
    requires var status := Run(start, actions).slots[t].task.status; status == Completed || status == Failed
    ensures t < |Run(start, actions + more).slots|
    ensures Run(start, actions + more).slots[t].task == Run(start, actions).slots[t].task
  {
    if more == [] {
      assert actions + more == actions;
    } else {
      hide Run, Step, CancelsAtomic;
      var before := actions + Front(more);
      RunMore(start, actions, more);
      AtomicCancelFront(actions + more);
      AtomicFinality(start, actions, Front(more), t);
      AlwaysOpen(start, before);
      assert OpenCancel(before, Run(start, before), t);
      FinalStates(start, before, t, Last(more));
    }
  }

  /** A run that is not killed ends completed or failed, even if the task was cancelled meanwhile. */
  lemma RunsEndTerminal(start: map<nat, nat>, actions: seq<Action>, t: nat, a: Action)
    requires t < |Run(start, actions).slots| && Run(start, actions).slots[t].runner != Idle
    requires a != OnTask(t, Kill)
    ensures t < |Step(Run(start, actions), a).slots|
    ensures var s' := Step(Run(start, actions), a).slots[t];
      s'.runner == Idle ==> s'.task.status == Completed || s'.task.status == Failed
  {
    hide Step, StepSlot, GoodSlot;
    AlwaysGood(start, actions);
    TaskAfter(Run(start, actions), t, a);
    if a.OnTask? && a.t == t {
      SlotEndings(Run(start, actions).slots[t], a.op, Get(Run(start, actions).usage, Run(start, actions).slots[t].task.user));
    }
  }

  /** A task's total is zero or the sum of all its persisted steps, those of earlier crashed attempts
      included; the latter if it is completed, the former while it is active or if it failed. */
  lemma CompletedTotal(start: map<nat, nat>, actions: seq<Action>, t: nat)
    requires t < |Run(start, actions).slots|
    ensures var s := Run(start, actions).slots[t];
      && (s.task.totalTokens == 0 || s.task.totalTokens == Sum(s.steps))
      && (s.task.status == Completed ==> s.task.totalTokens == Sum(s.steps))
      && (!Terminal(s.task.status) || s.task.status == Failed ==> s.task.totalTokens == 0)
  {
    AlwaysGood(start, actions);
    assert GoodSlot(Run(start, actions).slots[t]);
  }

  // ---- the concurrency cap ----

  ghost predicate Capped(w: World, u: nat) {
    && w.pending[u] <= Get(w.peak, u)
    && SumBy(w.slots, SteadyOf(u)) + w.pending[u] <= MAX_ACTIVE - 1 + Get(w.peak, u)
  }

  lemma SteadyOnlyShrinks(s: Slot, op: Op, usage: nat, u: nat)
    requires GoodSlot(s)
    ensures SteadyOf(u)(StepSlot(s, op, usage)) <= SteadyOf(u)(s)
  {
  }

  lemma ActiveSplits(w: World, u: nat)
    requires AllGood(w)
    ensures CountActive(w.slots, u) == SumBy(w.slots, SteadyOf(u)) + SumBy(w.slots, RevivedOf(u))
  {
    forall s | s in w.slots ensures ActiveOf(u)(s) == SteadyOf(u)(s) + RevivedOf(u)(s) {
      assert GoodSlot(s);
    }
    SumCompare(w.slots, ActiveOf(u), SteadyOf(u), RevivedOf(u));
  }

  lemma StepKeepsCapped(w: World, a: Action, u: nat)
    requires AllGood(w) && Capped(w, u)
    ensures Capped(Step(w, a), u)
  {
    hide GoodSlot, StepSlot, StepTask;
    match a {
      case CheckCap(_) => ActiveSplits(w, u);
      case CommitCreate(v, requested) => SumAppend(w.slots, NewSlot(v, requested), SteadyOf(u));
      case AbandonCreate(_) =>
      case OnTask(t, op) =>
        if t < |w.slots| {
          OnTaskKeepsCapped(w, t, op, u);
        }
    }
  }

  lemma OnTaskKeepsCapped(w: World, t: nat, op: Op, u: nat)
    requires t < |w.slots| && GoodSlot(w.slots[t]) && Capped(w, u)
    ensures Capped(StepTask(w, t, op), u)
  {
    hide GoodSlot, StepSlot, SumBy;
    var usage := Get(w.usage, w.slots[t].task.user);
    SteadyOnlyShrinks(w.slots[t], op, usage, u);
    SumUpdate(w.slots, t, StepSlot(w.slots[t], op, usage), SteadyOf(u));
  }

  lemma {:induction false} AlwaysCapped(start: map<nat, nat>, actions: seq<Action>, u: nat)
    ensures Capped(Run(start, actions), u)
  {
    if actions != [] {
      AlwaysCapped(start, Front(actions), u);
      AlwaysGood(start, Front(actions));
      StepKeepsCapped(Run(start, Front(actions)), Last(actions), u);
    }
  }

  /** A user's active tasks never exceed four, plus the most create requests of the user that were
      ever between check and commit at once, plus the cancelled tasks a live runner revived. */
  lemma ActiveTasksBounded(start: map<nat, nat>, actions: seq<Action>, u: nat)
    ensures var w := Run(start, actions);
      CountActive(w.slots, u) <= 4 + Get(w.peak, u) + SumBy(w.slots, RevivedOf(u))
  {
    AlwaysCapped(start, actions, u);
    AlwaysGood(start, actions);
    ActiveSplits(Run(start, actions), u);
  }

  /** No create request of the user is checked while another one is pending. */
  ghost predicate CreatesAtomic(start: map<nat, nat>, actions: seq<Action>, u: nat) {
    forall i | 0 <= i < |actions| && actions[i] == CheckCap(u) :: Run(start, actions[..i]).pending[u] == 0
  }

  lemma PeakStep(w: World, a: Action, u: nat)
    requires a == CheckCap(u) ==> w.pending[u] == 0
    ensures Get(Step(w, a).peak, u) <= Max(1, Get(w.peak, u))
  {
    hide StepTask, NewSlot, SumBy;
    if a.OnTask? && a.t < |w.slots| {
      PeakOnTask(w, a.t, a.op);
    }
  }

  lemma PeakOnTask(w: World, t: nat, op: Op)
    requires t < |w.slots|
    ensures StepTask(w, t, op).peak == w.peak
  {
    hide StepSlot;
  }

  lemma {:induction false} AtomicPeak(start: map<nat, nat>, actions: seq<Action>, u: nat)
    requires CreatesAtomic(start, actions, u)
    ensures Get(Run(start, actions).peak, u) <= 1
  {
    if actions != [] {
      hide Step;
      var front := Front(actions);
      forall i | 0 <= i < |front| && front[i] == CheckCap(u) ensures Run(start, front[..i]).pending[u] == 0 {
        assert front[..i] == actions[..i] && actions[i] == CheckCap(u);
      }
      AtomicPeak(start, front, u);
      assert actions[..|front|] == front;
      PeakStep(Run(start, front), Last(actions), u);
    } else {
      assert Run(start, actions) == Fresh(start);
    }
  }

  /** With create requests one at a time the cap is five. */
  lemma FiveActiveTasks(start: map<nat, nat>, actions: seq<Action>, u: nat)
    requires CreatesAtomic(start, actions, u)
    ensures CountActive(Run(start, actions).slots, u) <= 5 + SumBy(Run(start, actions).slots, RevivedOf(u))
  {
    AtomicPeak(start, actions, u);
    ActiveTasksBounded(start, actions, u);
  }

  // ---- runs in which no cancel meets a runner that is starting ----

  /** The action does not commit a cancel on a task whose runner has looked at it and is still to set
      it running. */
  predicate SparesStart(w: World, a: Action) {
    a.OnTask? && a.t < |w.slots| && StaleCancel(w.slots[a.t], a.op) ==>
      w.slots[a.t].runner != Admitted && w.slots[a.t].runner != Planned
  }

  ghost predicate CancelsSpareStart(start: map<nat, nat>, actions: seq<Action>) {
    forall i | 0 <= i < |actions| :: SparesStart(Run(start, actions[..i]), actions[i])
  }

  predicate Unrevived(s: Slot) {
    !s.past.revived && (s.task.status == Cancelled ==> s.runner != Admitted && s.runner != Planned)
  }

  lemma UnrevivedSlot(s: Slot, op: Op, usage: nat)
    requires GoodSlot(s) && Unrevived(s)
    requires StaleCancel(s, op) ==> s.runner != Admitted && s.runner != Planned
    ensures Unrevived(StepSlot(s, op, usage))
  {
  }

  lemma UnrevivedStep(w: World, a: Action)
    requires AllGood(w) && SparesStart(w, a)
    requires forall t | 0 <= t < |w.slots| :: Unrevived(w.slots[t])
    ensures forall t | 0 <= t < |Step(w, a).slots| :: Unrevived(Step(w, a).slots[t])
  {
    hide Step, StepSlot, GoodSlot, Unrevived;
    forall t | 0 <= t < |Step(w, a).slots| ensures Unrevived(Step(w, a).slots[t]) {
      if t < |w.slots| {
        TaskAfter(w, t, a);
        if a.OnTask? && a.t == t {
          UnrevivedSlot(w.slots[t], a.op, Get(w.usage, w.slots[t].task.user));
        }
      } else {
        NewestSlot(w, a, t);
        NewIsUnrevived(a.user, a.requested);
      }
    }
  }

  lemma NewIsUnrevived(u: nat, requested: Option<int>)
    ensures Unrevived(NewSlot(u, requested))
  {
  }

  lemma {:induction false} AlwaysUnrevived(start: map<nat, nat>, actions: seq<Action>)
    requires CancelsSpareStart(start, actions)
    ensures forall t | 0 <= t < |Run(start, actions).slots| :: Unrevived(Run(start, actions).slots[t])
  {
    if actions != [] {
      hide Step, SparesStart, Unrevived;
      var front := Front(actions);
      forall i | 0 <= i < |front| ensures SparesStart(Run(start, front[..i]), front[i]) {
        assert front[..i] == actions[..i] && SparesStart(Run(start, actions[..i]), actions[i]);
      }
      AlwaysUnrevived(start, front);
      AlwaysGood(start, front);
      assert actions[..|actions| - 1] == front;
      UnrevivedStep(Run(start, front), Last(actions));
    }
  }

  /** If no cancel commits while a runner is starting - it may while the graph is executed, before and
      after - then terminal is exactly completed_at set, and with create requests one at a time a user
      never has more than five active tasks. */
  lemma OrderlyRuns(start: map<nat, nat>, actions: seq<Action>, u: nat)
    requires CancelsSpareStart(start, actions)
    ensures forall s | s in Run(start, actions).slots :: Terminal(s.task.status) <==> s.task.completedAt.Some?
    ensures CreatesAtomic(start, actions, u) ==> CountActive(Run(start, actions).slots, u) <= 5
  {
    AlwaysUnrevived(start, actions);
    AlwaysGood(start, actions);
    var slots := Run(start, actions).slots;
    forall s | s in slots ensures Unrevived(s) && (Terminal(s.task.status) <==> s.task.completedAt.Some?) {
      var t :| 0 <= t < |slots| && slots[t] == s;
      assert GoodSlot(slots[t]);
    }
    if CreatesAtomic(start, actions, u) {
      hide Run, CreatesAtomic;
      FiveActiveTasks(start, actions, u);
      NoneRevived(slots, u);
    }
  }

  lemma {:induction false} NoneRevived(slots: seq<Slot>, u: nat)
    requires forall s | s in slots :: Unrevived(s)
    ensures SumBy(slots, RevivedOf(u)) == 0
  {
    if slots != [] {
      NoneRevived(Front(slots), u);
      assert Last(slots) in slots;
    }
  }

  // ---- accounting ----

  ghost predicate Accounted(start: map<nat, nat>, w: World, u: nat) {
    Get(w.usage, u) + GetInt(w.lost, u) == Get(start, u) + SumBy(w.slots, ChargedTo(u))
  }

  lemma ChargedBy(s: Slot, op: Op, usage: nat, u: nat)
    ensures ChargedTo(u)(StepSlot(s, op, usage))
         == ChargedTo(u)(s) + (if Charges(s, op) && s.task.user == u then s.runner.tokens else 0)
  {
  }

  lemma StepKeepsAccounted(start: map<nat, nat>, w: World, a: Action, u: nat)
    requires Accounted(start, w, u)
    ensures Accounted(start, Step(w, a), u)
  {
    hide StepSlot;
    match a {
      case CommitCreate(v, requested) => SumAppend(w.slots, NewSlot(v, requested), ChargedTo(u));
      case OnTask(t, op) =>
        if t < |w.slots| {
          var usage := Get(w.usage, w.slots[t].task.user);
          ChargedBy(w.slots[t], op, usage, u);
          SumUpdate(w.slots, t, StepSlot(w.slots[t], op, usage), ChargedTo(u));
        }
      case _ =>
    }
  }

  /** In every reachable state the counter is its start plus what was charged, less what stale writes took off. */
  lemma {:induction false} AlwaysAccounted(start: map<nat, nat>, actions: seq<Action>, u: nat)
    ensures Accounted(start, Run(start, actions), u)
  {
    if actions != [] {
      AlwaysAccounted(start, Front(actions), u);
      StepKeepsAccounted(start, Run(start, Front(actions)), Last(actions), u);
    }
  }

  /** A charge moves the loss if and only if the counter changed since it was read. */
  lemma LossIffStale(w: World, t: nat)
    requires t < |w.slots| && Charges(w.slots[t], Charge)
    ensures var u := w.slots[t].task.user;
      GetInt(Step(w, OnTask(t, Charge)).lost, u) == GetInt(w.lost, u) <==> Get(w.usage, u) == w.slots[t].runner.seen
  {
  }

  function LapsedOf(u: nat): Slot -> nat {
    (s: Slot) => if s.task.user == u then s.past.lapsed + InFlight(s) else 0
  }

  /** Tokens are charged exactly once: in every reachable state the user's counter, plus what stale
      writes took off it, is its start plus the sum of total_tokens over the user's tasks, plus what was charged
      by runs that ended, or still are, between their two final commits. */
  lemma ChargedExactlyOnce(start: map<nat, nat>, actions: seq<Action>, u: nat)
    ensures var w := Run(start, actions);
      Get(w.usage, u) + GetInt(w.lost, u)
        == Get(start, u) + SumBy(w.slots, TotalOf(u)) + SumBy(w.slots, LapsedOf(u))
  {
    AlwaysAccounted(start, actions, u);
    AlwaysGood(start, actions);
    var slots := Run(start, actions).slots;
    forall s | s in slots ensures ChargedTo(u)(s) == TotalOf(u)(s) + LapsedOf(u)(s) {
      assert GoodSlot(s);
    }
    SumCompare(slots, ChargedTo(u), TotalOf(u), LapsedOf(u));
  }

  lemma {:induction false} NothingLapsed(slots: seq<Slot>, u: nat)
    requires forall s | s in slots :: s.task.user == u ==> s.past.lapsed == 0 && !s.runner.Charged?
    ensures SumBy(slots, LapsedOf(u)) == 0
  {
    if slots != [] {
      NothingLapsed(Front(slots), u);
      assert Last(slots) in slots;
    }
  }

  /** Without a crash between the two final commits, and between runs, the counter is its start
      plus the sum of the totals if and only if stale writes took nothing off it. */
  lemma CounterIsSumOfTotals(start: map<nat, nat>, actions: seq<Action>, u: nat)
    requires forall s | s in Run(start, actions).slots ::
               s.task.user == u ==> s.past.lapsed == 0 && !s.runner.Charged?
    ensures Get(Run(start, actions).usage, u) == Get(start, u) + SumBy(Run(start, actions).slots, TotalOf(u))
       <==> GetInt(Run(start, actions).lost, u) == 0
  {
    ChargedExactlyOnce(start, actions, u);
    NothingLapsed(Run(start, actions).slots, u);
  }

  // ---- runs in which the counter is exactly the sum ----

  /** What an atomic record_usage lets follow a read of the counter. */
  predicate Follows(a: Action, b: Action) {
    a.OnTask? && a.op == ReadUsage ==>
      b.OnTask? && b.t == a.t && (b.op == Charge || b.op == Kill || b.op == Raise)
  }

  /** record_usage is atomic: between its read and its write nothing else happens, except that the
      write may not come at all. */
  predicate UsageAtomic(actions: seq<Action>) {
    forall i | 0 <= i < |actions| - 1 :: Follows(actions[i], actions[i + 1])
  }

  /** Only the action just taken can have left a read counter behind, and it is not stale. */
  ghost predicate ReadsFresh(actions: seq<Action>, w: World) {
    forall t | 0 <= t < |w.slots| && w.slots[t].runner.UsageRead? ::
      && actions != [] && Last(actions) == OnTask(t, ReadUsage)
      && w.slots[t].runner.seen == Get(w.usage, w.slots[t].task.user)
  }

  lemma ReadPhase(s: Slot, op: Op, usage: nat)
    ensures var s' := StepSlot(s, op, usage);
      && s'.task.user == s.task.user
      && (s'.runner.UsageRead? && !s.runner.UsageRead? ==> op == ReadUsage && s'.runner.seen == usage)
      && (s.runner.UsageRead? && (op == Charge || op == Kill || op == Raise) ==> !s'.runner.UsageRead?)
  {
  }

  lemma AtomicFront(actions: seq<Action>)
    requires UsageAtomic(actions) && actions != []
    ensures UsageAtomic(Front(actions))
    ensures Front(actions) != [] ==> Follows(Last(Front(actions)), Last(actions))
  {
    var n := |actions| - 1;
    forall i | 0 <= i < n - 1 ensures Follows(Front(actions)[i], Front(actions)[i + 1]) {
      assert Follows(actions[i], actions[i + 1]);
    }
    if n > 0 {
      assert Follows(actions[n - 1], actions[n - 1 + 1]);
    }
  }

  lemma {:induction false} AtomicNeverStale(start: map<nat, nat>, actions: seq<Action>, u: nat)
    requires UsageAtomic(actions)
    ensures ReadsFresh(actions, Run(start, actions)) && GetInt(Run(start, actions).lost, u) == 0
  {
    if actions != [] {
      hide Step, UsageAtomic, ReadsFresh, Follows;
      var front, a := Front(actions), Last(actions);
      AtomicFront(actions);
      AtomicNeverStale(start, front, u);
      FreshStep(front, a, Run(start, front), u);
      assert front + [a] == actions;
    }
  }

  lemma FreshStep(front: seq<Action>, a: Action, w: World, u: nat)
    requires ReadsFresh(front, w) && GetInt(w.lost, u) == 0
    requires front != [] ==> Follows(Last(front), a)
    ensures ReadsFresh(front + [a], Step(w, a)) && GetInt(Step(w, a).lost, u) == 0
  {
    if a.OnTask? && a.t < |w.slots| {
      hide StepSlot, Follows;
      var before, usage := w.slots[a.t], Get(w.usage, w.slots[a.t].task.user);
      ReadPhase(before, a.op, usage);
      if before.runner.UsageRead? {
        FollowsRead(front, a);
      }
    } else if a.CommitCreate? {
      hide NewSlot;
      NewSlotIdle(a.user, a.requested);
    }
  }

  lemma FollowsRead(front: seq<Action>, a: Action)
    requires a.OnTask? && front != [] && Last(front) == OnTask(a.t, ReadUsage) && Follows(Last(front), a)
    ensures a.op == Charge || a.op == Kill || a.op == Raise
  {
  }

  lemma NewSlotIdle(u: nat, requested: Option<int>)
    ensures NewSlot(u, requested).runner == Idle
  {
  }

  // ---- what crashes cost ----

  /** What is lost by an operation that ends a run between its two final commits. */
  function CrashCost(s: Slot, op: Op): nat { if op == Kill || op == Raise then InFlight(s) else 0 }

  /** Tokens of runs of u that were killed, or raised, after charging and before completing. */
  function CrashTokens(start: map<nat, nat>, actions: seq<Action>, u: nat): nat {
    if actions == [] then 0
    else
      var w, a := Run(start, Front(actions)), Last(actions);
      CrashTokens(start, Front(actions), u)
      + (if a.OnTask? && a.t < |w.slots| && w.slots[a.t].task.user == u then CrashCost(w.slots[a.t], a.op) else 0)
  }

  function LapsedIn(u: nat): Slot -> nat {
    (s: Slot) => if s.task.user == u then s.past.lapsed else 0
  }

  lemma LapseStep(s: Slot, op: Op, usage: nat)
    ensures StepSlot(s, op, usage).past.lapsed == s.past.lapsed + CrashCost(s, op)
    ensures StepSlot(s, op, usage).task.user == s.task.user
  {
  }

  lemma NewLapsed(v: nat, requested: Option<int>, u: nat)
    ensures LapsedIn(u)(NewSlot(v, requested)) == 0
  {
  }

  lemma WorldLapse(w: World, a: Action, u: nat)
    ensures SumBy(Step(w, a).slots, LapsedIn(u)) == SumBy(w.slots, LapsedIn(u))
         + (if a.OnTask? && a.t < |w.slots| && w.slots[a.t].task.user == u then CrashCost(w.slots[a.t], a.op) else 0)
  {
    hide StepSlot, NewSlot, CrashCost;
    if a.OnTask? && a.t < |w.slots| {
      var usage := Get(w.usage, w.slots[a.t].task.user);
      LapseStep(w.slots[a.t], a.op, usage);
      SumUpdate(w.slots, a.t, StepSlot(w.slots[a.t], a.op, usage), LapsedIn(u));
    } else if a.CommitCreate? {
      NewLapsed(a.user, a.requested, u);
      SumAppend(w.slots, NewSlot(a.user, a.requested), LapsedIn(u));
    }
  }

  lemma {:induction false} LapsedIsCrashed(start: map<nat, nat>, actions: seq<Action>, u: nat)
    ensures SumBy(Run(start, actions).slots, LapsedIn(u)) == CrashTokens(start, actions, u)
  {
    if actions != [] {
      hide Step, CrashCost;
      LapsedIsCrashed(start, Front(actions), u);
      WorldLapse(Run(start, Front(actions)), Last(actions), u);
    } else {
      assert Run(start, actions) == Fresh(start);
    }
  }

  lemma {:induction false} NoneInFlight(slots: seq<Slot>, u: nat)
    requires forall s | s in slots :: s.task.user == u ==> !s.runner.Charged?
    ensures SumBy(slots, LapsedOf(u)) == SumBy(slots, LapsedIn(u))
  {
    if slots != [] {
      NoneInFlight(Front(slots), u);
      assert Last(slots) in slots;
    }
  }

  /** Whenever no run of the user is between its two final commits, the counter is its start plus the
      sum of total_tokens, plus what crashes between these commits cost, less what stale writes took
      off it; so it is the start plus the sum if and only if crashes cost what stale writes took. */
  lemma CounterExplained(start: map<nat, nat>, actions: seq<Action>, u: nat)
    requires forall s | s in Run(start, actions).slots :: s.task.user == u ==> !s.runner.Charged?
    ensures var w, crashed := Run(start, actions), CrashTokens(start, actions, u);
      var sum := Get(start, u) + SumBy(w.slots, TotalOf(u));
      && Get(w.usage, u) + GetInt(w.lost, u) == sum + crashed
      && (Get(w.usage, u) == sum <==> GetInt(w.lost, u) == crashed)
  {
    ChargedExactlyOnce(start, actions, u);
    LapsedIsCrashed(start, actions, u);
    NoneInFlight(Run(start, actions).slots, u);
    hide Run, CrashTokens;
  }

  /** With record_usage atomic, and no run of the user between its two final commits, the counter is
      too high by exactly the tokens of the runs that crashed between them; so it is its start plus
      the sum of total_tokens if and only if no such run had tokens. */
  lemma CounterExact(start: map<nat, nat>, actions: seq<Action>, u: nat)
    requires UsageAtomic(actions)
    requires forall s | s in Run(start, actions).slots :: s.task.user == u ==> !s.runner.Charged?
    ensures var w, crashed := Run(start, actions), CrashTokens(start, actions, u);
      var sum := Get(start, u) + SumBy(w.slots, TotalOf(u));
      Get(w.usage, u) == sum + crashed && (Get(w.usage, u) == sum <==> crashed == 0)
  {
    AtomicNeverStale(start, actions, u);
    CounterExplained(start, actions, u);
  }
}
