/** A run of a task that nothing interrupts, in any state of the system; and the endpoints and the
    runner as methods that update the tables in place. */
module TaskRunner {
  import opened Common
  import opened TaskStatus
  import opened TaskLifecycle

  /** How a run goes: creating the sandbox or the model raises, the graph raises after emitting
      some steps, or the graph ends. The numbers are the tokens of the steps emitted. */
  datatype Outcome =
    | SetupRaises
    | GraphRaises(tokens: seq<nat>)
    | GraphEnds(tokens: seq<nat>)

  // ---- a run as a sequence of operations ----

  function RunSlot(s: Slot, ops: seq<Op>, usage: nat): Slot
    decreases ops
  {
    if ops == [] then s else RunSlot(StepSlot(s, ops[0], usage), ops[1..], usage)
  }

  function Emits(tokens: seq<nat>, rest: seq<Op>): seq<Op> {
    if tokens == [] then rest else [Emit(tokens[0])] + Emits(tokens[1..], rest)
  }

  function FailOps(now: int): seq<Op> { [Raise, ReportFailure, Fail(now)] }

  /** Up to the moment the user's counter has been read. */
  function ReadyOps(tokens: seq<nat>, begin: int): seq<Op> {
    [Admit] + ([SetPlanning(begin)] + ([SetRunning] + Emits(tokens, [SumSteps] + ([ReadUsage] + []))))
  }

  /** run_task: the operations of an uninterrupted run, in order. The summary the graph leaves is
      empty, so nothing follows the commit that completes the task. */
  function Script(o: Outcome, begin: int, now: int): seq<Op> {
    match o
    case SetupRaises => [Admit] + ([SetPlanning(begin)] + FailOps(now))
    case GraphRaises(tokens) => [Admit] + ([SetPlanning(begin)] + ([SetRunning] + Emits(tokens, FailOps(now))))
    case GraphEnds(tokens) => ReadyOps(tokens, begin) + [Charge, Complete(now)]
  }

  /** The task and its steps after an uninterrupted run. */
  function RunResult(task: Task, steps: seq<nat>, o: Outcome, begin: int, now: int): (Task, seq<nat>) {
    if Terminal(task.status) then (task, steps)
    else
      var ended := task.(startedAt := Some(begin), completedAt := Some(now));
      match o
      case SetupRaises => (ended.(status := Failed), steps + [0])
      case GraphRaises(tokens) => (ended.(status := Failed), steps + tokens + [0])
      case GraphEnds(tokens) =>
        var all := steps + tokens;
        (ended.(status := Completed, totalTokens := Sum(all), totalSteps := |all|), all)
  }

  function TokensCharged(task: Task, steps: seq<nat>, o: Outcome): nat {
    if Terminal(task.status) || !o.GraphEnds? then 0 else Sum(steps + o.tokens)
  }

  lemma RunCons(s: Slot, op: Op, rest: seq<Op>, usage: nat)
    ensures RunSlot(s, [op] + rest, usage) == RunSlot(StepSlot(s, op, usage), rest, usage)
  {
    assert ([op] + rest)[1..] == rest;
  }

  lemma RunNothing(s: Slot, usage: nat)
    ensures RunSlot(s, [], usage) == s
  {
  }

  lemma {:induction false} RunSplit(s: Slot, a: seq<Op>, b: seq<Op>, usage: nat)
    ensures RunSlot(s, a + b, usage) == RunSlot(RunSlot(s, a, usage), b, usage)
    decreases a
  {
    hide StepSlot;
    if a == [] {
      assert a + b == b;
    } else {
      RunSplit(StepSlot(s, a[0], usage), a[1..], b, usage);
      assert (a + b)[1..] == a[1..] + b;
    }
  }

  lemma {:induction false} RunEmits(s: Slot, tokens: seq<nat>, rest: seq<Op>, usage: nat)
    requires s.runner == Working
    ensures RunSlot(s, Emits(tokens, rest), usage) == RunSlot(s.(steps := s.steps + tokens), rest, usage)
    decreases tokens
  {
    if tokens == [] {
      assert s.steps + tokens == s.steps;
    } else {
      var s' := s.(steps := s.steps + [tokens[0]]);
      RunCons(s, Emit(tokens[0]), Emits(tokens[1..], rest), usage);
      RunEmits(s', tokens[1..], rest, usage);
      assert s'.steps + tokens[1..] == s.steps + tokens;
    }
  }

  function Planning(s: Slot, begin: int): Slot {
    SetGoing(s.(task := s.task.(startedAt := Some(begin))), Status.Planning, Planned)
  }

  /** The graph is being executed and has emitted these steps. */
  function Going(s: Slot, tokens: seq<nat>, begin: int): Slot {
    SetGoing(Planning(s, begin), Status.Running, Working).(steps := s.steps + tokens)
  }

  lemma AdmitSteps(s: Slot, begin: int, usage: nat)
    requires s.runner == Idle && !Terminal(s.task.status)
    ensures StepSlot(s, Admit, usage) == s.(runner := Admitted)
    ensures StepSlot(s.(runner := Admitted), SetPlanning(begin), usage) == Planning(s, begin)
    ensures StepSlot(Planning(s, begin), SetRunning, usage) == SetGoing(Planning(s, begin), Status.Running, Working)
  {
  }

  lemma RunBegins(s: Slot, begin: int, rest: seq<Op>, usage: nat)
    requires s.runner == Idle && !Terminal(s.task.status)
    ensures RunSlot(s, [Admit] + ([SetPlanning(begin)] + rest), usage) == RunSlot(Planning(s, begin), rest, usage)
  {
    AdmitSteps(s, begin, usage);
    hide RunSlot, StepSlot, Planning;
    RunCons(s, Admit, [SetPlanning(begin)] + rest, usage);
    RunCons(s.(runner := Admitted), SetPlanning(begin), rest, usage);
  }

  lemma RunGoes(s: Slot, tokens: seq<nat>, begin: int, rest: seq<Op>, usage: nat)
    requires s.runner == Idle && !Terminal(s.task.status)
    ensures RunSlot(s, [Admit] + ([SetPlanning(begin)] + ([SetRunning] + Emits(tokens, rest))), usage)
         == RunSlot(Going(s, tokens, begin), rest, usage)
  {
    AdmitSteps(s, begin, usage);
    hide RunSlot, StepSlot, Emits;
    RunBegins(s, begin, [SetRunning] + Emits(tokens, rest), usage);
    RunCons(Planning(s, begin), SetRunning, Emits(tokens, rest), usage);
    RunEmits(SetGoing(Planning(s, begin), Status.Running, Working), tokens, rest, usage);
  }

  lemma RunFails(s: Slot, now: int, usage: nat)
    requires s.runner == Planned || s.runner == Working
    ensures var r := RunSlot(s, FailOps(now), usage);
      && r.task == s.task.(status := Failed, completedAt := Some(now)) && r.steps == s.steps + [0]
      && r.runner == Idle && r.past.charged == s.past.charged && r.past.lapsed == s.past.lapsed
  {
    var failing := EndRun(s, Failing);
    var reported := failing.(steps := s.steps + [0], runner := Reported);
    assert FailOps(now) == [Raise] + ([ReportFailure] + ([Fail(now)] + []));
    RunCons(s, Raise, [ReportFailure] + ([Fail(now)] + []), usage);
    RunCons(failing, ReportFailure, [Fail(now)] + [], usage);
    RunCons(reported, Fail(now), [], usage);
  }

  lemma ReadSteps(s: Slot, usage: nat)
    requires s.runner == Working
    ensures StepSlot(s, SumSteps, usage) == s.(runner := Summed(Sum(s.steps), |s.steps|))
    ensures StepSlot(s.(runner := Summed(Sum(s.steps), |s.steps|)), ReadUsage, usage)
         == s.(runner := UsageRead(Sum(s.steps), |s.steps|, usage))
  {
  }

  /** What a run has done when it has read the counter and not charged yet. */
  lemma ReadyResult(s: Slot, tokens: seq<nat>, begin: int, usage: nat)
    requires s.runner == Idle && !Terminal(s.task.status)
    ensures var all := s.steps + tokens;
      RunSlot(s, ReadyOps(tokens, begin), usage)
      == Going(s, tokens, begin).(runner := UsageRead(Sum(all), |all|, usage))
  {
    var going := Going(s, tokens, begin);
    ReadSteps(going, usage);
    RunNothing(going.(runner := UsageRead(Sum(going.steps), |going.steps|, usage)), usage);
    hide RunSlot, StepSlot, Emits, Sum;
    RunGoes(s, tokens, begin, [SumSteps] + ([ReadUsage] + []), usage);
    RunCons(going, SumSteps, [ReadUsage] + [], usage);
    RunCons(going.(runner := Summed(Sum(going.steps), |going.steps|)), ReadUsage, [], usage);
  }

  lemma ChargeSteps(s: Slot, now: int, usage: nat)
    requires s.runner.UsageRead?
    ensures var n, k := s.runner.tokens, s.runner.count;
      var charged := s.(runner := Charged(n, k), past := s.past.(charged := s.past.charged + n));
      && StepSlot(s, Charge, usage) == charged
      && StepSlot(charged, Complete(now), usage)
         == s.(task := s.task.(status := Completed, completedAt := Some(now), totalTokens := n, totalSteps := k),
               runner := Idle, past := s.past.(charged := s.past.charged + n, revived := false))
  {
  }

  lemma RunFinishes(s: Slot, now: int, usage: nat)
    requires s.runner.UsageRead?
    ensures RunSlot(s, [Charge, Complete(now)], usage)
         == StepSlot(StepSlot(s, Charge, usage), Complete(now), usage)
  {
    hide StepSlot;
    assert [Charge, Complete(now)] == [Charge] + ([Complete(now)] + []);
    RunCons(s, Charge, [Complete(now)] + [], usage);
    RunCons(StepSlot(s, Charge, usage), Complete(now), [], usage);
  }

  /** The operations of an uninterrupted run on an idle task have this result: a task that is not
      terminal ends completed or failed, its total is charged once, and nothing lapses. */
  lemma ScriptResult(s: Slot, o: Outcome, begin: int, now: int, usage: nat)
    requires s.runner == Idle
    ensures var r := RunSlot(s, Script(o, begin, now), usage);
      && (r.task, r.steps) == RunResult(s.task, s.steps, o, begin, now)
      && r.runner == Idle && r.past.lapsed == s.past.lapsed
      && r.past.charged == s.past.charged + TokensCharged(s.task, s.steps, o)
  {
    if Terminal(s.task.status) {
      NoRequests(o, begin, now);
      IdleStays(s, Script(o, begin, now), usage);
    } else {
      hide RunSlot, StepSlot, Emits, ReadyOps, FailOps, Sum;
      match o {
        case SetupRaises =>
          RunBegins(s, begin, FailOps(now), usage);
          RunFails(Planning(s, begin), now, usage);
        case GraphRaises(tokens) =>
          RunGoes(s, tokens, begin, FailOps(now), usage);
          RunFails(Going(s, tokens, begin), now, usage);
        case GraphEnds(tokens) =>
          ReadyResult(s, tokens, begin, usage);
          var ready := RunSlot(s, ReadyOps(tokens, begin), usage);
          RunSplit(s, ReadyOps(tokens, begin), [Charge, Complete(now)], usage);
          RunFinishes(ready, now, usage);
          ChargeSteps(ready, now, usage);
      }
    }
  }

  /** Operations of the runner only. */
  predicate NoRequest(ops: seq<Op>) {
    forall i | 0 <= i < |ops| :: !ops[i].CommitCancel? && !ops[i].CheckCancel? && ops[i] != AbandonCancel && ops[i] != ReportCancelled
  }

  predicate ChargeFree(ops: seq<Op>) {
    forall i | 0 <= i < |ops| :: ops[i] != Charge
  }

  lemma {:induction false} EmitsOnly(tokens: seq<nat>, rest: seq<Op>)
    ensures NoRequest(rest) ==> NoRequest(Emits(tokens, rest))
    ensures ChargeFree(rest) ==> ChargeFree(Emits(tokens, rest))
  {
    if tokens != [] {
      EmitsOnly(tokens[1..], rest);
    }
  }

  lemma ReadyOnly(tokens: seq<nat>, begin: int)
    ensures NoRequest(ReadyOps(tokens, begin)) && ChargeFree(ReadyOps(tokens, begin))
  {
    EmitsOnly(tokens, [SumSteps] + ([ReadUsage] + []));
    hide Emits;
  }

  lemma NoRequests(o: Outcome, begin: int, now: int)
    ensures NoRequest(Script(o, begin, now))
    ensures !o.GraphEnds? ==> ChargeFree(Script(o, begin, now))
  {
    match o {
      case SetupRaises =>
      case GraphRaises(tokens) => EmitsOnly(tokens, FailOps(now)); hide Emits;
      case GraphEnds(tokens) => ReadyOnly(tokens, begin); hide ReadyOps;
    }
  }

  /** Without an admission the runner does nothing. */
  lemma {:induction false} IdleStays(s: Slot, ops: seq<Op>, usage: nat)
    requires s.runner == Idle && Terminal(s.task.status)
    requires NoRequest(ops)
    ensures RunSlot(s, ops, usage) == s
    decreases ops
  {
    if ops != [] {
      IdleStays(s, ops[1..], usage);
    }
  }

  // ---- the same in any state of the system ----

  function RunOps(w: World, t: nat, ops: seq<Op>): (w': World)
    requires t < |w.slots|
    ensures |w'.slots| == |w.slots|
    decreases ops
  {
    if ops == [] then w else RunOps(StepTask(w, t, ops[0]), t, ops[1..])
  }

  lemma FirstOnTask(actions: seq<Action>, t: nat, ops: seq<Op>)
    requires ops != []
    ensures actions + OnTasks(t, ops) == actions + [OnTask(t, ops[0])] + OnTasks(t, ops[1..])
  {
    assert OnTasks(t, ops) == [OnTask(t, ops[0])] + OnTasks(t, ops[1..]);
  }

  lemma {:induction false} RunOpsIsRun(start: map<nat, nat>, actions: seq<Action>, t: nat, ops: seq<Op>)
    requires t < |Run(start, actions).slots|
    ensures Run(start, actions + OnTasks(t, ops)) == RunOps(Run(start, actions), t, ops)
    decreases ops
  {
    if ops == [] {
      assert actions + OnTasks(t, ops) == actions;
    } else {
      hide Run, StepTask, OnTasks;
      var next := actions + [OnTask(t, ops[0])];
      RunThen(start, actions, OnTask(t, ops[0]));
      RunOpsIsRun(start, next, t, ops[1..]);
      FirstOnTask(actions, t, ops);
    }
  }

  lemma {:induction false} RunOpsSplit(w: World, t: nat, a: seq<Op>, b: seq<Op>)
    requires t < |w.slots|
    ensures RunOps(w, t, a + b) == RunOps(RunOps(w, t, a), t, b)
    decreases a
  {
    hide StepSlot;
    if a == [] {
      assert a + b == b;
    } else {
      RunOpsSplit(StepTask(w, t, a[0]), t, a[1..], b);
      assert (a + b)[1..] == a[1..] + b;
    }
  }

  /** Operations that charge nothing touch one slot and nothing else. */
  lemma {:induction false} QuietOps(w: World, t: nat, ops: seq<Op>)
    requires t < |w.slots| && ChargeFree(ops)
    ensures RunOps(w, t, ops)
         == w.(slots := w.slots[t := RunSlot(w.slots[t], ops, Get(w.usage, w.slots[t].task.user))])
    decreases ops
  {
    hide StepSlot;
    var s := w.slots[t];
    if ops != [] {
      var usage := Get(w.usage, s.task.user);
      KeepsUser(s, ops[0], usage);
      QuietOps(StepTask(w, t, ops[0]), t, ops[1..]);
      var s' := StepSlot(s, ops[0], usage);
      assert w.slots[t := s'][t := RunSlot(s', ops[1..], usage)] == w.slots[t := RunSlot(s', ops[1..], usage)];
    } else {
      assert w.slots[t := s] == w.slots;
    }
  }

  /** Charging right after the counter was read, and completing. */
  lemma ChargeInWorld(w: World, t: nat, now: int)
    requires t < |w.slots| && w.slots[t].runner.UsageRead?
    requires w.slots[t].runner.seen == Get(w.usage, w.slots[t].task.user)
    ensures var s, u := w.slots[t], w.slots[t].task.user;
      var w' := RunOps(w, t, [Charge, Complete(now)]);
      && w'.slots == w.slots[t := StepSlot(StepSlot(s, Charge, Get(w.usage, u)), Complete(now), Get(w.usage, u))]
      && w'.usage == w.usage[u := Get(w.usage, u) + s.runner.tokens]
      && w'.lost == w.lost[u := GetInt(w.lost, u)] && w'.pending == w.pending && w'.peak == w.peak
  {
    hide StepSlot;
    assert [Charge, Complete(now)][1..] == [Complete(now)] && [Complete(now)][1..] == [];
    var s, u := w.slots[t], w.slots[t].task.user;
    var s1 := StepSlot(s, Charge, Get(w.usage, u));
    var w1 := StepTask(w, t, Charge);
    assert w1.slots == w.slots[t := s1];
    KeepsUser(s, Charge, Get(w.usage, u));
    CompleteIgnoresUsage(s1, now, Get(w.usage, u), Get(w1.usage, u));
    var s2 := StepSlot(s1, Complete(now), Get(w.usage, u));
    assert StepTask(w1, t, Complete(now)).slots == w.slots[t := s1][t := s2] == w.slots[t := s2];
    assert RunOps(StepTask(w1, t, Complete(now)), t, []) == StepTask(w1, t, Complete(now));
    assert RunOps(w1, t, [Complete(now)]) == StepTask(w1, t, Complete(now));
  }

  lemma CompleteIgnoresUsage(s: Slot, now: int, a: nat, b: nat)
    ensures StepSlot(s, Complete(now), a) == StepSlot(s, Complete(now), b)
  {
  }

  /** From any state of the system, a run that nothing interrupts gives its task the stated result,
      adds the tokens charged to its user's counter, and touches no other task or counter. */
  lemma ScriptInWorld(w: World, t: nat, o: Outcome, begin: int, now: int)
    requires t < |w.slots| && w.slots[t].runner == Idle
    ensures var s, w' := w.slots[t], RunOps(w, t, Script(o, begin, now));
      var u, tokens := s.task.user, TokensCharged(s.task, s.steps, o);
      && (w'.slots[t].task, w'.slots[t].steps) == RunResult(s.task, s.steps, o, begin, now)
      && w'.slots[t].runner == Idle && w'.slots[t].past.lapsed == s.past.lapsed
      && (forall i | 0 <= i < |w.slots| && i != t :: w'.slots[i] == w.slots[i])
      && Get(w'.usage, u) == Get(w.usage, u) + tokens
      && (forall v | v != u :: Get(w'.usage, v) == Get(w.usage, v))
      && (forall v :: GetInt(w'.lost, v) == GetInt(w.lost, v))
  {
    hide RunSlot, StepSlot, Script, RunOps, RunResult, Sum;
    var s, ops := w.slots[t], Script(o, begin, now);
    var usage := Get(w.usage, s.task.user);
    ScriptResult(s, o, begin, now, usage);
    NoRequests(o, begin, now);
    if !o.GraphEnds? {
      QuietOps(w, t, ops);
    } else if Terminal(s.task.status) {
      IdleInWorld(w, t, ops);
      IdleStays(s, ops, usage);
    } else {
      FinishInWorld(w, t, o.tokens, begin, now);
    }
  }

  lemma {:induction false} IdleInWorld(w: World, t: nat, ops: seq<Op>)
    requires t < |w.slots| && w.slots[t].runner == Idle && Terminal(w.slots[t].task.status) && NoRequest(ops)
    ensures RunOps(w, t, ops) == w
    decreases ops
  {
    if ops != [] {
      IdleStep(w, t, ops[0]);
      IdleInWorld(w, t, ops[1..]);
    }
  }

  lemma IdleStep(w: World, t: nat, op: Op)
    requires t < |w.slots| && w.slots[t].runner == Idle && Terminal(w.slots[t].task.status) && NoRequest([op])
    ensures StepTask(w, t, op) == w
  {
    assert [op][0] == op;
    assert w.slots[t := w.slots[t]] == w.slots;
  }

  lemma FinishInWorld(w: World, t: nat, tokens: seq<nat>, begin: int, now: int)
    requires t < |w.slots| && w.slots[t].runner == Idle && !Terminal(w.slots[t].task.status)
    ensures var s, u := w.slots[t], w.slots[t].task.user;
      var w' := RunOps(w, t, Script(GraphEnds(tokens), begin, now));
      && w'.slots == w.slots[t := RunSlot(s, Script(GraphEnds(tokens), begin, now), Get(w.usage, u))]
      && w'.usage == w.usage[u := Get(w.usage, u) + Sum(s.steps + tokens)]
      && w'.lost == w.lost[u := GetInt(w.lost, u)]
  {
    hide RunSlot, StepSlot, RunOps, ReadyOps, Sum, Going;
    var s, u := w.slots[t], w.slots[t].task.user;
    var pre, usage := ReadyOps(tokens, begin), Get(w.usage, u);
    ReadyOnly(tokens, begin);
    ReadyResult(s, tokens, begin, usage);
    QuietOps(w, t, pre);
    var ready := RunSlot(s, pre, usage);
    var w1 := w.(slots := w.slots[t := ready]);
    GoingUser(s, tokens, begin);
    ChargeInWorld(w1, t, now);
    RunFinishes(ready, now, usage);
    RunSplit(s, pre, [Charge, Complete(now)], usage);
    RunOpsSplit(w, t, pre, [Charge, Complete(now)]);
  }

  lemma GoingUser(s: Slot, tokens: seq<nat>, begin: int)
    ensures Going(s, tokens, begin).task.user == s.task.user
  {
  }

  // ---- requests in the system ----

  /** A cancel request that nothing interrupts: for the owner or an administrator, and a task that is
      active, it cancels the task and reports one step; it touches nothing else, and else nothing. */
  lemma CancelInWorld(w: World, t: nat, caller: nat, admin: bool, now: int)
    requires t < |w.slots| && w.slots[t].cancelling == 0
    ensures var s := w.slots[t];
      var active := s.task.status in {Submitted, Status.Planning, Status.Running, WaitingForInput};
      var checked := StepTask(w, t, CheckCancel(caller, admin));
      && (!active || (!admin && s.task.user != caller) ==> checked == w)
      && (active && (admin || s.task.user == caller) ==>
            var task := s.task.(status := Cancelled, completedAt := Some(now));
            RunOps(checked, t, [CommitCancel(now), ReportCancelled])
            == w.(slots := w.slots[t := s.(task := task, steps := s.steps + [0], past := s.past.(revived := false))]))
  {
    var s := w.slots[t];
    ActiveOrTerminal(s.task.status);
    var checked := StepTask(w, t, CheckCancel(caller, admin));
    var ops := [CommitCancel(now), ReportCancelled];
    if Cancellable(s.task, caller, admin) && s.task.status != Cancelled {
      var waiting := s.(cancelling := 1);
      assert checked == w.(slots := w.slots[t := waiting]);
      assert ops[1..] == [ReportCancelled] && ops[1..][1..] == [];
      var task := s.task.(status := Cancelled, completedAt := Some(now));
      var done := StepTask(checked, t, CommitCancel(now));
      assert done == w.(slots := w.slots[t := s.(task := task, past := s.past.(revived := false))]);
      assert RunOps(checked, t, ops) == RunOps(done, t, ops[1..]);
      assert RunOps(done, t, ops[1..]) == StepTask(done, t, ReportCancelled);
    } else {
      assert checked == w.(slots := w.slots[t := s]);
    }
  }

  /** A create request that nothing interrupts: refused from five active tasks of the user on, it
      leaves nothing; else it adds one submitted task with the limit asked for, 30 by default and 50
      at most. */
  lemma CreateInWorld(w: World, u: nat, requested: Option<int>)
    requires w.pending[u] == 0
    ensures var active := |set i: nat | i < |w.slots| && w.slots[i].task.user == u
                                        && w.slots[i].task.status in {Submitted, Status.Planning, Status.Running, WaitingForInput}|;
      var checked := Step(w, CheckCap(u));
      var limit := if requested.None? || requested.value == 0 then 30
                   else if requested.value > 50 then 50 else requested.value;
      && (active >= 5 ==> checked == w)
      && (active < 5 ==>
            var after := Step(checked, CommitCreate(u, requested));
            && after.slots == w.slots + [Slot(Task(u, Submitted, None, None, 0, 0, limit), [], Idle, 0, Past(0, 0, false))]
            && after.usage == w.usage && after.pending == w.pending && after.lost == w.lost)
  {
    ActiveCount(w.slots, u);
    ClampMeaning(requested);
    assert w.pending + multiset{u} - multiset{u} == w.pending;
    hide CountActive, Max;
  }

  function ActiveSlots(slots: seq<Slot>, u: nat): set<nat> {
    set i: nat | i < |slots| && slots[i].task.user == u
                 && slots[i].task.status in {Submitted, Status.Planning, Status.Running, WaitingForInput}
  }

  lemma {:induction false} ActiveCount(slots: seq<Slot>, u: nat)
    ensures CountActive(slots, u) == |ActiveSlots(slots, u)|
  {
    if slots != [] {
      ActiveCount(Front(slots), u);
      ActiveSlotsNext(slots, u);
      ActiveOrTerminal(Last(slots).task.status);
      hide ActiveSlots;
    }
  }

  lemma ActiveSlotsAt(slots: seq<Slot>, u: nat, i: nat)
    ensures i in ActiveSlots(slots, u)
       <==> i < |slots| && slots[i].task.user == u && !Terminal(slots[i].task.status)
  {
    if i < |slots| {
      ActiveOrTerminal(slots[i].task.status);
    }
  }

  lemma ActiveSlotsNext(slots: seq<Slot>, u: nat)
    requires slots != []
    ensures var last := Last(slots).task;
      |ActiveSlots(slots, u)| == |ActiveSlots(Front(slots), u)| + (if last.user == u && !Terminal(last.status) then 1 else 0)
  {
    hide ActiveSlots, Terminal;
    var last := Last(slots).task;
    var front := Front(slots);
    forall i: nat
      ensures i in ActiveSlots(slots, u) <==>
                i in ActiveSlots(front, u) || (i == |front| && last.user == u && !Terminal(last.status))
    {
      ActiveSlotsAt(slots, u, i);
      ActiveSlotsAt(front, u, i);
    }
    assert |front| !in ActiveSlots(front, u) by { ActiveSlotsAt(front, u, |front|); }
    assert ActiveSlots(slots, u)
        == ActiveSlots(front, u) + (if last.user == u && !Terminal(last.status) then {|front|} else {});
  }

  // ---- the tables ----

  class TaskStore {
    var tasks: seq<Task>
    var steps: seq<seq<nat>>
    var usage: map<nat, nat>   // one entry per user

    ghost predicate Valid() reads this { |steps| == |tasks| }

    constructor (users: map<nat, nat>)
      ensures Valid() && tasks == [] && usage == users
    {
      tasks, steps, usage := [], [], users;
    }

    method CountRunningTasks(user: nat) returns (n: nat)
      requires Valid()
      ensures n == |set i: nat | i < |tasks| && tasks[i].user == user
                              && tasks[i].status in {Submitted, Status.Planning, Status.Running, WaitingForInput}|
      ensures n == |Actives(tasks, user)|
    {
      n := 0;
      for i := 0 to |tasks|
        invariant n == |Actives(tasks[..i], user)|
      {
        ActivesNext(tasks[..i + 1], user);
        assert Front(tasks[..i + 1]) == tasks[..i];
        if tasks[i].user == user && !Terminal(tasks[i].status) {
          n := n + 1;
        }
      }
      assert tasks[..|tasks|] == tasks;
    }

    /** None is the 429 answer. */
    method CreateTask(user: nat, requested: Option<int>) returns (r: Option<nat>)
      requires Valid()
      modifies this`tasks, this`steps
      ensures Valid()
      ensures |Actives(old(tasks), user)| >= 5 ==> r.None? && tasks == old(tasks) && steps == old(steps)
      ensures |Actives(old(tasks), user)| < 5 ==>
                var limit := if requested.None? || requested.value == 0 then 30
                             else if requested.value > 50 then 50 else requested.value;
                && r == Some(|old(tasks)|)
                && tasks == old(tasks) + [Task(user, Submitted, None, None, 0, 0, limit)]
                && steps == old(steps) + [[]]
                && Last(tasks) == NewSlot(user, requested).task
    {
      var running := CountRunningTasks(user);
      if running >= MAX_ACTIVE {
        return None;
      }
      r := Some(|tasks|);
      var wanted := if requested.None? || requested.value == 0 then DEFAULT_ITERATIONS else requested.value;
      tasks := tasks + [Task(user, Submitted, None, None, 0, 0, if wanted < ITERATIONS_CAP then wanted else ITERATIONS_CAP)];
      steps := steps + [[]];
    }

    /** A cancel that changes something also reports itself as a step. */
    method CancelRequest(t: nat, caller: nat, admin: bool, now: int) returns (r: CancelReply)
      requires Valid()
      modifies this`tasks, this`steps
      ensures Valid() && |tasks| == |old(tasks)|
      ensures r == if t >= |old(tasks)| then NotFound
                   else if !admin && old(tasks)[t].user != caller then NotFound
                   else if old(tasks)[t].status == Completed || old(tasks)[t].status == Failed then NotCancellable
                   else if old(tasks)[t].status == Cancelled then AlreadyCancelled
                   else NowCancelled
      ensures r != NowCancelled ==> tasks == old(tasks) && steps == old(steps)
      ensures r == NowCancelled ==>
                && tasks == old(tasks)[t := old(tasks)[t].(status := Cancelled, completedAt := Some(now))]
                && steps == old(steps)[t := old(steps)[t] + [0]]
      ensures t < |tasks| ==> tasks[t] == CancelTask(old(tasks)[t], caller, admin, now)
    {
      if t >= |tasks| || (!admin && tasks[t].user != caller) {
        return NotFound;
      }
      if tasks[t].status == Completed || tasks[t].status == Failed {
        return NotCancellable;
      }
      if tasks[t].status == Cancelled {
        return AlreadyCancelled;
      }
      tasks := tasks[t := tasks[t].(status := Cancelled, completedAt := Some(now))];
      EmitStep(t, 0);
      return NowCancelled;
    }

    method SetStatus(t: nat, status: Status)
      requires Valid() && t < |tasks|
      modifies this`tasks
      ensures Valid() && tasks == old(tasks)[t := old(tasks)[t].(status := status)]
    {
      tasks := tasks[t := tasks[t].(status := status)];
    }

    method EmitStep(t: nat, tokens: nat)
      requires Valid() && t < |tasks|
      modifies this`steps
      ensures Valid() && steps == old(steps)[t := old(steps)[t] + [tokens]]
    {
      steps := steps[t := steps[t] + [tokens]];
    }

    method EmitAll(t: nat, tokens: seq<nat>)
      requires Valid() && t < |tasks|
      modifies this`steps
      ensures Valid() && steps == old(steps)[t := old(steps)[t] + tokens]
    {
      assert steps[t] + tokens[..0] == steps[t];
      for i := 0 to |tokens|
        invariant Valid() && |steps| == |old(steps)|
        invariant forall j | 0 <= j < |steps| && j != t :: steps[j] == old(steps)[j]
        invariant steps[t] == old(steps)[t] + tokens[..i]
      {
        EmitStep(t, tokens[i]);
        assert old(steps)[t] + tokens[..i + 1] == old(steps)[t] + tokens[..i] + [tokens[i]];
      }
      assert tokens[..|tokens|] == tokens;
    }

    method SumTaskTokens(t: nat) returns (total: nat)
      requires Valid() && t < |tasks|
      ensures total == Sum(steps[t])
    {
      total := 0;
      for i := 0 to |steps[t]|
        invariant total == Sum(steps[t][..i])
      {
        SumOneMore(steps[t][..i], steps[t][i]);
        assert steps[t][..i + 1] == steps[t][..i] + [steps[t][i]];
        total := total + steps[t][i];
      }
      assert steps[t][..|steps[t]|] == steps[t];
    }

    /** A user that does not exist is not charged. */
    method RecordUsage(user: nat, tokens: nat)
      requires Valid()
      modifies this`usage
      ensures Valid()
      ensures usage == if user in old(usage) then old(usage)[user := old(usage)[user] + tokens] else old(usage)
    {
      if user in usage {
        usage := usage[user := usage[user] + tokens];
      }
    }

    /** run_task without interleaving: exactly the result of the operations above. */
    method RunTask(t: nat, o: Outcome, begin: int, now: int)
      requires Valid() && t < |tasks|
      modifies this
      ensures Valid() && |tasks| == |old(tasks)|
      ensures var (task, log) := RunResult(old(tasks)[t], old(steps)[t], o, begin, now);
        tasks == old(tasks)[t := task] && steps == old(steps)[t := log]
      ensures old(tasks)[t].status in {Completed, Failed, Cancelled} ==> tasks == old(tasks) && steps == old(steps)
      ensures old(tasks)[t].status !in {Completed, Failed, Cancelled} ==>
                var was, emitted := old(tasks)[t], if o.SetupRaises? then [] else o.tokens;
                var all := old(steps)[t] + emitted;
                if o.GraphEnds? then
                  && tasks == old(tasks)[t := Task(was.user, Completed, Some(begin), Some(now), Sum(all), |all|, was.maxIterations)]
                  && steps == old(steps)[t := all]
                else
                  && tasks == old(tasks)[t := Task(was.user, Failed, Some(begin), Some(now),
                                                   was.totalTokens, was.totalSteps, was.maxIterations)]
                  && steps == old(steps)[t := all + [0]]
      ensures var user := old(tasks)[t].user;
        var tokens := if old(tasks)[t].status in {Completed, Failed, Cancelled} || !o.GraphEnds? then 0
                      else Sum(old(steps)[t] + o.tokens);
        && tokens == TokensCharged(old(tasks)[t], old(steps)[t], o)
        && usage.Keys == old(usage).Keys
        && forall v | v in usage :: usage[v] == old(usage)[v] + (if v == user then tokens else 0)
    {
      if Terminal(tasks[t].status) {
        return;
      }
      var user := tasks[t].user;
      SetStatus(t, Status.Planning);
      tasks := tasks[t := tasks[t].(startedAt := Some(begin))];
      if o.SetupRaises? {
        assert old(steps)[t] + [] + [0] == old(steps)[t] + [0];
        HandleError(t, now);
        return;
      }
      SetStatus(t, Status.Running);
      EmitAll(t, o.tokens);
      if o.GraphRaises? {
        HandleError(t, now);
        return;
      }
      var total := SumTaskTokens(t);
      var count := |steps[t]|;
      RecordUsage(user, total);
      SetStatus(t, Completed);
      tasks := tasks[t := tasks[t].(totalTokens := total, totalSteps := count, completedAt := Some(now))];
    }

    /** The except branch: report the error as a step, then fail the task. */
    method HandleError(t: nat, now: int)
      requires Valid() && t < |tasks|
      modifies this`tasks, this`steps
      ensures Valid() && steps == old(steps)[t := old(steps)[t] + [0]]
      ensures tasks == old(tasks)[t := old(tasks)[t].(status := Failed, completedAt := Some(now))]
    {
      EmitStep(t, 0);
      SetStatus(t, Failed);
      tasks := tasks[t := tasks[t].(completedAt := Some(now))];
    }
  }

  datatype CancelReply = NotFound | NotCancellable | AlreadyCancelled | NowCancelled

  function Actives(tasks: seq<Task>, user: nat): set<nat> {
    set i: nat | i < |tasks| && tasks[i].user == user && tasks[i].status in {Submitted, Status.Planning, Status.Running, WaitingForInput}
  }

  lemma ActivesAt(tasks: seq<Task>, user: nat, i: nat)
    ensures i in Actives(tasks, user) <==> i < |tasks| && tasks[i].user == user && !Terminal(tasks[i].status)
  {
    if i < |tasks| {
      ActiveOrTerminal(tasks[i].status);
    }
  }

  lemma ActivesNext(tasks: seq<Task>, user: nat)
    requires tasks != []
    ensures var last := Last(tasks);
      |Actives(tasks, user)| == |Actives(Front(tasks), user)| + (if last.user == user && !Terminal(last.status) then 1 else 0)
  {
    hide Actives, Terminal;
    var last, front := Last(tasks), Front(tasks);
    forall i: nat
      ensures i in Actives(tasks, user) <==>
                i in Actives(front, user) || (i == |front| && last.user == user && !Terminal(last.status))
    {
      ActivesAt(tasks, user, i);
      ActivesAt(front, user, i);
    }
    assert |front| !in Actives(front, user) by { ActivesAt(front, user, |front|); }
    assert Actives(tasks, user)
        == Actives(front, user) + (if last.user == user && !Terminal(last.status) then {|front|} else {});
  }
}
