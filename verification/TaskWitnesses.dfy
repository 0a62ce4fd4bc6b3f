/** Runs that exhibit what the model does not promise. Each starts from an empty system. */
module TaskWitnesses {
  import opened Common
  import opened TaskStatus
  import opened TaskLifecycle
  import opened TaskRunner

  const CREATE: seq<Action> := [CheckCap(1), CommitCreate(1, None)]

  lemma AfterCreate()
    ensures var w := Run(map[], CREATE);
      w.slots == [NewSlot(1, None)] && w.usage == map[] && w.lost == map[]
  {
    hide NewSlot;
    assert CREATE == [] + [CheckCap(1)] + [CommitCreate(1, None)];
    RunThen(map[], [], CheckCap(1));
    RunThen(map[], [] + [CheckCap(1)], CommitCreate(1, None));
    assert Run(map[], []) == Fresh(map[]);
  }

  /** Running operations on the only task, as long as they charge nothing. */
  lemma QuietRun(actions: seq<Action>, ops: seq<Op>, s: Slot)
    requires Run(map[], actions).slots == [s] && ChargeFree(ops)
    ensures var w, w' := Run(map[], actions), Run(map[], actions + OnTasks(0, ops));
      && w'.slots == [RunSlot(s, ops, Get(w.usage, s.task.user))] && w'.usage == w.usage && w'.lost == w.lost
  {
    hide Run, RunSlot;
    RunOpsIsRun(map[], actions, 0, ops);
    QuietOps(Run(map[], actions), 0, ops);
  }

  // ---- a cancel undone ----

  const EARLY: seq<Op> := [Admit, CheckCancel(1, false), CommitCancel(5)]

  predicate StatusIs(actions: seq<Action>, status: Status) {
    |Run(map[], actions).slots| == 1 && Run(map[], actions).slots[0].task.status == status
  }

  /** A task is cancelled after its runner has looked at it, and planning after the next commit. */
  lemma CancelUndone()
    ensures var cancelled := CREATE + OnTasks(0, EARLY);
      StatusIs(cancelled, Cancelled) && StatusIs(cancelled + OnTasks(0, [SetPlanning(6)]), Status.Planning)
  {
    AfterCreate();
    CancelledEarly();
    hide Run, OnTasks, RunSlot;
    QuietRun(CREATE, EARLY, NewSlot(1, None));
    QuietRun(CREATE + OnTasks(0, EARLY), [SetPlanning(6)], RunSlot(NewSlot(1, None), EARLY, 0));
  }

  lemma CancelledEarly()
    ensures ChargeFree(EARLY) && ChargeFree([SetPlanning(6)])
    ensures var s := RunSlot(NewSlot(1, None), EARLY, 0);
      s.task.status == Cancelled && RunSlot(s, [SetPlanning(6)], 0).task.status == Status.Planning
  {
    var s := NewSlot(1, None);
    EarlySteps(s);
    hide StepSlot, RunSlot, NewSlot;
    RunThree(s, Admit, CheckCancel(1, false), CommitCancel(5), 0);
    RunOne(RunSlot(s, EARLY, 0), SetPlanning(6), 0);
  }

  lemma EarlySteps(s: Slot)
    requires s.runner == Idle && s.task.status == Submitted && s.task.user == 1
    ensures var s3 := StepSlot(StepSlot(StepSlot(s, Admit, 0), CheckCancel(1, false), 0), CommitCancel(5), 0);
      s3.task.status == Cancelled && StepSlot(s3, SetPlanning(6), 0).task.status == Status.Planning
  {
    assert StepSlot(s, Admit, 0) == s.(runner := Admitted);
  }

  lemma RunOne(s: Slot, a: Op, usage: nat)
    ensures RunSlot(s, [a], usage) == StepSlot(s, a, usage)
  {
    hide StepSlot;
    assert [a][1..] == [];
  }

  lemma RunThree(s: Slot, a: Op, b: Op, c: Op, usage: nat)
    ensures RunSlot(s, [a, b, c], usage) == StepSlot(StepSlot(StepSlot(s, a, usage), b, usage), c, usage)
  {
    hide StepSlot;
    assert [a, b, c][1..] == [b, c] && [b, c][1..] == [c];
    RunOne(StepSlot(StepSlot(s, a, usage), b, usage), c, usage);
  }

  // ---- runs up to the charge ----

  /** What a new task has become when its run, having emitted one step, has read the counter 0. */
  function Ready(tokens: nat): Slot {
    Going(NewSlot(1, None), [tokens], 0).(runner := UsageRead(tokens, 1, 0))
  }

  lemma ReadyFromNew(tokens: nat)
    ensures RunSlot(NewSlot(1, None), ReadyOps([tokens], 0), 0) == Ready(tokens)
    ensures ChargeFree(ReadyOps([tokens], 0))
  {
    ReadyOnly([tokens], 0);
    ReadyResult(NewSlot(1, None), [tokens], 0, 0);
    SumOneMore([], tokens);
    hide RunSlot, ReadyOps;
    assert [] + [tokens] == [tokens];
  }

  lemma RunTwo(actions: seq<Action>, a: Action, b: Action)
    ensures Run(map[], actions + [a, b]) == Step(Step(Run(map[], actions), a), b)
  {
    hide Step;
    RunThen(map[], actions, a);
    RunThen(map[], actions + [a], b);
    assert actions + [a, b] == actions + [a] + [b];
  }

  // ---- a completed task cancelled ----

  /** A cancel request reads a task that is still running; the task completes; the request commits.
      The task is then cancelled, with the tokens of a completed one. */
  lemma CompletedThenCancelled()
    ensures var checked := CREATE + OnTasks(0, ReadyOps([7], 0)) + OnTasks(0, [CheckCancel(1, false)]);
      var completed := checked + [OnTask(0, Charge), OnTask(0, Complete(1))];
      && StatusIs(completed, Completed)
      && StatusIs(completed + OnTasks(0, [CommitCancel(2)]), Cancelled)
      && Run(map[], completed + OnTasks(0, [CommitCancel(2)])).slots[0].task.totalTokens == 7
  {
    AfterCreate();
    ReadyFromNew(7);
    ReadyStatus(7);
    hide Run, ReadyOps, OnTasks, Ready, NewSlot, RunSlot;
    QuietRun(CREATE, ReadyOps([7], 0), NewSlot(1, None));
    StaleFromReady(CREATE + OnTasks(0, ReadyOps([7], 0)), Ready(7));
  }

  lemma StaleFromReady(ready: seq<Action>, s: Slot)
    requires Run(map[], ready).slots == [s] && Run(map[], ready).usage == map[]
    requires s.runner == UsageRead(7, 1, 0) && s.task.user == 1 && s.task.status == Status.Running
    ensures var completed := ready + OnTasks(0, [CheckCancel(1, false)]) + [OnTask(0, Charge), OnTask(0, Complete(1))];
      && StatusIs(completed, Completed)
      && StatusIs(completed + OnTasks(0, [CommitCancel(2)]), Cancelled)
      && Run(map[], completed + OnTasks(0, [CommitCancel(2)])).slots[0].task.totalTokens == 7
  {
    hide Run, OnTasks, RunSlot, Step;
    var checked := ready + OnTasks(0, [CheckCancel(1, false)]);
    var completed := checked + [OnTask(0, Charge), OnTask(0, Complete(1))];
    CheckOne(s);
    QuietRun(ready, [CheckCancel(1, false)], s);
    var s1 := s.(cancelling := s.cancelling + 1);
    RunTwo(checked, OnTask(0, Charge), OnTask(0, Complete(1)));
    ChargeOne(Run(map[], checked), s1, Complete(1));
    CompletesFrom(s1);
    var s2 := Run(map[], completed).slots[0];
    CommitOne(s2);
    QuietRun(completed, [CommitCancel(2)], s2);
  }

  lemma CompletesFrom(s: Slot)
    requires s.runner == UsageRead(7, 1, 0) && s.cancelling > 0
    ensures var s' := StepSlot(StepSlot(s, Charge, 0), Complete(1), 7);
      s'.task.status == Completed && s'.task.totalTokens == 7 && s'.cancelling > 0
  {
  }

  /** Charging, and one more operation, on the only task. */
  lemma ChargeOne(w: World, s: Slot, op: Op)
    requires w.slots == [s] && s.runner.UsageRead? && s.runner.seen == Get(w.usage, s.task.user) && op != Charge
    ensures var u := s.task.user;
      var s1 := StepSlot(s, Charge, Get(w.usage, u));
      var usage := Get(w.usage, u) + s.runner.tokens;
      var w' := Step(Step(w, OnTask(0, Charge)), OnTask(0, op));
      w' == w.(slots := [StepSlot(s1, op, usage)], usage := w.usage[u := usage], lost := w.lost[u := GetInt(w.lost, u)])
  {
    hide StepSlot;
    var u := s.task.user;
    var s1 := StepSlot(s, Charge, Get(w.usage, u));
    KeepsUser(s, Charge, Get(w.usage, u));
    assert [s][0 := s1] == [s1];
    var s2 := StepSlot(s1, op, Get(w.usage, u) + s.runner.tokens);
    assert [s1][0 := s2] == [s2];
  }

  lemma ReadyStatus(tokens: nat)
    ensures var s := Ready(tokens);
      s.runner == UsageRead(tokens, 1, 0) && s.cancelling == 0 && s.task.user == 1 && s.task.status == Status.Running
      && s.steps == [tokens] && s.past.charged == 0 && s.past.lapsed == 0
  {
  }

  lemma CheckOne(s: Slot)
    requires s.task.user == 1 && s.task.status == Status.Running
    ensures RunSlot(s, [CheckCancel(1, false)], 0) == s.(cancelling := s.cancelling + 1)
  {
    assert [CheckCancel(1, false)][1..] == [];
  }

  lemma CommitOne(s: Slot)
    requires s.cancelling > 0
    ensures forall usage :: RunSlot(s, [CommitCancel(2)], usage).task == s.task.(status := Cancelled, completedAt := Some(2))
  {
    assert [CommitCancel(2)][1..] == [];
  }

  // ---- a charge lost ----

  /** Two tasks of a user complete with 5 and 7 tokens, and the user's counter has moved from 0 to 7. */
  lemma ChargeLost()
    ensures var ready := CREATE + CREATE + OnTasks(0, ReadyOps([5], 0)) + OnTasks(1, ReadyOps([7], 0));
      var w := Run(map[], ready + [OnTask(0, Charge), OnTask(1, Charge)] + [OnTask(0, Complete(1)), OnTask(1, Complete(1))]);
      && |w.slots| == 2
      && w.slots[0].task.status == Completed && w.slots[0].task.totalTokens == 5
      && w.slots[1].task.status == Completed && w.slots[1].task.totalTokens == 7
      && Get(w.usage, 1) == 7 && GetInt(w.lost, 1) == 5
  {
    BothReady();
    ReadyStatus(5);
    ReadyStatus(7);
    hide Run, ReadyOps, OnTasks, Ready, Step;
    var ready := CREATE + CREATE + OnTasks(0, ReadyOps([5], 0)) + OnTasks(1, ReadyOps([7], 0));
    var charged := ready + [OnTask(0, Charge), OnTask(1, Charge)];
    var a, b := Ready(5), Ready(7);
    RunTwo(ready, OnTask(0, Charge), OnTask(1, Charge));
    ChargeBoth(Run(map[], ready), a, b);
    ChargeSteps(a, 1, 0);
    ChargeSteps(b, 1, 5);
    RunTwo(charged, OnTask(0, Complete(1)), OnTask(1, Complete(1)));
    CompleteBoth(Run(map[], charged), StepSlot(a, Charge, 0), StepSlot(b, Charge, 5));
  }

  lemma ChargeBoth(w: World, a: Slot, b: Slot)
    requires w.slots == [a, b] && w.usage == map[] && w.lost == map[] && a.task.user == b.task.user == 1
    requires a.runner == UsageRead(5, 1, 0) && b.runner == UsageRead(7, 1, 0)
    ensures var w' := Step(Step(w, OnTask(0, Charge)), OnTask(1, Charge));
      && w'.slots == [StepSlot(a, Charge, 0), StepSlot(b, Charge, 5)]
      && Get(w'.usage, 1) == 7 && GetInt(w'.lost, 1) == 5
  {
    hide StepSlot;
    var a1, b1 := StepSlot(a, Charge, 0), StepSlot(b, Charge, 5);
    assert [a, b][0 := a1] == [a1, b];
    assert [a1, b][1 := b1] == [a1, b1];
  }

  lemma CompleteBoth(w: World, a: Slot, b: Slot)
    requires w.slots == [a, b] && a.runner.Charged? && b.runner.Charged?
    ensures var w' := Step(Step(w, OnTask(0, Complete(1))), OnTask(1, Complete(1)));
      && w'.usage == w.usage && w'.lost == w.lost && |w'.slots| == 2
      && w'.slots[0].task.status == Completed && w'.slots[0].task.totalTokens == a.runner.tokens
      && w'.slots[1].task.status == Completed && w'.slots[1].task.totalTokens == b.runner.tokens
  {
    CompleteOne(a, Get(w.usage, a.task.user));
    CompleteOne(b, Get(w.usage, b.task.user));
    hide StepSlot;
    var a1, b1 := StepSlot(a, Complete(1), Get(w.usage, a.task.user)), StepSlot(b, Complete(1), Get(w.usage, b.task.user));
    assert [a, b][0 := a1] == [a1, b];
    assert [a1, b][1 := b1] == [a1, b1];
  }

  lemma CompleteOne(s: Slot, usage: nat)
    requires s.runner.Charged?
    ensures var s' := StepSlot(s, Complete(1), usage);
      s'.task.status == Completed && s'.task.totalTokens == s.runner.tokens
  {
  }

  lemma BothCreated()
    ensures var w := Run(map[], CREATE + CREATE);
      w.slots == [NewSlot(1, None), NewSlot(1, None)] && w.usage == map[] && w.lost == map[]
  {
    AfterCreate();
    hide Run, NewSlot, SumBy;
    var w := Run(map[], CREATE);
    RunTwo(CREATE, CheckCap(1), CommitCreate(1, None));
    OneActive();
    assert CountActive([NewSlot(1, None)], 1) == 1;
  }

  lemma OneActive()
    ensures CountActive([NewSlot(1, None)], 1) == 1
  {
    assert Front([NewSlot(1, None)]) == [];
    assert SumBy([], ActiveOf(1)) == 0;
  }

  lemma BothReady()
    ensures var w := Run(map[], CREATE + CREATE + OnTasks(0, ReadyOps([5], 0)) + OnTasks(1, ReadyOps([7], 0)));
      w.slots == [Ready(5), Ready(7)] && w.usage == map[] && w.lost == map[]
  {
    BothCreated();
    ReadyFromNew(5);
    ReadyFromNew(7);
    NewUser();
    hide Run, ReadyOps, OnTasks, Ready, NewSlot, RunSlot;
    var two, s := CREATE + CREATE, NewSlot(1, None);
    QuietPair(two, 0, ReadyOps([5], 0), s, s);
    QuietPair(two + OnTasks(0, ReadyOps([5], 0)), 1, ReadyOps([7], 0), Ready(5), s);
  }

  lemma QuietPair(actions: seq<Action>, t: nat, ops: seq<Op>, a: Slot, b: Slot)
    requires t < 2 && Run(map[], actions).slots == [a, b] && ChargeFree(ops)
    ensures var w, w' := Run(map[], actions), Run(map[], actions + OnTasks(t, ops));
      && w'.slots == (if t == 0 then [RunSlot(a, ops, Get(w.usage, a.task.user)), b]
                      else [a, RunSlot(b, ops, Get(w.usage, b.task.user))])
      && w'.usage == w.usage && w'.lost == w.lost
  {
    hide Run, RunSlot, ChargeFree;
    RunOpsIsRun(map[], actions, t, ops);
    QuietOps(Run(map[], actions), t, ops);
  }

  lemma NewUser()
    ensures NewSlot(1, None).task.user == 1
  {
  }

  // ---- a crash between the two final commits ----

  /** A worker killed between charging and completing leaves its charge behind, and the next attempt
      charges the same step again: 7 tokens, then 9, for a task whose total is 9. */
  lemma CrashChargesAgain()
    ensures var crashed := CREATE + OnTasks(0, ReadyOps([7], 0)) + [OnTask(0, Charge), OnTask(0, Kill)];
      var w := Run(map[], crashed + OnTasks(0, Script(GraphEnds([2]), 1, 2)));
      && |w.slots| == 1 && w.slots[0].task.status == Completed && w.slots[0].task.totalTokens == 9
      && Get(w.usage, 1) == 16 && GetInt(w.lost, 1) == 0 && w.slots[0].past.lapsed == 7
  {
    Crashed();
    hide Run, ReadyOps, OnTasks, Script;
    AttemptAfterCrash(CREATE + OnTasks(0, ReadyOps([7], 0)) + [OnTask(0, Charge), OnTask(0, Kill)]);
  }

  lemma AttemptAfterCrash(crashed: seq<Action>)
    requires var w := Run(map[], crashed);
      && |w.slots| == 1 && w.slots[0].runner == Idle && w.slots[0].task.status == Status.Running
      && w.slots[0].task.user == 1 && w.slots[0].steps == [7] && w.slots[0].past.lapsed == 7
      && Get(w.usage, 1) == 7 && GetInt(w.lost, 1) == 0
    ensures var w := Run(map[], crashed + OnTasks(0, Script(GraphEnds([2]), 1, 2)));
      && |w.slots| == 1 && w.slots[0].task.status == Completed && w.slots[0].task.totalTokens == 9
      && Get(w.usage, 1) == 16 && GetInt(w.lost, 1) == 0 && w.slots[0].past.lapsed == 7
  {
    SumOneMore([], 7);
    SumOneMore([7], 2);
    assert [] + [7] == [7] && [7] + [2] == [7, 2];
    hide Run, OnTasks, Script, RunOps, Sum;
    RunOpsIsRun(map[], crashed, 0, Script(GraphEnds([2]), 1, 2));
    ScriptInWorld(Run(map[], crashed), 0, GraphEnds([2]), 1, 2);
  }

  lemma Crashed()
    ensures var w := Run(map[], CREATE + OnTasks(0, ReadyOps([7], 0)) + [OnTask(0, Charge), OnTask(0, Kill)]);
      && |w.slots| == 1 && w.slots[0].runner == Idle && w.slots[0].task.status == Status.Running
      && w.slots[0].task.user == 1 && w.slots[0].steps == [7] && w.slots[0].past.lapsed == 7
      && Get(w.usage, 1) == 7 && GetInt(w.lost, 1) == 0
  {
    AfterCreate();
    ReadyFromNew(7);
    ReadyStatus(7);
    NewUser();
    hide Run, ReadyOps, OnTasks, Ready, NewSlot, RunSlot;
    QuietRun(CREATE, ReadyOps([7], 0), NewSlot(1, None));
    CrashFromReady(CREATE + OnTasks(0, ReadyOps([7], 0)), Ready(7));
  }

  lemma CrashFromReady(ready: seq<Action>, s: Slot)
    requires var w := Run(map[], ready); w.slots == [s] && w.usage == map[] && w.lost == map[]
    requires s.runner == UsageRead(7, 1, 0) && s.task.user == 1 && s.past.lapsed == 0
    ensures var w := Run(map[], ready + [OnTask(0, Charge), OnTask(0, Kill)]);
      && |w.slots| == 1 && w.slots[0] == s.(runner := Idle, past := s.past.(charged := s.past.charged + 7, lapsed := 7))
      && Get(w.usage, 1) == 7 && GetInt(w.lost, 1) == 0
  {
    hide Run, Step, StepSlot;
    RunTwo(ready, OnTask(0, Charge), OnTask(0, Kill));
    ChargeOne(Run(map[], ready), s, Kill);
    ChargeSteps(s, 1, 0);
    KillCharged(StepSlot(s, Charge, 0), 7);
  }

  lemma KillCharged(s: Slot, usage: nat)
    requires s.runner.Charged?
    ensures StepSlot(s, Kill, usage)
         == s.(runner := Idle, past := s.past.(lapsed := s.past.lapsed + s.runner.tokens))
  {
  }
}
