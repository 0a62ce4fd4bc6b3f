/** Runs in which a user has more active tasks than the cap of five. */
module CapWitness {
  import opened Common
  import opened TaskStatus
  import opened TaskLifecycle
  import opened TaskRunner
  import opened TaskWitnesses

  const CHECK: Action := CheckCap(1)
  const COMMIT: Action := CommitCreate(1, None)

  function Newcomers(n: nat): seq<Slot> { Repeat(NewSlot(1, None), n) }

  /** After some tasks, n new ones of user 1; p more checked and not committed. */
  ghost predicate Crowd(w: World, head: seq<Slot>, n: nat, p: nat, peak: nat) {
    w.slots == head + Newcomers(n) && w.pending == multiset{}[1 := p] && Get(w.peak, 1) == peak
  }

  lemma {:induction false} CountCrowd(head: seq<Slot>, n: nat)
    ensures CountActive(head + Newcomers(n), 1) == CountActive(head, 1) + n
    ensures SumBy(head + Newcomers(n), RevivedOf(1)) == SumBy(head, RevivedOf(1))
  {
    if n == 0 {
      assert head + Newcomers(0) == head;
    } else {
      CountCrowd(head, n - 1);
      OneMore(head, n - 1);
      NewCounts();
      hide NewSlot, Newcomers;
      SumAppend(head + Newcomers(n - 1), NewSlot(1, None), ActiveOf(1));
      SumAppend(head + Newcomers(n - 1), NewSlot(1, None), RevivedOf(1));
    }
  }

  lemma NewCounts()
    ensures ActiveOf(1)(NewSlot(1, None)) == 1 && RevivedOf(1)(NewSlot(1, None)) == 0
  {
  }

  lemma OneMore(head: seq<Slot>, n: nat)
    ensures head + Newcomers(n) + [NewSlot(1, None)] == head + Newcomers(n + 1)
  {
  }

  lemma CheckStep(w: World, head: seq<Slot>, n: nat, p: nat, peak: nat)
    requires Crowd(w, head, n, p, peak) && CountActive(head, 1) + n < 5
    ensures Crowd(Step(w, CHECK), head, n, p + 1, Max(peak, p + 1))
  {
    CountCrowd(head, n);
    hide SumBy, Newcomers;
  }

  lemma CommitStep(w: World, head: seq<Slot>, n: nat, p: nat, peak: nat)
    requires Crowd(w, head, n, p, peak) && p > 0
    ensures Crowd(Step(w, COMMIT), head, n + 1, p - 1, peak)
  {
    OneMore(head, n);
    hide NewSlot, Newcomers, SumBy;
  }

  function Serial(n: nat): seq<Action> { if n == 0 then [] else Serial(n - 1) + [CHECK] + [COMMIT] }

  /** Creates one after the other, up to the cap. */
  lemma {:induction false} SerialCreates(front: seq<Action>, head: seq<Slot>, n: nat, peak: nat)
    requires Crowd(Run(map[], front), head, 0, 0, peak) && CountActive(head, 1) + n <= 5
    ensures Crowd(Run(map[], front + Serial(n)), head, n, 0, if n == 0 then peak else Max(peak, 1))
  {
    hide Run, Step, Crowd, CountActive;
    if n == 0 {
      assert front + Serial(0) == front;
    } else {
      SerialCreates(front, head, n - 1, peak);
      var before := front + Serial(n - 1);
      assert front + Serial(n) == before + [CHECK] + [COMMIT];
      RunThen(map[], before, CHECK);
      RunThen(map[], before + [CHECK], COMMIT);
      var top := if n == 1 then peak else Max(peak, 1);
      CheckStep(Run(map[], before), head, n - 1, 0, top);
      CommitStep(Run(map[], before + [CHECK]), head, n - 1, 1, Max(top, 1));
    }
  }

  lemma {:induction false} Checks(front: seq<Action>, p: nat)
    requires Crowd(Run(map[], front), [], 4, 0, 1)
    ensures Crowd(Run(map[], front + Repeat(CHECK, p)), [], 4, p, Max(1, p))
  {
    hide Run, Step, Crowd, Repeat;
    if p == 0 {
      RepeatMore(front, CHECK, 0);
    } else {
      Checks(front, p - 1);
      RepeatMore(front, CHECK, p - 1);
      RunThen(map[], front + Repeat(CHECK, p - 1), CHECK);
      assert CountActive([], 1) == 0;
      CheckStep(Run(map[], front + Repeat(CHECK, p - 1)), [], 4, p - 1, Max(1, p - 1));
    }
  }

  lemma {:induction false} Commits(front: seq<Action>, p: nat, n: nat, peak: nat)
    requires Crowd(Run(map[], front), [], 4, p, peak) && n <= p
    ensures Crowd(Run(map[], front + Repeat(COMMIT, n)), [], 4 + n, p - n, peak)
  {
    hide Run, Step, Crowd, Repeat;
    if n == 0 {
      RepeatMore(front, COMMIT, 0);
    } else {
      Commits(front, p, n - 1, peak);
      RepeatMore(front, COMMIT, n - 1);
      RunThen(map[], front + Repeat(COMMIT, n - 1), COMMIT);
      CommitStep(Run(map[], front + Repeat(COMMIT, n - 1)), [], 3 + n, p - n + 1, peak);
    }
  }

  lemma Nobody()
    ensures Crowd(Run(map[], []), [], 0, 0, 0) && CountActive([], 1) == 0
  {
    assert [] + Newcomers(0) == [];
  }

  lemma CrowdCounts(w: World, n: nat, p: nat, peak: nat)
    requires Crowd(w, [], n, p, peak)
    ensures CountActive(w.slots, 1) == n && Get(w.peak, 1) == peak && SumBy(w.slots, RevivedOf(1)) == 0
  {
    CountCrowd([], n);
    assert SumBy([], ActiveOf(1)) == 0 && SumBy([], RevivedOf(1)) == 0;
    hide Newcomers, SumBy;
  }

  /** With p create requests checked at once a user can reach four plus p active tasks: six with two. */
  lemma CapExceeded(p: nat)
    requires p >= 1
    ensures var w := Run(map[], Serial(4) + Repeat(CHECK, p) + Repeat(COMMIT, p));
      && CountActive(w.slots, 1) == 4 + p && Get(w.peak, 1) == p && SumBy(w.slots, RevivedOf(1)) == 0
  {
    Nobody();
    assert [] + Serial(4) == Serial(4);
    hide Run, Repeat, Serial, Crowd, CountActive;
    SerialCreates([], [], 4, 0);
    Checks(Serial(4), p);
    Commits(Serial(4) + Repeat(CHECK, p), p, p, Max(1, p));
    CrowdCounts(Run(map[], Serial(4) + Repeat(CHECK, p) + Repeat(COMMIT, p)), 4 + p, 0, p);
  }

  /** A task is cancelled while its runner starts, five more are created one at a time, and the runner
      sets the first going again: six active tasks. */
  lemma RevivedExceedsCap()
    ensures var w := Run(map[], CREATE + OnTasks(0, EARLY) + Serial(5) + OnTasks(0, [SetPlanning(6)]));
      && CountActive(w.slots, 1) == 6 && Get(w.peak, 1) == 1 && SumBy(w.slots, RevivedOf(1)) == 1
  {
    var s, front := RunSlot(NewSlot(1, None), EARLY, 0), CREATE + OnTasks(0, EARLY);
    EarlyCrowd();
    EarlyCounts();
    hide Run, OnTasks, RunSlot, NewSlot, Serial, RunOps, CREATE, EARLY;
    SerialCreates(front, [s], 5, 1);
    var usage := Get(Run(map[], front + Serial(5)).usage, s.task.user);
    RunOpsIsRun(map[], front + Serial(5), 0, [SetPlanning(6)]);
    QuietOps(Run(map[], front + Serial(5)), 0, [SetPlanning(6)]);
    EarlyRevived(usage);
    var revived := RunSlot(s, [SetPlanning(6)], usage);
    assert ([s] + Newcomers(5))[0 := revived] == [revived] + Newcomers(5);
    CountCrowd([revived], 5);
  }

  lemma EarlyCrowd()
    ensures Crowd(Run(map[], CREATE + OnTasks(0, EARLY)), [RunSlot(NewSlot(1, None), EARLY, 0)], 0, 0, 1)
  {
    var s := RunSlot(NewSlot(1, None), EARLY, 0);
    AfterCreate();
    CancelledEarly();
    CrowdAfterCreate();
    hide Run, OnTasks, RunSlot, NewSlot, RunOps, CREATE, EARLY;
    RunOpsIsRun(map[], CREATE, 0, EARLY);
    QuietOps(Run(map[], CREATE), 0, EARLY);
    Replaced(NewSlot(1, None), s);
  }

  lemma Replaced(a: Slot, b: Slot)
    ensures [a][0 := b] == [b] && [b] + Newcomers(0) == [b]
  {
  }

  lemma CrowdAfterCreate()
    ensures var w := Run(map[], CREATE);
      w.pending == multiset{}[1 := 0] && Get(w.peak, 1) == 1 && NewSlot(1, None).task.user == 1
  {
    Nobody();
    assert Serial(1) == Serial(0) + [CHECK] + [COMMIT] && Serial(0) == [];
    assert [] + Serial(1) == CREATE;
    hide Run, Serial, CountActive;
    SerialCreates([], [], 1, 0);
  }

  lemma EarlyCounts()
    ensures var s := RunSlot(NewSlot(1, None), EARLY, 0);
      CountActive([s], 1) == 0 && s.task.user == 1
  {
    EarlySlot();
    var s := RunSlot(NewSlot(1, None), EARLY, 0);
    assert ActiveOf(1)(s) == 0;
    hide RunSlot, NewSlot;
    assert Front([s]) == [] && Last([s]) == s && SumBy([], ActiveOf(1)) == 0;
  }

  lemma EarlySlot()
    ensures var s := RunSlot(NewSlot(1, None), EARLY, 0);
      && s.task.user == 1 && s.task.status == Cancelled && s.runner == Admitted && !s.past.revived
  {
    var s := NewSlot(1, None);
    assert StepSlot(s, Admit, 0) == s.(runner := Admitted);
    assert StepSlot(s.(runner := Admitted), CheckCancel(1, false), 0) == s.(runner := Admitted, cancelling := 1);
    assert StepSlot(s.(runner := Admitted, cancelling := 1), CommitCancel(5), 0).runner == Admitted;
    hide StepSlot, RunSlot;
    RunThree(s, Admit, CheckCancel(1, false), CommitCancel(5), 0);
  }

  lemma EarlyRevived(usage: nat)
    ensures var s := RunSlot(RunSlot(NewSlot(1, None), EARLY, 0), [SetPlanning(6)], usage);
      CountActive([s], 1) == 1 && SumBy([s], RevivedOf(1)) == 1
  {
    EarlySlot();
    var s := RunSlot(NewSlot(1, None), EARLY, 0);
    Revive(s, usage);
    hide RunSlot, NewSlot, StepSlot;
    RunOne(s, SetPlanning(6), usage);
    var revived := StepSlot(s, SetPlanning(6), usage);
    assert Front([revived]) == [] && Last([revived]) == revived;
    assert SumBy([], ActiveOf(1)) == 0 && SumBy([], RevivedOf(1)) == 0;
  }

  lemma Revive(s: Slot, usage: nat)
    requires s.task.status == Cancelled && s.runner == Admitted && s.task.user == 1
    ensures ActiveOf(1)(StepSlot(s, SetPlanning(6), usage)) == 1 && RevivedOf(1)(StepSlot(s, SetPlanning(6), usage)) == 1
  {
  }
}
