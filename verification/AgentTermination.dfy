/** How long the ReAct loop can run, and what its counters say along the way. */
module AgentTermination {
  import opened Common
  import opened Messages
  import opened AgentGraph
  import TaskLifecycle

  /** The most node executions a run with m iterations can take. */
  function Bound(m: int): int { Max(3, 4 * m - 1) }

  /** Where an unfinished run stands after n node executions: the node and the iteration counter
      determine n, and past think the counter is below the limit. */
  ghost predicate OnSchedule(cfg: Config, s: State, n: nat) {
    match s.next
    case Plan => n == 0 && s.iteration == 0
    case Think => n == 1 + 4 * s.iteration && 0 <= s.iteration && (s.iteration == 0 || s.iteration < cfg.maxIterations)
    case Act => n == 4 * s.iteration - 2 && 1 <= s.iteration < cfg.maxIterations
    case Observe => n == 4 * s.iteration - 1 && 1 <= s.iteration < cfg.maxIterations
    case Reflect => n == 4 * s.iteration && 1 <= s.iteration < cfg.maxIterations
    case Report =>
      || (n == 4 * s.iteration - 2 && 1 <= s.iteration && (s.iteration == 1 || s.iteration <= cfg.maxIterations))
      || (n == 4 * s.iteration + 1 && 1 <= s.iteration < cfg.maxIterations)
    case End => n >= 3
    case Raised => true
  }

  lemma {:induction false} AlwaysOnSchedule(cfg: Config, prior: History, stale: Option<string>, envs: seq<Env>)
    ensures var s := Run(cfg, Initial(prior, stale), envs);
      OnSchedule(cfg, s, |envs|)
  {
    if envs != [] {
      hide Step, OnSchedule;
      AlwaysOnSchedule(cfg, prior, stale, Front(envs));
      StepOnSchedule(cfg, Run(cfg, Initial(prior, stale), Front(envs)), Last(envs), |envs| - 1);
    }
  }

  lemma StepOnSchedule(cfg: Config, s: State, env: Env, n: nat)
    requires OnSchedule(cfg, s, n)
    ensures OnSchedule(cfg, Step(cfg, s, env), n + 1)
  {
    hide ThinkDrafts, AddMessages, RecentTools, FailuresIn, Follow, PendingCalls, Strip, Join;
    if !Finished(s) && !env.raises {
      FollowTargets(cfg, s.next, Execute(cfg, s, env));
    }
  }

  /** Whatever the model and the tools answer, the graph has ended, or raised, after at most
      max(3, 4 * max_iterations - 1) node executions, and no run ends in fewer than three. */
  lemma Terminates(cfg: Config, prior: History, stale: Option<string>, envs: seq<Env>)
    ensures var s := Run(cfg, Initial(prior, stale), envs);
      && (|envs| >= 3 && |envs| >= 4 * cfg.maxIterations - 1 ==> s.next == End || s.next == Raised)
      && (|envs| < 3 ==> s.next != End)
  {
    hide Run, Initial;
    AlwaysOnSchedule(cfg, prior, stale, envs);
  }

  // ---- the bound is attained ----

  /** A model that calls one tool every time and never reports, with a tool that always succeeds. */
  const BUSY: Env := Env(false, None, "", [Call("search", "c")], "", (i: nat) => Succeeded("ok"), "continue")

  function Busy(n: nat): seq<Env> {
    seq(n, i requires 0 <= i < n => BUSY)
  }

  lemma BusyFailures(k: nat)
    ensures FailuresIn(k, BUSY.tools) == 0
  {
  }

  lemma LastReply(h: History, ds: seq<Draft>, d: Draft)
    requires ds != [] && Last(ds) == d && d.id.None? && GoodIds(AddMessages(h, Front(ds)))
    ensures AddMessages(h, ds).messages != [] && Last(AddMessages(h, ds).messages).body == d.body
  {
    AddNew(AddMessages(h, Front(ds)), d);
  }

  lemma {:induction false} AddKeepsIds(h: History, ds: seq<Draft>)
    requires GoodIds(h)
    requires forall d | d in ds :: d.id.Some? && d.id.value.Minted? ==> d.id.value.n < h.minted
    ensures GoodIds(AddMessages(h, ds)) && h.minted <= AddMessages(h, ds).minted
  {
    if ds != [] {
      AddKeepsIds(h, Front(ds));
      assert Last(ds) in ds;
      AddOneKeepsIds(AddMessages(h, Front(ds)), Last(ds));
    }
  }

  lemma BusyThink(cfg: Config, h: History)
    requires GoodIds(h)
    ensures var h' := AddMessages(h, ThinkDrafts(cfg, h, BUSY));
      GoodIds(h') && PendingCalls(h') == BUSY.calls
  {
    var ds := ThinkDrafts(cfg, h, BUSY);
    assert Last(ds) == Reply(BUSY);
    forall d | d in ds ensures d.id.Some? && d.id.value.Minted? ==> d.id.value.n < h.minted {
      ThinkDraftIds(cfg, h, BUSY, d);
    }
    AddKeepsIds(h, ds);
    forall d | d in Front(ds) ensures d in ds {
    }
    AddKeepsIds(h, Front(ds));
    LastReply(h, ds, Reply(BUSY));
  }

  lemma ThinkDraftIds(cfg: Config, h: History, env: Env, d: Draft)
    requires GoodIds(h) && d in ThinkDrafts(cfg, h, env)
    ensures d.id.None? || d == Reply(env) || (d.id.value.Minted? ==> d.id.value.n < h.minted)
  {
    var stored := Copies(h.messages);
    var (current, freed) := Context.Summarize(cfg.tok, stored, env.summary);
    if d != Reply(env) && d in current && d != current[0] && |stored| >= 4 {
      assert d in stored[|stored| / 2..];
    }
  }

  lemma BusyStepIds(cfg: Config, s: State)
    requires GoodIds(s.history)
    ensures GoodIds(Execute(cfg, s, BUSY).history)
    ensures s.next == Think ==> PendingCalls(Execute(cfg, s, BUSY).history) == BUSY.calls
    ensures Execute(cfg, s, BUSY).failures == s.failures
  {
    hide ThinkDrafts, RecentTools, AddMessages, FailuresIn, GoodIds, ToolBodies;
    match s.next {
      case Plan => AddKeepsIds(s.history, Unnamed([System(cfg.planPrompt), Human(cfg.goal)]));
      case Think => BusyThink(cfg, s.history);
      case Act =>
        BusyFailures(|PendingCalls(s.history)|);
        AddKeepsIds(s.history, Unnamed(ToolBodies(PendingCalls(s.history), BUSY.tools)));
      case Report => AddKeepsIds(s.history, [Reply(BUSY)]);
      case _ =>
    }
  }

  ghost predicate StaysBusy(cfg: Config, s: State, n: nat) {
    && GoodIds(s.history) && s.failures == 0 && s.next != Raised
    && (s.next == Report ==> s.iteration >= cfg.maxIterations)
    && (s.next == End ==> n >= Bound(cfg.maxIterations))
  }

  lemma BusyStep(cfg: Config, s: State, n: nat)
    requires OnSchedule(cfg, s, n) && StaysBusy(cfg, s, n)
    ensures StaysBusy(cfg, Step(cfg, s, BUSY), n + 1)
  {
    hide ThinkDrafts, RecentTools, AddMessages, FailuresIn, PendingCalls, GoodIds, Strip, Join;
    BusyStepIds(cfg, s);
  }

  lemma {:induction false} BusyRun(cfg: Config, prior: History, stale: Option<string>, n: nat)
    requires GoodIds(prior)
    ensures StaysBusy(cfg, Run(cfg, Initial(prior, stale), Busy(n)), n)
  {
    if n > 0 {
      hide Step, OnSchedule, StaysBusy;
      assert Front(Busy(n)) == Busy(n - 1) && Last(Busy(n)) == BUSY;
      BusyRun(cfg, prior, stale, n - 1);
      AlwaysOnSchedule(cfg, prior, stale, Busy(n - 1));
      BusyStep(cfg, Run(cfg, Initial(prior, stale), Busy(n - 1)), n - 1);
    }
  }

  /** The bound is exact for every limit: the busy run is unfinished one execution earlier and at
      the end node after it. */
  lemma BoundIsExact(cfg: Config, prior: History, stale: Option<string>)
    requires GoodIds(prior)
    ensures var m := Bound(cfg.maxIterations);
      && !Finished(Run(cfg, Initial(prior, stale), Busy(m - 1)))
      && Run(cfg, Initial(prior, stale), Busy(m)).next == End
  {
    hide Run, Initial, GoodIds;
    var m := Bound(cfg.maxIterations);
    BusyRun(cfg, prior, stale, m - 1);
    BusyRun(cfg, prior, stale, m);
    Terminates(cfg, prior, stale, Busy(m));
  }

  // ---- the recursion limit ----

  function RecursionLimit(m: int): int { m * 4 + 10 }

  /** The limit the runner passes is enough, with an execution to spare, exactly when
      max_iterations >= -1; below that no run at all can end within it. */
  lemma RecursionLimitSuffices(cfg: Config, prior: History, stale: Option<string>, envs: seq<Env>)
    ensures var s := Run(cfg, Initial(prior, stale), envs);
      var limit := 4 * cfg.maxIterations + 10;
      && limit == RecursionLimit(cfg.maxIterations)
      && (if cfg.maxIterations >= -1 then |envs| >= limit - 1 ==> Finished(s) else |envs| <= limit ==> s.next != End)
  {
    hide Run, Initial;
    Terminates(cfg, prior, stale, envs);
  }

  /** A task created with this request ends its run within the limit, unless it asked for fewer
      than -1 iterations: then it cannot. */
  lemma RequestedRunFits(requested: Option<int>, cfg: Config, prior: History, stale: Option<string>, envs: seq<Env>)
    requires cfg.maxIterations == TaskLifecycle.ClampIterations(requested)
    ensures var s, limit := Run(cfg, Initial(prior, stale), envs), RecursionLimit(cfg.maxIterations);
      && limit <= 210
      && (requested.None? || requested.value >= -1 ==> |envs| >= limit - 1 ==> Finished(s))
      && (requested.Some? && requested.value < -1 ==> |envs| <= limit ==> s.next != End)
  {
    hide Run, Initial;
    RecursionLimitSuffices(cfg, prior, stale, envs);
  }

  // ---- routing facts ----

  /** The iteration test after reflect never decides: there the counter is always below the limit,
      so only the model's decision to report ends the loop. */
  lemma ReflectDecides(cfg: Config, prior: History, stale: Option<string>, envs: seq<Env>, env: Env)
    requires Run(cfg, Initial(prior, stale), envs).next == Reflect && !env.raises
    ensures Step(cfg, Run(cfg, Initial(prior, stale), envs), env).next
         == if env.decision == "report" then Report else Think
  {
    AlwaysOnSchedule(cfg, prior, stale, envs);
  }

  // ---- failures ----

  /** Failed or unknown tool calls in the rounds that completed. */
  function FailedCalls(cfg: Config, s0: State, envs: seq<Env>): nat {
    if envs == [] then 0
    else
      var s, env := Run(cfg, s0, Front(envs)), Last(envs);
      FailedCalls(cfg, s0, Front(envs))
      + (if s.next == Act && !env.raises then |set i: nat | i < |PendingCalls(s.history)| && !env.tools(i).Succeeded?| else 0)
  }

  lemma {:induction false} FailuresInIsCount(n: nat, tools: nat -> ToolOutcome)
    ensures FailuresIn(n, tools) == |set i: nat | i < n && !tools(i).Succeeded?| <= n
  {
    if n > 0 {
      FailuresInIsCount(n - 1, tools);
      var before := set i: nat | i < n - 1 && !tools(i).Succeeded?;
      var after := set i: nat | i < n && !tools(i).Succeeded?;
      assert after == before + (if tools(n - 1).Succeeded? then {} else {n - 1});
    }
  }

  lemma {:induction false} FailuresAreFailedCalls(cfg: Config, prior: History, stale: Option<string>, envs: seq<Env>)
    ensures Run(cfg, Initial(prior, stale), envs).failures == FailedCalls(cfg, Initial(prior, stale), envs)
  {
    if envs != [] {
      FailuresAreFailedCalls(cfg, prior, stale, Front(envs));
      var s := Run(cfg, Initial(prior, stale), Front(envs));
      FailuresInIsCount(|PendingCalls(s.history)|, Last(envs).tools);
    }
  }

  /** Tools run only below both limits, with at least one call to make. */
  lemma ActGuard(cfg: Config, prior: History, stale: Option<string>, envs: seq<Env>)
    requires Run(cfg, Initial(prior, stale), envs).next == Act
    ensures var s := Run(cfg, Initial(prior, stale), envs);
      s.failures < 10 && s.iteration < cfg.maxIterations && PendingCalls(s.history) != []
  {
    hide Step;
    ActAfterThink(cfg, Run(cfg, Initial(prior, stale), Front(envs)), Last(envs));
  }

  lemma ActAfterThink(cfg: Config, s: State, env: Env)
    requires Step(cfg, s, env).next == Act
    ensures var s' := Step(cfg, s, env);
      s'.failures < 10 && s'.iteration < cfg.maxIterations && PendingCalls(s'.history) != []
  {
    hide ThinkDrafts, AddMessages, RecentTools, FailuresIn, Follow, PendingCalls, Strip, Join;
    if !Finished(s) && !env.raises {
      FollowTargets(cfg, s.next, Execute(cfg, s, env));
    }
  }

  /** The calls of the last round of the run that act completed, if there was one. */
  function LastRound(cfg: Config, s0: State, envs: seq<Env>): Option<nat> {
    if envs == [] then None
    else
      var s := Run(cfg, s0, Front(envs));
      if s.next == Act && !Last(envs).raises then Some(|PendingCalls(s.history)|)
      else LastRound(cfg, s0, Front(envs))
  }

  /** What a step does to the failures. */
  lemma StepFailures(cfg: Config, s: State, env: Env)
    ensures var s' := Step(cfg, s, env);
      if s.next == Act && !env.raises then s.failures <= s'.failures <= s.failures + |PendingCalls(s.history)|
      else s'.failures == s.failures
  {
    FailuresInIsCount(|PendingCalls(s.history)|, env.tools);
    hide ThinkDrafts, AddMessages, ObserveNode, FailuresIn, PendingCalls, Follow;
  }

  /** At every moment the failures are below the limit plus the calls of the last round that act
      completed, and zero before the first. */
  lemma {:induction false} FailuresBounded(cfg: Config, prior: History, stale: Option<string>, envs: seq<Env>)
    ensures var failures, last := Run(cfg, Initial(prior, stale), envs).failures, LastRound(cfg, Initial(prior, stale), envs);
      && (last.None? ==> failures == 0)
      && (last.Some? ==> failures < 10 + last.value)
  {
    if envs != [] {
      hide Step, PendingCalls;
      var s0, front := Initial(prior, stale), Front(envs);
      var s := Run(cfg, s0, front);
      FailuresBounded(cfg, prior, stale, front);
      StepFailures(cfg, s, Last(envs));
      if s.next == Act && !Last(envs).raises {
        ActGuard(cfg, prior, stale, front);
      }
    }
  }
}
