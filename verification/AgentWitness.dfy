/** A run whose prompt shows tool results without the call they answer. */
module AgentWitness {
  import opened Common
  import opened Messages
  import opened AgentGraph
  import opened AgentHistory
  import Context

  const ONE: Call := Call("search", "c")

  /** Every text costs 8000 tokens; the window is the smallest known one. */
  const CFG: Config := Config((s: string) => 8000, 64_000, 0.8, "plan", "goal", 30)

  /** The model asks for four searches, which succeed, and goes on. */
  const ROUND: Env := Env(false, None, "searching", [ONE, ONE, ONE, ONE], "summary", (i: nat) => Succeeded("found"), "continue")

  function Rounds(n: nat): seq<Env> {
    seq(n, i requires 0 <= i < n => ROUND)
  }

  const START: State := Initial(History([], 0), None)

  lemma NextRound(n: nat)
    ensures Run(CFG, START, Rounds(n + 1)) == Step(CFG, Run(CFG, START, Rounds(n)), ROUND)
  {
    hide Step;
    assert Front(Rounds(n + 1)) == Rounds(n) && Last(Rounds(n + 1)) == ROUND;
  }

  /** The texts of a history, all of them non-empty, cost 8004 each. */
  lemma {:induction false} Costs(ms: seq<Message>)
    requires forall i | 0 <= i < |ms| :: ms[i].body.content != ""
    ensures Context.Total(CFG.tok, Copies(ms)) == 8004 * |ms|
  {
    if ms != [] {
      Costs(Front(ms));
      assert Front(Copies(ms)) == Copies(Front(ms));
    }
  }

  lemma PlanRound(cfg: Config, s: State, env: Env)
    requires Good(s) && s.next == Plan && !env.raises && s.history.messages == []
    ensures var s' := Step(cfg, s, env);
      && s'.next == Think && s'.iteration == 0 && s'.failures == s.failures && Good(s')
      && |s'.history.messages| == 2
      && s'.history.messages[0].body == System(cfg.planPrompt) && s'.history.messages[1].body == Human(cfg.goal)
  {
    assert GoodIds(s.history) && Fresh(s, env);
    hide *;
    PlanIs(cfg, s, env);
    TwoAdded(s.history, System(cfg.planPrompt), Human(cfg.goal));
    StepKeepsGood(cfg, s, env);
  }

  lemma PlanIs(cfg: Config, s: State, env: Env)
    requires s.next == Plan && !env.raises
    ensures var s' := Step(cfg, s, env);
      && s'.next == Think && s'.iteration == 0 && s'.failures == s.failures
      && s'.history == AddMessages(s.history, Unnamed([System(cfg.planPrompt), Human(cfg.goal)]))
  {
    hide AddMessages, Unnamed;
  }

  lemma StartIsGood()
    ensures Good(START) && START.next == Plan && START.history.messages == [] && START.failures == 0 && !ROUND.raises
    ensures Run(CFG, START, Rounds(0)) == START
  {
  }

  lemma AfterPlan()
    ensures var s := Run(CFG, START, Rounds(1));
      && s.next == Think && s.iteration == 0 && s.failures == 0 && Good(s)
      && |s.history.messages| == 2
      && s.history.messages[0].body == System("plan") && s.history.messages[1].body == Human("goal")
  {
    StartIsGood();
    hide Run, Step, Good, Rounds;
    NextRound(0);
    PlanRound(CFG, START, ROUND);
  }

  lemma ThinkRound(s: State)
    requires Good(s) && s.next == Think && s.iteration == 0 && s.failures == 0 && |s.history.messages| == 2
    ensures var s' := Step(CFG, s, ROUND);
      && Good(s') && s'.next == Act && s'.iteration == 1 && s'.failures == 0
      && s.history.messages <= s'.history.messages && |s'.history.messages| == 3
      && Last(s'.history.messages).body == Ai("searching", ROUND.calls)
  {
    ThinkKeepsGood(CFG, s.history, ROUND);
    hide AddMessages, ThinkDrafts, GoodIds, AllAnswer;
    FollowTargets(CFG, Think, Execute(CFG, s, ROUND));
  }

  lemma ActAnswer(cfg: Config, s: State, env: Env, i: nat)
    requires Good(s) && s.next == Act && !env.raises && i < |PendingCalls(s.history)|
    ensures var calls, at := PendingCalls(s.history), |s.history.messages| + i;
      && at < |Step(cfg, s, env).history.messages|
      && Step(cfg, s, env).history.messages[at].body == Tool(ResultText(calls[i], env.tools(i)), calls[i].id)
  {
    hide *;
    ActAppendsAnswers(cfg, s, env);
  }

  lemma ActMoves(cfg: Config, s: State, env: Env)
    requires Good(s) && s.next == Act && !env.raises
    ensures var s' := Step(cfg, s, env);
      && Good(s') && s'.next == Observe && s'.iteration == s.iteration
      && s.history.messages <= s'.history.messages
      && |s'.history.messages| == |s.history.messages| + |PendingCalls(s.history)|
  {
    StepKeepsGood(cfg, s, env);
    ActAppendsAnswers(cfg, s, env);
    hide AddMessages, PendingCalls, FailuresIn, Good;
    FollowTargets(cfg, Act, Execute(cfg, s, env));
  }

  /** A round whose calls are all answered by the same text. */
  ghost predicate Uniform(env: Env, body: Body) {
    forall i: nat | i < |env.calls| :: Tool(ResultText(env.calls[i], env.tools(i)), env.calls[i].id) == body
  }

  lemma ActRound(cfg: Config, s: State, env: Env, body: Body)
    requires Good(s) && s.next == Act && !env.raises && PendingCalls(s.history) == env.calls && Uniform(env, body)
    ensures var s' := Step(cfg, s, env);
      && Good(s') && s'.next == Observe && s'.iteration == s.iteration
      && s.history.messages <= s'.history.messages
      && |s'.history.messages| == |s.history.messages| + |env.calls|
      && forall k | |s.history.messages| <= k < |s'.history.messages| :: s'.history.messages[k].body == body
  {
    hide Good, Step, PendingCalls, ResultText;
    ActMoves(cfg, s, env);
    var before, after := s.history.messages, Step(cfg, s, env).history.messages;
    forall k | |before| <= k < |after| ensures after[k].body == body {
      ActAnswer(cfg, s, env, k - |before|);
    }
  }

  lemma RestOfRound(s: State)
    requires Good(s) && s.next == Observe && s.iteration == 1
    ensures var s' := Step(CFG, Step(CFG, s, ROUND), ROUND);
      s'.next == Think && s'.history == s.history && Good(s')
  {
    hide RecentTools, Strip, Join, GoodIds, AllAnswer, AfterRound, Follow;
    FollowTargets(CFG, Observe, Execute(CFG, s, ROUND));
    FollowTargets(CFG, Reflect, Execute(CFG, Step(CFG, s, ROUND), ROUND));
  }

  /** After one round of four calls the second think is over budget and puts the recent half of the
      history in its prompt, which begins with results whose call is in the other half. */
  lemma OrphanedResults()
    ensures var s := Run(CFG, START, Rounds(5));
      && s.next == Think && StoresSummary(CFG, s.history)
      && AllAnswer(s.history.messages) && !AllAnswer(s.history.messages[|s.history.messages| / 2..])
  {
    AfterPlan();
    NextRound(1);
    NextRound(2);
    NextRound(3);
    NextRound(4);
    hide Run, Step, Rounds, Context.Total, CFG, ROUND;
    RoundFrom(Run(CFG, START, Rounds(1)));
  }

  lemma RoundFrom(s1: State)
    requires Good(s1) && s1.next == Think && s1.iteration == 0 && s1.failures == 0 && |s1.history.messages| == 2
    requires s1.history.messages[0].body == System("plan") && s1.history.messages[1].body == Human("goal")
    ensures var s := Step(CFG, Step(CFG, Step(CFG, Step(CFG, s1, ROUND), ROUND), ROUND), ROUND);
      && s.next == Think && StoresSummary(CFG, s.history)
      && AllAnswer(s.history.messages) && !AllAnswer(s.history.messages[|s.history.messages| / 2..])
  {
    hide Step, AllAnswer, Context.Total;
    ThinkRound(s1);
    var s2 := Step(CFG, s1, ROUND);
    assert PendingCalls(s2.history) == ROUND.calls && Uniform(ROUND, Tool("found", "c"));
    ActRound(CFG, s2, ROUND, Tool("found", "c"));
    var s3 := Step(CFG, s2, ROUND);
    RestOfRound(s3);
    var ms := s3.history.messages;
    AllTexts(s1.history.messages, s2.history.messages, ms);
    Costs(ms);
    OverBudget(s3.history);
    Context.CutSeparatesIffTool(ms, 3);
  }

  lemma OverBudget(h: History)
    requires |h.messages| == 7 && Context.Total(CFG.tok, Copies(h.messages)) == 8004 * 7
    ensures StoresSummary(CFG, h)
  {
  }

  lemma AllTexts(a: seq<Message>, b: seq<Message>, c: seq<Message>)
    requires |a| == 2 && a[0].body == System("plan") && a[1].body == Human("goal")
    requires a <= b && |b| == 3 && Last(b).body == Ai("searching", ROUND.calls)
    requires b <= c && |c| == 7 && forall i | 3 <= i < 7 :: c[i].body == Tool("found", "c")
    ensures c[3].body.Tool? && forall i | 0 <= i < |c| :: c[i].body.content != ""
  {
    forall i | 0 <= i < |c| ensures c[i].body.content != "" {
      if i >= 3 {
        assert c[i].body == Tool("found", "c");
      } else if i < 2 {
        assert c[i] == a[i];
      } else {
        assert c[i] == Last(b);
      }
    }
  }
}
