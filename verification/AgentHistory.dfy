/** What every run of the ReAct loop does to the stored messages. */
module AgentHistory {
  import opened Common
  import opened Messages
  import opened AgentGraph
  import Context
  import Sorting

  /** A reply about to be stored carries no id, or one not in the history. */
  ghost predicate Fresh(s: State, env: Env) {
    s.next == Think || s.next == Report ==> NewTo(s.history, Reply(env))
  }

  /** An assumption on the model provider: every reply that is stored is new. */
  ghost predicate FreshReplies(cfg: Config, s0: State, envs: seq<Env>) {
    forall i | 0 <= i < |envs| :: Fresh(Run(cfg, s0, envs[..i]), envs[i])
  }

  /** What the history satisfies before each node. */
  ghost predicate Good(s: State) {
    var ms := s.history.messages;
    && GoodIds(s.history) && AllAnswer(ms)
    && (s.next == Act ==> PendingCalls(s.history) != [])
    && (s.next == Observe ==> AfterRound(ms))
  }

  /** The history ends with a reply and one tool message for each of its calls. */
  ghost predicate AfterRound(ms: seq<Message>) {
    && ms != [] && var a := Asker(ms, |ms| - 1);
    ms[a].body.Ai? && |ms[a].body.calls| == |ms| - 1 - a >= 1
  }

  // ---- think ----

  lemma CopiesSplit(ms: seq<Message>, k: nat)
    requires k <= |ms|
    ensures Copies(ms)[k..] == Copies(ms[k..])
  {
  }

  lemma StoredIn(h: History, h1: History, k: nat)
    requires k <= |h.messages| && h.messages <= h1.messages
    ensures forall m | m in h.messages[k..] :: m in h1.messages
  {
    forall m | m in h.messages[k..] ensures m in h1.messages {
      var i :| 0 <= i < |h.messages| - k && h.messages[k..][i] == m;
      assert h1.messages[k + i] == m;
    }
  }

  /** The summary is stored, and the recent half is already there. */
  lemma AddSummarized(h: History, k: nat, summary: Draft)
    requires GoodIds(h) && k <= |h.messages| && summary.id.None?
    ensures AddMessages(h, [summary] + Copies(h.messages)[k..]) == AddOne(h, summary)
  {
    AddNew(h, summary);
    hide AddOne, AddMessages, GoodIds;
    CopiesSplit(h.messages, k);
    AddInTwo(h, [summary], Copies(h.messages[k..]));
    AddTheOne(h, summary);
    StoredIn(h, AddOne(h, summary), k);
    AddAllStored(AddOne(h, summary), h.messages[k..]);
  }

  lemma StaysNew(h: History, summary: Draft, reply: Draft)
    requires GoodIds(h) && summary.id.None? && NewTo(h, reply)
    ensures NewTo(AddOne(h, summary), reply)
  {
    AddNew(h, summary);
    if reply.id.Some? {
      assert Last(AddOne(h, summary).messages).id.Minted?;
    }
  }

  /** Merging a summary, the untouched recent half and a reply stores the whole old history, the
      summary and the reply: nothing is dropped. */
  lemma MergeSummarized(h: History, k: nat, summary: Draft, reply: Draft)
    requires GoodIds(h) && k <= |h.messages| && summary.id.None? && NewTo(h, reply)
    ensures AddMessages(h, [summary] + Copies(h.messages)[k..] + [reply]) == AddOne(AddOne(h, summary), reply)
    ensures NewTo(AddOne(h, summary), reply)
  {
    hide *;
    StaysNew(h, summary, reply);
    AddSummarized(h, k, summary);
    var current := [summary] + Copies(h.messages)[k..];
    AddInTwo(h, current, [reply]);
    AddTheOne(AddOne(h, summary), reply);
  }

  /** Whether this think call stores a summary next to its reply. */
  predicate StoresSummary(cfg: Config, h: History) {
    Summarizes(cfg, h) && |h.messages| >= 4
  }

  /** Think only appends: the reply, and before it the summary if there is one. */
  lemma ThinkAppends(cfg: Config, h: History, env: Env)
    requires GoodIds(h) && NewTo(h, Reply(env))
    ensures AddMessages(h, ThinkDrafts(cfg, h, env))
         == if StoresSummary(cfg, h)
            then AddOne(AddOne(h, Context.SummaryDraft(env.summary)), Reply(env))
            else AddOne(h, Reply(env))
    ensures StoresSummary(cfg, h) ==> NewTo(AddOne(h, Context.SummaryDraft(env.summary)), Reply(env))
  {
    var stored := Copies(h.messages);
    Context.SummarizeConserves(cfg.tok, stored, env.summary);
    if StoresSummary(cfg, h) {
      var split := |stored| / 2;
      MergeSummarized(h, split, Context.SummaryDraft(env.summary), Reply(env));
    } else {
      AddTheOne(h, Reply(env));
    }
  }

  lemma AppendKeepsGood(h: History, d: Draft)
    requires GoodIds(h) && AllAnswer(h.messages) && NewTo(h, d) && !d.body.Tool?
    ensures GoodIds(AddOne(h, d)) && AllAnswer(AddOne(h, d).messages)
    ensures h.messages <= AddOne(h, d).messages && Last(AddOne(h, d).messages).body == d.body
    ensures |AddOne(h, d).messages| == |h.messages| + 1
  {
    AddNew(h, d);
    var ms := AddOne(h, d).messages;
    assert ms == h.messages + [Last(ms)];
    AppendAnswers(h.messages, Last(ms));
  }

  lemma ThinkKeepsGood(cfg: Config, h: History, env: Env)
    requires GoodIds(h) && AllAnswer(h.messages) && NewTo(h, Reply(env))
    ensures var h' := AddMessages(h, ThinkDrafts(cfg, h, env));
      && GoodIds(h') && AllAnswer(h'.messages)
      && h.messages <= h'.messages
      && |h'.messages| == |h.messages| + (if StoresSummary(cfg, h) then 2 else 1)
      && Last(h'.messages).body == Ai(env.content, env.calls)
      && (StoresSummary(cfg, h) ==>
            h'.messages[|h.messages|].body == Context.SummaryDraft(env.summary).body)
  {
    hide ThinkDrafts, AddOne, GoodIds, AllAnswer;
    ThinkAppends(cfg, h, env);
    if StoresSummary(cfg, h) {
      var d := Context.SummaryDraft(env.summary);
      AppendKeepsGood(h, d);
      AppendKeepsGood(AddOne(h, d), Reply(env));
    } else {
      AppendKeepsGood(h, Reply(env));
    }
  }

  // ---- act ----

  lemma {:induction false} ToolsAnswer(ms: seq<Message>, tools: seq<Message>)
    requires AllAnswer(ms) && ms != [] && Last(ms).body.Ai? && |tools| <= |Last(ms).body.calls|
    requires forall i | 0 <= i < |tools| ::
               tools[i].body.Tool? && tools[i].body.callId == Last(ms).body.calls[i].id
    ensures AllAnswer(ms + tools)
    ensures Asker(ms + tools, |ms| + |tools| - 1) == |ms| - 1
  {
    if tools == [] {
      assert ms + tools == ms;
    } else {
      var before := ms + Front(tools);
      ToolsAnswer(ms, Front(tools));
      assert ms + tools == before + [Last(tools)];
      AppendAnswers(before, Last(tools));
      AskerOfPrefix(before, [Last(tools)], |before| - 1);
    }
  }

  /** Act appends exactly one tool message per call, in call order. */
  lemma ActAppends(h: History, tools: nat -> ToolOutcome)
    requires GoodIds(h) && AllAnswer(h.messages) && PendingCalls(h) != []
    ensures var calls := PendingCalls(h);
      var h' := AddMessages(h, Unnamed(ToolBodies(calls, tools)));
      && GoodIds(h') && AllAnswer(h'.messages) && AfterRound(h'.messages)
      && h.messages <= h'.messages && |h'.messages| == |h.messages| + |calls|
      && forall i: nat | i < |calls| ::
           h'.messages[|h.messages| + i].body == Tool(ResultText(calls[i], tools(i)), calls[i].id)
  {
    hide GoodIds, AllAnswer, AddMessages, AfterRound, ToolBodies, Unnamed, ResultText;
    var bodies := ToolBodies(PendingCalls(h), tools);
    AddDrafts(h, bodies);
    RoundAnswers(h.messages, AddMessages(h, Unnamed(bodies)).messages, bodies);
  }

  lemma RoundAnswers(before: seq<Message>, ms: seq<Message>, bodies: seq<Body>)
    requires AllAnswer(before) && before != [] && Last(before).body.Ai? && bodies != []
    requires |bodies| == |Last(before).body.calls|
    requires forall i | 0 <= i < |bodies| :: bodies[i].Tool? && bodies[i].callId == Last(before).body.calls[i].id
    requires before <= ms && |ms| == |before| + |bodies|
    requires forall i | 0 <= i < |bodies| :: ms[|before| + i].body == bodies[i]
    ensures AllAnswer(ms) && AfterRound(ms)
  {
    hide AllAnswer, Asker;
    var added := ms[|before|..];
    assert ms == before + added;
    forall i | 0 <= i < |added| ensures added[i].body == bodies[i] {
      assert added[i] == ms[|before| + i];
    }
    ToolsAnswer(before, added);
  }

  // ---- every run ----

  lemma PlanAppends(h: History, a: Body, b: Body)
    requires GoodIds(h) && AllAnswer(h.messages) && !a.Tool? && !b.Tool?
    ensures var h' := AddMessages(h, Unnamed([a, b]));
      && GoodIds(h') && AllAnswer(h'.messages)
      && h.messages <= h'.messages && |h'.messages| == |h.messages| + 2
  {
    AddDrafts(h, [a, b]);
    var ms := AddMessages(h, Unnamed([a, b])).messages;
    var n := |h.messages|;
    assert ms == h.messages + [ms[n]] + [ms[n + 1]];
    assert ms[n].body == [a, b][0] && ms[n + 1].body == [a, b][1];
    AppendAnswers(h.messages, ms[n]);
    AppendAnswers(h.messages + [ms[n]], ms[n + 1]);
  }

  lemma StepKeepsGood(cfg: Config, s: State, env: Env)
    requires Good(s) && Fresh(s, env)
    ensures Good(Step(cfg, s, env))
    ensures s.history.messages <= Step(cfg, s, env).history.messages
    ensures s.next == Think && !env.raises ==> |Step(cfg, s, env).history.messages| > |s.history.messages|
    ensures s.next == Act && !env.raises ==> |Step(cfg, s, env).history.messages| > |s.history.messages|
  {
    hide GoodIds, AllAnswer, AddMessages, ThinkDrafts, AfterRound, RecentTools, FailuresIn, Strip, Join, NewTo;
    if !Finished(s) && !env.raises {
      match s.next {
        case Plan => PlanAppends(s.history, System(cfg.planPrompt), Human(cfg.goal));
        case Think => ThinkKeepsGood(cfg, s.history, env);
        case Act => ActAppends(s.history, env.tools);
        case Report =>
          AppendKeepsGood(s.history, Reply(env));
          AddTheOne(s.history, Reply(env));
        case _ =>
      }
    }
  }

  lemma FreshFront(cfg: Config, s0: State, envs: seq<Env>)
    requires FreshReplies(cfg, s0, envs) && envs != []
    ensures FreshReplies(cfg, s0, Front(envs))
    ensures Fresh(Run(cfg, s0, Front(envs)), Last(envs))
  {
    hide Run, Fresh;
    var front := Front(envs);
    forall i | 0 <= i < |front| ensures Fresh(Run(cfg, s0, front[..i]), front[i]) {
      assert front[..i] == envs[..i];
    }
    assert envs[..|envs| - 1] == front;
  }

  lemma {:induction false} AlwaysGood(cfg: Config, s0: State, envs: seq<Env>)
    requires Good(s0) && FreshReplies(cfg, s0, envs)
    ensures Good(Run(cfg, s0, envs))
  {
    if envs != [] {
      hide Good, FreshReplies, Step, Fresh;
      FreshFront(cfg, s0, envs);
      AlwaysGood(cfg, s0, Front(envs));
      StepKeepsGood(cfg, Run(cfg, s0, Front(envs)), Last(envs));
    }
  }

  /** No stored message is ever lost, changed or moved: an earlier history is a prefix of every
      later one. */
  lemma {:induction false} HistoryOnlyGrows(cfg: Config, s0: State, envs: seq<Env>, i: nat)
    requires Good(s0) && FreshReplies(cfg, s0, envs) && i <= |envs|
    ensures Run(cfg, s0, envs[..i]).history.messages <= Run(cfg, s0, envs).history.messages
  {
    if i == |envs| {
      assert envs[..i] == envs;
    } else {
      hide Good, FreshReplies, Step, Fresh;
      FreshFront(cfg, s0, envs);
      AlwaysGood(cfg, s0, Front(envs));
      StepKeepsGood(cfg, Run(cfg, s0, Front(envs)), Last(envs));
      HistoryOnlyGrows(cfg, s0, Front(envs), i);
      assert envs[..i] == Front(envs)[..i];
    }
  }

  /** Over every run, with or without summarising: ids stay distinct, every tool message answers,
      position by position, the calls of the reply that heads its round, and it answers a call
      made earlier in the list. */
  lemma HistoryInvariant(cfg: Config, prior: History, stale: Option<string>, envs: seq<Env>)
    requires GoodIds(prior) && AllAnswer(prior.messages)
    requires FreshReplies(cfg, Initial(prior, stale), envs)
    ensures var h := Run(cfg, Initial(prior, stale), envs).history;
      && (forall i, j | 0 <= i < j < |h.messages| :: h.messages[i].id != h.messages[j].id)
      && prior.messages <= h.messages
      && AllAnswer(h.messages)
      && (forall i | 0 <= i < |h.messages| && h.messages[i].body.Tool? ::
            exists j, k | 0 <= j < i && h.messages[j].body.Ai? && 0 <= k < |h.messages[j].body.calls| ::
              h.messages[j].body.calls[k].id == h.messages[i].body.callId)
  {
    var s0 := Initial(prior, stale);
    assert Good(s0);
    AlwaysGood(cfg, s0, envs);
    HistoryOnlyGrows(cfg, s0, envs, 0);
    var ms := Run(cfg, s0, envs).history.messages;
    forall i | 0 <= i < |ms| && ms[i].body.Tool?
      ensures exists j, k | 0 <= j < i && ms[j].body.Ai? && 0 <= k < |ms[j].body.calls| ::
                ms[j].body.calls[k].id == ms[i].body.callId
    {
      AnswersEarlierCall(ms, i);
    }
  }

  lemma ActAppendsAnswers(cfg: Config, s: State, env: Env)
    requires Good(s) && s.next == Act && !env.raises
    ensures var calls := PendingCalls(s.history);
      var before, after := s.history.messages, Step(cfg, s, env).history.messages;
      && before != [] && calls != [] && Last(before).body.Ai? && Last(before).body.calls == calls
      && before <= after && |after| == |before| + |calls|
      && forall i: nat | i < |calls| ::
           after[|before| + i].body == Tool(ResultText(calls[i], env.tools(i)), calls[i].id)
  {
    ActAppends(s.history, env.tools);
    hide GoodIds, AllAnswer, AddMessages, ThinkDrafts, FailuresIn;
  }

  lemma PlanAppendsPrompt(cfg: Config, s: State, env: Env)
    requires Good(s) && s.next == Plan && !env.raises
    ensures PlanAppended(cfg, s.history.messages, Step(cfg, s, env).history.messages)
  {
    PlanAppends(s.history, System(cfg.planPrompt), Human(cfg.goal));
    TwoAdded(s.history, System(cfg.planPrompt), Human(cfg.goal));
    hide GoodIds, AllAnswer, AddMessages, Unnamed, Follow;
  }

  lemma StoresSummaryMeaning(cfg: Config, h: History)
    ensures var ms := h.messages;
      var over := |ms| >= 4 && Context.Total(cfg.tok, Copies(ms)) as real > cfg.window as real * cfg.budget;
      StoresSummary(cfg, h) == over
  {
    hide Context.Total, Copies;
  }

  lemma ThinkStep(cfg: Config, s: State, env: Env)
    requires s.next == Think && !env.raises
    ensures Step(cfg, s, env).history == AddMessages(s.history, ThinkDrafts(cfg, s.history, env))
  {
    hide AddMessages, ThinkDrafts, Follow, FailuresIn;
  }

  /** What a think call over the context budget stores besides its reply. */
  lemma ThinkStores(cfg: Config, s: State, env: Env)
    requires Good(s) && Fresh(s, env) && s.next == Think && !env.raises
    ensures ThinkAppended(cfg, s.history.messages, Step(cfg, s, env).history.messages, env)
  {
    hide GoodIds, AllAnswer, AddMessages, ThinkDrafts, FailuresIn, Follow, Context.Total, Step, StoresSummary, Copies,
         NewTo;
    ThinkStep(cfg, s, env);
    ThinkKeepsGood(cfg, s.history, env);
    StoresSummaryMeaning(cfg, s.history);
  }

  /** The texts of tool messages: the output, or one of two errors. */
  lemma ActStores(cfg: Config, s: State, env: Env)
    requires Good(s) && s.next == Act && !env.raises
    ensures ActAppended(s.history.messages, Step(cfg, s, env).history.messages, env)
  {
    hide Step, Good, PendingCalls;
    ActAppendsAnswers(cfg, s, env);
  }

  lemma RestStores(cfg: Config, s: State, env: Env)
    requires Good(s) && Fresh(s, env) && !env.raises
    ensures var before, after := s.history.messages, Step(cfg, s, env).history.messages;
      && (s.next == Observe || s.next == Reflect ==> after == before)
      && (s.next == Report ==> ReportAppended(before, after, env))
  {
    if s.next == Report {
      AddTheOne(s.history, Reply(env));
      AddNew(s.history, Reply(env));
    }
    hide GoodIds, AllAnswer, AddMessages, AddOne, RecentTools, Strip, Join, Follow;
  }

  ghost predicate PlanAppended(cfg: Config, before: seq<Message>, after: seq<Message>) {
    && before <= after && |after| == |before| + 2
    && after[|before|].body == System(cfg.planPrompt) && after[|before| + 1].body == Human(cfg.goal)
  }

  ghost predicate ThinkAppended(cfg: Config, before: seq<Message>, after: seq<Message>, env: Env) {
    var over := |before| >= 4 && Context.Total(cfg.tok, Copies(before)) as real > cfg.window as real * cfg.budget;
    && before <= after && |after| == |before| + (if over then 2 else 1)
    && Last(after).body == Ai(env.content, env.calls)
    && (over ==> after[|before|].body == System("[SUMMARY OF EARLIER STEPS]\n" + env.summary))
  }

  ghost predicate ActAppended(before: seq<Message>, after: seq<Message>, env: Env) {
    && before != [] && Last(before).body.Ai?
    && var calls := Last(before).body.calls;
    && calls != [] && before <= after && |after| == |before| + |calls|
    && forall i: nat | i < |calls| ::
         after[|before| + i].body
         == Tool(if env.tools(i).Succeeded? then env.tools(i).output
                 else if env.tools(i).Failed? then "Error: " + env.tools(i).error
                 else "Error: tool '" + calls[i].name + "' is not available.",
                 calls[i].id)
  }

  ghost predicate ReportAppended(before: seq<Message>, after: seq<Message>, env: Env) {
    before <= after && |after| == |before| + 1 && Last(after).body == Ai(env.content, env.calls)
  }

  /** What each node appends, in every run: plan the prompt and the goal; think its reply, and before
      it a summary exactly if there were four messages or more and they were over the budget; act one
      tool message per call of the reply before it, in call order; report its reply; observe and
      reflect nothing. */
  lemma NodesAppend(cfg: Config, s0: State, envs: seq<Env>, env: Env)
    requires Good(s0) && FreshReplies(cfg, s0, envs) && !env.raises
    requires Fresh(Run(cfg, s0, envs), env)
    ensures var s := Run(cfg, s0, envs);
      var before, after := s.history.messages, Step(cfg, s, env).history.messages;
      && (s.next == Plan ==> PlanAppended(cfg, before, after))
      && (s.next == Think ==> ThinkAppended(cfg, before, after, env))
      && (s.next == Act ==> ActAppended(before, after, env))
      && (s.next == Observe || s.next == Reflect ==> after == before)
      && (s.next == Report ==> ReportAppended(before, after, env))
  {
    hide *;
    AlwaysGood(cfg, s0, envs);
    var s := Run(cfg, s0, envs);
    if s.next == Plan {
      PlanAppendsPrompt(cfg, s, env);
    } else if s.next == Think {
      ThinkStores(cfg, s, env);
    } else if s.next == Act {
      ActStores(cfg, s, env);
    } else {
      RestStores(cfg, s, env);
    }
  }

  lemma ReportStored(cfg: Config, s: State, env: Env)
    requires Good(s) && Fresh(s, env) && s.next == Report && !env.raises
    ensures var s' := Step(cfg, s, env);
      && s'.next == End && s'.done
      && s'.history.messages != [] && Last(s'.history.messages).body == Ai(env.content, env.calls)
  {
    AddTheOne(s.history, Reply(env));
    AddNew(s.history, Reply(env));
    hide GoodIds, AllAnswer, AddMessages, AddOne;
  }

  /** The last stored message is the reply the report node got as the i-th node of the run. */
  ghost predicate ReportedAt(cfg: Config, s0: State, envs: seq<Env>, i: nat)
    requires i < |envs|
  {
    var ms := Run(cfg, s0, envs).history.messages;
    && Run(cfg, s0, envs[..i]).next == Report && !envs[i].raises
    && ms != [] && Last(ms).body == Ai(envs[i].content, envs[i].calls)
  }

  lemma OnlyReportEnds(cfg: Config, s: State, env: Env)
    requires (s.done <==> s.next == End) && (s.next != Report || env.raises)
    ensures var s' := Step(cfg, s, env);
      (s'.done <==> s'.next == End) && (s'.next == End ==> s' == s)
  {
    if !Finished(s) && !env.raises {
      hide AddMessages, ThinkDrafts, FailuresIn, ObserveNode, Follow;
      FollowTargets(cfg, s.next, Execute(cfg, s, env));
    }
  }

  /** A run is done exactly when it is at the end node, and then the report node's reply is the
      last stored message. */
  lemma {:induction false} EndsWithReport(cfg: Config, prior: History, stale: Option<string>, envs: seq<Env>)
    requires GoodIds(prior) && AllAnswer(prior.messages)
    requires FreshReplies(cfg, Initial(prior, stale), envs)
    ensures var s := Run(cfg, Initial(prior, stale), envs);
      && (s.done <==> s.next == End)
      && (s.done ==> exists i: nat :: i < |envs| && ReportedAt(cfg, Initial(prior, stale), envs, i))
  {
    if envs != [] {
      var s0, front, env := Initial(prior, stale), Front(envs), Last(envs);
      assert Good(s0);
      hide FreshReplies, Fresh, Step, Good, GoodIds, AllAnswer, ReportedAt;
      FreshFront(cfg, s0, envs);
      AlwaysGood(cfg, s0, front);
      EndsWithReport(cfg, prior, stale, front);
      if Run(cfg, s0, front).next == Report && !env.raises {
        ReportedNow(cfg, s0, envs);
      } else {
        OnlyReportEnds(cfg, Run(cfg, s0, front), env);
        if Run(cfg, s0, envs).done {
          var i: nat :| i < |front| && ReportedAt(cfg, s0, front, i);
          ReportedBefore(cfg, s0, envs, i);
        }
      }
    }
  }

  lemma ReportedNow(cfg: Config, s0: State, envs: seq<Env>)
    requires envs != [] && Run(cfg, s0, Front(envs)).next == Report && !Last(envs).raises
    requires Good(Run(cfg, s0, Front(envs))) && Fresh(Run(cfg, s0, Front(envs)), Last(envs))
    ensures ReportedAt(cfg, s0, envs, |envs| - 1)
    ensures Run(cfg, s0, envs).done && Run(cfg, s0, envs).next == End
  {
    hide Good, Fresh, Step;
    ReportStored(cfg, Run(cfg, s0, Front(envs)), Last(envs));
    assert envs[..|envs| - 1] == Front(envs);
  }

  lemma ReportedBefore(cfg: Config, s0: State, envs: seq<Env>, i: nat)
    requires envs != [] && i < |envs| - 1 && ReportedAt(cfg, s0, Front(envs), i)
    requires Run(cfg, s0, envs) == Run(cfg, s0, Front(envs))
    ensures ReportedAt(cfg, s0, envs, i)
  {
    hide Run;
    assert envs[..i] == Front(envs)[..i];
  }

  // ---- the observation window ----

  /** At least this many messages separate the history at one observe from that at a later node. */
  function Gap(n: Node): nat {
    match n
    case Act => 1
    case Observe => 2
    case _ => 0
  }

  lemma StepGap(cfg: Config, s: State, env: Env, n: nat)
    requires Good(s) && Fresh(s, env)
    requires |s.history.messages| >= n + (if s.next == Observe then 0 else Gap(s.next))
    ensures |Step(cfg, s, env).history.messages| >= n + Gap(Step(cfg, s, env).next)
  {
    StepKeepsGood(cfg, s, env);
    hide Good, Fresh, Execute, Follow;
    if !Finished(s) {
      FollowTargets(cfg, s.next, Execute(cfg, s, env));
    }
  }

  lemma {:induction false} ObserveGap(cfg: Config, s0: State, envs: seq<Env>, i: nat)
    requires Good(s0) && FreshReplies(cfg, s0, envs) && i < |envs|
    requires Run(cfg, s0, envs[..i]).next == Observe
    ensures var s := Run(cfg, s0, envs);
      |s.history.messages| >= |Run(cfg, s0, envs[..i]).history.messages| + Gap(s.next)
  {
    hide Good, FreshReplies, Fresh, Step;
    var front := Front(envs);
    FreshFront(cfg, s0, envs);
    AlwaysGood(cfg, s0, front);
    assert envs[..i] == front[..i];
    if i == |front| {
      assert envs[..i] == front;
    } else {
      ObserveGap(cfg, s0, front, i);
    }
    StepGap(cfg, Run(cfg, s0, front), Last(envs), |Run(cfg, s0, envs[..i]).history.messages|);
  }

  /** A stored message is copied into the scratchpad by at most three rounds: what was in the
      history at one observe is out of the last five at the third observe after it. */
  lemma CopiedAtMostThrice(cfg: Config, s0: State, envs: seq<Env>, a: nat, b: nat, c: nat, d: nat, p: nat)
    requires Good(s0) && FreshReplies(cfg, s0, envs) && a < b < c < d <= |envs|
    requires forall i | i in {a, b, c, d} :: Run(cfg, s0, envs[..i]).next == Observe
    requires p < |Run(cfg, s0, envs[..a]).history.messages|
    ensures p < |Run(cfg, s0, envs[..d]).history.messages| - 5
  {
    GapBetween(cfg, s0, envs, a, b);
    GapBetween(cfg, s0, envs, b, c);
    GapBetween(cfg, s0, envs, c, d);
  }

  lemma GapBetween(cfg: Config, s0: State, envs: seq<Env>, i: nat, j: nat)
    requires Good(s0) && FreshReplies(cfg, s0, envs) && i < j <= |envs|
    requires Run(cfg, s0, envs[..i]).next == Observe && Run(cfg, s0, envs[..j]).next == Observe
    ensures |Run(cfg, s0, envs[..j]).history.messages| >= |Run(cfg, s0, envs[..i]).history.messages| + 2
  {
    hide Run, Good, Fresh;
    var upTo := envs[..j];
    forall k | 0 <= k < |upTo| ensures Fresh(Run(cfg, s0, upTo[..k]), upTo[k]) {
      assert upTo[..k] == envs[..k];
    }
    assert FreshReplies(cfg, s0, upTo);
    assert upTo[..i] == envs[..i];
    ObserveGap(cfg, s0, upTo, i);
  }

  /** What a round's observe copies: the last min(5, n) of the round's n outputs, in order, after
      whatever older outputs are still among the last five messages. With four or more calls
      there are no older ones, and with five or fewer every output of the round is copied. */
  ghost predicate CopiesRound(ms: seq<Message>)
    requires ms != []
  {
    var n := |ms| - 1 - Asker(ms, |ms| - 1);
    var copied, own := RecentTools(ms), Newest(ms, Min(n, 5));
    && |own| == Min(n, 5) <= |copied|
    && copied[|copied| - |own|..] == own
    && (n >= 4 ==> copied == own)
  }

  lemma ObservesOwnRound(ms: seq<Message>)
    requires AfterRound(ms)
    ensures CopiesRound(ms)
  {
    hide Asker, RecentTools, Newest;
    RoundWindow(ms, Asker(ms, |ms| - 1));
  }

  lemma RoundWindow(ms: seq<Message>, a: nat)
    requires a < |ms| - 1 && ms[a].body.Ai? && forall k | a < k < |ms| :: ms[k].body.Tool?
    ensures var n := |ms| - 1 - a;
      var copied, own := RecentTools(ms), Newest(ms, Min(n, 5));
      && |own| == Min(n, 5) <= |copied|
      && copied[|copied| - |own|..] == own
      && (n >= 4 ==> copied == own)
  {
    hide Sorting.Filter;
    var n := |ms| - 1 - a;
    var lo, mid := Max(0, |ms| - 5), |ms| - Min(n, 5);
    assert Newest(ms, 5) == ms[lo..] && Newest(ms, Min(n, 5)) == ms[mid..];
    assert lo <= mid && a < mid && (n >= 4 ==> lo == mid || (lo == mid - 1 && lo == a));
    hide Newest, Max, Min;
    forall i | 0 <= i < |ms| - mid ensures ms[mid..][i].body.Tool? {
      assert ms[mid..][i] == ms[mid + i];
    }
    FilterWindow(ms, lo, mid);
    SuffixOf(Sorting.Filter(ms[lo..mid], IS_TOOL), ms[mid..]);
  }

  lemma SuffixOf<T>(older: seq<T>, own: seq<T>)
    ensures var all := older + own;
      all[|all| - |own|..] == own && (older == [] ==> all == own)
  {
  }

  lemma FilterWindow(ms: seq<Message>, lo: nat, mid: nat)
    requires lo <= mid <= |ms| && forall i | 0 <= i < |ms| - mid :: ms[mid..][i].body.Tool?
    ensures Sorting.Filter(ms[lo..], IS_TOOL) == Sorting.Filter(ms[lo..mid], IS_TOOL) + ms[mid..]
    ensures lo == mid || (lo == mid - 1 && !ms[lo].body.Tool?) ==> Sorting.Filter(ms[lo..mid], IS_TOOL) == []
  {
    assert ms[lo..] == ms[lo..mid] + ms[mid..];
    FilterRound(ms[lo..mid], ms[mid..]);
  }

  lemma FilterRound(older: seq<Message>, own: seq<Message>)
    requires forall i | 0 <= i < |own| :: own[i].body.Tool?
    ensures Sorting.Filter(older + own, IS_TOOL) == Sorting.Filter(older, IS_TOOL) + own
    ensures |older| <= 1 && (older == [] || !older[0].body.Tool?) ==> Sorting.Filter(older, IS_TOOL) == []
  {
    Sorting.FilterJoin(older, own, IS_TOOL);
    Sorting.FilterSuffix(own, 0, IS_TOOL);
    assert own[0..] == own;
  }

  /** In every run, observe copies the outputs of the round before it: all of them if there are at
      most five, else the last five, and with four or more nothing else. */
  lemma ObserveCopiesRound(cfg: Config, s0: State, envs: seq<Env>)
    requires Good(s0) && FreshReplies(cfg, s0, envs) && Run(cfg, s0, envs).next == Observe
    ensures var ms := Run(cfg, s0, envs).history.messages;
      ms != [] && AfterRound(ms) && CopiesRound(ms)
  {
    hide *;
    AlwaysGood(cfg, s0, envs);
    RoundAtObserve(Run(cfg, s0, envs));
    ObservesOwnRound(Run(cfg, s0, envs).history.messages);
  }

  lemma RoundAtObserve(s: State)
    requires Good(s) && s.next == Observe
    ensures s.history.messages != [] && AfterRound(s.history.messages)
  {
    hide GoodIds, AllAnswer;
  }

  // ---- summarising does not shrink the stored history ----

  lemma TotalOfPrefix(tok: Context.Tokenizer, a: seq<Message>, b: seq<Message>)
    requires a <= b
    ensures Context.Total(tok, Copies(a)) + Context.OVERHEAD * (|b| - |a|) <= Context.Total(tok, Copies(b))
  {
    var rest := Copies(b)[|a|..];
    assert Copies(b) == Copies(a) + rest;
    Context.TotalSplit(tok, Copies(a), rest);
    Context.TotalAtLeast(tok, rest);
  }

  /** Once a think call finds the stored history over budget, every later one does: summarising
      shortens one prompt and never the history, whose cost only grows. */
  lemma OnceOverBudgetAlways(cfg: Config, s0: State, envs: seq<Env>, i: nat)
    requires Good(s0) && FreshReplies(cfg, s0, envs) && i <= |envs|
    requires Summarizes(cfg, Run(cfg, s0, envs[..i]).history)
    ensures Summarizes(cfg, Run(cfg, s0, envs).history)
  {
    HistoryOnlyGrows(cfg, s0, envs, i);
    TotalOfPrefix(cfg.tok, Run(cfg, s0, envs[..i]).history.messages, Run(cfg, s0, envs).history.messages);
    var before := Context.Total(cfg.tok, Copies(Run(cfg, s0, envs[..i]).history.messages));
    var after := Context.Total(cfg.tok, Copies(Run(cfg, s0, envs).history.messages));
    assert before as real <= after as real;
  }

  /** The prompt of a summarising think call can show a tool result without the call it answers;
      it does if and only if the cut falls on a tool message. */
  lemma PromptOrphans(cfg: Config, prior: History, stale: Option<string>, envs: seq<Env>)
    requires GoodIds(prior) && AllAnswer(prior.messages)
    requires FreshReplies(cfg, Initial(prior, stale), envs)
    ensures var ms := Run(cfg, Initial(prior, stale), envs).history.messages;
      |ms| >= 4 ==> (AllAnswer(ms[|ms| / 2..]) <==> !ms[|ms| / 2].body.Tool?)
  {
    HistoryInvariant(cfg, prior, stale, envs);
    var ms := Run(cfg, Initial(prior, stale), envs).history.messages;
    if |ms| >= 4 {
      Context.CutSeparatesIffTool(ms, |ms| / 2);
    }
  }
}
