/** The ReAct loop: six nodes, two routers, and the state they pass on. The language model and the
    tools may answer anything; their answers are the inputs of a run, one record per node. */
module AgentGraph {
  import opened Common
  import opened Messages
  import Context
  import Sorting

  datatype Node = Plan | Think | Act | Observe | Reflect | Report | End | Raised

  // ---- assembly ----

  datatype Router = AfterThink | AfterReflect
  datatype Edge = Always(to: Node) | Choose(router: Router, targets: map<string, Node>)

  const WIRING: map<Node, Edge> := map[
    Plan := Always(Think),
    Think := Choose(AfterThink, map["act" := Act, "report" := Report]),
    Act := Always(Observe),
    Observe := Always(Reflect),
    Reflect := Choose(AfterReflect, map["think" := Think, "report" := Report]),
    Report := Always(End)
  ]

  class StateGraph {
    var nodes: set<Node>
    var entry: Node
    var edges: map<Node, Edge>

    constructor ()
      ensures nodes == {} && edges == map[]
    {
      nodes, entry, edges := {}, End, map[];
    }

    method AddNode(n: Node)
      modifies this`nodes
      ensures nodes == old(nodes) + {n}
    {
      nodes := nodes + {n};
    }

    method AddEdge(source: Node, target: Node)
      modifies this`edges
      ensures edges == old(edges)[source := Always(target)]
    {
      edges := edges[source := Always(target)];
    }

    method AddConditionalEdges(source: Node, router: Router, targets: map<string, Node>)
      modifies this`edges
      ensures edges == old(edges)[source := Choose(router, targets)]
    {
      edges := edges[source := Choose(router, targets)];
    }

    method SetEntryPoint(n: Node)
      modifies this`entry
      ensures entry == n
    {
      entry := n;
    }
  }

  /** The graph the runner executes is the wiring the theorems below are about. */
  method BuildGraph() returns (g: StateGraph)
    ensures fresh(g) && g.entry == Plan && g.edges == WIRING
    ensures g.edges == map[
              Plan := Always(Think),
              Think := Choose(AfterThink, map["act" := Act, "report" := Report]),
              Act := Always(Observe),
              Observe := Always(Reflect),
              Reflect := Choose(AfterReflect, map["think" := Think, "report" := Report]),
              Report := Always(End)
            ]
    ensures g.nodes == {Plan, Think, Act, Observe, Reflect, Report}
  {
    g := new StateGraph();
    g.AddNode(Plan);
    g.AddNode(Think);
    g.AddNode(Act);
    g.AddNode(Observe);
    g.AddNode(Reflect);
    g.AddNode(Report);
    g.SetEntryPoint(Plan);
    g.AddEdge(Plan, Think);
    g.AddConditionalEdges(Think, AfterThink, map["act" := Act, "report" := Report]);
    g.AddEdge(Act, Observe);
    g.AddEdge(Observe, Reflect);
    g.AddConditionalEdges(Reflect, AfterReflect, map["think" := Think, "report" := Report]);
    g.AddEdge(Report, End);
  }

  // ---- state and inputs ----

  const MAX_TOTAL_FAILURES := 10

  /** What does not change during a run. */
  datatype Config = Config(tok: Context.Tokenizer, window: nat, budget: real,
                           planPrompt: string, goal: string, maxIterations: int)

  /** The keys of AgentState. What a node returns under any other key is dropped: that too is the
      graph library's behaviour, and an assumption of the model. */
  const DECLARED: set<string> := {
    "task_id", "user_id", "goal", "language", "plan", "messages", "scratchpad", "iteration",
    "max_iterations", "confidence", "allowed_tools", "artifacts", "failures", "hitl_pending",
    "hitl_response", "partial", "done", "_reflect_decision"
  }

  /** `texts` holds texts returned under keys that have no field of their own here. */
  datatype State = State(next: Node, history: History, scratchpad: string, iteration: int,
                         failures: int, decision: Option<string>, done: bool, texts: map<string, string>)

  function Keep(update: map<string, string>): map<string, string> {
    map k | k in update && k in DECLARED :: update[k]
  }

  datatype ToolOutcome = Unavailable | Succeeded(output: string) | Failed(error: string)

  /** The answers one node execution gets: an exception somewhere in the node, the model's reply,
      the summary asked for before thinking, the outcome of the i-th tool call, the decision. */
  datatype Env = Env(raises: bool, id: Option<Id>, content: string, calls: seq<Call>,
                     summary: string, tools: nat -> ToolOutcome, decision: string)

  /** The state ainvoke starts from. A checkpoint of an earlier run of the task may have left
      messages and a reflection behind. */
  function Initial(prior: History, stale: Option<string>): State {
    State(Plan, prior, "", 0, 0, stale, false, map[])
  }

  function Reply(env: Env): Draft { Draft(env.id, Ai(env.content, env.calls)) }

  // ---- nodes ----

  function PlanNode(cfg: Config, s: State): State {
    s.(history := AddMessages(s.history, Unnamed([System(cfg.planPrompt), Human(cfg.goal)])), iteration := 0)
  }

  predicate Summarizes(cfg: Config, h: History) {
    Context.NeedsSummarization(Context.Total(cfg.tok, Copies(h.messages)), cfg.window, cfg.budget)
  }

  /** The messages think returns: with tokens freed, the whole summarised list and the reply. */
  function ThinkDrafts(cfg: Config, h: History, env: Env): seq<Draft> {
    var stored := Copies(h.messages);
    var (current, freed) := if Summarizes(cfg, h) then Context.Summarize(cfg.tok, stored, env.summary) else (stored, 0);
    if freed > 0 then current + [Reply(env)] else [Reply(env)]
  }

  function ThinkNode(cfg: Config, s: State, env: Env): State {
    s.(history := AddMessages(s.history, ThinkDrafts(cfg, s.history, env)), iteration := s.iteration + 1)
  }

  function ResultText(call: Call, outcome: ToolOutcome): string {
    match outcome
    case Unavailable => "Error: tool '" + call.name + "' is not available."
    case Succeeded(output) => output
    case Failed(error) => "Error: " + error
  }

  function ToolBodies(calls: seq<Call>, tools: nat -> ToolOutcome): (bodies: seq<Body>)
    ensures |bodies| == |calls|
    ensures forall i: nat | i < |calls| :: bodies[i] == Tool(ResultText(calls[i], tools(i)), calls[i].id)
  {
    seq(|calls|, i requires 0 <= i < |calls| => Tool(ResultText(calls[i], tools(i)), calls[i].id))
  }

  function FailuresIn(n: nat, tools: nat -> ToolOutcome): nat {
    if n == 0 then 0 else FailuresIn(n - 1, tools) + (if tools(n - 1).Succeeded? then 0 else 1)
  }

  function PendingCalls(h: History): seq<Call> {
    if h.messages != [] && Last(h.messages).body.Ai? then Last(h.messages).body.calls else []
  }

  function ActNode(s: State, env: Env): State {
    var calls := PendingCalls(s.history);
    s.(history := AddMessages(s.history, Unnamed(ToolBodies(calls, env.tools))),
       failures := s.failures + FailuresIn(|calls|, env.tools))
  }

  /** act_node's loop: one tool message per call, in call order, counting what went wrong. */
  method RunTools(calls: seq<Call>, tools: nat -> ToolOutcome, failures0: int)
    returns (toolMessages: seq<Body>, failures: int)
    ensures toolMessages == ToolBodies(calls, tools) && |toolMessages| == |calls|
    ensures forall i: nat | i < |calls| ::
              toolMessages[i] == Tool(
                if tools(i).Succeeded? then tools(i).output
                else if tools(i).Failed? then "Error: " + tools(i).error
                else "Error: tool '" + calls[i].name + "' is not available.",
                calls[i].id)
    ensures failures == failures0 + FailuresIn(|calls|, tools)
  {
    hide FailuresIn, ToolBodies;
    ghost var bodies := ToolBodies(calls, tools);
    toolMessages, failures := [], failures0;
    NoFailures(tools);
    for i := 0 to |calls|
      invariant toolMessages == bodies[..i]
      invariant failures == failures0 + FailuresIn(i, tools)
    {
      var call, text := calls[i], "";
      NextFailure(i, tools);
      match tools(i) {
        case Unavailable =>
          text := "Error: tool '" + call.name + "' is not available.";
          failures := failures + 1;
        case Succeeded(output) =>
          text := output;
        case Failed(error) =>
          text := "Error: " + error;
          failures := failures + 1;
      }
      assert bodies[i] == Tool(text, call.id);
      toolMessages := toolMessages + [Tool(text, call.id)];
    }
  }

  lemma NoFailures(tools: nat -> ToolOutcome)
    ensures FailuresIn(0, tools) == 0
  {
  }

  lemma NextFailure(i: nat, tools: nat -> ToolOutcome)
    ensures FailuresIn(i + 1, tools) == FailuresIn(i, tools) + (if tools(i).Succeeded? then 0 else 1)
  {
  }

  const OBSERVED := 5

  const IS_TOOL: Message -> bool := (m: Message) => m.body.Tool?

  /** The last k messages, or all of them. */
  function Newest(ms: seq<Message>, k: nat): seq<Message> { ms[Max(0, |ms| - k)..] }

  /** The tool messages among the last five. */
  function RecentTools(ms: seq<Message>): seq<Message> {
    Sorting.Filter(Newest(ms, OBSERVED), IS_TOOL)
  }

  function Join(ms: seq<Message>): string {
    if ms == [] then "" else if |ms| == 1 then ms[0].body.content else ms[0].body.content + "\n" + Join(ms[1..])
  }

  /** White space, as Python's strip sees it. */
  predicate IsSpace(c: char) {
    var n := c as int;
    || 0x09 <= n <= 0x0D || 0x1C <= n <= 0x20 || n == 0x85 || n == 0xA0 || n == 0x1680 || 0x2000 <= n <= 0x200A
    || n == 0x2028 || n == 0x2029 || n == 0x202F || n == 0x205F || n == 0x3000
  }

  function Strip(s: string): string {
    if s == "" then "" else if IsSpace(s[0]) then Strip(s[1..]) else if IsSpace(Last(s)) then Strip(Front(s)) else s
  }

  function ObserveNode(s: State): State {
    s.(scratchpad := Strip(s.scratchpad + "\n" + Join(RecentTools(s.history.messages))))
  }

  function ReflectNode(s: State, env: Env): State { s.(decision := Some(env.decision)) }

  function ReportNode(s: State, env: Env): State {
    s.(done := true, texts := s.texts + Keep(map["result_summary" := env.content]),
       history := AddMessages(s.history, [Reply(env)]))
  }

  /** What the runner takes for the result of a run. */
  function ResultSummary(s: State): string {
    if "result_summary" in s.texts then s.texts["result_summary"] else ""
  }

  // ---- routing ----

  function RouteAfterThink(cfg: Config, s: State): string {
    if s.iteration >= cfg.maxIterations then "report"
    else if s.failures >= MAX_TOTAL_FAILURES then "report"
    else if PendingCalls(s.history) != [] then "act"
    else "report"
  }

  function RouteAfterReflect(cfg: Config, s: State): string {
    if s.decision == Some("report") then "report"
    else if s.iteration >= cfg.maxIterations then "report"
    else "think"
  }

  function Follow(cfg: Config, n: Node, s: State): Node
    requires n in WIRING
  {
    match WIRING[n]
    case Always(to) => to
    case Choose(router, targets) =>
      var choice := if router == AfterThink then RouteAfterThink(cfg, s) else RouteAfterReflect(cfg, s);
      if choice in targets then targets[choice] else Raised
  }

  /** After think: to the tools exactly below the iteration limit, with fewer than 10 failures, and
      with a last message that asks for at least one; to the report otherwise. */
  lemma ThinkRoutes(cfg: Config, s: State)
    ensures var asks := s.history.messages != [] && Last(s.history.messages).body.Ai?
                        && Last(s.history.messages).body.calls != [];
      && (Follow(cfg, Think, s) == Act <==> s.iteration < cfg.maxIterations && s.failures < 10 && asks)
      && (Follow(cfg, Think, s) != Act ==> Follow(cfg, Think, s) == Report)
  {
  }

  /** Where each node can lead. */
  lemma FollowTargets(cfg: Config, n: Node, s: State)
    requires n in WIRING
    ensures var f := Follow(cfg, n, s);
      match n
      case Plan => f == Think
      case Think => f == if RouteAfterThink(cfg, s) == "act" then Act else Report
      case Act => f == Observe
      case Observe => f == Reflect
      case Reflect => f == if RouteAfterReflect(cfg, s) == "think" then Think else Report
      case Report => f == End
      case _ => true
  {
  }

  predicate Finished(s: State) { s.next == End || s.next == Raised }

  function Execute(cfg: Config, s: State, env: Env): State {
    match s.next
    case Plan => PlanNode(cfg, s)
    case Think => ThinkNode(cfg, s, env)
    case Act => ActNode(s, env)
    case Observe => ObserveNode(s)
    case Reflect => ReflectNode(s, env)
    case Report => ReportNode(s, env)
    case _ => s
  }

  /** One node execution. An exception in a node discards the node's update. */
  function Step(cfg: Config, s: State, env: Env): State {
    if Finished(s) then s
    else if env.raises then s.(next := Raised)
    else
      var s' := Execute(cfg, s, env);
      s'.(next := Follow(cfg, s.next, s'))
  }

  function Run(cfg: Config, s0: State, envs: seq<Env>): State {
    if envs == [] then s0 else Step(cfg, Run(cfg, s0, Front(envs)), Last(envs))
  }

  lemma StepKeepsDeclared(cfg: Config, s: State, env: Env)
    requires s.texts.Keys <= DECLARED
    ensures Step(cfg, s, env).texts.Keys <= DECLARED
  {
    hide ThinkDrafts, AddMessages, FailuresIn, RecentTools, Strip, Join, Follow, DECLARED;
  }

  lemma NoSummaryKey(s: State)
    ensures s.texts.Keys <= DECLARED ==> ResultSummary(s) == ""
  {
  }

  /** Whatever the report says, the result of every run is empty, because the key it is returned
      under is not declared: no summary reaches the task or short-term memory. */
  lemma {:induction false} ResultIsEmpty(cfg: Config, prior: History, stale: Option<string>, envs: seq<Env>)
    ensures Run(cfg, Initial(prior, stale), envs).texts.Keys <= DECLARED
    ensures ResultSummary(Run(cfg, Initial(prior, stale), envs)) == ""
  {
    NoSummaryKey(Run(cfg, Initial(prior, stale), envs));
    if envs != [] {
      hide Step, DECLARED, ResultSummary;
      ResultIsEmpty(cfg, prior, stale, Front(envs));
      StepKeepsDeclared(cfg, Run(cfg, Initial(prior, stale), Front(envs)), Last(envs));
    }
  }

  lemma RunNext(cfg: Config, s0: State, envs: seq<Env>, i: nat)
    requires i < |envs|
    ensures Run(cfg, s0, envs[..i + 1]) == Step(cfg, Run(cfg, s0, envs[..i]), envs[i])
  {
    assert Front(envs[..i + 1]) == envs[..i];
  }
}
