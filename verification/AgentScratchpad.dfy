/** What a tool returned stays in the scratchpad for the rest of the run. */
module AgentScratchpad {
  import opened Common
  import opened Messages
  import opened AgentGraph
  import opened AgentHistory
  import Sorting

  // ---- white space ----

  /** The code points Python counts as white space. */
  const SPACES: seq<int> := [
    0x09, 0x0A, 0x0B, 0x0C, 0x0D, 0x1C, 0x1D, 0x1E, 0x1F, 0x20, 0x85, 0xA0, 0x1680,
    0x2000, 0x2001, 0x2002, 0x2003, 0x2004, 0x2005, 0x2006, 0x2007, 0x2008, 0x2009, 0x200A,
    0x2028, 0x2029, 0x202F, 0x205F, 0x3000
  ]

  predicate White(c: char) { c as int in SPACES }

  /** Not empty, and neither the first nor the last character is white space. */
  predicate Solid(w: string) { w != "" && !White(w[0]) && !White(w[|w| - 1]) }

  /** What strip cuts is what SPACES lists. */
  lemma WhiteSpace()
    ensures forall c: char :: IsSpace(c) <==> White(c)
  {
  }

  /** Text of the visible ASCII characters, '!' to '~', is solid. */
  lemma VisibleIsSolid(w: string)
    requires w != "" && forall i | 0 <= i < |w| :: '!' <= w[i] <= '~'
    ensures Solid(w)
  {
  }

  predicate WhiteOutside(s: string, i: nat, j: nat) {
    forall x | 0 <= x < |s| && (x < i || j <= x) :: White(s[x])
  }

  /** t is s without the white space at its ends. */
  ghost predicate Trimmed(s: string, t: string) {
    && (t == "" || Solid(t))
    && exists i: nat, j: nat :: i <= j <= |s| && s[i..j] == t && WhiteOutside(s, i, j)
  }

  lemma {:induction false} StripTrims(s: string)
    ensures Trimmed(s, Strip(s))
  {
    WhiteSpace();
    hide White, IsSpace;
    if s == "" {
      assert s[0..0] == "" && WhiteOutside(s, 0, 0);
    } else if IsSpace(s[0]) {
      StripTrims(s[1..]);
      TrimmedTail(s, Strip(s));
    } else if IsSpace(Last(s)) {
      StripTrims(Front(s));
      TrimmedFront(s, Strip(s));
    } else {
      assert s[0..|s|] == s && WhiteOutside(s, 0, |s|);
    }
  }

  lemma TrimmedTail(s: string, t: string)
    requires s != "" && White(s[0]) && Trimmed(s[1..], t)
    ensures Trimmed(s, t)
  {
    hide White, Solid;
    var rest := s[1..];
    var i: nat, j: nat :| i <= j <= |rest| && rest[i..j] == t && WhiteOutside(rest, i, j);
    assert forall x | 0 <= x < |rest| :: s[x + 1] == rest[x];
    assert s[i + 1..j + 1] == t;
    assert WhiteOutside(s, i + 1, j + 1) by {
      forall x | 0 <= x < |s| && (x < i + 1 || j + 1 <= x) ensures White(s[x]) {
        assert x > 0 ==> s[x] == rest[x - 1];
      }
    }
  }

  lemma TrimmedFront(s: string, t: string)
    requires s != "" && White(Last(s)) && Trimmed(Front(s), t)
    ensures Trimmed(s, t)
  {
    hide White, Solid;
    var rest := Front(s);
    var i: nat, j: nat :| i <= j <= |rest| && rest[i..j] == t && WhiteOutside(rest, i, j);
    assert forall x | 0 <= x < |rest| :: s[x] == rest[x];
    assert s[i..j] == t && WhiteOutside(s, i, j);
  }

  lemma EndsWithin(s: string, i: nat, j: nat, k: nat, l: nat)
    requires i < j <= |s| && Solid(s[i..j]) && WhiteOutside(s, k, l)
    ensures k <= i && j <= l
  {
    hide White;
    assert s[i..j][0] == s[i] && s[i..j][j - i - 1] == s[j - 1];
  }

  /** Only one text is. */
  lemma TrimmedOnce(s: string, t: string, u: string)
    requires Trimmed(s, t) && Trimmed(s, u)
    ensures t == u
  {
    hide White, Solid, WhiteOutside;
    var i: nat, j: nat :| i <= j <= |s| && s[i..j] == t && WhiteOutside(s, i, j);
    var k: nat, l: nat :| k <= l <= |s| && s[k..l] == u && WhiteOutside(s, k, l);
    if t != "" {
      EndsWithin(s, i, j, k, l);
    }
    if u != "" {
      EndsWithin(s, k, l, i, j);
    }
  }

  // ---- what observe writes ----

  /** The texts of the tool messages among ms, each after a line break. */
  function Lines(ms: seq<Message>): string {
    if ms == [] then ""
    else (if ms[0].body.Tool? then "\n" + ms[0].body.content else "") + Lines(ms[1..])
  }

  lemma LinesOf(ms: seq<Message>)
    requires ms != []
    ensures Lines(ms) == (if ms[0].body.Tool? then "\n" + ms[0].body.content else "") + Lines(ms[1..])
  {
  }

  lemma FirstLine(m: Message, rest: seq<Message>)
    ensures "\n" + m.body.content + (if rest == [] then "" else "\n" + Join(rest)) == "\n" + Join([m] + rest)
  {
    assert ([m] + rest)[1..] == rest;
  }

  lemma {:induction false} JoinedLines(ms: seq<Message>)
    ensures var tools := Sorting.Filter(ms, IS_TOOL);
      Lines(ms) == if tools == [] then "" else "\n" + Join(tools)
  {
    if ms != [] {
      JoinedLines(ms[1..]);
      var tools, rest := Sorting.Filter(ms, IS_TOOL), Sorting.Filter(ms[1..], IS_TOOL);
      assert tools == if ms[0].body.Tool? then [ms[0]] + rest else rest;
      hide Sorting.Filter, Lines;
      assert Lines(ms) == (if ms[0].body.Tool? then "\n" + ms[0].body.content else "") + Lines(ms[1..]) by {
        LinesOf(ms);
      }
      if ms[0].body.Tool? {
        FirstLine(ms[0], rest);
      }
    }
  }

  lemma TrimmedOf(s: string, c: char, t: string)
    requires White(c) && Trimmed(s + [c], t)
    ensures Trimmed(s, t)
  {
    hide White;
    var whole := s + [c];
    var i: nat, j: nat :| i <= j <= |whole| && whole[i..j] == t && WhiteOutside(whole, i, j);
    assert forall x | 0 <= x < |s| :: s[x] == whole[x];
    if t != "" {
      assert t[|t| - 1] == whole[j - 1];
      assert s[i..j] == t && WhiteOutside(s, i, j);
    } else {
      assert s[0..0] == "" && WhiteOutside(s, 0, 0);
    }
  }

  lemma LinesTrimmed(pad: string, tools: seq<Message>, lines: string)
    requires lines == if tools == [] then "" else "\n" + Join(tools)
    ensures Trimmed(pad + lines, Strip(pad + "\n" + Join(tools)))
  {
    hide Trimmed, Strip, White;
    StripTrims(pad + "\n" + Join(tools));
    if tools == [] {
      assert pad + "\n" + Join(tools) == pad + ['\n'] && pad + lines == pad;
      BreakIsWhite();
      TrimmedOf(pad, '\n', Strip(pad + "\n" + Join(tools)));
    } else {
      hide Join;
      assert pad + "\n" + Join(tools) == pad + lines;
    }
  }

  lemma BreakIsWhite()
    ensures White('\n')
  {
    assert SPACES[1] == 0x0A;
  }

  /** Observe writes the old scratchpad and, each on a line of its own, the outputs among the last
      five messages, without white space at the two ends: that text and no other. */
  lemma ObserveMeaning(s: State, text: string)
    ensures var ms := s.history.messages;
      var window := if |ms| <= 5 then ms else ms[|ms| - 5..];
      text == ObserveNode(s).scratchpad <==> Trimmed(s.scratchpad + Lines(window), text)
  {
    var ms := s.history.messages;
    var window := if |ms| <= 5 then ms else ms[|ms| - 5..];
    var tools := Sorting.Filter(window, IS_TOOL);
    assert RecentTools(ms) == tools;
    assert ObserveNode(s).scratchpad == Strip(s.scratchpad + "\n" + Join(tools));
    hide *;
    JoinedLines(window);
    LinesTrimmed(s.scratchpad, tools, Lines(window));
    if Trimmed(s.scratchpad + Lines(window), text) {
      TrimmedOnce(s.scratchpad + Lines(window), text, ObserveNode(s).scratchpad);
    }
  }

  // ---- what stays ----

  /** t occurs in s, from position k on. */
  predicate At(s: string, t: string, k: nat) { k + |t| <= |s| && s[k..k + |t|] == t }

  ghost predicate Contains(s: string, t: string) {
    exists k: nat :: At(s, t, k)
  }

  lemma ContainsIn(a: string, b: string, c: string)
    requires Contains(a, b) && Contains(b, c)
    ensures Contains(a, c)
  {
    var k: nat :| At(a, b, k);
    var l: nat :| At(b, c, l);
    forall x | 0 <= x < |c| ensures a[k + l + x] == c[x] {
      assert a[k..k + |b|][l + x] == b[l + x];
      assert b[l..l + |c|][x] == c[x];
    }
    assert At(a, c, k + l);
  }

  lemma ContainsMiddle(before: string, t: string, after: string)
    ensures Contains(before + t + after, t)
  {
    assert At(before + t + after, t, |before|);
  }

  lemma InsideItself(s: string)
    ensures Contains(s, s)
    ensures s != "" ==> Contains(s, s[1..]) && Contains(s, Front(s))
  {
    assert At(s, s, 0);
    if s != "" {
      assert At(s, s[1..], 1) && At(s, Front(s), 0);
    }
  }

  lemma {:induction false} StripIsInside(s: string)
    ensures Contains(s, Strip(s))
    ensures Strip(s) != "" ==> !IsSpace(Strip(s)[0]) && !IsSpace(Last(Strip(s)))
  {
    hide Contains, IsSpace;
    InsideItself(s);
    if s != "" && IsSpace(s[0]) {
      StripIsInside(s[1..]);
      ContainsIn(s, s[1..], Strip(s));
    } else if s != "" && IsSpace(Last(s)) {
      StripIsInside(Front(s));
      ContainsIn(s, Front(s), Strip(s));
    }
  }

  /** Stripping a text loses nothing that neither begins nor ends with white space. */
  lemma {:induction false} StripKeeps(s: string, t: string)
    requires Contains(s, t) && t != "" && !IsSpace(t[0]) && !IsSpace(Last(t))
    ensures Contains(Strip(s), t)
  {
    var k: nat :| At(s, t, k);
    assert s[k] == t[0] && s[k + |t| - 1] == Last(t);
    if IsSpace(s[0]) {
      assert At(s[1..], t, k - 1);
      StripKeeps(s[1..], t);
    } else if IsSpace(Last(s)) {
      assert At(Front(s), t, k);
      StripKeeps(Front(s), t);
    }
  }

  lemma {:induction false} JoinContains(ms: seq<Message>, m: Message)
    requires m in ms
    ensures Contains(Join(ms), m.body.content)
  {
    if ms[0] == m {
      var rest := if |ms| == 1 then "" else "\n" + Join(ms[1..]);
      ContainsMiddle("", m.body.content, rest);
      assert "" + m.body.content + rest == Join(ms);
    } else {
      JoinContains(ms[1..], m);
      var head := ms[0].body.content + "\n";
      ContainsMiddle(head, Join(ms[1..]), "");
      assert head + Join(ms[1..]) + "" == Join(ms);
      ContainsIn(Join(ms), Join(ms[1..]), m.body.content);
    }
  }

  /** A text as an observation leaves it: without white space at its ends. */
  lemma StrippedStays(s: string, text: string)
    requires Contains(s, Strip(text))
    ensures Contains(Strip(s), Strip(text))
  {
    StripIsInside(text);
    if Strip(text) == "" {
      assert At(Strip(s), "", 0);
    } else {
      StripKeeps(s, Strip(text));
    }
  }

  /** Observe adds the stripped text of every tool message it copies. */
  lemma ObserveAdds(s: State, m: Message)
    requires m in RecentTools(s.history.messages)
    ensures Contains(ObserveNode(s).scratchpad, Strip(m.body.content))
  {
    hide RecentTools, Strip, Join;
    var added, text := Join(RecentTools(s.history.messages)), m.body.content;
    var whole := s.scratchpad + "\n" + added;
    JoinContains(RecentTools(s.history.messages), m);
    ContainsMiddle(s.scratchpad + "\n", added, "");
    assert s.scratchpad + "\n" + added + "" == whole;
    ContainsIn(whole, added, text);
    StripIsInside(text);
    ContainsIn(whole, text, Strip(text));
    StrippedStays(whole, text);
  }

  /** Nothing that was added is lost at a later observe. */
  lemma ObserveKeeps(s: State, text: string)
    requires Contains(s.scratchpad, Strip(text))
    ensures Contains(ObserveNode(s).scratchpad, Strip(text))
  {
    hide RecentTools, Strip, Join;
    var added := "\n" + Join(RecentTools(s.history.messages));
    var whole := s.scratchpad + "\n" + Join(RecentTools(s.history.messages));
    ContainsMiddle("", s.scratchpad, added);
    assert "" + s.scratchpad + added == whole;
    ContainsIn(whole, s.scratchpad, Strip(text));
    StrippedStays(whole, text);
  }

  lemma StepKeepsText(cfg: Config, s: State, env: Env, text: string)
    requires Contains(s.scratchpad, Strip(text))
    ensures Contains(Step(cfg, s, env).scratchpad, Strip(text))
  {
    hide AddMessages, ThinkDrafts, Strip, Contains, FailuresIn, ObserveNode;
    if s.next == Observe {
      ObserveKeeps(s, text);
    }
  }

  /** In every run, what an observe copies is in the scratchpad ever after. */
  lemma {:induction false} CopiedTextStays(cfg: Config, s0: State, envs: seq<Env>, i: nat, m: Message)
    requires i < |envs| && Run(cfg, s0, envs[..i]).next == Observe && !envs[i].raises
    requires m in RecentTools(Run(cfg, s0, envs[..i]).history.messages)
    ensures Contains(Run(cfg, s0, envs).scratchpad, Strip(m.body.content))
    decreases |envs|
  {
    hide *;
    var front := envs[..|envs| - 1];
    RunNext(cfg, s0, envs, |envs| - 1);
    assert envs[..|envs|] == envs;
    if i < |front| {
      assert envs[..i] == front[..i];
      CopiedTextStays(cfg, s0, front, i, m);
      StepKeepsText(cfg, Run(cfg, s0, front), envs[|front|], m.body.content);
    } else {
      ObserveStep(cfg, Run(cfg, s0, front), envs[i], m);
    }
  }

  lemma ObserveStep(cfg: Config, s: State, env: Env, m: Message)
    requires s.next == Observe && !env.raises && m in RecentTools(s.history.messages)
    ensures Contains(Step(cfg, s, env).scratchpad, Strip(m.body.content))
  {
    hide RecentTools, Strip, Join, Contains;
    ObserveAdds(s, m);
  }

  lemma RecentTool(ms: seq<Message>, k: nat)
    requires |ms| - 5 <= k < |ms| && ms[k].body.Tool?
    ensures ms[k] in RecentTools(ms)
  {
    Sorting.FilterKeeps(Newest(ms, OBSERVED), IS_TOOL);
    assert Newest(ms, OBSERVED)[k - Max(0, |ms| - 5)] == ms[k];
  }

  lemma SolidStays(s: string, text: string, w: string)
    requires Contains(s, Strip(text)) && Contains(text, w) && Solid(w)
    ensures Contains(s, w)
  {
    WhiteSpace();
    hide White, IsSpace, Contains, Strip;
    StripKeeps(text, w);
    ContainsIn(s, Strip(text), w);
  }

  /** In every run, whatever piece w a tool message among the last five contains when observe is
      executed is in the scratchpad ever after, unless w begins or ends with white space. */
  lemma ToolOutputStays(cfg: Config, s0: State, envs: seq<Env>, i: nat, k: nat, w: string)
    requires i < |envs| && Run(cfg, s0, envs[..i]).next == Observe && !envs[i].raises
    requires var ms := Run(cfg, s0, envs[..i]).history.messages;
      |ms| - 5 <= k < |ms| && ms[k].body.Tool? && Contains(ms[k].body.content, w)
    requires Solid(w)
    ensures Contains(Run(cfg, s0, envs).scratchpad, w)
  {
    hide *;
    var ms := Run(cfg, s0, envs[..i]).history.messages;
    RecentTool(ms, k);
    CopiedTextStays(cfg, s0, envs, i, ms[k]);
    SolidStays(Run(cfg, s0, envs).scratchpad, ms[k].body.content, w);
  }

  /** In every run, what a tool answered to one of the last five calls of a round gets into the
      scratchpad with the round's observe, and stays. */
  lemma OutputReachesScratchpad(cfg: Config, s0: State, envs: seq<Env>, i: nat, j: nat, w: string)
    requires Good(s0) && FreshReplies(cfg, s0, envs) && i + 1 < |envs|
    requires Run(cfg, s0, envs[..i]).next == Act && !envs[i].raises && !envs[i + 1].raises
    requires var calls := PendingCalls(Run(cfg, s0, envs[..i]).history);
      |calls| - 5 <= j < |calls| && envs[i].tools(j).Succeeded? && Contains(envs[i].tools(j).output, w)
    requires Solid(w)
    ensures Contains(Run(cfg, s0, envs).scratchpad, w)
  {
    hide *;
    var s := Run(cfg, s0, envs[..i]);
    FreshUpTo(cfg, s0, envs, i);
    AlwaysGood(cfg, s0, envs[..i]);
    RunNext(cfg, s0, envs, i);
    ActStep(cfg, s, envs[i], j);
    ToolOutputStays(cfg, s0, envs, i + 1, |s.history.messages| + j, w);
  }

  lemma FreshUpTo(cfg: Config, s0: State, envs: seq<Env>, i: nat)
    requires FreshReplies(cfg, s0, envs) && i <= |envs|
    ensures FreshReplies(cfg, s0, envs[..i])
  {
    hide Run, Fresh;
    forall k | 0 <= k < i ensures Fresh(Run(cfg, s0, envs[..i][..k]), envs[..i][k]) {
      assert envs[..i][..k] == envs[..k];
    }
  }

  lemma ActStep(cfg: Config, s: State, env: Env, j: nat)
    requires Good(s) && s.next == Act && !env.raises
    requires j < |PendingCalls(s.history)| && env.tools(j).Succeeded?
    ensures var k, after := |s.history.messages| + j, Step(cfg, s, env);
      && after.next == Observe && |after.history.messages| == |s.history.messages| + |PendingCalls(s.history)|
      && after.history.messages[k].body.Tool? && after.history.messages[k].body.content == env.tools(j).output
  {
    ActAppendsAnswers(cfg, s, env);
    FollowTargets(cfg, Act, Execute(cfg, s, env));
    hide Good, Execute, Follow, PendingCalls;
  }
}
