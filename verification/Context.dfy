/** Context window management: token counts and the replacement of the older half of the messages
    by a summary. The tokenizer is any function from texts to numbers. */
module Context {
  import opened Common
  import opened Messages

  type Tokenizer = string -> nat

  const OVERHEAD := 4
  const SUMMARY_HEADER := "[SUMMARY OF EARLIER STEPS]\n"

  function CountTokens(tok: Tokenizer, text: string): nat {
    if text == "" then 0 else tok(text)
  }

  function Cost(tok: Tokenizer, d: Draft): nat {
    CountTokens(tok, d.body.content) + OVERHEAD
  }

  function Total(tok: Tokenizer, ds: seq<Draft>): nat {
    if ds == [] then 0 else Total(tok, Front(ds)) + Cost(tok, Last(ds))
  }

  /** A message costs the tokens of its text, none for an empty one, plus 4; a list what its messages
      cost. */
  lemma TotalMeaning(tok: Tokenizer, ds: seq<Draft>, d: Draft)
    ensures Total(tok, []) == 0
    ensures Total(tok, ds + [d]) == Total(tok, ds) + (if d.body.content == "" then 0 else tok(d.body.content)) + 4
  {
    assert Front(ds + [d]) == ds;
  }

  method CountMessageTokens(tok: Tokenizer, ds: seq<Draft>) returns (total: nat)
    ensures total == Total(tok, ds)
  {
    total := 0;
    for i := 0 to |ds|
      invariant total == Total(tok, ds[..i])
    {
      assert Front(ds[..i + 1]) == ds[..i];
      total := total + CountTokens(tok, ds[i].body.content) + OVERHEAD;
    }
    assert ds[..|ds|] == ds;
  }

  predicate NeedsSummarization(total: nat, window: nat, budget: real) {
    total as real > window as real * budget
  }

  function SummaryDraft(summary: string): Draft {
    Draft(None, System(SUMMARY_HEADER + summary))
  }

  /** The new list and the tokens freed; `summary` is what the model answers. */
  function Summarize(tok: Tokenizer, ds: seq<Draft>, summary: string): (seq<Draft>, nat) {
    if |ds| < 4 then (ds, 0)
    else
      var split := |ds| / 2;
      ([SummaryDraft(summary)] + ds[split..], Total(tok, ds[..split]))
  }

  lemma {:induction false} TotalSplit(tok: Tokenizer, a: seq<Draft>, b: seq<Draft>)
    ensures Total(tok, a + b) == Total(tok, a) + Total(tok, b)
  {
    if b == [] {
      assert a + b == a;
    } else {
      TotalSplit(tok, a, Front(b));
      assert Front(a + b) == a + Front(b);
    }
  }

  lemma {:induction false} TotalAtLeast(tok: Tokenizer, ds: seq<Draft>)
    ensures Total(tok, ds) >= OVERHEAD * |ds|
  {
    if ds != [] {
      TotalAtLeast(tok, Front(ds));
    }
  }

  /** From four messages on, the new list is the summary and the newest ceil(n / 2) messages, as they
      are; with fewer, nothing changes. */
  lemma SummarizeKeepsRecent(tok: Tokenizer, ds: seq<Draft>, summary: string)
    ensures var list := Summarize(tok, ds, summary).0;
      && (|ds| < 4 ==> list == ds)
      && (|ds| >= 4 ==>
            && |list| == 1 + (|ds| + 1) / 2
            && list[0] == Draft(None, System("[SUMMARY OF EARLIER STEPS]\n" + summary)) == SummaryDraft(summary)
            && list[1..] == ds[|ds| - (|ds| + 1) / 2..])
  {
    hide Total;
  }

  /** Summarising conserves tokens: what the new list costs plus what was freed is what the old
      list cost plus the summary. Tokens are freed exactly when there were four messages. */
  lemma SummarizeConserves(tok: Tokenizer, ds: seq<Draft>, summary: string)
    ensures var (list, freed) := Summarize(tok, ds, summary);
      && (freed > 0 <==> |ds| >= 4)
      && (freed == 0 ==> list == ds)
      && (freed > 0 ==> Total(tok, list) + freed == Total(tok, ds) + Cost(tok, SummaryDraft(summary)))
  {
    if |ds| >= 4 {
      var split := |ds| / 2;
      var head := [SummaryDraft(summary)];
      assert Total(tok, head) == Cost(tok, SummaryDraft(summary)) by {
        assert Front(head) == [];
      }
      hide Total, Cost;
      assert ds == ds[..split] + ds[split..];
      TotalSplit(tok, ds[..split], ds[split..]);
      TotalSplit(tok, head, ds[split..]);
      TotalAtLeast(tok, ds[..split]);
    }
  }

  lemma {:induction false} AskerOfSuffix(ms: seq<Message>, k: nat, i: nat)
    requires k <= i < |ms| && !ms[k].body.Tool?
    ensures k <= Asker(ms, i) && Asker(ms[k..], i - k) == Asker(ms, i) - k
  {
    if ms[i].body.Tool? && i > k {
      AskerOfSuffix(ms, k, i - 1);
    }
  }

  /** Cutting a history before position k separates a tool message from the call it answers if
      and only if the message at k is a tool message. */
  lemma CutSeparatesIffTool(ms: seq<Message>, k: nat)
    requires AllAnswer(ms) && k < |ms|
    ensures AllAnswer(ms[k..]) <==> !ms[k].body.Tool?
  {
    var rest := ms[k..];
    if ms[k].body.Tool? {
      assert !Answers(rest, 0);
    } else {
      forall i | 0 <= i < |rest| && rest[i].body.Tool? ensures Answers(rest, i) {
        assert Answers(ms, k + i);
        AskerOfSuffix(ms, k, k + i);
      }
    }
  }
}
