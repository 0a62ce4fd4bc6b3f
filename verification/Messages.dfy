/** Chat messages and the reducer that merges what a node returns into the stored history.
    The reducer is a library's; its behaviour is an assumption of the model: a message whose id
    is already present replaces that message in place, any other is appended, and a message
    without an id gets one that was never used. */
module Messages {
  import opened Common

  datatype Call = Call(name: string, id: string)

  datatype Body =
    | System(content: string)
    | Human(content: string)
    | Ai(content: string, calls: seq<Call>)
    | Tool(content: string, callId: string)

  /** Ids come from the reducer or from the model provider, never from both. */
  datatype Id = Minted(n: nat) | Provider(s: string)

  /** A message as a node returns it, and as it is stored. */
  datatype Draft = Draft(id: Option<Id>, body: Body)
  datatype Message = Message(id: Id, body: Body)

  /** The history, and the number of ids the reducer has minted so far. */
  datatype History = History(messages: seq<Message>, minted: nat)

  /** The last position holding the id. */
  function Position(ms: seq<Message>, id: Id): (r: Option<nat>)
    ensures r.Some? ==> r.value < |ms| && ms[r.value].id == id
    ensures r.None? <==> forall i | 0 <= i < |ms| :: ms[i].id != id
  {
    if ms == [] then None
    else if Last(ms).id == id then Some(|ms| - 1)
    else Position(Front(ms), id)
  }

  function AddOne(h: History, d: Draft): History {
    var id := if d.id.Some? then d.id.value else Minted(h.minted);
    var minted := if d.id.Some? then h.minted else h.minted + 1;
    var at := Position(h.messages, id);
    if at.Some? then History(h.messages[at.value := Message(id, d.body)], minted)
    else History(h.messages + [Message(id, d.body)], minted)
  }

  function AddMessages(h: History, ds: seq<Draft>): History {
    if ds == [] then h else AddOne(AddMessages(h, Front(ds)), Last(ds))
  }

  /** Stored messages handed on unchanged. */
  function Copies(ms: seq<Message>): (ds: seq<Draft>)
    ensures |ds| == |ms| && forall i | 0 <= i < |ms| :: ds[i] == Draft(Some(ms[i].id), ms[i].body)
  {
    seq(|ms|, i requires 0 <= i < |ms| => Draft(Some(ms[i].id), ms[i].body))
  }

  /** Ids are distinct, and minted ids have been minted. */
  ghost predicate GoodIds(h: History) {
    && (forall i, j | 0 <= i < j < |h.messages| :: h.messages[i].id != h.messages[j].id)
    && (forall i | 0 <= i < |h.messages| && h.messages[i].id.Minted? :: h.messages[i].id.n < h.minted)
  }

  /** A draft from outside: no id, or a provider's id that is not in the history. */
  predicate NewTo(h: History, d: Draft) {
    d.id.None? || (d.id.value.Provider? && Position(h.messages, d.id.value).None?)
  }

  lemma AddOneKeepsIds(h: History, d: Draft)
    requires GoodIds(h) && (d.id.Some? && d.id.value.Minted? ==> d.id.value.n < h.minted)
    ensures GoodIds(AddOne(h, d))
  {
  }

  /** A message whose id is present takes the place of the one that has it; all others stay. */
  lemma AddReplaces(h: History, d: Draft, k: nat)
    requires GoodIds(h) && k < |h.messages| && d.id == Some(h.messages[k].id)
    ensures AddOne(h, d).messages == h.messages[k := Message(h.messages[k].id, d.body)]
  {
    assert Position(h.messages, d.id.value).value == k;
  }

  lemma AddNew(h: History, d: Draft)
    requires GoodIds(h) && NewTo(h, d)
    ensures GoodIds(AddOne(h, d))
    ensures |AddOne(h, d).messages| == |h.messages| + 1 && h.messages <= AddOne(h, d).messages
    ensures Last(AddOne(h, d).messages).body == d.body
    ensures d.id.None? ==> Last(AddOne(h, d).messages).id == Minted(h.minted)
    ensures h.minted <= AddOne(h, d).minted
  {
    AddOneKeepsIds(h, d);
  }

  /** Adding a stored message again changes nothing. */
  lemma AddStored(h: History, m: Message)
    requires GoodIds(h) && m in h.messages
    ensures AddOne(h, Draft(Some(m.id), m.body)) == h
  {
    var at := Position(h.messages, m.id);
    var i :| 0 <= i < |h.messages| && h.messages[i] == m;
    assert at.value == i;
  }

  lemma {:induction false} AddAllStored(h: History, ms: seq<Message>)
    requires GoodIds(h) && forall m | m in ms :: m in h.messages
    ensures AddMessages(h, Copies(ms)) == h
  {
    if ms != [] {
      AddAllStored(h, Front(ms));
      assert Front(Copies(ms)) == Copies(Front(ms));
      assert Last(ms) in ms;
      AddStored(h, Last(ms));
    }
  }

  lemma {:induction false} AddInTwo(h: History, a: seq<Draft>, b: seq<Draft>)
    ensures AddMessages(h, a + b) == AddMessages(AddMessages(h, a), b)
  {
    hide AddOne;
    if b == [] {
      assert a + b == a;
    } else {
      assert Last(a + b) == Last(b);
      AddInTwo(h, a, Front(b));
      assert Front(a + b) == a + Front(b);
    }
  }

  lemma AddTheOne(h: History, d: Draft)
    ensures AddMessages(h, [d]) == AddOne(h, d)
  {
    assert Front([d]) == [];
    assert AddMessages(h, []) == h;
  }

  /** Drafts without ids are appended in order. */
  lemma {:induction false} AddDrafts(h: History, bodies: seq<Body>)
    requires GoodIds(h)
    ensures var h' := AddMessages(h, Unnamed(bodies));
      && GoodIds(h') && h.minted <= h'.minted
      && h.messages <= h'.messages && |h'.messages| == |h.messages| + |bodies|
      && forall i | 0 <= i < |bodies| :: h'.messages[|h.messages| + i].body == bodies[i]
  {
    if bodies != [] {
      AddDrafts(h, Front(bodies));
      assert Front(Unnamed(bodies)) == Unnamed(Front(bodies));
      hide AddOne, GoodIds;
      AddNew(AddMessages(h, Unnamed(Front(bodies))), Last(Unnamed(bodies)));
    }
  }

  lemma TwoAdded(h: History, a: Body, b: Body)
    requires GoodIds(h)
    ensures var ms := AddMessages(h, Unnamed([a, b])).messages;
      |ms| == |h.messages| + 2 && ms[|h.messages|].body == a && ms[|h.messages| + 1].body == b
  {
    var bodies := [a, b];
    assert bodies[0] == a && bodies[1] == b;
    hide AddMessages, GoodIds, Unnamed;
    AddDrafts(h, bodies);
    var n := |h.messages|;
    assert AddMessages(h, Unnamed(bodies)).messages[n + 0].body == bodies[0];
    assert AddMessages(h, Unnamed(bodies)).messages[n + 1].body == bodies[1];
  }

  function Unnamed(bodies: seq<Body>): (ds: seq<Draft>)
    ensures |ds| == |bodies| && forall i | 0 <= i < |bodies| :: ds[i] == Draft(None, bodies[i])
  {
    seq(|bodies|, i requires 0 <= i < |bodies| => Draft(None, bodies[i]))
  }

  // ---- tool messages and the calls they answer ----

  /** The position of the message at the head of the run of tool messages that i is in. */
  function Asker(ms: seq<Message>, i: nat): (r: nat)
    requires i < |ms|
    ensures r <= i
    ensures forall k | r < k <= i :: ms[k].body.Tool?
  {
    if ms[i].body.Tool? && i > 0 then Asker(ms, i - 1) else i
  }

  /** The tool message at i stands behind an AI message, at the place of the call it answers. */
  ghost predicate Answers(ms: seq<Message>, i: nat)
    requires i < |ms|
  {
    var a := Asker(ms, i);
    && a < i && ms[a].body.Ai? && i - a - 1 < |ms[a].body.calls|
    && ms[i].body.Tool? && ms[i].body.callId == ms[a].body.calls[i - a - 1].id
  }

  ghost predicate AllAnswer(ms: seq<Message>) {
    forall i | 0 <= i < |ms| && ms[i].body.Tool? :: Answers(ms, i)
  }

  lemma {:induction false} AskerOfPrefix(ms: seq<Message>, more: seq<Message>, i: nat)
    requires i < |ms|
    ensures Asker(ms + more, i) == Asker(ms, i)
  {
    if ms[i].body.Tool? && i > 0 {
      AskerOfPrefix(ms, more, i - 1);
    }
  }

  /** Appending a message that is no tool message, or the answer to the next open call. */
  lemma AppendAnswers(ms: seq<Message>, m: Message)
    requires AllAnswer(ms)
    requires m.body.Tool? ==> ms != [] && var a := Asker(ms, |ms| - 1);
               ms[a].body.Ai? && |ms| - a - 1 < |ms[a].body.calls|
               && m.body.callId == ms[a].body.calls[|ms| - a - 1].id
    ensures AllAnswer(ms + [m])
  {
    var ms' := ms + [m];
    forall i | 0 <= i < |ms'| && ms'[i].body.Tool? ensures Answers(ms', i) {
      if i < |ms| {
        AskerOfPrefix(ms, [m], i);
        assert Answers(ms, i);
      } else {
        AskerOfPrefix(ms, [m], |ms| - 1);
        assert Asker(ms', i) == Asker(ms', i - 1);
      }
    }
  }

  /** The plain reading: every tool message answers a call made earlier in the list. */
  lemma AnswersEarlierCall(ms: seq<Message>, i: nat)
    requires AllAnswer(ms) && i < |ms| && ms[i].body.Tool?
    ensures exists j, k | 0 <= j < i && ms[j].body.Ai? && 0 <= k < |ms[j].body.calls| ::
              ms[j].body.calls[k].id == ms[i].body.callId
  {
    assert Answers(ms, i);
    var a := Asker(ms, i);
    assert ms[a].body.calls[i - a - 1].id == ms[i].body.callId;
  }
}
