/** The step log of one task and the streams that read it. Emitters are concurrent: each reads the
    next free number, then inserts under a uniqueness constraint, then publishes, and any other
    action can fall in between. Redis delivers what is published on a channel, in order, to whoever
    is subscribed at that moment, and keeps nothing. */
module StepLog {
  import opened Common
  import Sorting
  import Digits

  datatype StepType = Think | ToolCall | ToolResult | Reflect | PlanUpdate | UserInput | ContextSummarized | Report

  /** A row of task_steps, and an event as it is published. */
  datatype Row = Row(number: nat, kind: StepType, content: string)
  datatype Event = Event(id: nat, kind: string, data: string)

  function SseType(kind: StepType): string {
    match kind
    case Think => "think"
    case ToolCall => "tool_call"
    case ToolResult => "tool_result"
    case Reflect => "reflect"
    case PlanUpdate => "plan_updated"
    case UserInput => "user_input_required"
    case ContextSummarized => "context_summarized"
    case Report => "task_completed"
  }

  /** The event of each step type. Of these only a report closes a stream, and so do the two events
      that are emitted by name when a task fails or is cancelled. */
  lemma EventNames(kind: StepType)
    ensures SseType(kind) == [
              "think", "tool_call", "tool_result", "reflect", "plan_updated",
              "user_input_required", "context_summarized", "task_completed"
            ][if kind == Think then 0 else if kind == ToolCall then 1 else if kind == ToolResult then 2
              else if kind == Reflect then 3 else if kind == PlanUpdate then 4
              else if kind == UserInput then 5 else if kind == ContextSummarized then 6 else 7]
    ensures forall row: Row, sse: Option<string> | row.kind == kind && (sse.None? || sse.value == "") ::
              ClosesStream(LiveEvent(row, sse)) <==> kind == Report
    ensures forall row: Row | row.kind == kind :: ClosesStream(ReplayEvent(row)) <==> kind == Report
    ensures forall row: Row, sse: string | row.kind == kind && sse != "" ::
              ClosesStream(LiveEvent(row, Some(sse))) <==> sse == "task_completed" || sse == "task_failed"
  {
  }

  /** An empty sse_type counts as none. */
  function LiveEvent(row: Row, sse: Option<string>): Event {
    Event(row.number, if sse.Some? && sse.value != "" then sse.value else SseType(row.kind), row.content)
  }

  function ReplayEvent(row: Row): Event { Event(row.number, SseType(row.kind), row.content) }

  predicate ClosesStream(e: Event) { e.kind == "task_completed" || e.kind == "task_failed" }

  // ---- queries ----

  function MaxNumber(rows: seq<Row>): nat {
    if rows == [] then 0 else Max(MaxNumber(Front(rows)), Last(rows).number)
  }

  predicate Taken(rows: seq<Row>, number: nat) {
    exists i | 0 <= i < |rows| :: rows[i].number == number
  }

  predicate Lower(a: Row, b: Row) { a.number < b.number }

  function After(step: nat): Row -> bool { (r: Row) => r.number > step }

  /** SELECT ... WHERE step_number > step ORDER BY step_number. */
  function Replay(rows: seq<Row>, step: nat): seq<Row> {
    Sorting.Sort(Sorting.Filter(rows, After(step)), Lower)
  }

  /** The rows in insertion order carry the numbers 1, 2, 3, ... */
  ghost predicate Gapless(rows: seq<Row>) {
    forall i | 0 <= i < |rows| :: rows[i].number == i + 1
  }

  lemma {:induction false} MaxOfGapless(rows: seq<Row>)
    requires Gapless(rows)
    ensures MaxNumber(rows) == |rows|
  {
    if rows != [] {
      MaxOfGapless(Front(rows));
    }
  }

  lemma TakenIffUsed(rows: seq<Row>, n: nat)
    requires Gapless(rows)
    ensures Taken(rows, n) <==> 1 <= n <= |rows|
  {
    if 1 <= n <= |rows| {
      assert rows[n - 1].number == n;
    }
  }

  /** Replay returns exactly the ascending suffix after the given number. */
  lemma ReplayIsSuffix(rows: seq<Row>, step: nat)
    requires Gapless(rows)
    ensures Replay(rows, step) == rows[Min(step, |rows|)..]
  {
    var k := Min(step, |rows|);
    Sorting.FilterSuffix(rows, k, After(step));
    Sorting.SortOfOrdered(rows[k..], Lower);
  }

  // ---- the protocol ----

  datatype EmitterState =
    | Idle
    | Numbered(row: Row, sse: Option<string>)   // has read max + 1
    | Stored(row: Row, sse: Option<string>)     // has committed, not yet published

  datatype Phase = Opened | Caught | Listening | Ended

  /** A stream: the Last-Event-ID it started from, what it replayed, and the stretch of the channel
      it received, from where it subscribed. `cut`, the length of the log at the replay, is history. */
  datatype Reader = Reader(phase: Phase, after: nat, replayed: seq<Row>, cut: nat, start: nat, received: nat)

  /** `published` is everything ever published on the channel of the task. */
  datatype Log = Log(rows: seq<Row>, published: seq<Event>, emitters: map<nat, EmitterState>,
                     readers: map<nat, Reader>, terminal: bool)

  const EMPTY := Log([], [], map[], map[], false)

  datatype Action =
    | ReadMax(e: nat, kind: StepType, content: string, sse: Option<string>)
    | Insert(e: nat)
    | Publish(e: nat)
    | Abandon(e: nat)              // the emitter stops, for instance because publishing failed
    | Open(r: nat, after: nat)
    | ReplayTo(r: nat)
    | CheckStatus(r: nat)          // ends the stream of a terminal task
    | Subscribe(r: nat)
    | Receive(r: nat)
    | Disconnect(r: nat)
    | SetTerminal(terminal: bool)

  function Emitter(s: Log, e: nat): EmitterState { if e in s.emitters then s.emitters[e] else Idle }

  predicate In(s: Log, r: nat, phase: Phase) { r in s.readers && s.readers[r].phase == phase }

  function Step(s: Log, a: Action): Log {
    match a
    case ReadMax(e, kind, content, sse) =>
      if Emitter(s, e) != Idle then s
      else s.(emitters := s.emitters[e := Numbered(Row(MaxNumber(s.rows) + 1, kind, content), sse)])
    case Insert(e) =>
      if !Emitter(s, e).Numbered? then s
      else
        var Numbered(row, sse) := Emitter(s, e);
        if Taken(s.rows, row.number) then s.(emitters := s.emitters[e := Idle])
        else s.(rows := s.rows + [row], emitters := s.emitters[e := Stored(row, sse)])
    case Publish(e) =>
      if !Emitter(s, e).Stored? then s
      else
        var Stored(row, sse) := Emitter(s, e);
        s.(published := s.published + [LiveEvent(row, sse)], emitters := s.emitters[e := Idle])
    case Abandon(e) => s.(emitters := s.emitters[e := Idle])
    case Open(r, after) =>
      if r in s.readers then s else s.(readers := s.readers[r := Reader(Opened, after, [], 0, 0, 0)])
    case ReplayTo(r) =>
      if !In(s, r, Opened) then s
      else
        var reader := s.readers[r];
        s.(readers := s.readers[r := reader.(phase := Caught, replayed := Replay(s.rows, reader.after), cut := |s.rows|)])
    case CheckStatus(r) =>
      if !In(s, r, Caught) || !s.terminal then s else s.(readers := s.readers[r := s.readers[r].(phase := Ended)])
    case Subscribe(r) =>
      if !In(s, r, Caught) then s
      else s.(readers := s.readers[r := s.readers[r].(phase := Listening, start := |s.published|, received := |s.published|)])
    case Receive(r) =>
      if !In(s, r, Listening) || s.readers[r].received >= |s.published| then s
      else
        var reader := s.readers[r];
        var phase := if ClosesStream(s.published[reader.received]) then Ended else Listening;
        s.(readers := s.readers[r := reader.(phase := phase, received := reader.received + 1)])
    case Disconnect(r) =>
      if !In(s, r, Listening) then s else s.(readers := s.readers[r := s.readers[r].(phase := Ended)])
    case SetTerminal(terminal) => s.(terminal := terminal)
  }

  function Run(actions: seq<Action>): Log {
    if actions == [] then EMPTY else Step(Run(Front(actions)), Last(actions))
  }

  // ---- numbering ----

  /** What is stored has the numbers 1..n; what is committed or published is stored; a number read
      and not yet used is at most one past the end. */
  ghost predicate Good(s: Log) {
    && Gapless(s.rows)
    && (forall i | 0 <= i < |s.published| :: FromRow(s.rows, s.published[i].id, s.published[i].data))
    && (forall e | e in s.emitters :: GoodEmitter(s.rows, s.emitters[e]))
    && (forall r | r in s.readers :: GoodReader(s, s.readers[r]))
  }

  ghost predicate FromRow(rows: seq<Row>, id: nat, data: string) {
    1 <= id <= |rows| && rows[id - 1].number == id && rows[id - 1].content == data
  }

  ghost predicate GoodEmitter(rows: seq<Row>, e: EmitterState) {
    match e
    case Idle => true
    case Numbered(row, _) => 1 <= row.number <= |rows| + 1
    case Stored(row, _) => 1 <= row.number <= |rows| && rows[row.number - 1] == row
  }

  /** A reader replayed the suffix of the log as it was at some earlier moment, and received a
      stretch of the channel. */
  ghost predicate GoodReader(s: Log, reader: Reader) {
    && reader.cut <= |s.rows| && reader.start <= reader.received <= |s.published|
    && reader.replayed == Suffix(s.rows, reader.after, reader.cut)
  }

  /** Rows after + 1 to cut. */
  function Suffix(rows: seq<Row>, after: nat, cut: nat): seq<Row>
    requires cut <= |rows|
  {
    rows[Min(after, cut)..cut]
  }

  /** Longer logs and channels invalidate nothing. */
  lemma GoodIsStable(s: Log, rows: seq<Row>, published: seq<Event>)
    requires Good(s) && s.rows <= rows && Gapless(rows) && s.published <= published
    requires forall i | |s.published| <= i < |published| :: FromRow(rows, published[i].id, published[i].data)
    ensures Good(s.(rows := rows, published := published))
  {
    var s' := s.(rows := rows, published := published);
    forall r | r in s.readers ensures GoodReader(s', s.readers[r]) {
      assert GoodReader(s, s.readers[r]);
    }
    forall e | e in s.emitters ensures GoodEmitter(rows, s.emitters[e]) {
      assert GoodEmitter(s.rows, s.emitters[e]);
    }
    forall i | 0 <= i < |published| ensures FromRow(rows, published[i].id, published[i].data) {
      assert i < |s.published| ==> FromRow(s.rows, s.published[i].id, s.published[i].data);
    }
  }

  lemma GoodWithEmitter(s: Log, e: nat, state: EmitterState)
    requires Good(s) && GoodEmitter(s.rows, state)
    ensures Good(s.(emitters := s.emitters[e := state]))
  {
    var s' := s.(emitters := s.emitters[e := state]);
    assert forall r | r in s.readers :: GoodReader(s, s.readers[r]) == GoodReader(s', s.readers[r]);
  }

  lemma GoodWithReader(s: Log, r: nat, reader: Reader)
    requires Good(s) && GoodReader(s, reader)
    ensures Good(s.(readers := s.readers[r := reader]))
  {
    var s' := s.(readers := s.readers[r := reader]);
    assert forall x: Reader :: GoodReader(s, x) == GoodReader(s', x);
  }

  lemma StepKeepsGood(s: Log, a: Action)
    requires Good(s)
    ensures Good(Step(s, a)) && s.rows <= Step(s, a).rows && s.published <= Step(s, a).published
  {
    hide Good, Replay;
    assert Gapless(s.rows) by { GoodRows(s); }
    match a {
      case ReadMax(e, kind, content, sse) =>
        MaxOfGapless(s.rows);
        GoodWithEmitter(s, e, Numbered(Row(MaxNumber(s.rows) + 1, kind, content), sse));
      case Insert(e) =>
        if Emitter(s, e).Numbered? {
          InsertKeepsGood(s, e);
        }
      case Publish(e) =>
        if Emitter(s, e).Stored? {
          PublishKeepsGood(s, e);
        }
      case Abandon(e) => GoodWithEmitter(s, e, Idle);
      case Open(r, after) => GoodWithReader(s, r, Reader(Opened, after, [], 0, 0, 0));
      case SetTerminal(_) => GoodTerminal(s, a.terminal);
      case _ =>
        ReaderKeepsGood(s, a);
    }
  }

  /** The actions of a reader that exists already. */
  lemma ReaderKeepsGood(s: Log, a: Action)
    requires Good(s)
    requires a.ReplayTo? || a.CheckStatus? || a.Subscribe? || a.Receive? || a.Disconnect?
    ensures Good(Step(s, a)) && s.rows == Step(s, a).rows && s.published == Step(s, a).published
  {
    hide Good, Replay, Gapless;
    if a.r in s.readers {
      GoodRows(s);
      ReplayIsSuffix(s.rows, s.readers[a.r].after);
      GoodReaderOf(s, a.r);
      if Step(s, a) != s {
        GoodWithReader(s, a.r, Step(s, a).readers[a.r]);
      }
    }
  }

  lemma GoodRows(s: Log)
    requires Good(s)
    ensures Gapless(s.rows)
  {
  }

  lemma GoodReaderOf(s: Log, r: nat)
    requires Good(s) && r in s.readers
    ensures GoodReader(s, s.readers[r])
  {
  }

  lemma GoodTerminal(s: Log, terminal: bool)
    requires Good(s)
    ensures Good(s.(terminal := terminal))
  {
    assert forall x: Reader :: GoodReader(s, x) == GoodReader(s.(terminal := terminal), x);
  }

  lemma InsertKeepsGood(s: Log, e: nat)
    requires Good(s) && Emitter(s, e).Numbered?
    ensures Good(Step(s, Insert(e))) && s.rows <= Step(s, Insert(e)).rows
  {
    var Numbered(row, sse) := Emitter(s, e);
    assert GoodEmitter(s.rows, s.emitters[e]);
    if Taken(s.rows, row.number) {
      GoodWithEmitter(s, e, Idle);
    } else {
      TakenIffUsed(s.rows, row.number);
      var rows := s.rows + [row];
      GoodIsStable(s, rows, s.published);
      GoodWithEmitter(s.(rows := rows), e, Stored(row, sse));
    }
  }

  lemma PublishKeepsGood(s: Log, e: nat)
    requires Good(s) && Emitter(s, e).Stored?
    ensures Good(Step(s, Publish(e)))
  {
    var Stored(row, sse) := Emitter(s, e);
    assert GoodEmitter(s.rows, s.emitters[e]);
    var published := s.published + [LiveEvent(row, sse)];
    GoodIsStable(s, s.rows, published);
    GoodWithEmitter(s.(published := published), e, Idle);
  }

  lemma {:induction false} AlwaysGood(actions: seq<Action>)
    ensures Good(Run(actions))
  {
    if actions != [] {
      AlwaysGood(Front(actions));
      StepKeepsGood(Run(Front(actions)), Last(actions));
    }
  }

  /** For any interleaving of any number of emitters the stored numbers are exactly 1 to n, in the
      order of insertion. */
  lemma NumbersAreGapless(actions: seq<Action>)
    ensures var rows := Run(actions).rows;
      forall i | 0 <= i < |rows| :: rows[i].number == i + 1
  {
    AlwaysGood(actions);
  }

  /** An insert succeeds exactly when nobody else has inserted since the number was read, and what
      it then stores, and later publishes, is the row with the number it read. */
  lemma InsertSucceedsIff(actions: seq<Action>, e: nat)
    requires Emitter(Run(actions), e).Numbered?
    ensures var s := Run(actions);
      var row := Emitter(s, e).row;
      var s' := Step(s, Insert(e));
      && (row.number == |s.rows| + 1 <==> s'.rows == s.rows + [row])
      && (row.number <= |s.rows| <==> s'.rows == s.rows)
      && (s'.rows != s.rows ==> Emitter(s', e).Stored? && Emitter(s', e).row == row)
  {
    AlwaysGood(actions);
    var s := Run(actions);
    var row := Emitter(s, e).row;
    assert GoodEmitter(s.rows, s.emitters[e]);
    TakenIffUsed(s.rows, row.number);
  }

  // ---- streams ----

  /** What the stream has handed to its client. */
  function Delivered(s: Log, reader: Reader): seq<Event>
    requires reader.start <= reader.received <= |s.published|
  {
    Replayed(reader.replayed) + s.published[reader.start..reader.received]
  }

  function Replayed(rows: seq<Row>): seq<Event> {
    seq(|rows|, i requires 0 <= i < |rows| => ReplayEvent(rows[i]))
  }

  /** Every delivered event carries the number and the content of a stored step, and the replayed
      part is exactly the ascending rows after Last-Event-ID at the time of the replay. */
  lemma DeliversStoredSteps(actions: seq<Action>, r: nat)
    requires r in Run(actions).readers
    ensures var s := Run(actions);
      var reader := s.readers[r];
      && reader.cut <= |s.rows| && reader.start <= reader.received <= |s.published|
      && reader.replayed == Suffix(s.rows, reader.after, reader.cut)
      && forall i | 0 <= i < |Delivered(s, reader)| ::
           FromRow(s.rows, Delivered(s, reader)[i].id, Delivered(s, reader)[i].data)
  {
    AlwaysGood(actions);
    hide Run;
    DeliversStored(Run(actions), r);
  }

  lemma DeliversStored(s: Log, r: nat)
    requires Good(s) && r in s.readers
    ensures var reader := s.readers[r];
      && reader.cut <= |s.rows| && reader.start <= reader.received <= |s.published|
      && reader.replayed == Suffix(s.rows, reader.after, reader.cut)
      && forall i | 0 <= i < |Delivered(s, reader)| ::
           FromRow(s.rows, Delivered(s, reader)[i].id, Delivered(s, reader)[i].data)
  {
    GoodReaderOf(s, r);
    var reader := s.readers[r];
    forall i | 0 <= i < |Delivered(s, reader)|
      ensures FromRow(s.rows, Delivered(s, reader)[i].id, Delivered(s, reader)[i].data)
    {
      if i < |reader.replayed| {
        assert reader.replayed[i] == s.rows[Min(reader.after, reader.cut) + i];
      } else {
        assert Delivered(s, reader)[i] == s.published[reader.start + i - |reader.replayed|];
      }
    }
  }

  /** Replay recomputes the event type from the step type, so a step is replayed as the event that
      was published live if and only if no other type was asked for when it was emitted. */
  lemma ReplayTypeAgreesIff(row: Row, sse: Option<string>)
    ensures LiveEvent(row, sse).id == ReplayEvent(row).id && LiveEvent(row, sse).data == ReplayEvent(row).data
    ensures LiveEvent(row, sse) == ReplayEvent(row)
       <==> sse.None? || sse.value == "" || sse.value == SseType(row.kind)
  {
  }

  // ---- the Last-Event-ID header ----

  /** The Last-Event-ID header: a non-empty string of decimal digits, anything else is 0. */
  function AfterStep(header: Option<string>): nat {
    if header.None? || header.value == "" || exists i | 0 <= i < |header.value| :: !Digits.IsDecimal(header.value[i])
    then 0
    else
      match Digits.Value(header.value, 10)
      case Ok(n) => n
      case Malformed => 0
  }

  /** The id a frame carries is understood when it comes back as Last-Event-ID. */
  lemma HeaderRoundTrip(id: nat)
    ensures AfterStep(Some(Digits.Show(id))) == id
  {
    Digits.ShowIsDecimal(id);
    Digits.ValueOfShow(id);
  }

  /** Without a header, or with one that is not a number, the stream begins with the first step. */
  lemma NoHeaderReplaysAll(rows: seq<Row>, header: Option<string>)
    requires Gapless(rows)
    requires header.None? || header.value == "" || exists i | 0 <= i < |header.value| :: !('0' <= header.value[i] <= '9')
    ensures AfterStep(header) == 0 && Replay(rows, AfterStep(header)) == rows
  {
    ReplayIsSuffix(rows, 0);
  }

  // ---- reconnecting ----

  lemma {:induction false} RowsGrow(actions: seq<Action>, i: nat)
    requires i <= |actions|
    ensures Run(actions[..i]).rows <= Run(actions).rows
  {
    if i == |actions| {
      assert actions[..i] == actions;
    } else {
      RowsGrow(Front(actions), i);
      assert Front(actions)[..i] == actions[..i];
      AlwaysGood(Front(actions));
      StepKeepsGood(Run(Front(actions)), Last(actions));
    }
  }

  /** Moments of a run, earliest first. */
  ghost predicate Moments(actions: seq<Action>, times: seq<nat>) {
    && (forall i | 0 <= i < |times| :: times[i] <= |actions|)
    && (forall i, j | 0 <= i < j < |times| :: times[i] <= times[j])
  }

  /** The rows of the log after the first t actions. */
  function RowsAt(actions: seq<Action>, t: nat): seq<Row>
    requires t <= |actions|
  {
    Run(actions[..t]).rows
  }

  lemma RowsGrowBetween(actions: seq<Action>, t: nat, u: nat)
    requires t <= u <= |actions|
    ensures RowsAt(actions, t) <= RowsAt(actions, u)
  {
    RowsGrow(actions[..u], t);
    assert actions[..u][..t] == actions[..t];
  }

  lemma RowsAtGapless(actions: seq<Action>, t: nat)
    requires t <= |actions|
    ensures Gapless(RowsAt(actions, t))
  {
    AlwaysGood(actions[..t]);
  }

  /** A client that reconnects at the given moments of a run, each time sending the id of the last row
      it was replayed as its Last-Event-ID, and the rows it is replayed in all. */
  ghost function Resume(actions: seq<Action>, times: seq<nat>, header: Option<string>): seq<Row>
    requires Moments(actions, times)
  {
    if times == [] then []
    else
      var replayed := Replay(RowsAt(actions, times[0]), AfterStep(header));
      replayed + Resume(actions, times[1..], if replayed == [] then header else Some(Digits.Show(Last(replayed).number)))
  }

  lemma {:induction false} ResumeFrom(actions: seq<Action>, times: seq<nat>, header: Option<string>)
    requires Moments(actions, times) && times != [] && AfterStep(header) <= |RowsAt(actions, times[0])|
    ensures var rows := RowsAt(actions, Last(times));
      AfterStep(header) <= |rows| && Resume(actions, times, header) == rows[AfterStep(header)..]
  {
    hide RowsAt, Replay, AfterStep;
    var now, after := RowsAt(actions, times[0]), AfterStep(header);
    RowsAtGapless(actions, times[0]);
    ReplayIsSuffix(now, after);
    assert now[after..] != [] ==> Last(now[after..]) == Last(now);
    if |times| > 1 {
      RowsGrowBetween(actions, times[0], times[1]);
      RowsGrowBetween(actions, times[0], Last(times));
      assert Last(times[1..]) == Last(times);
      HeaderRoundTrip(|now|);
      var next := if now[after..] == [] then header else Some(Digits.Show(Last(now[after..]).number));
      assert AfterStep(next) == |now|;
      ResumeFrom(actions, times[1..], next);
      var end := RowsAt(actions, Last(times));
      assert end[after..] == now[after..] + end[|now|..];
    }
  }

  /** Any chain of reconnects, the first without a header, hands over every step of the final log
      once, in order. */
  lemma ReconnectsLoseNothing(actions: seq<Action>, times: seq<nat>)
    requires Moments(actions, times) && times != []
    ensures Resume(actions, times, None) == RowsAt(actions, Last(times))
    ensures forall i | 0 <= i < |RowsAt(actions, Last(times))| :: RowsAt(actions, Last(times))[i].number == i + 1
  {
    NoHeaderReplaysAll([], None);
    ResumeFrom(actions, times, None);
    RowsAtGapless(actions, Last(times));
  }

  // ---- live continuation with one emitter ----

  predicate OnlyZero(a: Action) {
    match a
    case ReadMax(e, _, _, _) => e == 0
    case Insert(e) => e == 0
    case Publish(e) => e == 0
    case Abandon(_) => false
    case _ => true
  }

  /** Only emitter 0 runs, and it never stops between committing and publishing. */
  ghost predicate SingleEmitter(actions: seq<Action>) {
    forall i | 0 <= i < |actions| :: OnlyZero(actions[i])
  }

  /** Everything but the step just committed has been published, in order. */
  ghost predicate InOrder(s: Log) {
    && Gapless(s.rows)
    && (forall i | 0 <= i < |s.published| :: s.published[i].id == i + 1)
    && match Emitter(s, 0)
       case Idle => |s.published| == |s.rows|
       case Numbered(row, _) => |s.published| == |s.rows| && row.number == |s.rows| + 1
       case Stored(row, _) => |s.published| + 1 == |s.rows| && row.number == |s.rows|
  }

  lemma InOrderStep(s: Log, a: Action)
    requires InOrder(s) && OnlyZero(a)
    ensures InOrder(Step(s, a))
  {
    hide Replay, MaxNumber, Taken;
    MaxOfGapless(s.rows);
    if a.Insert? && Emitter(s, 0).Numbered? {
      TakenIffUsed(s.rows, Emitter(s, 0).row.number);
    }
  }

  lemma {:induction false} AlwaysInOrder(actions: seq<Action>)
    requires SingleEmitter(actions)
    ensures InOrder(Run(actions))
  {
    if actions != [] {
      hide Step, InOrder, OnlyZero;
      AlwaysInOrder(Front(actions));
      InOrderStep(Run(Front(actions)), Last(actions));
    } else {
      assert Run(actions) == EMPTY;
    }
  }

  /** The client sees after + 1, after + 2, and so on. */
  ghost predicate Contiguous(events: seq<Event>, after: nat) {
    forall i | 0 <= i < |events| :: events[i].id == after + 1 + i
  }

  /** With one emitter a stream continues its replay without gap or repeat if and only if nothing
      live was received yet, or what had been published when it subscribed is exactly what the
      client had got by then. */
  lemma LiveContinuesIff(actions: seq<Action>, r: nat)
    requires SingleEmitter(actions) && r in Run(actions).readers
    ensures var s := Run(actions);
      var reader := s.readers[r];
      && reader.start <= reader.received <= |s.published|
      && (Contiguous(Delivered(s, reader), reader.after) <==>
            reader.received == reader.start || reader.start == Max(reader.after, reader.cut))
  {
    AlwaysInOrder(actions);
    DeliversStoredSteps(actions, r);
    hide Run;
    var s := Run(actions);
    DeliveredIds(s, s.readers[r]);
  }

  lemma DeliveredIds(s: Log, reader: Reader)
    requires Gapless(s.rows) && forall i | 0 <= i < |s.published| :: s.published[i].id == i + 1
    requires reader.cut <= |s.rows| && reader.start <= reader.received <= |s.published|
    requires reader.replayed == Suffix(s.rows, reader.after, reader.cut)
    ensures Contiguous(Delivered(s, reader), reader.after) <==>
              reader.received == reader.start || reader.start == Max(reader.after, reader.cut)
  {
    var events, n := Delivered(s, reader), |reader.replayed|;
    assert reader.after + n == Max(reader.after, reader.cut);
    forall i | 0 <= i < n ensures events[i].id == reader.after + 1 + i {
      assert events[i] == ReplayEvent(reader.replayed[i]);
      assert reader.replayed[i] == s.rows[reader.after + i];
    }
    forall i | n <= i < |events| ensures events[i].id == reader.start + 1 + (i - n) {
      assert events[i] == s.published[reader.start + (i - n)];
    }
    if reader.received > reader.start {
      assert events[n].id == reader.start + 1;
    }
  }

  // ---- the same in terms of what happened when ----

  /** The p-th action makes reader r replay; the q-th makes it subscribe. */
  predicate ReplaysAt(actions: seq<Action>, r: nat, p: nat) {
    p < |actions| && actions[p] == ReplayTo(r) && In(Run(actions[..p]), r, Opened)
  }

  predicate SubscribesAt(actions: seq<Action>, r: nat, q: nat) {
    q < |actions| && actions[q] == Subscribe(r) && In(Run(actions[..q]), r, Caught)
  }

  lemma RunNext(actions: seq<Action>, i: nat)
    requires i < |actions|
    ensures Run(actions[..i + 1]) == Step(Run(actions[..i]), actions[i])
  {
    assert Front(actions[..i + 1]) == actions[..i];
  }

  /** Reader r has replayed, and did so when the log was as in s0. */
  ghost predicate HasReplayed(s: Log, s0: Log, r: nat) {
    && r in s.readers && r in s0.readers && s.readers[r].phase != Opened
    && s.readers[r].cut == |s0.rows| && s.readers[r].after == s0.readers[r].after
  }

  /** Reader r has subscribed, and did so when the channel was as in s0. */
  ghost predicate HasSubscribed(s: Log, s0: Log, r: nat) {
    && r in s.readers && s.readers[r].phase != Opened && s.readers[r].phase != Caught
    && s.readers[r].start == |s0.published|
  }

  /** What a reader replayed and where it subscribed never changes. */
  lemma ReaderFixed(s: Log, s0: Log, a: Action, r: nat)
    ensures HasReplayed(s, s0, r) ==> HasReplayed(Step(s, a), s0, r)
    ensures HasSubscribed(s, s0, r) ==> HasSubscribed(Step(s, a), s0, r)
  {
    hide Replay, MaxNumber, Taken;
  }

  lemma ReaderTakes(s: Log, r: nat)
    ensures In(s, r, Opened) ==> HasReplayed(Step(s, ReplayTo(r)), s, r)
    ensures In(s, r, Caught) ==> HasSubscribed(Step(s, Subscribe(r)), s, r)
  {
    hide Replay;
  }

  lemma {:induction false} ReplayedWhen(actions: seq<Action>, r: nat, p: nat, i: nat)
    requires ReplaysAt(actions, r, p) && p < i <= |actions|
    ensures HasReplayed(Run(actions[..i]), Run(actions[..p]), r)
    decreases i
  {
    hide Step, Run, In, HasReplayed;
    RunNext(actions, i - 1);
    if i == p + 1 {
      ReaderTakes(Run(actions[..p]), r);
    } else {
      ReplayedWhen(actions, r, p, i - 1);
      ReaderFixed(Run(actions[..i - 1]), Run(actions[..p]), actions[i - 1], r);
    }
  }

  lemma {:induction false} SubscribedWhen(actions: seq<Action>, r: nat, q: nat, i: nat)
    requires SubscribesAt(actions, r, q) && q < i <= |actions|
    ensures HasSubscribed(Run(actions[..i]), Run(actions[..q]), r)
    decreases i
  {
    hide Step, Run, In, HasSubscribed;
    RunNext(actions, i - 1);
    if i == q + 1 {
      ReaderTakes(Run(actions[..q]), r);
    } else {
      SubscribedWhen(actions, r, q, i - 1);
      ReaderFixed(Run(actions[..i - 1]), Run(actions[..q]), actions[i - 1], r);
    }
  }

  lemma {:induction false} NothingPublished(actions: seq<Action>, p: nat, q: nat)
    requires p <= q <= |actions|
    requires forall i | p <= i < q :: !actions[i].Publish?
    ensures Run(actions[..q]).published == Run(actions[..p]).published
    decreases q
  {
    if p < q {
      hide Run, Step;
      NothingPublished(actions, p, q - 1);
      RunNext(actions, q - 1);
      OnlyPublishing(Run(actions[..q - 1]), actions[q - 1]);
    }
  }

  lemma OnlyPublishing(s: Log, a: Action)
    requires !a.Publish?
    ensures Step(s, a).published == s.published
  {
    hide Replay, MaxNumber, Taken;
  }

  /** With one emitter, a client whose Last-Event-ID was a stored step is served without gap or
      repeat if, at its replay, no step was committed and unpublished, and nothing is published
      between replay and subscription. */
  lemma QuietSubscription(actions: seq<Action>, r: nat, p: nat, q: nat)
    requires SingleEmitter(actions) && ReplaysAt(actions, r, p) && SubscribesAt(actions, r, q) && p < q
    requires !Emitter(Run(actions[..p]), 0).Stored?
    requires forall i | p <= i < q :: !actions[i].Publish?
    requires Run(actions[..p]).readers[r].after <= |Run(actions[..p]).rows|
    ensures r in Run(actions).readers
    ensures var s := Run(actions);
      var reader := s.readers[r];
      && reader.start <= reader.received <= |s.published|
      && Contiguous(Delivered(s, reader), reader.after)
  {
    assert actions[..|actions|] == actions;
    ReplayedWhen(actions, r, p, |actions|);
    SubscribedWhen(actions, r, q, |actions|);
    NothingPublished(actions, p, q);
    forall i | 0 <= i < p ensures OnlyZero(actions[..p][i]) {
      assert actions[..p][i] == actions[i];
    }
    AlwaysInOrder(actions[..p]);
    LiveContinuesIff(actions, r);
    hide Run, Delivered, Contiguous, Gapless;
  }

  // ---- how often a step is delivered, with any number of emitters ----

  /** No step is published twice, and none that is still to be published. */
  ghost predicate PublishedOnce(s: Log) {
    && (forall i, j | 0 <= i < j < |s.published| :: s.published[i].id != s.published[j].id)
    && (forall e, i | e in s.emitters && s.emitters[e].Stored? && 0 <= i < |s.published| ::
          s.published[i].id != s.emitters[e].row.number)
    && (forall e, f | e in s.emitters && f in s.emitters && e != f && s.emitters[e].Stored? && s.emitters[f].Stored? ::
          s.emitters[e].row.number != s.emitters[f].row.number)
  }

  lemma InsertPublishesOnce(s: Log, e: nat)
    requires Good(s) && PublishedOnce(s)
    ensures PublishedOnce(Step(s, Insert(e)))
  {
    if Emitter(s, e).Numbered? {
      var row := Emitter(s, e).row;
      assert GoodEmitter(s.rows, s.emitters[e]);
      TakenIffUsed(s.rows, row.number);
      forall f | f in s.emitters && s.emitters[f].Stored? ensures s.emitters[f].row.number <= |s.rows| {
        assert GoodEmitter(s.rows, s.emitters[f]);
      }
      assert forall i | 0 <= i < |s.published| :: FromRow(s.rows, s.published[i].id, s.published[i].data);
      hide Good, Gapless, Taken, GoodEmitter;
    }
  }

  lemma StepPublishesOnce(s: Log, a: Action)
    requires Good(s) && PublishedOnce(s)
    ensures PublishedOnce(Step(s, a))
  {
    hide Good, Replay, MaxNumber, Taken;
    if a.Insert? {
      InsertPublishesOnce(s, a.e);
    }
  }

  lemma {:induction false} AlwaysPublishedOnce(actions: seq<Action>)
    ensures PublishedOnce(Run(actions))
  {
    if actions != [] {
      hide Step, Good, PublishedOnce;
      AlwaysPublishedOnce(Front(actions));
      AlwaysGood(Front(actions));
      StepPublishesOnce(Run(Front(actions)), Last(actions));
    } else {
      assert Run(actions) == EMPTY;
    }
  }

  /** Step n is stored, has not been published, and no emitter holds it any more. */
  ghost predicate Gone(s: Log, n: nat) {
    && 1 <= n <= |s.rows|
    && (forall i | 0 <= i < |s.published| :: s.published[i].id != n)
    && (forall e | e in s.emitters && s.emitters[e].Stored? :: s.emitters[e].row.number != n)
  }

  lemma GoneStep(s: Log, a: Action, n: nat)
    requires Good(s) && Gone(s, n)
    ensures Gone(Step(s, a), n)
  {
    if a.Insert? && Emitter(s, a.e).Numbered? {
      assert GoodEmitter(s.rows, s.emitters[a.e]);
      GoodRows(s);
      TakenIffUsed(s.rows, Emitter(s, a.e).row.number);
    }
    hide Good, Gapless, Replay, MaxNumber, Taken, GoodEmitter;
  }

  lemma {:induction false} GoneForGood(actions: seq<Action>, more: seq<Action>, n: nat)
    requires Gone(Run(actions), n)
    ensures Gone(Run(actions + more), n)
  {
    if more == [] {
      assert actions + more == actions;
    } else {
      hide Gone, Step, Good;
      GoneForGood(actions, Front(more), n);
      AlwaysGood(actions + Front(more));
      assert Front(actions + more) == actions + Front(more);
      GoneStep(Run(actions + Front(more)), Last(more), n);
    }
  }

  /** A step whose emitter stops between insert and publish is never published: no live stream gets
      it, whatever comes after. */
  lemma AbandonedNeverPublished(actions: seq<Action>, e: nat, more: seq<Action>)
    requires Emitter(Run(actions), e).Stored?
    ensures var s := Run(actions + [Abandon(e)] + more);
      forall i | 0 <= i < |s.published| :: s.published[i].id != Emitter(Run(actions), e).row.number
  {
    var s, n := Run(actions), Emitter(Run(actions), e).row.number;
    AlwaysGood(actions);
    AlwaysPublishedOnce(actions);
    assert GoodEmitter(s.rows, s.emitters[e]);
    hide Good, Run;
    AbandonNext(actions, e);
    assert Gone(Run(actions + [Abandon(e)]), n);
    GoneForGood(actions + [Abandon(e)], more, n);
  }

  lemma AbandonNext(actions: seq<Action>, e: nat)
    ensures Run(actions + [Abandon(e)]) == Step(Run(actions), Abandon(e))
  {
    assert Front(actions + [Abandon(e)]) == actions;
  }

  /** How many of the events carry the id. */
  function Times(events: seq<Event>, id: nat): nat {
    if events == [] then 0 else Times(Front(events), id) + (if Last(events).id == id then 1 else 0)
  }

  lemma {:induction false} TimesJoin(a: seq<Event>, b: seq<Event>, id: nat)
    ensures Times(a + b, id) == Times(a, id) + Times(b, id)
  {
    if b == [] {
      assert a + b == a;
    } else {
      TimesJoin(a, Front(b), id);
      assert Front(a + b) == a + Front(b);
    }
  }

  /** Among events with distinct ids, an id occurs once if some position holds it, else never. */
  lemma {:induction false} TimesOnce(events: seq<Event>, id: nat)
    requires forall i, j | 0 <= i < j < |events| :: events[i].id != events[j].id
    ensures Times(events, id) == if exists i :: 0 <= i < |events| && events[i].id == id then 1 else 0
  {
    if events != [] {
      TimesOnce(Front(events), id);
      assert events[|events| - 1] == Last(events);
      if i :| 0 <= i < |events| - 1 && events[i].id == id {
        assert Front(events)[i].id == id;
      }
    }
  }

  /** For any interleaving: a step published as the k-th event reaches a stream once by replay if it
      is one of the rows after Last-Event-ID at the replay, and once live if the stream had
      subscribed when it was published and has received that far. So it is seen twice exactly if
      both hold, and missed exactly if neither does. */
  lemma DeliveredTimes(actions: seq<Action>, r: nat, k: nat)
    requires r in Run(actions).readers && k < |Run(actions).published|
    ensures var s := Run(actions);
      var reader, id := s.readers[r], s.published[k].id;
      && reader.start <= reader.received <= |s.published|
      && Times(Delivered(s, reader), id)
         == (if reader.after < id <= reader.cut then 1 else 0) + (if reader.start <= k < reader.received then 1 else 0)
  {
    AlwaysGood(actions);
    AlwaysPublishedOnce(actions);
    hide Run;
    var s := Run(actions);
    GoodReaderOf(s, r);
    GoodRows(s);
    TimesDelivered(s, s.readers[r], k);
  }

  lemma TimesDelivered(s: Log, reader: Reader, k: nat)
    requires Gapless(s.rows) && GoodReader(s, reader) && k < |s.published|
    requires forall i, j | 0 <= i < j < |s.published| :: s.published[i].id != s.published[j].id
    ensures Times(Delivered(s, reader), s.published[k].id)
         == (if reader.after < s.published[k].id <= reader.cut then 1 else 0)
            + (if reader.start <= k < reader.received then 1 else 0)
  {
    var id := s.published[k].id;
    TimesJoin(Replayed(reader.replayed), s.published[reader.start..reader.received], id);
    TimesReplayed(s, reader, id);
    TimesLive(s.published, reader.start, reader.received, k);
  }

  lemma TimesReplayed(s: Log, reader: Reader, id: nat)
    requires Gapless(s.rows) && GoodReader(s, reader)
    ensures Times(Replayed(reader.replayed), id) == if reader.after < id <= reader.cut then 1 else 0
  {
    var events, from := Replayed(reader.replayed), Min(reader.after, reader.cut);
    forall i | 0 <= i < |events| ensures events[i].id == from + 1 + i {
      assert reader.replayed[i] == s.rows[from + i];
    }
    TimesOnce(events, id);
    if reader.after < id <= reader.cut {
      assert events[id - from - 1].id == id;
    }
  }

  lemma TimesLive(published: seq<Event>, start: nat, received: nat, k: nat)
    requires start <= received <= |published| && k < |published|
    requires forall i, j | 0 <= i < j < |published| :: published[i].id != published[j].id
    ensures Times(published[start..received], published[k].id) == if start <= k < received then 1 else 0
  {
    var events := published[start..received];
    TimesOnce(events, published[k].id);
    if start <= k < received {
      assert events[k - start].id == published[k].id;
    }
  }

  // ---- where a stream ends ----

  /** A stream that has received an event that closes it has ended with it. */
  ghost predicate ClosedRight(s: Log, reader: Reader) {
    && reader.start <= reader.received <= |s.published|
    && (forall k | reader.start <= k < reader.received - 1 :: !ClosesStream(s.published[k]))
    && (reader.received > reader.start && ClosesStream(s.published[reader.received - 1]) ==> reader.phase == Ended)
    && (reader.received > reader.start ==> reader.phase == Listening || reader.phase == Ended)
  }

  lemma ClosedStep(s: Log, a: Action)
    requires forall r | r in s.readers :: ClosedRight(s, s.readers[r])
    ensures forall r | r in Step(s, a).readers :: ClosedRight(Step(s, a), Step(s, a).readers[r])
  {
    hide ClosedRight, Step;
    forall r | r in Step(s, a).readers ensures ClosedRight(Step(s, a), Step(s, a).readers[r]) {
      ClosedOne(s, a, r);
    }
  }

  lemma ClosedOne(s: Log, a: Action, r: nat)
    requires r in s.readers ==> ClosedRight(s, s.readers[r])
    ensures r in Step(s, a).readers ==> ClosedRight(Step(s, a), Step(s, a).readers[r])
  {
    hide Replay, MaxNumber, Taken, ClosesStream;
  }

  /** Over every run a stream receives nothing live after an event that closes it, and has ended with
      that event. */
  lemma {:induction false} ClosingIsLast(actions: seq<Action>)
    ensures forall r | r in Run(actions).readers :: ClosedRight(Run(actions), Run(actions).readers[r])
  {
    if actions != [] {
      hide Step, ClosedRight;
      ClosingIsLast(Front(actions));
      ClosedStep(Run(Front(actions)), Last(actions));
    } else {
      assert Run(actions) == EMPTY;
    }
  }

  /** Between replay and subscription the stream ends exactly if the task is terminal, as its status
      was last committed. */
  lemma TerminalEndsStream(s: Log, r: nat)
    requires In(s, r, Caught)
    ensures In(Step(s, CheckStatus(r)), r, Ended) <==> s.terminal
    ensures !s.terminal ==> Step(s, CheckStatus(r)) == s
    ensures forall terminal: bool :: In(Step(Step(s, SetTerminal(terminal)), CheckStatus(r)), r, Ended) <==> terminal
  {
  }

  /** A client that disconnects ends its stream: what it was given stays, and nothing is added by
      what is published later. */
  lemma DisconnectEnds(s: Log, r: nat, a: Action)
    requires In(s, r, Listening)
    ensures var s' := Step(s, Disconnect(r));
      && In(s', r, Ended) && s'.readers[r].replayed == s.readers[r].replayed
      && s'.readers[r].start == s.readers[r].start && s'.readers[r].received == s.readers[r].received
      && Step(s', a).readers[r] == s'.readers[r]
  {
    hide Replay, MaxNumber, Taken, ClosesStream;
  }

  // ---- one emitter and one stream as they are written ----

  class EventLog {
    var rows: seq<Row>
    var published: seq<Event>

    constructor ()
      ensures rows == [] && published == []
    {
      rows, published := [], [];
    }

    function AsLog(): Log reads this { Log(rows, published, map[0 := Idle], map[], false) }

    /** An emit that nobody interrupts is the three protocol steps in a row. */
    method Emit(kind: StepType, content: string, sse: Option<string>) returns (number: nat)
      requires Gapless(rows)
      modifies this
      ensures Gapless(rows) && number == |old(rows)| + 1
      ensures rows == old(rows) + [Row(number, kind, content)]
      ensures published == old(published) + [LiveEvent(Row(number, kind, content), sse)]
      ensures AsLog() == Step(Step(Step(old(AsLog()), ReadMax(0, kind, content, sse)), Insert(0)), Publish(0))
    {
      MaxOfGapless(rows);
      number := MaxNumber(rows) + 1;
      TakenIffUsed(rows, number);
      var row := Row(number, kind, content);
      rows := rows + [row];
      published := published + [LiveEvent(row, sse)];
    }

    method EmitFailedCancelled() returns (number: nat)
      requires Gapless(rows)
      modifies this
      ensures Gapless(rows) && number == |old(rows)| + 1 && |rows| == number
      ensures published == old(published) + [Event(number, "task_failed", "Task cancelled by user")]
      ensures rows == old(rows) + [Row(number, Report, "Task cancelled by user")]
    {
      number := Emit(Report, "Task cancelled by user", Some("task_failed"));
    }

    method ReplayAfter(after: nat) returns (events: seq<Event>)
      requires Gapless(rows)
      ensures events == Replayed(rows[Min(after, |rows|)..])
    {
      ReplayIsSuffix(rows, after);
      events := Replayed(Replay(rows, after));
    }

    /** The stream: replay, stop if the task is terminal, then forward what arrives. `inbox` is
        what polling the subscription returns until the client disconnects, None on a timeout. */
    method EventGenerator(after: nat, terminal: bool, inbox: seq<Option<Event>>) returns (frames: seq<Frame>)
      requires Gapless(rows)
      ensures Events(frames) == Replayed(rows[Min(after, |rows|)..])
                              + (if terminal then [] else UpToClosing(Arrived(inbox)))
    {
      hide Arrived, UpToClosing, Events, ClosesStream;
      var replayed := ReplayAfter(after);
      frames := Frames(replayed);
      EventsOfFrames(replayed);
      if terminal {
        return;
      }
      for i := 0 to |inbox|
        invariant Events(frames) + UpToClosing(Arrived(inbox[i..])) == replayed + UpToClosing(Arrived(inbox))
      {
        var msg := inbox[i];
        ForwardOne(frames, inbox[i..]);
        assert inbox[i..][1..] == inbox[i + 1..];
        frames := frames + [FrameOf(msg)];
        if msg.Some? && ClosesStream(msg.value) {
          return;
        }
      }
      NothingArrived();
    }
  }

  datatype Frame = Data(event: Event) | Heartbeat

  function Frames(events: seq<Event>): seq<Frame> {
    if events == [] then [] else [Data(events[0])] + Frames(events[1..])
  }

  /** What a client sees of the frames: heartbeats carry nothing. */
  function Events(frames: seq<Frame>): seq<Event> {
    if frames == [] then []
    else Events(Front(frames)) + (if Last(frames).Data? then [Last(frames).event] else [])
  }

  function Arrived(inbox: seq<Option<Event>>): seq<Event> {
    if inbox == [] then []
    else if inbox[0].Some? then [inbox[0].value] + Arrived(inbox[1..])
    else Arrived(inbox[1..])
  }

  /** The events up to and including the first that closes the stream. */
  function UpToClosing(events: seq<Event>): seq<Event> {
    if events == [] then []
    else if ClosesStream(events[0]) then [events[0]]
    else [events[0]] + UpToClosing(events[1..])
  }

  /** Some first stretch of the events, of which only the last can be a completion or a failure; and
      it is cut short only behind such a one. */
  lemma {:induction false} UpToClosingMeaning(events: seq<Event>)
    ensures var some := UpToClosing(events);
      && some <= events
      && (forall i | 0 <= i < |some| - 1 :: some[i].kind != "task_completed" && some[i].kind != "task_failed")
      && (some != events ==> some != [] && (Last(some).kind == "task_completed" || Last(some).kind == "task_failed"))
  {
    if events != [] {
      UpToClosingMeaning(events[1..]);
      assert events == [events[0]] + events[1..];
    }
  }

  /** Timeouts carry nothing, and what arrives keeps its order. */
  lemma {:induction false} ArrivedMeaning(a: seq<Option<Event>>, b: seq<Option<Event>>, e: Event)
    ensures Arrived(a + b) == Arrived(a) + Arrived(b)
    ensures Arrived([None]) == [] && Arrived([Some(e)]) == [e]
  {
    if a == [] {
      assert a + b == b;
    } else {
      ArrivedMeaning(a[1..], b, e);
      assert (a + b)[1..] == a[1..] + b;
    }
    var none: Option<Event> := None;
    assert [Some(e)][1..] == [] && [none][1..] == [];
  }

  lemma EventsAppend(frames: seq<Frame>, f: Frame)
    ensures Events(frames + [f]) == Events(frames) + (if f.Data? then [f.event] else [])
  {
    assert Front(frames + [f]) == frames;
  }

  lemma {:induction false} EventsOfFrames(events: seq<Event>)
    ensures Events(Frames(events)) == events
  {
    if events != [] {
      FramesAppend(Front(events), Last(events));
      assert events == Front(events) + [Last(events)];
      EventsOfFrames(Front(events));
      EventsAppend(Frames(Front(events)), Data(Last(events)));
    }
  }

  lemma {:induction false} FramesAppend(events: seq<Event>, e: Event)
    ensures Frames(events + [e]) == Frames(events) + [Data(e)]
  {
    if events == [] {
      assert ([e])[1..] == [];
    } else {
      FramesAppend(events[1..], e);
      assert (events + [e])[1..] == events[1..] + [e];
    }
  }

  function FrameOf(msg: Option<Event>): Frame {
    if msg.None? then Heartbeat else Data(msg.value)
  }

  lemma NothingArrived()
    ensures UpToClosing(Arrived([])) == []
  {
  }

  lemma ForwardOne(frames: seq<Frame>, inbox: seq<Option<Event>>)
    requires inbox != []
    ensures var rest := if inbox[0].Some? && ClosesStream(inbox[0].value) then []
                        else UpToClosing(Arrived(inbox[1..]));
      Events(frames + [FrameOf(inbox[0])]) + rest == Events(frames) + UpToClosing(Arrived(inbox))
  {
    hide Events, ClosesStream;
    EventsAppend(frames, FrameOf(inbox[0]));
    if inbox[0].Some? {
      hide Arrived, UpToClosing;
      var e, tail := inbox[0].value, Arrived(inbox[1..]);
      assert Arrived(inbox) == [e] + tail by { ArrivedOne(inbox); }
      ClosingOne(e, tail);
      var rest := if ClosesStream(e) then [] else UpToClosing(tail);
      assert Events(frames) + [e] + rest == Events(frames) + ([e] + rest);
      assert [e] + rest == UpToClosing([e] + tail);
    } else {
      assert Events(frames) + [] == Events(frames);
    }
  }

  lemma ArrivedOne(inbox: seq<Option<Event>>)
    requires inbox != [] && inbox[0].Some?
    ensures Arrived(inbox) == [inbox[0].value] + Arrived(inbox[1..])
  {
  }

  lemma ClosingOne(e: Event, tail: seq<Event>)
    ensures UpToClosing([e] + tail) == [e] + (if ClosesStream(e) then [] else UpToClosing(tail))
  {
    assert ([e] + tail)[1..] == tail;
  }
}
