/** Streams that miss a step, and that deliver one twice. One emitter and one reader, both 0. */
module StepLogWitness {
  import opened Common
  import opened StepLog

  /** What matters of a log with one emitter and one reader. */
  ghost predicate Snap(s: Log, rows: seq<Row>, published: seq<Event>, emitter: EmitterState, reader: Reader) {
    && s.rows == rows && s.published == published && Emitter(s, 0) == emitter
    && 0 in s.readers && s.readers[0] == reader && !s.terminal
  }

  lemma Extend(actions: seq<Action>, a: Action)
    ensures Run(actions + [a]) == Step(Run(actions), a)
  {
    assert Front(actions + [a]) == actions;
  }

  const FIRST: Row := Row(1, StepType.Think, "a")
  const SECOND: Row := Row(2, StepType.Think, "b")

  lemma Opening(s: Log, after: nat)
    requires s == EMPTY
    ensures Snap(Step(s, Open(0, after)), [], [], Idle, Reader(Opened, after, [], 0, 0, 0))
  {
  }

  /** Reading the next number, and storing the row. */
  lemma Storing(s: Log, rows: seq<Row>, published: seq<Event>, reader: Reader, content: string)
    requires Snap(s, rows, published, Idle, reader) && Gapless(rows)
    ensures var row := Row(|rows| + 1, StepType.Think, content);
      Snap(Step(Step(s, ReadMax(0, StepType.Think, content, None)), Insert(0)), rows + [row], published, Stored(row, None), reader)
  {
    MaxOfGapless(rows);
    TakenIffUsed(rows, |rows| + 1);
    hide MaxNumber, Taken, Gapless;
  }

  lemma Publishing(s: Log, rows: seq<Row>, published: seq<Event>, row: Row, reader: Reader)
    requires Snap(s, rows, published, Stored(row, None), reader)
    ensures Snap(Step(s, Publish(0)), rows, published + [LiveEvent(row, None)], Idle, reader)
  {
  }

  lemma Replaying(s: Log, rows: seq<Row>, published: seq<Event>, emitter: EmitterState, reader: Reader)
    requires Snap(s, rows, published, emitter, reader) && Gapless(rows) && reader.phase == Opened && reader.after == 0
    ensures Snap(Step(s, ReplayTo(0)), rows, published, emitter, reader.(phase := Caught, replayed := rows, cut := |rows|))
  {
    ReplayIsSuffix(rows, 0);
    hide Replay, Gapless;
  }

  lemma Subscribing(s: Log, rows: seq<Row>, published: seq<Event>, emitter: EmitterState, reader: Reader)
    requires Snap(s, rows, published, emitter, reader) && reader.phase == Caught
    ensures Snap(Step(s, Subscribe(0)), rows, published, emitter,
                 reader.(phase := Listening, start := |published|, received := |published|))
  {
  }

  lemma Receiving(s: Log, rows: seq<Row>, published: seq<Event>, emitter: EmitterState, reader: Reader)
    requires Snap(s, rows, published, emitter, reader) && reader.phase == Listening
    requires reader.received < |published| && !ClosesStream(published[reader.received])
    ensures Snap(Step(s, Receive(0)), rows, published, emitter, reader.(received := reader.received + 1))
  {
  }

  function Emit(content: string): seq<Action> {
    [ReadMax(0, StepType.Think, content, None)] + [Insert(0)]
  }

  lemma Emitting(actions: seq<Action>, content: string)
    ensures Run(actions + Emit(content)) == Step(Step(Run(actions), ReadMax(0, StepType.Think, content, None)), Insert(0))
  {
    hide Run, Step;
    Extend(actions, ReadMax(0, StepType.Think, content, None));
    Extend(actions + [ReadMax(0, StepType.Think, content, None)], Insert(0));
    assert actions + Emit(content) == actions + [ReadMax(0, StepType.Think, content, None)] + [Insert(0)];
  }

  lemma Opened0()
    ensures Snap(Run([Open(0, 0)]), [], [], Idle, Reader(Opened, 0, [], 0, 0, 0))
  {
    assert [] + [Open(0, 0)] == [Open(0, 0)] && Run([]) == EMPTY;
    Extend([], Open(0, 0));
    Opening(EMPTY, 0);
  }

  lemma LiveIds()
    ensures LiveEvent(FIRST, None).id == 1 && LiveEvent(SECOND, None).id == 2
    ensures !ClosesStream(LiveEvent(FIRST, None)) && !ClosesStream(LiveEvent(SECOND, None))
    ensures Gapless([]) && Gapless([FIRST]) && [] + [FIRST] == [FIRST] && [FIRST] + [SECOND] == [FIRST, SECOND]
  {
  }

  /** Step 1 is stored and published between replay and subscription: the stream begins with 2. */
  lemma StepMissed()
    ensures var a := [Open(0, 0)] + [ReplayTo(0)] + Emit("a") + [Publish(0)];
      var s := Run(a + [Subscribe(0)] + Emit("b") + [Publish(0)] + [Receive(0)]);
      && 0 in s.readers && s.readers[0].start <= s.readers[0].received <= |s.published|
      && s.rows == [FIRST, SECOND] && Delivered(s, s.readers[0]) == [LiveEvent(SECOND, None)]
  {
    hide Run, Step, Snap, Emit, Gapless, LiveEvent, ClosesStream;
    Opened0();
    LiveIds();
    var reader := Reader(Opened, 0, [], 0, 0, 0);
    var a0 := [Open(0, 0)];
    Replaying(Run(a0), [], [], Idle, reader);
    Extend(a0, ReplayTo(0));
    var a1 := a0 + [ReplayTo(0)];
    var r1 := reader.(phase := Caught);
    Storing(Run(a1), [], [], r1, "a");
    Emitting(a1, "a");
    var a2 := a1 + Emit("a");
    Publishing(Run(a2), [FIRST], [], FIRST, r1);
    Extend(a2, Publish(0));
    MissedRest(a2 + [Publish(0)], r1);
  }

  lemma MissedRest(a: seq<Action>, reader: Reader)
    requires Snap(Run(a), [FIRST], [] + [LiveEvent(FIRST, None)], Idle, reader)
    requires reader == Reader(Caught, 0, [], 0, 0, 0)
    ensures var s := Run(a + [Subscribe(0)] + Emit("b") + [Publish(0)] + [Receive(0)]);
      && 0 in s.readers && s.readers[0].start <= s.readers[0].received <= |s.published|
      && s.rows == [FIRST, SECOND] && Delivered(s, s.readers[0]) == [LiveEvent(SECOND, None)]
  {
    hide Run, Step, Snap, Emit, Gapless, LiveEvent, ClosesStream;
    LiveIds();
    var one, two := [LiveEvent(FIRST, None)], [LiveEvent(FIRST, None), LiveEvent(SECOND, None)];
    assert [] + one == one && one + [LiveEvent(SECOND, None)] == two;
    Subscribing(Run(a), [FIRST], one, Idle, reader);
    Extend(a, Subscribe(0));
    var r1 := reader.(phase := Listening, start := 1, received := 1);
    var b := a + [Subscribe(0)];
    Storing(Run(b), [FIRST], one, r1, "b");
    Emitting(b, "b");
    Publishing(Run(b + Emit("b")), [FIRST, SECOND], one, SECOND, r1);
    Extend(b + Emit("b"), Publish(0));
    var c := b + Emit("b") + [Publish(0)];
    Receiving(Run(c), [FIRST, SECOND], two, Idle, r1);
    Extend(c, Receive(0));
    SnapDelivers(Run(c + [Receive(0)]), [FIRST, SECOND], two, Idle, r1.(received := 2));
    assert two[1..2] == [LiveEvent(SECOND, None)] && Replayed([]) == [];
  }

  lemma SnapDelivers(s: Log, rows: seq<Row>, published: seq<Event>, emitter: EmitterState, reader: Reader)
    requires Snap(s, rows, published, emitter, reader) && reader.start <= reader.received <= |published|
    ensures 0 in s.readers && s.readers[0] == reader && s.rows == rows && s.published == published
    ensures Delivered(s, reader) == Replayed(reader.replayed) + published[reader.start..reader.received]
  {
  }

  /** Step 1 is stored before the replay and published after the subscription: it comes twice. */
  lemma StepTwice()
    ensures var s := Run([Open(0, 0)] + Emit("a") + [ReplayTo(0)] + [Subscribe(0)] + [Publish(0)] + [Receive(0)]);
      && 0 in s.readers && s.readers[0].start <= s.readers[0].received <= |s.published|
      && s.rows == [FIRST] && Delivered(s, s.readers[0]) == [ReplayEvent(FIRST), LiveEvent(FIRST, None)]
  {
    hide Run, Step, Snap, Emit, Gapless, LiveEvent, ClosesStream;
    Opened0();
    LiveIds();
    var reader := Reader(Opened, 0, [], 0, 0, 0);
    var a0 := [Open(0, 0)];
    Storing(Run(a0), [], [], reader, "a");
    Emitting(a0, "a");
    var a1 := a0 + Emit("a");
    Replaying(Run(a1), [FIRST], [], Stored(FIRST, None), reader);
    Extend(a1, ReplayTo(0));
    TwiceRest(a1 + [ReplayTo(0)], Reader(Caught, 0, [FIRST], 1, 0, 0));
  }

  lemma TwiceRest(a: seq<Action>, reader: Reader)
    requires Snap(Run(a), [FIRST], [], Stored(FIRST, None), reader) && reader == Reader(Caught, 0, [FIRST], 1, 0, 0)
    ensures var s := Run(a + [Subscribe(0)] + [Publish(0)] + [Receive(0)]);
      && 0 in s.readers && s.readers[0].start <= s.readers[0].received <= |s.published|
      && s.rows == [FIRST] && Delivered(s, s.readers[0]) == [ReplayEvent(FIRST), LiveEvent(FIRST, None)]
  {
    hide Run, Step, Snap, LiveEvent, ReplayEvent, ClosesStream;
    LiveIds();
    var one := [LiveEvent(FIRST, None)];
    assert [] + one == one;
    Subscribing(Run(a), [FIRST], [], Stored(FIRST, None), reader);
    Extend(a, Subscribe(0));
    var r1 := reader.(phase := Listening);
    var b := a + [Subscribe(0)];
    Publishing(Run(b), [FIRST], [], FIRST, r1);
    Extend(b, Publish(0));
    var c := b + [Publish(0)];
    Receiving(Run(c), [FIRST], one, Idle, r1);
    Extend(c, Receive(0));
    SnapDelivers(Run(c + [Receive(0)]), [FIRST], one, Idle, r1.(received := 1));
    assert one[0..1] == one && Replayed([FIRST]) == [ReplayEvent(FIRST)];
  }
}
