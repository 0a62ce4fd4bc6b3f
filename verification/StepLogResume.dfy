/** A client that reconnects with the id of the last event it was given, live ones included, as
    browsers do: exactly when such a chain of streams leaves a step out. One emitter. */
module StepLogResume {
  import opened Common
  import opened StepLog

  // ---- what a stream gives, in numbers ----

  /** Last-Event-ID, the length of the log at the replay, and the stretch of the channel received. */
  datatype Stretch = Stretch(after: nat, cut: nat, start: nat, received: nat)

  predicate Gives(c: Stretch, n: nat) { c.after < n <= c.cut || c.start < n <= c.received }

  function LastGiven(c: Stretch): nat { if c.received > c.start then c.received else Max(c.after, c.cut) }

  /** The stream d was opened when c had ended. */
  predicate Later(c: Stretch, d: Stretch) {
    && c.cut <= d.cut && c.received <= d.cut
    && (d.received > d.start ==> c.received <= d.start)
  }

  ghost predicate Chain(cs: seq<Stretch>) {
    && cs != [] && cs[0].after == 0
    && (forall k | 0 <= k < |cs| - 1 :: cs[k + 1].after == LastGiven(cs[k]))
    && (forall k, j | 0 <= k < j < |cs| :: Later(cs[k], cs[j]))
  }

  ghost predicate Given(cs: seq<Stretch>, n: nat) { exists k :: 0 <= k < |cs| && Gives(cs[k], n) }

  /** The stream missed nothing before the first live step it received, if it received any. */
  predicate Seamless(c: Stretch) { c.received > c.start ==> c.start <= c.cut }

  lemma {:induction false} AfterWithinCut(cs: seq<Stretch>, k: nat)
    requires Chain(cs) && k < |cs|
    ensures cs[k].after <= cs[k].cut
  {
    if k > 0 {
      AfterWithinCut(cs, k - 1);
      assert Later(cs[k - 1], cs[k]) && cs[k - 1 + 1].after == LastGiven(cs[k - 1]);
    }
  }

  /** Without a seam, everything up to the k-th replay has been given by then. */
  lemma {:induction false} SeamlessGives(cs: seq<Stretch>, k: nat, n: nat)
    requires Chain(cs) && k < |cs| && 1 <= n <= cs[k].cut
    requires forall i | 0 <= i < |cs| - 1 :: Seamless(cs[i])
    ensures Given(cs, n)
  {
    if n > cs[k].after {
      assert Gives(cs[k], n);
    } else {
      assert cs[k - 1 + 1].after == LastGiven(cs[k - 1]);
      AfterWithinCut(cs, k - 1);
      if n <= cs[k - 1].cut {
        SeamlessGives(cs, k - 1, n);
      } else {
        assert Seamless(cs[k - 1]) && Gives(cs[k - 1], n);
      }
    }
  }

  lemma {:induction false} AfterGrows(cs: seq<Stretch>, k: nat, j: nat)
    requires Chain(cs) && k < j < |cs| && cs[k].received > cs[k].start
    ensures cs[j].after >= cs[k].received
    decreases j
  {
    assert cs[j - 1 + 1].after == LastGiven(cs[j - 1]);
    if k < j - 1 {
      AfterGrows(cs, k, j - 1);
      assert Later(cs[k], cs[j - 1]);
    }
  }

  /** The step behind a seam is given by no stream of the chain. */
  lemma SeamLoses(cs: seq<Stretch>, k: nat)
    requires Chain(cs) && k < |cs| - 1 && !Seamless(cs[k])
    ensures cs[k].cut + 1 <= Last(cs).cut && !Given(cs, cs[k].cut + 1)
  {
    var n := cs[k].cut + 1;
    assert Later(cs[k], cs[|cs| - 1]);
    forall j | 0 <= j < |cs| ensures !Gives(cs[j], n) {
      if j < k {
        assert Later(cs[j], cs[k]);
      } else if j > k {
        AfterGrows(cs, k, j);
        assert Later(cs[k], cs[j]);
      }
    }
  }

  /** A chain gives every step up to its last replay if and only if no stream but the last has a seam. */
  lemma ChainCompleteIff(cs: seq<Stretch>)
    requires Chain(cs)
    ensures (forall n: nat | 1 <= n <= Last(cs).cut :: Given(cs, n)) <==> (forall k | 0 <= k < |cs| - 1 :: Seamless(cs[k]))
  {
    if forall k | 0 <= k < |cs| - 1 :: Seamless(cs[k]) {
      forall n: nat | 1 <= n <= Last(cs).cut ensures Given(cs, n) {
        SeamlessGives(cs, |cs| - 1, n);
      }
    } else {
      var k :| 0 <= k < |cs| - 1 && !Seamless(cs[k]);
      SeamLoses(cs, k);
      assert !Given(cs, cs[k].cut + 1);
    }
  }

  // ---- the streams of a run ----

  function StretchOf(reader: Reader): Stretch {
    Stretch(reader.after, reader.cut, reader.start, reader.received)
  }

  ghost predicate Carries(events: seq<Event>, n: nat) { exists i :: 0 <= i < |events| && events[i].id == n }

  lemma DeliveredIds(s: Log, reader: Reader)
    requires InOrder(s) && GoodReader(s, reader)
    ensures |Delivered(s, reader)| == |reader.replayed| + (reader.received - reader.start)
    ensures |reader.replayed| == reader.cut - Min(reader.after, reader.cut)
    ensures forall i | 0 <= i < |Delivered(s, reader)| ::
              Delivered(s, reader)[i].id == if i < |reader.replayed| then Min(reader.after, reader.cut) + 1 + i
                                            else reader.start + 1 + (i - |reader.replayed|)
  {
    var events, m, from := Delivered(s, reader), |reader.replayed|, Min(reader.after, reader.cut);
    forall i | 0 <= i < |events|
      ensures events[i].id == if i < m then from + 1 + i else reader.start + 1 + (i - m)
    {
      if i < m {
        assert events[i] == ReplayEvent(reader.replayed[i]);
        assert reader.replayed[i] == s.rows[from + i];
      } else {
        assert events[i] == s.published[reader.start + (i - m)];
      }
    }
  }

  /** What a stream delivers is what its stretch gives, and the last event is the last one given. */
  lemma DeliveredIsGiven(s: Log, reader: Reader, n: nat)
    requires InOrder(s) && GoodReader(s, reader)
    ensures Carries(Delivered(s, reader), n) <==> Gives(StretchOf(reader), n)
    ensures LastGiven(StretchOf(reader)) == if Delivered(s, reader) == [] then reader.after else Last(Delivered(s, reader)).id
  {
    DeliveredIds(s, reader);
    hide Delivered, InOrder, GoodReader;
    var events, from := Delivered(s, reader), Min(reader.after, reader.cut);
    if reader.after < n <= reader.cut {
      assert events[n - from - 1].id == n;
    }
    if reader.start < n <= reader.received {
      assert events[|reader.replayed| + (n - reader.start - 1)].id == n;
    }
  }

  /** Reader r, since it replayed when the channel was as in s0, has received nothing unless it
      subscribed with at least as much published as then. */
  ghost predicate StartsAfter(s: Log, s0: Log, r: nat) {
    && r in s.readers && |s0.published| <= |s.published|
    && (s.readers[r].start >= |s0.published| || s.readers[r].received == s.readers[r].start)
    && (s.readers[r].phase == Opened || s.readers[r].phase == Caught ==> s.readers[r].received == s.readers[r].start)
    && (s.readers[r].phase == Listening ==> s.readers[r].start >= |s0.published|)
  }

  lemma StartsStep(s: Log, s0: Log, a: Action, r: nat)
    requires StartsAfter(s, s0, r)
    ensures StartsAfter(Step(s, a), s0, r)
  {
    hide Replay, MaxNumber, Taken;
  }

  lemma StartsHere(s: Log, r: nat)
    requires In(s, r, Opened) && Unread(s, r)
    ensures StartsAfter(s, s, r)
  {
  }

  lemma {:induction false} StartsWhen(actions: seq<Action>, r: nat, p: nat, i: nat)
    requires ReplaysAt(actions, r, p) && p <= i <= |actions|
    ensures StartsAfter(Run(actions[..i]), Run(actions[..p]), r)
    decreases i
  {
    hide Run, Step, In, StartsAfter, Unread;
    if i == p {
      NothingYet(actions[..p], r);
      StartsHere(Run(actions[..p]), r);
    } else {
      StartsWhen(actions, r, p, i - 1);
      RunNext(actions, i - 1);
      StartsStep(Run(actions[..i - 1]), Run(actions[..p]), actions[i - 1], r);
    }
  }

  ghost predicate Unread(s: Log, r: nat) {
    r in s.readers && (s.readers[r].phase == Opened || s.readers[r].phase == Caught) ==>
      s.readers[r].received == s.readers[r].start
  }

  lemma UnreadStep(s: Log, a: Action, r: nat)
    requires Unread(s, r)
    ensures Unread(Step(s, a), r)
  {
    hide Replay, MaxNumber, Taken;
  }

  lemma {:induction false} NothingYet(actions: seq<Action>, r: nat)
    ensures Unread(Run(actions), r)
  {
    if actions != [] {
      hide Step, Unread;
      NothingYet(Front(actions), r);
      UnreadStep(Run(Front(actions)), Last(actions), r);
    } else {
      assert Run(actions) == EMPTY;
    }
  }

  /** Reader r has ended, and is as it was in s0. */
  ghost predicate Frozen(s: Log, s0: Log, r: nat) {
    In(s, r, Ended) && In(s0, r, Ended) && s.readers[r] == s0.readers[r]
  }

  lemma FrozenStep(s: Log, s0: Log, a: Action, r: nat)
    requires Frozen(s, s0, r)
    ensures Frozen(Step(s, a), s0, r)
  {
    hide Replay, MaxNumber, Taken;
  }

  lemma {:induction false} EndedStays(actions: seq<Action>, r: nat, p: nat, i: nat)
    requires p <= i <= |actions| && In(Run(actions[..p]), r, Ended)
    ensures Frozen(Run(actions[..i]), Run(actions[..p]), r)
    decreases i
  {
    if i == p {
      hide Run, In;
    } else {
      hide *;
      EndedStays(actions, r, p, i - 1);
      RunNext(actions, i - 1);
      FrozenStep(Run(actions[..i - 1]), Run(actions[..p]), actions[i - 1], r);
    }
  }

  // ---- resuming with the last id ----

  /** A client's streams rs, which replay at the moments ps; the first is opened without a header, each
      other with the id of the last event of the one before it, after all earlier ones have ended. */
  ghost predicate Resumes(actions: seq<Action>, rs: seq<nat>, ps: seq<nat>) {
    && rs != [] && |ps| == |rs|
    && (forall k | 0 <= k < |rs| :: ReplaysAt(actions, rs[k], ps[k]) && rs[k] in Run(actions).readers)
    && (forall k, j | 0 <= k < j < |rs| :: In(Run(actions[..ps[j]]), rs[k], Ended))
    && Run(actions).readers[rs[0]].after == AfterStep(None)
    && (forall k | 0 <= k < |rs| - 1 :: ResumesFrom(Run(actions), rs[k], rs[k + 1]))
  }

  ghost predicate ResumesFrom(s: Log, r: nat, next: nat) {
    && r in s.readers && next in s.readers
    && s.readers[r].start <= s.readers[r].received <= |s.published|
    && var events := Delivered(s, s.readers[r]);
       s.readers[next].after == if events == [] then s.readers[r].after else Last(events).id
  }

  function Stretches(s: Log, rs: seq<nat>): (cs: seq<Stretch>)
    requires forall k | 0 <= k < |rs| :: rs[k] in s.readers
    ensures |cs| == |rs| && forall k | 0 <= k < |rs| :: cs[k] == StretchOf(s.readers[rs[k]])
  {
    seq(|rs|, k requires 0 <= k < |rs| => StretchOf(s.readers[rs[k]]))
  }

  lemma SinglePrefix(actions: seq<Action>, p: nat)
    requires SingleEmitter(actions) && p <= |actions|
    ensures SingleEmitter(actions[..p])
  {
    forall i | 0 <= i < p ensures OnlyZero(actions[..p][i]) {
      assert actions[..p][i] == actions[i];
    }
  }

  lemma EarlierEnded(actions: seq<Action>, r: nat, next: nat, p: nat)
    requires SingleEmitter(actions) && ReplaysAt(actions, next, p) && In(Run(actions[..p]), r, Ended)
    ensures r in Run(actions).readers && next in Run(actions).readers
    ensures Later(StretchOf(Run(actions).readers[r]), StretchOf(Run(actions).readers[next]))
  {
    assert actions[..|actions|] == actions;
    SinglePrefix(actions, p);
    AlwaysInOrder(actions[..p]);
    AlwaysGood(actions[..p]);
    EndedStays(actions, r, p, |actions|);
    ReplayedWhen(actions, next, p, |actions|);
    StartsWhen(actions, next, p, |actions|);
    hide Run, Good, Gapless;
    GoodReaderOf(Run(actions[..p]), r);
  }

  lemma ResumesIsChain(actions: seq<Action>, rs: seq<nat>, ps: seq<nat>)
    requires SingleEmitter(actions) && Resumes(actions, rs, ps)
    ensures Chain(Stretches(Run(actions), rs))
  {
    NoHeaderReplaysAll([], None);
    hide Run, Later, LastGiven, Delivered, SingleEmitter, ReplaysAt;
    var s := Run(actions);
    var cs := Stretches(s, rs);
    AlwaysInOrder(actions);
    AlwaysGood(actions);
    forall k, j | 0 <= k < j < |cs| ensures Later(cs[k], cs[j]) {
      EarlierEnded(actions, rs[k], rs[j], ps[j]);
    }
    forall k | 0 <= k < |cs| - 1 ensures cs[k + 1].after == LastGiven(cs[k]) {
      assert ResumesFrom(s, rs[k], rs[k + 1]);
      GoodReaderOf(s, rs[k]);
      DeliveredIsGiven(s, s.readers[rs[k]], 0);
    }
  }

  ghost predicate GivenBy(s: Log, rs: seq<nat>, n: nat) {
    exists k :: 0 <= k < |rs| && rs[k] in s.readers
             && s.readers[rs[k]].start <= s.readers[rs[k]].received <= |s.published|
             && Carries(Delivered(s, s.readers[rs[k]]), n)
  }

  lemma GivenIsGiven(actions: seq<Action>, rs: seq<nat>, n: nat)
    requires SingleEmitter(actions) && forall k | 0 <= k < |rs| :: rs[k] in Run(actions).readers
    ensures GivenBy(Run(actions), rs, n) <==> Given(Stretches(Run(actions), rs), n)
  {
    AlwaysInOrder(actions);
    AlwaysGood(actions);
    hide Run, Delivered, Gives, Good, Carries, InOrder;
    var s := Run(actions);
    forall k | 0 <= k < |rs|
      ensures s.readers[rs[k]].start <= s.readers[rs[k]].received <= |s.published|
      ensures Carries(Delivered(s, s.readers[rs[k]]), n) <==> Gives(Stretches(s, rs)[k], n)
    {
      GoodReaderOf(s, rs[k]);
      DeliveredIsGiven(s, s.readers[rs[k]], n);
    }
  }

  /** Every step up to the last replay was given by some stream. */
  ghost predicate AllGiven(s: Log, rs: seq<nat>)
    requires rs != [] && Last(rs) in s.readers
  {
    forall n: nat | 1 <= n <= s.readers[Last(rs)].cut :: GivenBy(s, rs, n)
  }

  /** Whichever stream but the last received anything live had replayed, by its subscription, all
      that had been published. */
  ghost predicate NoSeams(s: Log, rs: seq<nat>) {
    forall k | 0 <= k < |rs| - 1 && rs[k] in s.readers :: Seamless(StretchOf(s.readers[rs[k]]))
  }

  lemma ChainSays(s: Log, rs: seq<nat>)
    requires rs != [] && forall k | 0 <= k < |rs| :: rs[k] in s.readers
    requires Chain(Stretches(s, rs)) && forall n: nat :: GivenBy(s, rs, n) <==> Given(Stretches(s, rs), n)
    ensures AllGiven(s, rs) <==> NoSeams(s, rs)
  {
    ChainCompleteIff(Stretches(s, rs));
    hide Chain, GivenBy, Given, Seamless;
  }

  /** With one emitter, a client that resumes with the id of the last event it was given gets every
      step up to its last replay if and only if no stream but the last began its live part behind
      its replay. */
  lemma ResumeCompleteIff(actions: seq<Action>, rs: seq<nat>, ps: seq<nat>)
    requires SingleEmitter(actions) && Resumes(actions, rs, ps)
    ensures AllGiven(Run(actions), rs) <==> NoSeams(Run(actions), rs)
  {
    ResumesIsChain(actions, rs, ps);
    hide Run, GivenBy, Given, Chain, AllGiven, NoSeams, SingleEmitter;
    forall n: nat ensures GivenBy(Run(actions), rs, n) <==> Given(Stretches(Run(actions), rs), n) {
      GivenIsGiven(actions, rs, n);
    }
    ChainSays(Run(actions), rs);
  }
}
