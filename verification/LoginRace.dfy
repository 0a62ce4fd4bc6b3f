/** Logins that overlap: an attempt reads the counter of its e-mail when it begins and moves it when
    it is answered, and other attempts may do either in between. */
module LoginRace {
  import opened Common
  import opened LoginThrottle

  /** The counters, and the keys of the attempts that were let through and are not answered yet. */
  datatype Desk = Desk(counters: Counters, open: multiset<string>)

  const QUIET := Desk(map[], multiset{})

  datatype Action =
    | Check(key: string, now: int)
    | Answer(key: string, verdict: Verdict, now: int)
    | Abandon(key: string)

  predicate Refused(d: Desk, a: Action) { a.Check? && Blocked(d.counters, a.key, a.now) }

  predicate Failing(d: Desk, a: Action, key: string) {
    a.Answer? && a.key == key && key in d.open && (a.verdict == NoAccount || a.verdict == WrongPassword)
  }

  predicate LogsIn(d: Desk, a: Action, key: string) {
    a.Answer? && a.key == key && key in d.open && a.verdict == Correct
  }

  function Move(d: Desk, a: Action): Desk {
    match a
    case Check(key, _) => if Refused(d, a) then d else d.(open := d.open + multiset{key})
    case Abandon(key) => d.(open := d.open - multiset{key})
    case Answer(key, verdict, now) =>
      if key !in d.open then d
      else
        var counters := match verdict
          case NoAccount => Increment(d.counters, key, now)
          case WrongPassword => Increment(d.counters, key, now)
          case Disabled => d.counters
          case Correct => Clear(d.counters, key);
        Desk(counters, d.open - multiset{key})
  }

  /** The attempts on a key under way: one more with each that is not refused, one less with each that
      is answered or dies. */
  lemma AttemptsCounted(d: Desk, a: Action, key: string)
    ensures var locked := key in d.counters && a.Check? && a.now <= d.counters[key].expires && d.counters[key].count >= 5;
      var opens := a.Check? && a.key == key && !locked;
      var closes := d.open[key] > 0 && a.key == key && !a.Check?;
      Move(d, a).open[key] == d.open[key] + (if opens then 1 else 0) - (if closes then 1 else 0)
  {
  }

  function Play(actions: seq<Action>): Desk {
    if actions == [] then QUIET else Move(Play(Front(actions)), Last(actions))
  }

  lemma PlayNext(actions: seq<Action>, i: nat)
    requires i < |actions|
    ensures Play(actions[..i + 1]) == Move(Play(actions[..i]), actions[i])
  {
    assert Front(actions[..i + 1]) == actions[..i];
  }

  lemma PlayThen(actions: seq<Action>, a: Action)
    ensures Play(actions + [a]) == Move(Play(actions), a)
  {
    assert Front(actions + [a]) == actions;
  }

  lemma PlayMore(actions: seq<Action>, more: seq<Action>)
    requires more != []
    ensures Play(actions + more) == Move(Play(actions + Front(more)), Last(more))
  {
    assert Front(actions + more) == actions + Front(more);
  }

  /** A check with its answer right behind it is an attempt of the model in which logins do not
      overlap. */
  lemma WholeAttempt(d: Desk, a: Attempt)
    ensures var check, answer := Check(a.key, a.now), Answer(a.key, a.verdict, a.now);
      if Refused(d, check) then Move(d, check) == d && ReplyTo(d.counters, a).RateLimited? && Step(d.counters, a) == d.counters
      else Move(Move(d, check), answer) == Desk(Step(d.counters, a), d.open)
  {
    assert d.open + multiset{a.key} - multiset{a.key} == d.open;
  }

  /** What happens to the key from i to j happens within 900 seconds from `from` on. */
  ghost predicate InWindow(actions: seq<Action>, key: string, from: int, i: nat, j: nat)
    requires i <= j <= |actions|
  {
    forall x | i <= x < j && !actions[x].Abandon? && actions[x].key == key ::
      from <= actions[x].now <= from + 900
  }

  // ---- failures in a window ----

  /** Failed logins on `key` answered by actions i to j - 1. */
  function Failed(actions: seq<Action>, key: string, i: nat, j: nat): nat
    requires i <= j <= |actions|
  {
    if i == j then 0
    else Failed(actions, key, i, j - 1) + (if Failing(Play(actions[..j - 1]), actions[j - 1], key) then 1 else 0)
  }

  ghost predicate NobodyIn(actions: seq<Action>, key: string, i: nat, j: nat)
    requires i <= j <= |actions|
  {
    forall x | i <= x < j :: !LogsIn(Play(actions[..x]), actions[x], key)
  }

  /** At no moment from i to j do more than p attempts on the key await their answer. */
  ghost predicate AtMostOpen(actions: seq<Action>, key: string, i: nat, j: nat, p: nat)
    requires i <= j <= |actions|
  {
    forall x | i <= x <= j :: Play(actions[..x]).open[key] <= p
  }

  /** What holds after f failures in a window that begins at `from`. */
  ghost predicate Counted(d: Desk, key: string, from: int, f: nat, p: nat) {
    && f + d.open[key] <= 4 + p
    && (f > 0 ==> key in d.counters && d.counters[key].count >= f && d.counters[key].expires >= from + 900)
  }

  lemma CountedStep(d: Desk, a: Action, key: string, from: int, f: nat, p: nat)
    requires Counted(d, key, from, f, p) && !LogsIn(d, a, key) && Move(d, a).open[key] <= p
    requires !a.Abandon? && a.key == key ==> from <= a.now <= from + 900
    ensures Counted(Move(d, a), key, from, f + (if Failing(d, a, key) then 1 else 0), p)
  {
  }

  /** In any 900 seconds in which the e-mail does not log in, its failures, together with the attempts
      that still await their answer, are at most four plus the most attempts ever awaiting theirs at
      once. */
  lemma {:induction false} FailuresWithOpen(actions: seq<Action>, key: string, from: int, i: nat, j: nat, p: nat)
    requires i <= j <= |actions| && InWindow(actions, key, from, i, j) && NobodyIn(actions, key, i, j)
    requires AtMostOpen(actions, key, i, j, p)
    ensures Failed(actions, key, i, j) + Play(actions[..j]).open[key] <= 4 + p
    ensures Counted(Play(actions[..j]), key, from, Failed(actions, key, i, j), p)
    decreases j
  {
    if i < j {
      hide Play, Counted, Move, Failing, LogsIn;
      FailuresWithOpen(actions, key, from, i, j - 1, p);
      PlayNext(actions, j - 1);
      CountedStep(Play(actions[..j - 1]), actions[j - 1], key, from, Failed(actions, key, i, j - 1), p);
      CountedMeans(Play(actions[..j]), key, from, Failed(actions, key, i, j), p);
    } else {
      hide Play;
      assert Failed(actions, key, i, j) == 0;
      assert Play(actions[..j]).open[key] <= p;
    }
  }

  lemma CountedMeans(d: Desk, key: string, from: int, f: nat, p: nat)
    requires Counted(d, key, from, f, p)
    ensures f + d.open[key] <= 4 + p
  {
  }

  // ---- the bound is attained ----

  const KEY := "user@example.org"

  const TRY: Action := Check(KEY, 0)
  const MISS: Action := Answer(KEY, WrongPassword, 0)

  function Serial(n: nat): seq<Action> { if n == 0 then [] else Serial(n - 1) + [TRY] + [MISS] }

  /** Four failures one after the other, then p attempts let through before any of them fails. */
  function Burst(p: nat): seq<Action> {
    Serial(4) + Repeat(TRY, p) + Repeat(MISS, p)
  }

  /** The counter stands at c, all at time 0, and n attempts are open. */
  ghost predicate Standing(d: Desk, c: nat, n: nat) {
    && d.open == multiset{}[KEY := n]
    && (if c == 0 then KEY !in d.counters else KEY in d.counters && d.counters[KEY] == Counter(c, 900))
  }

  lemma TryStep(d: Desk, c: nat, n: nat)
    requires Standing(d, c, n) && c <= 4
    ensures Standing(Move(d, TRY), c, n + 1)
  {
  }

  lemma MissStep(d: Desk, c: nat, n: nat)
    requires Standing(d, c, n) && n > 0
    ensures Standing(Move(d, MISS), c + 1, n - 1) && Failing(d, MISS, KEY)
  {
  }

  /** How many failures on KEY a run holds. */
  function AllFailed(actions: seq<Action>): nat { Failed(actions, KEY, 0, |actions|) }

  lemma {:induction false} FailedOfPrefix(actions: seq<Action>, more: seq<Action>, j: nat)
    requires j <= |actions|
    ensures Failed(actions + more, KEY, 0, j) == Failed(actions, KEY, 0, j)
  {
    if j > 0 {
      hide Play, Failing;
      FailedOfPrefix(actions, more, j - 1);
      assert (actions + more)[..j - 1] == actions[..j - 1];
    }
  }

  lemma FailedThen(actions: seq<Action>, a: Action)
    ensures AllFailed(actions + [a]) == AllFailed(actions) + (if Failing(Play(actions), a, KEY) then 1 else 0)
  {
    hide Play, Failing;
    FailedOfPrefix(actions, [a], |actions|);
    assert (actions + [a])[..|actions|] == actions;
  }

  /** An attempt let through, or one failed, on top of a run. */
  lemma TryThen(actions: seq<Action>, c: nat, n: nat)
    requires Standing(Play(actions), c, n) && c <= 4
    ensures Standing(Play(actions + [TRY]), c, n + 1) && AllFailed(actions + [TRY]) == AllFailed(actions)
  {
    hide Play, Move, Standing, Failed;
    PlayThen(actions, TRY);
    FailedThen(actions, TRY);
    TryStep(Play(actions), c, n);
  }

  lemma MissThen(actions: seq<Action>, c: nat, n: nat)
    requires Standing(Play(actions), c, n) && n > 0
    ensures Standing(Play(actions + [MISS]), c + 1, n - 1) && AllFailed(actions + [MISS]) == AllFailed(actions) + 1
  {
    hide Play, Move, Standing, Failed;
    PlayThen(actions, MISS);
    FailedThen(actions, MISS);
    MissStep(Play(actions), c, n);
  }

  lemma {:induction false} Tries(front: seq<Action>, p: nat)
    requires Standing(Play(front), 4, 0)
    ensures Standing(Play(front + Repeat(TRY, p)), 4, p) && AllFailed(front + Repeat(TRY, p)) == AllFailed(front)
  {
    hide Play, Standing, Failed;
    if p == 0 {
      RepeatMore(front, TRY, 0);
    } else {
      Tries(front, p - 1);
      TryThen(front + Repeat(TRY, p - 1), 4, p - 1);
      RepeatMore(front, TRY, p - 1);
    }
  }

  lemma {:induction false} Misses(front: seq<Action>, p: nat, n: nat)
    requires Standing(Play(front), 4, p) && n <= p
    ensures Standing(Play(front + Repeat(MISS, n)), 4 + n, p - n)
    ensures AllFailed(front + Repeat(MISS, n)) == AllFailed(front) + n
  {
    hide Play, Standing, Failed;
    if n == 0 {
      RepeatMore(front, MISS, 0);
    } else {
      Misses(front, p, n - 1);
      MissThen(front + Repeat(MISS, n - 1), 3 + n, p - n + 1);
      RepeatMore(front, MISS, n - 1);
    }
  }

  lemma OneByOne(front: seq<Action>, c: nat)
    requires Standing(Play(front), c, 0) && c <= 3
    ensures Standing(Play(front + [TRY] + [MISS]), c + 1, 0)
    ensures AllFailed(front + [TRY] + [MISS]) == AllFailed(front) + 1
  {
    hide Play, Standing, Failed;
    TryThen(front, c, 0);
    MissThen(front + [TRY], c, 1);
  }

  lemma {:induction false} SerialFails(n: nat)
    requires n <= 4
    ensures Standing(Play(Serial(n)), n, 0) && AllFailed(Serial(n)) == n
  {
    if n == 0 {
      assert Standing(Play([]), 0, 0) && AllFailed([]) == 0;
    } else {
      hide Play, Standing, Failed;
      SerialFails(n - 1);
      OneByOne(Serial(n - 1), n - 1);
    }
  }

  /** The bound is exact: with p attempts overlapping there can be 4 + p failures at one instant, six
      with two. */
  lemma BurstFails(p: nat)
    ensures AllFailed(Burst(p)) == 4 + p
  {
    hide Play, Standing, Failed, Repeat, Serial;
    SerialFails(4);
    Tries(Serial(4), p);
    Misses(Serial(4) + Repeat(TRY, p), p, p);
  }

  // ---- the lock ----

  /** The key is locked up to and including the instant `until`. */
  predicate LockedAt(d: Desk, key: string, until: int) {
    key in d.counters && d.counters[key].count >= 5 && d.counters[key].expires == until
  }

  ghost predicate NotAfter(actions: seq<Action>, key: string, until: int) {
    forall x | 0 <= x < |actions| && !actions[x].Abandon? && actions[x].key == key :: actions[x].now <= until
  }

  lemma LockStep(d: Desk, a: Action, key: string, until: int)
    requires LockedAt(d, key, until) && d.open[key] == 0
    requires !a.Abandon? && a.key == key ==> a.now <= until
    ensures LockedAt(Move(d, a), key, until) && Move(d, a).open[key] == 0
  {
  }

  lemma {:induction false} LockStays(actions: seq<Action>, more: seq<Action>, key: string, until: int)
    requires LockedAt(Play(actions), key, until) && Play(actions).open[key] == 0 && NotAfter(more, key, until)
    ensures LockedAt(Play(actions + more), key, until) && Play(actions + more).open[key] == 0
  {
    if more == [] {
      assert actions + more == actions;
    } else {
      hide Play, Move, LockedAt;
      assert forall x | 0 <= x < |Front(more)| :: Front(more)[x] == more[x];
      LockStays(actions, Front(more), key, until);
      PlayMore(actions, more);
      LockStep(Play(actions + Front(more)), Last(more), key, until);
    }
  }

  ghost predicate StillLocked(actions: seq<Action>, key: string, until: int) {
    LockedAt(Play(actions), key, until)
  }

  /** A lock is lifted or prolonged by nothing that happens while it lasts if and only if no attempt
      on the e-mail was awaiting its answer when it began. */
  lemma LockHoldsIff(actions: seq<Action>, key: string, until: int)
    requires StillLocked(actions, key, until)
    ensures (forall more | NotAfter(more, key, until) :: StillLocked(actions + more, key, until))
       <==> Play(actions).open[key] == 0
  {
    hide Play;
    if Play(actions).open[key] == 0 {
      forall more | NotAfter(more, key, until) ensures StillLocked(actions + more, key, until) {
        LockStays(actions, more, key, until);
      }
    } else {
      var more := [Answer(key, Correct, until)];
      PlayThen(actions, more[0]);
      assert NotAfter(more, key, until);
      assert !StillLocked(actions + more, key, until);
    }
  }

  /** A locked key is refused, unseen, exactly up to the end of its lock. */
  lemma RefusedWhileLocked(d: Desk, key: string, until: int, now: int)
    requires LockedAt(d, key, until)
    ensures Refused(d, Check(key, now)) <==> now <= until
  {
  }
}
