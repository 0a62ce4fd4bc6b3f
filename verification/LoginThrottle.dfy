/** The per-email counter of failed logins: a Redis key with a 15-minute expiry that each failure
    renews. Each attempt is one atomic step. A key is gone once the clock is past its expiry. */
module LoginThrottle {
  import opened Common

  const MAX_FAILS := 5
  const LOCK_SECONDS := 900

  datatype Counter = Counter(count: nat, expires: int)

  /** Keys are lower-cased e-mail addresses. */
  type Counters = map<string, Counter>

  // ---- the three Redis helpers ----

  /** GET, with expiry; 0 stands for a missing key. */
  function Count(m: Counters, key: string, now: int): nat {
    if key in m && now <= m[key].expires then m[key].count else 0
  }

  predicate Blocked(m: Counters, key: string, now: int) {
    Count(m, key, now) >= MAX_FAILS
  }

  /** INCR, then EXPIRE. */
  function Increment(m: Counters, key: string, now: int): Counters {
    m[key := Counter(Count(m, key, now) + 1, now + LOCK_SECONDS)]
  }

  function Clear(m: Counters, key: string): Counters { m - {key} }

  // ---- attempts ----

  /** What the account lookup and the password check would find, in the order they are made. */
  datatype Verdict = NoAccount | Disabled | WrongPassword | Correct

  datatype Attempt = Attempt(key: string, verdict: Verdict, now: int)

  datatype Reply = RateLimited | InvalidCredentials | AccountDisabled | LoggedIn

  function ReplyTo(m: Counters, a: Attempt): Reply {
    if Blocked(m, a.key, a.now) then RateLimited
    else
      match a.verdict
      case NoAccount => InvalidCredentials
      case Disabled => AccountDisabled
      case WrongPassword => InvalidCredentials
      case Correct => LoggedIn
  }

  function Step(m: Counters, a: Attempt): Counters {
    match ReplyTo(m, a)
    case InvalidCredentials => Increment(m, a.key, a.now)
    case LoggedIn => Clear(m, a.key)
    case _ => m
  }

  function Run(attempts: seq<Attempt>): Counters {
    if attempts == [] then map[] else Step(Run(Front(attempts)), Last(attempts))
  }

  function ReplyAt(attempts: seq<Attempt>, i: nat): Reply
    requires i < |attempts|
  {
    ReplyTo(Run(attempts[..i]), attempts[i])
  }

  ghost predicate ClockAdvances(attempts: seq<Attempt>) {
    forall i, j | 0 <= i < j < |attempts| :: attempts[i].now <= attempts[j].now
  }

  lemma RunNext(attempts: seq<Attempt>, i: nat)
    requires i < |attempts|
    ensures Run(attempts[..i + 1]) == Step(Run(attempts[..i]), attempts[i])
  {
    assert Front(attempts[..i + 1]) == attempts[..i];
  }

  // ---- at most five failures in any window ----

  /** Failed logins on `key` answered at positions i to j - 1. */
  function Failures(attempts: seq<Attempt>, key: string, i: nat, j: nat): nat
    requires i <= j <= |attempts|
  {
    if i == j then 0
    else
      Failures(attempts, key, i, j - 1)
      + (if attempts[j - 1].key == key && ReplyAt(attempts, j - 1).InvalidCredentials? then 1 else 0)
  }

  ghost predicate NoLogin(attempts: seq<Attempt>, key: string, i: nat, j: nat)
    requires i <= j <= |attempts|
  {
    forall x | i <= x < j && attempts[x].key == key :: !ReplyAt(attempts, x).LoggedIn?
  }

  lemma {:induction false} CountAtMostFive(attempts: seq<Attempt>, key: string)
    ensures key in Run(attempts) ==> 1 <= Run(attempts)[key].count <= 5
  {
    if attempts != [] {
      CountAtMostFive(Front(attempts), key);
    }
  }

  /** While nothing in the window clears it, the counter holds every failure of the window. */
  lemma {:induction false} WindowIsCounted(attempts: seq<Attempt>, key: string, i: nat, j: nat)
    requires ClockAdvances(attempts) && i < j <= |attempts| && NoLogin(attempts, key, i, j)
    requires attempts[j - 1].now <= attempts[i].now + 900
    ensures Failures(attempts, key, i, j) > 0 ==>
              var m := Run(attempts[..j]);
              key in m && m[key].count >= Failures(attempts, key, i, j)
              && m[key].expires >= attempts[i].now + 900
  {
    RunNext(attempts, j - 1);
    if i < j - 1 {
      WindowIsCounted(attempts, key, i, j - 1);
    } else {
      assert Failures(attempts, key, i, i) == 0;
    }
  }

  /** Any 900-second window in which the e-mail does not log in holds at most five failed logins. */
  lemma FailuresPerWindow(attempts: seq<Attempt>, key: string, i: nat, j: nat)
    requires ClockAdvances(attempts) && i < j <= |attempts| && NoLogin(attempts, key, i, j)
    requires attempts[j - 1].now <= attempts[i].now + 900
    ensures Failures(attempts, key, i, j) <= 5
  {
    WindowIsCounted(attempts, key, i, j);
    CountAtMostFive(attempts[..j], key);
  }

  // ---- the lock ----

  /** The failed logins on `key` since its last successful one that form a chain up to `now`: the
      last is at most 900 seconds old, and each is at most 900 seconds before the next. */
  function Chain(attempts: seq<Attempt>, key: string, now: int): nat {
    if attempts == [] then 0
    else
      var front, last := Front(attempts), Last(attempts);
      if last.key != key then Chain(front, key, now)
      else
        match ReplyTo(Run(front), last)
        case InvalidCredentials => if now <= last.now + 900 then Chain(front, key, last.now) + 1 else 0
        case LoggedIn => 0
        case _ => Chain(front, key, now)
  }

  /** The counter is the length of that chain, at any instant. */
  lemma {:induction false} CountIsChain(attempts: seq<Attempt>, key: string, now: int)
    ensures Count(Run(attempts), key, now) == Chain(attempts, key, now)
  {
    if attempts != [] {
      CountIsChain(Front(attempts), key, now);
      CountIsChain(Front(attempts), key, Last(attempts).now);
    }
  }

  /** An attempt is refused, unseen, if and only if five failures or more form a chain up to it. */
  lemma LimitedIffChain(attempts: seq<Attempt>, i: nat)
    requires i < |attempts|
    ensures ReplyAt(attempts, i).RateLimited? <==> Chain(attempts[..i], attempts[i].key, attempts[i].now) >= 5
  {
    CountIsChain(attempts[..i], attempts[i].key, attempts[i].now);
  }

  /** The failure that makes a chain of five locks the key for 900 seconds from then on. */
  lemma FifthFailureLocks(attempts: seq<Attempt>, i: nat)
    requires i < |attempts| && ReplyAt(attempts, i).InvalidCredentials?
    requires Chain(attempts[..i], attempts[i].key, attempts[i].now) == 4
    ensures Locked(attempts, i + 1, attempts[i].key, attempts[i].now + 900)
  {
    CountIsChain(attempts[..i], attempts[i].key, attempts[i].now);
    RunNext(attempts, i);
  }

  /** Five failures within 900 seconds, without a successful login among them, lock the e-mail until
      900 seconds after the last of them. */
  lemma FiveFailuresLock(attempts: seq<Attempt>, key: string, i: nat, j: nat)
    requires ClockAdvances(attempts) && i < j <= |attempts| && NoLogin(attempts, key, i, j)
    requires attempts[j - 1].now <= attempts[i].now + 900
    requires Failures(attempts, key, i, j) == 5
    requires attempts[j - 1].key == key && ReplyAt(attempts, j - 1).InvalidCredentials?
    ensures Locked(attempts, j, key, attempts[j - 1].now + 900)
  {
    WindowIsCounted(attempts, key, i, j);
    RunNext(attempts, j - 1);
  }

  /** After i attempts the key is locked up to and including the instant `until`. */
  ghost predicate Locked(attempts: seq<Attempt>, i: nat, key: string, until: int)
    requires i <= |attempts|
  {
    var m := Run(attempts[..i]);
    key in m && m[key].count >= 5 && m[key].expires == until
  }

  /** The lock is neither lifted nor prolonged by anything that happens while it lasts: the key is
      refused, whatever password is offered, up to `until` and not after it. */
  lemma {:induction false} LockLastsExactly(attempts: seq<Attempt>, i: nat, j: nat, key: string, until: int)
    requires i <= j < |attempts| && Locked(attempts, i, key, until)
    requires forall x | i <= x < j && attempts[x].key == key :: attempts[x].now <= until
    ensures Locked(attempts, j, key, until)
    ensures attempts[j].key == key ==> (ReplyAt(attempts, j).RateLimited? <==> attempts[j].now <= until)
  {
    if i < j {
      LockLastsExactly(attempts, i, j - 1, key, until);
      RunNext(attempts, j - 1);
    }
  }
}
