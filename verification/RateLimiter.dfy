/** The hourly request limit: a Redis sorted set of request instants per client and path, pruned
    on every request and given a time to live of one window. One request is one atomic pipeline,
    and Redis and the application read the same clock. */
module RateLimiter {
  import opened Common

  const WINDOW := 3600.0

  /** A sorted set whose members are their own scores, and the instant after which the key is gone. */
  datatype Entry = Entry(instants: set<real>, expires: real)

  type Store = map<string, Entry>

  datatype Request = Request(key: string, now: real, limit: int)

  // ---- the pipeline ----

  /** The members of a key, none when it is missing or expired. */
  function Members(m: Store, key: string, now: real): set<real> {
    if key in m && now <= m[key].expires then m[key].instants else {}
  }

  /** ZREMRANGEBYSCORE key 0 upTo. */
  function Prune(s: set<real>, upTo: real): set<real> {
    set t | t in s && !(0.0 <= t <= upTo)
  }

  /** ZREMRANGEBYSCORE, ZADD, EXPIRE. */
  function Step(m: Store, q: Request): Store {
    var kept := Prune(Members(m, q.key, q.now), q.now - WINDOW) + {q.now};
    m[q.key := Entry(kept, q.now + WINDOW)]
  }

  /** ZCARD against the limit: requests over the limit are refused, but recorded all the same. */
  predicate Accepted(m: Store, q: Request) {
    |Step(m, q)[q.key].instants| <= q.limit
  }

  class RateLimiter {
    var store: Store

    constructor ()
      ensures store == map[]
    {
      store := map[];
    }

    method CheckRateLimit(key: string, now: real, limit: int) returns (accepted: bool)
      modifies this
      ensures store == Step(old(store), Request(key, now, limit))
      ensures accepted == Accepted(old(store), Request(key, now, limit))
    {
      var windowStart := now - WINDOW;
      if key !in store || store[key].expires < now {
        store := store[key := Entry({}, now + WINDOW)];
      }
      store := store[key := store[key].(instants := Prune(store[key].instants, windowStart))];
      store := store[key := store[key].(instants := store[key].instants + {now})];
      var count := |store[key].instants|;
      store := store[key := store[key].(expires := now + WINDOW)];
      accepted := count <= limit;
    }
  }

  // ---- runs ----

  function Run(qs: seq<Request>): Store {
    if qs == [] then map[] else Step(Run(Front(qs)), Last(qs))
  }

  predicate AcceptedAt(qs: seq<Request>, i: nat)
    requires i < |qs|
  {
    Accepted(Run(qs[..i]), qs[i])
  }

  ghost predicate ClockAdvances(qs: seq<Request>) {
    && (forall i | 0 <= i < |qs| :: 0.0 <= qs[i].now)
    && (forall i, j | 0 <= i < j < |qs| :: qs[i].now <= qs[j].now)
  }

  /** Full history: the distinct instants of requests on a key, refused ones included, within one
      window before `now`. */
  function History(qs: seq<Request>, key: string, now: real): set<real> {
    set i | 0 <= i < |qs| && InHistory(qs, key, now, i) :: qs[i].now
  }

  predicate InHistory(qs: seq<Request>, key: string, now: real, i: nat)
    requires i < |qs|
  {
    qs[i].key == key && now - 3600.0 < qs[i].now <= now
  }

  lemma HistoryNext(front: seq<Request>, last: Request, key: string, now: real)
    ensures History(front + [last], key, now) == History(front, key, now)
         + (if last.key == key && now - 3600.0 < last.now <= now then {last.now} else {})
  {
    var qs := front + [last];
    forall t | t in History(front, key, now) ensures t in History(qs, key, now) {
      var i :| 0 <= i < |front| && InHistory(front, key, now, i) && front[i].now == t;
      assert InHistory(qs, key, now, i);
    }
    if InHistory(qs, key, now, |front|) {
      assert qs[|front|].now in History(qs, key, now);
    }
    assert forall i | 0 <= i < |front| :: InHistory(qs, key, now, i) == InHistory(front, key, now, i);
  }

  lemma HistoryInWindow(qs: seq<Request>, key: string, now: real)
    requires ClockAdvances(qs)
    ensures forall t | t in History(qs, key, now) :: 0.0 <= t <= now
  {
  }

  /** A later window keeps what is still young enough. */
  lemma HistoryShift(qs: seq<Request>, key: string, earlier: real, now: real)
    requires earlier <= now && forall i | 0 <= i < |qs| :: qs[i].now <= earlier
    ensures History(qs, key, now) == set t | t in History(qs, key, earlier) && now - 3600.0 < t
  {
  }

  /** What is stored, seen at any instant not before the last request, and once pruned, is the
      full history of the window: expiry and pruning lose nothing that still counts. */
  lemma {:induction false} StoredIsHistory(qs: seq<Request>, key: string, now: real)
    requires ClockAdvances(qs) && (qs != [] ==> Last(qs).now <= now)
    ensures Prune(Members(Run(qs), key, now), now - 3600.0) == History(qs, key, now)
  {
    if qs != [] {
      var front, last := Front(qs), Last(qs);
      assert qs == front + [last] && Run(qs) == Step(Run(front), last);
      FrontClock(qs);
      hide Step, Prune, Members, History, ClockAdvances, Run;
      HistoryNext(front, last, key, now);
      if last.key != key {
        StoredIsHistory(front, key, now);
        OtherKey(Run(front), last, key, now);
      } else {
        StoredIsHistory(front, key, last.now);
        HistoryInWindow(front, key, last.now);
        HistoryShift(front, key, last.now, now);
        StepThenPrune(Run(front), last, History(front, key, last.now), now);
      }
    }
  }

  lemma FrontClock(qs: seq<Request>)
    requires ClockAdvances(qs) && qs != []
    ensures ClockAdvances(Front(qs)) && 0.0 <= Last(qs).now
    ensures forall i | 0 <= i < |Front(qs)| :: Front(qs)[i].now <= Last(qs).now
  {
  }

  lemma OtherKey(m: Store, q: Request, key: string, now: real)
    requires q.key != key
    ensures Members(Step(m, q), key, now) == Members(m, key, now)
  {
  }

  lemma StepThenPrune(m: Store, q: Request, before: set<real>, now: real)
    requires 0.0 <= q.now <= now && before == Prune(Members(m, q.key, q.now), q.now - 3600.0)
    requires forall t | t in before :: 0.0 <= t <= q.now
    ensures Prune(Members(Step(m, q), q.key, now), now - 3600.0)
         == (set t | t in before && now - 3600.0 < t) + (if now - 3600.0 < q.now then {q.now} else {})
  {
  }

  /** The pruned, expiring sorted set refines a scan of the full history: a request is accepted
      exactly when the window ending with it holds at most `limit` distinct request instants. */
  lemma RefinesHistory(qs: seq<Request>, i: nat)
    requires ClockAdvances(qs) && i < |qs|
    ensures Run(qs[..i + 1])[qs[i].key].instants == History(qs[..i + 1], qs[i].key, qs[i].now)
    ensures AcceptedAt(qs, i) <==> |History(qs[..i + 1], qs[i].key, qs[i].now)| <= qs[i].limit
  {
    var upTo := qs[..i + 1];
    assert Front(upTo) == qs[..i] && upTo == qs[..i] + [qs[i]];
    StoredIsHistory(qs[..i], qs[i].key, qs[i].now);
    HistoryNext(qs[..i], qs[i], qs[i].key, qs[i].now);
  }

  // ---- bounds over any window ----

  predicate Counts(qs: seq<Request>, key: string, start: real, i: nat)
    requires i < |qs|
  {
    qs[i].key == key && start < qs[i].now <= start + 3600.0 && AcceptedAt(qs, i)
  }

  /** Distinct instants of accepted requests on a key in (start, start + 3600]. */
  function AcceptedIn(qs: seq<Request>, key: string, start: real): set<real> {
    set i | 0 <= i < |qs| && Counts(qs, key, start, i) :: qs[i].now
  }

  /** No window of an hour, wherever it starts, holds more than `limit` accepted instants. */
  lemma AcceptedPerWindow(qs: seq<Request>, key: string, start: real, limit: nat)
    requires ClockAdvances(qs)
    requires forall i | 0 <= i < |qs| && qs[i].key == key :: qs[i].limit == limit
    ensures |AcceptedIn(qs, key, start)| <= limit
  {
    hide AcceptedAt, ClockAdvances, History;
    var accepted := AcceptedIn(qs, key, start);
    if accepted != {} {
      var t :| t in accepted;
      var some: nat :| some < |qs| && Counts(qs, key, start, some) && qs[some].now == t;
      var i := LastCounted(qs, key, start, some);
      RefinesHistory(qs, i);
      AcceptedAreRecent(qs, key, start, i);
      SubsetSize(accepted, History(qs[..i + 1], key, qs[i].now));
    }
  }

  lemma AcceptedAreRecent(qs: seq<Request>, key: string, start: real, i: nat)
    requires ClockAdvances(qs) && i < |qs| && Counts(qs, key, start, i)
    requires forall j | i < j < |qs| :: !Counts(qs, key, start, j)
    ensures AcceptedIn(qs, key, start) <= History(qs[..i + 1], key, qs[i].now)
  {
    hide AcceptedAt;
    forall t | t in AcceptedIn(qs, key, start) ensures t in History(qs[..i + 1], key, qs[i].now) {
      var j: nat :| j < |qs| && Counts(qs, key, start, j) && qs[j].now == t;
      assert InHistory(qs[..i + 1], key, qs[i].now, j);
    }
  }

  lemma {:induction false} LastCounted(qs: seq<Request>, key: string, start: real, i: nat) returns (last: nat)
    requires i < |qs| && Counts(qs, key, start, i)
    ensures i <= last < |qs| && Counts(qs, key, start, last)
    ensures forall j | last < j < |qs| :: !Counts(qs, key, start, j)
    decreases |qs| - i
  {
    hide Counts;
    last := i;
    if j: nat :| i < j < |qs| && Counts(qs, key, start, j) {
      last := LastCounted(qs, key, start, j);
    }
  }

  /** A client that never makes more than `limit` distinct requests in an hour is never refused. */
  lemma PoliteClientAccepted(qs: seq<Request>, key: string, i: nat)
    requires ClockAdvances(qs) && i < |qs| && qs[i].key == key
    requires |History(qs, key, qs[i].now)| <= qs[i].limit
    ensures AcceptedAt(qs, i)
  {
    RefinesHistory(qs, i);
    var upTo := qs[..i + 1];
    forall t | t in History(upTo, key, qs[i].now) ensures t in History(qs, key, qs[i].now) {
      var j :| 0 <= j < |upTo| && InHistory(upTo, key, qs[i].now, j) && upTo[j].now == t;
      assert InHistory(qs, key, qs[i].now, j);
    }
    SubsetSize(History(upTo, key, qs[i].now), History(qs, key, qs[i].now));
  }
}
