/** What a replay and a logout achieve when refreshes may be under way: exactly when they fail to
    end the sessions they are meant to end, and how many live tokens a user can then have. A replay
    and a logout take effect at their commit; what they read before it cannot change back. */
module SessionRace {
  import opened Common
  import opened TokenRotation
  import opened RefreshRace

  // ---- roots ----

  /** The chain of a new row is its own, or that of the row it replaces. */
  lemma AppendRoots(parents: seq<Option<nat>>, p: Option<nat>)
    ensures forall i | 0 <= i < |parents| :: Root(parents + [p], i) == Root(parents, i)
    ensures Root(parents + [p], |parents|)
         == if p.Some? && p.value < |parents| then Root(parents, p.value) else |parents|
  {
    forall i | 0 <= i < |parents| ensures Root(parents + [p], i) == Root(parents, i) {
      RootOfPrefix(parents, p, i);
    }
    assert (parents + [p])[|parents|] == p;
  }

  /** Refresh p of user u has looked its token up and has not committed. */
  predicate OpenOf(s: State, u: nat, p: nat) {
    && p < |s.refreshes| && s.refreshes[p].done.None?
    && s.refreshes[p].row < |s.rows| && s.rows[s.refreshes[p].row].user == u
  }

  /** Row j is a live token of u on a chain begun before row n. */
  ghost predicate OldLive(s: State, u: nat, n: nat, j: nat) {
    j < |s.rows| == |s.parents| && s.rows[j].user == u && Live(s.rows[j]) && Root(s.parents, j) < n
  }

  /** No live token of u, and no open refresh of u, stands on a chain begun before row n. */
  ghost predicate OldOver(s: State, u: nat, n: nat) {
    && |s.rows| == |s.parents| && n <= |s.rows|
    && (forall j: nat :: !OldLive(s, u, n, j))
    && (forall p: nat | OpenOf(s, u, p) :: Root(s.parents, s.refreshes[p].row) >= n)
  }

  lemma QuietOver(s: State, rows: seq<Token>, u: nat, n: nat)
    requires OldOver(s, u, n) && |rows| == |s.rows| && Extends(s.rows, rows)
    ensures OldOver(s.(rows := rows, time := s.time + 1), u, n)
  {
    var s' := s.(rows := rows, time := s.time + 1);
    forall j: nat ensures !OldLive(s', u, n, j) {
      assert !OldLive(s, u, n, j);
    }
    forall p: nat | OpenOf(s', u, p) ensures Root(s'.parents, s'.refreshes[p].row) >= n {
      assert OpenOf(s, u, p);
    }
  }

  lemma GrantOver(s: State, t: Token, u: nat, n: nat)
    requires OldOver(s, u, n) && Good(s)
    ensures OldOver(s.(rows := s.rows + [t], parents := s.parents + [None], time := s.time + 1), u, n)
  {
    var s' := s.(rows := s.rows + [t], parents := s.parents + [None], time := s.time + 1);
    AppendRoots(s.parents, None);
    forall j: nat ensures !OldLive(s', u, n, j) {
      assert !OldLive(s, u, n, j);
    }
    forall p: nat | OpenOf(s', u, p) ensures Root(s'.parents, s'.refreshes[p].row) >= n {
      assert GoodRefresh(s, s.refreshes[p]);
      assert OpenOf(s, u, p);
    }
  }

  lemma BegunOver(s: State, i: nat, u: nat, n: nat)
    requires OldOver(s, u, n) && i < |s.rows| && Live(s.rows[i])
    ensures OldOver(s.(refreshes := s.refreshes + [Refreshing(i, s.time, None)], time := s.time + 1), u, n)
  {
    var s' := s.(refreshes := s.refreshes + [Refreshing(i, s.time, None)], time := s.time + 1);
    forall j: nat ensures !OldLive(s', u, n, j) {
      assert !OldLive(s, u, n, j);
    }
    assert !OldLive(s, u, n, i);
    forall p: nat | OpenOf(s', u, p) ensures Root(s'.parents, s'.refreshes[p].row) >= n {
      if p < |s.refreshes| {
        assert OpenOf(s, u, p);
      }
    }
  }

  lemma RotateOver(s: State, read: nat, minted: nat, now: int, u: nat, n: nat)
    requires OldOver(s, u, n) && Good(s)
    requires read < |s.refreshes| && s.refreshes[read].done.None? && s.refreshes[read].row < |s.rows|
    ensures OldOver(Rotate(s, read, minted, now).(time := s.time + 1), u, n)
  {
    var i := s.refreshes[read].row;
    var s' := Rotate(s, read, minted, now).(time := s.time + 1);
    AppendRoots(s.parents, Some(i));
    assert s.rows[i].user == u ==> OpenOf(s, u, read);
    forall j: nat ensures !OldLive(s', u, n, j) {
      assert !OldLive(s, u, n, j);
    }
    forall p: nat | OpenOf(s', u, p) ensures Root(s'.parents, s'.refreshes[p].row) >= n {
      assert GoodRefresh(s, s.refreshes[p]);
      assert OpenOf(s, u, p);
    }
  }

  /** What each action does to the state, in one of four ways. */
  lemma NextCases(s: State, a: Action)
    requires |s.rows| == |s.parents|
    ensures var s' := Next(s, a);
      || (|s'.rows| == |s.rows| && Extends(s.rows, s'.rows) && s' == s.(rows := s'.rows, time := s.time + 1))
      || (exists t :: s' == s.(rows := s.rows + [t], parents := s.parents + [None], time := s.time + 1))
      || (a.LookUp? && Find(s.rows, a.presented).Some? && Live(s.rows[Find(s.rows, a.presented).value])
          && s' == s.(refreshes := s.refreshes + [Refreshing(Find(s.rows, a.presented).value, s.time, None)], time := s.time + 1))
      || (a.Commit? && a.read < |s.refreshes| && s.refreshes[a.read].done.None? && s.refreshes[a.read].row < |s.rows|
          && s' == Rotate(s, a.read, a.minted, a.now).(time := s.time + 1))
  {
    if a.Whole? && !a.q.Refresh? {
      StepExtends(s.rows, a.q);
      WholeCases(s.rows, s.parents, a.q);
    }
    hide Step, StepParents, Rotate;
  }

  lemma WholeCases(rows: seq<Token>, parents: seq<Option<nat>>, q: Request)
    requires !q.Refresh?
    ensures (|Step(rows, q)| == |rows| && StepParents(rows, parents, q) == parents)
         || exists t :: Step(rows, q) == rows + [t] && StepParents(rows, parents, q) == parents + [None]
  {
    hide Find;
    if q.Grant? && ReplyTo(rows, q).Granted? {
      assert Step(rows, q) == rows + [Issue(q.user, q.minted, q.now)];
    }
  }

  lemma NextOver(s: State, a: Action, u: nat, n: nat)
    requires Good(s) && OldOver(s, u, n)
    ensures OldOver(Next(s, a), u, n)
  {
    hide Good, OldOver, Next, Rotate, Extends, Find;
    assert |s.rows| == |s.parents| by { SameLength(s); }
    NextCases(s, a);
    var s' := Next(s, a);
    if |s'.rows| == |s.rows| && Extends(s.rows, s'.rows) && s' == s.(rows := s'.rows, time := s.time + 1) {
      QuietOver(s, s'.rows, u, n);
    } else if t :| s' == s.(rows := s.rows + [t], parents := s.parents + [None], time := s.time + 1) {
      GrantOver(s, t, u, n);
    } else if a.LookUp? {
      BegunOver(s, Find(s.rows, a.presented).value, u, n);
    } else {
      RotateOver(s, a.read, a.minted, a.now, u, n);
    }
  }

  lemma RunMore(actions: seq<Action>, more: seq<Action>)
    requires more != []
    ensures RunRace(actions + more) == Next(RunRace(actions + Front(more)), Last(more))
  {
    assert Front(actions + more) == actions + Front(more);
  }

  lemma {:induction false} OverForever(actions: seq<Action>, more: seq<Action>, u: nat, n: nat)
    requires OldOver(RunRace(actions), u, n)
    ensures OldOver(RunRace(actions + more), u, n)
  {
    if more == [] {
      assert actions + more == actions;
    } else {
      hide *;
      OverForever(actions, Front(more), u, n);
      AlwaysGood(actions + Front(more));
      RunMore(actions, more);
      NextOver(RunRace(actions + Front(more)), Last(more), u, n);
    }
  }

  // ---- a hash nobody has ----

  function Unused(rows: seq<Token>): nat {
    if rows == [] then 0 else Max(Unused(Front(rows)), Last(rows).hash + 1)
  }

  lemma {:induction false} UnusedIsNew(rows: seq<Token>, hash: nat)
    requires hash >= Unused(rows)
    ensures Find(rows, hash).None?
  {
    if rows != [] {
      UnusedIsNew(Front(rows), hash);
    }
  }

  /** An open refresh can commit: its row, revoked or not, gets a live successor. */
  lemma OpenCommits(s: State, p: nat)
    requires Good(s) && p < |s.refreshes| && s.refreshes[p].done.None?
    ensures var s', i := Next(s, Commit(p, Unused(s.rows), 0)), s.refreshes[p].row;
      && i < |s.rows| && |s'.rows| == |s'.parents| == |s.rows| + 1
      && s'.parents[|s.rows|] == Some(i) && Live(s'.rows[|s.rows|]) && s'.rows[|s.rows|].user == s.rows[i].user
      && Root(s'.parents, |s.rows|) == Root(s.parents, i)
  {
    assert GoodRefresh(s, s.refreshes[p]);
    UnusedIsNew(s.rows, Unused(s.rows));
    AppendRoots(s.parents, Some(s.refreshes[p].row));
    hide Find, Root, Unused;
  }

  // ---- a replay ----

  /** A live token of u on a chain begun before row n, in the state after these actions. */
  ghost predicate OldSession(actions: seq<Action>, u: nat, n: nat) {
    exists j: nat :: OldLive(RunRace(actions), u, n, j)
  }

  /** What a replay leaves behind. */
  lemma ReplayLeaves(s: State, presented: nat, now: int)
    requires Good(s) && Find(s.rows, presented).Some? && !Live(s.rows[Find(s.rows, presented).value])
    ensures var s', u := Next(s, LookUp(presented, now)), s.rows[Find(s.rows, presented).value].user;
      && s'.refreshes == s.refreshes && s'.parents == s.parents && |s'.rows| == |s.rows|
      && (forall j | 0 <= j < |s.rows| :: s'.rows[j].user == s.rows[j].user && (s'.rows[j].user == u ==> !Live(s'.rows[j])))
  {
    hide Find;
  }

  lemma ReplayIsOver(s: State, presented: nat, now: int, u: nat)
    requires Good(s) && Find(s.rows, presented).Some? && !Live(s.rows[Find(s.rows, presented).value])
    requires u == s.rows[Find(s.rows, presented).value].user && forall p: nat :: !OpenOf(s, u, p)
    ensures OldOver(Next(s, LookUp(presented, now)), u, |s.rows|)
  {
    ReplayLeaves(s, presented, now);
    hide Next, Find;
    var s' := Next(s, LookUp(presented, now));
    forall p: nat ensures !OpenOf(s', u, p) {
      assert !OpenOf(s, u, p);
    }
  }

  /** Presenting a revoked token of u ends every session of u begun so far - in no continuation does
      u have a live token on such a chain - if and only if no refresh of u was under way. */
  lemma ReplayEndsSessionsIff(actions: seq<Action>, presented: nat, now: int)
    requires var rows := RunRace(actions).rows;
      Find(rows, presented).Some? && !Live(rows[Find(rows, presented).value])
    ensures var s := RunRace(actions);
      var u, replay := s.rows[Find(s.rows, presented).value].user, actions + [LookUp(presented, now)];
      (exists more :: OldSession(replay + more, u, |s.rows|)) <==> (exists p: nat :: OpenOf(s, u, p))
  {
    var s := RunRace(actions);
    var u, replay := s.rows[Find(s.rows, presented).value].user, actions + [LookUp(presented, now)];
    AlwaysGood(actions);
    AlwaysGood(replay);
    RunThen(actions, LookUp(presented, now));
    hide RunRace, Next, Find, OldLive, Good, OpenOf;
    if p: nat :| OpenOf(s, u, p) {
      SurvivesReplay(actions, presented, now, p);
    } else {
      ReplayIsOver(s, presented, now, u);
      forall more ensures !OldSession(replay + more, u, |s.rows|) {
        OverForever(replay, more, u, |s.rows|);
      }
    }
  }

  lemma SurvivesReplay(actions: seq<Action>, presented: nat, now: int, p: nat)
    requires var rows := RunRace(actions).rows;
      Find(rows, presented).Some? && !Live(rows[Find(rows, presented).value])
    requires OpenOf(RunRace(actions), RunRace(actions).rows[Find(RunRace(actions).rows, presented).value].user, p)
    ensures var s := RunRace(actions);
      var u, replay := s.rows[Find(s.rows, presented).value].user, actions + [LookUp(presented, now)];
      exists more :: OldSession(replay + more, u, |s.rows|)
  {
    var s := RunRace(actions);
    var u, replay := s.rows[Find(s.rows, presented).value].user, actions + [LookUp(presented, now)];
    AlwaysGood(actions);
    AlwaysGood(replay);
    RunThen(actions, LookUp(presented, now));
    ReplayLeaves(s, presented, now);
    hide RunRace, Next, Find, Good;
    var later := RunRace(replay);
    OpenCommits(later, p);
    var more := [Commit(p, Unused(later.rows), 0)];
    RunThen(replay, more[0]);
    assert OldLive(RunRace(replay + more), u, |s.rows|, |later.rows|);
    assert OldSession(replay + more, u, |s.rows|);
  }

  // ---- a logout ----

  predicate OpenOn(s: State, i: nat, p: nat) {
    p < |s.refreshes| && s.refreshes[p].done.None? && s.refreshes[p].row == i
  }

  /** A row from n on that replaced row i. */
  ghost predicate Succeeded(actions: seq<Action>, i: nat, n: nat) {
    exists j: nat :: n <= j < |RunRace(actions).parents| && RunRace(actions).parents[j] == Some(i)
  }

  /** Row i is revoked, nobody is refreshing it, and no row from n on replaced it. */
  ghost predicate Closed(s: State, i: nat, n: nat) {
    && i < |s.rows| == |s.parents| && !Live(s.rows[i])
    && (forall p: nat :: !OpenOn(s, i, p))
    && (forall j | n <= j < |s.parents| :: s.parents[j] != Some(i))
  }

  lemma NextClosed(s: State, a: Action, i: nat, n: nat)
    requires Closed(s, i, n)
    ensures Closed(Next(s, a), i, n)
  {
    NextCases(s, a);
    hide Next, Find, Extends;
    var s' := Next(s, a);
    assert !Live(s'.rows[i]) by { NextRevoked(s, a, i); }
    forall p: nat ensures !OpenOn(s', i, p) {
      assert !OpenOn(s, i, p);
    }
    assert a.Commit? ==> !OpenOn(s, i, a.read);
  }

  lemma NextRevoked(s: State, a: Action, i: nat)
    requires i < |s.rows| == |s.parents| && !Live(s.rows[i])
    ensures i < |Next(s, a).rows| && !Live(Next(s, a).rows[i])
  {
    NextCases(s, a);
    hide Next, Find;
  }

  lemma {:induction false} ClosedForever(actions: seq<Action>, more: seq<Action>, i: nat, n: nat)
    requires Closed(RunRace(actions), i, n)
    ensures Closed(RunRace(actions + more), i, n)
  {
    if more == [] {
      assert actions + more == actions;
    } else {
      hide *;
      ClosedForever(actions, Front(more), i, n);
      RunMore(actions, more);
      NextClosed(RunRace(actions + Front(more)), Last(more), i, n);
    }
  }

  /** A revoked token, however it was revoked, is exchanged in some continuation if and only if a
      refresh of it is under way. */
  lemma RevokedIsFinalIff(actions: seq<Action>, i: nat)
    requires i < |RunRace(actions).rows| && !Live(RunRace(actions).rows[i])
    ensures (exists more :: Succeeded(actions + more, i, |RunRace(actions).rows|)) <==> (exists p: nat :: OpenOn(RunRace(actions), i, p))
  {
    var s := RunRace(actions);
    AlwaysGood(actions);
    assert |s.rows| == |s.parents| by { SameLength(s); }
    hide RunRace, Next, Good, Unused;
    if p: nat :| OpenOn(s, i, p) {
      OpenCommits(s, p);
      var more := [Commit(p, Unused(s.rows), 0)];
      RunThen(actions, more[0]);
      assert RunRace(actions + more).parents[|s.rows|] == Some(i);
      assert Succeeded(actions + more, i, |s.rows|);
    } else {
      forall more ensures !Succeeded(actions + more, i, |s.rows|) {
        ClosedForever(actions, more, i, |s.rows|);
      }
    }
  }

  lemma LogoutLeaves(s: State, presented: nat, now: int)
    requires |s.rows| == |s.parents| && Find(s.rows, presented).Some?
    ensures var s' := Next(s, Whole(Logout(presented, now)));
      && s'.refreshes == s.refreshes && |s'.rows| == |s.rows| && !Live(s'.rows[Find(s.rows, presented).value])
  {
    hide Find;
  }

  /** A token given to logout is exchanged afterwards, in some continuation, if and only if a refresh
      of it was under way. */
  lemma LogoutIsFinalIff(actions: seq<Action>, presented: nat, now: int)
    requires Find(RunRace(actions).rows, presented).Some?
    ensures var s := RunRace(actions);
      var i, after := Find(s.rows, presented).value, actions + [Whole(Logout(presented, now))];
      (exists more :: Succeeded(after + more, i, |s.rows|)) <==> (exists p: nat :: OpenOn(s, i, p))
  {
    var s := RunRace(actions);
    var i, after := Find(s.rows, presented).value, actions + [Whole(Logout(presented, now))];
    AlwaysGood(actions);
    assert |s.rows| == |s.parents| by { SameLength(s); }
    RunThen(actions, Whole(Logout(presented, now)));
    LogoutLeaves(s, presented, now);
    hide RunRace, Next, Find, Good, Succeeded;
    RevokedIsFinalIff(after, i);
    assert forall p: nat :: OpenOn(RunRace(after), i, p) == OpenOn(s, i, p);
  }

  // ---- how many live tokens ----

  /** The action is a login or registration of u that is granted. */
  predicate LogsIn(s: State, a: Action, u: nat) {
    a.Whole? && a.q.Grant? && a.q.user == u && Find(s.rows, a.q.minted).None?
  }

  /** The action commits a refresh of u whose token has been revoked since it was looked up. */
  predicate Races(s: State, a: Action, u: nat) {
    && a.Commit? && OpenOf(s, u, a.read) && Find(s.rows, a.minted).None?
    && !Live(s.rows[s.refreshes[a.read].row])
  }

  function LogIns(actions: seq<Action>, u: nat): nat {
    if actions == [] then 0
    else LogIns(Front(actions), u) + (if LogsIn(RunRace(Front(actions)), Last(actions), u) then 1 else 0)
  }

  function RacesIn(actions: seq<Action>, u: nat): nat {
    if actions == [] then 0
    else RacesIn(Front(actions), u) + (if Races(RunRace(Front(actions)), Last(actions), u) then 1 else 0)
  }

  lemma FewerLive(rows: seq<Token>, later: seq<Token>, u: nat)
    requires |rows| == |later| && Extends(rows, later)
    ensures |LiveOf(later, u)| <= |LiveOf(rows, u)|
  {
    SubsetSize(LiveOf(later, u), LiveOf(rows, u));
  }

  lemma OneMoreLive(rows: seq<Token>, t: Token, u: nat)
    requires Live(t)
    ensures LiveOf(rows + [t], u) == LiveOf(rows, u) + (if t.user == u then {|rows|} else {})
    ensures |LiveOf(rows + [t], u)| == |LiveOf(rows, u)| + (if t.user == u then 1 else 0)
  {
  }

  lemma RotateLive(rows: seq<Token>, i: nat, t: Token, now: int, u: nat)
    requires i < |rows| && Live(t) && t.user == rows[i].user
    ensures |LiveOf(rows[i := Revoke(rows[i], now)] + [t], u)|
         == |LiveOf(rows, u)| + (if t.user == u && !Live(rows[i]) then 1 else 0)
  {
    var revoked := rows[i := Revoke(rows[i], now)];
    assert LiveOf(revoked, u) == LiveOf(rows, u) - {i};
    OneMoreLive(revoked, t, u);
  }

  lemma LiveAfter(s: State, a: Action, u: nat)
    requires Good(s)
    ensures |LiveOf(Next(s, a).rows, u)|
         <= |LiveOf(s.rows, u)| + (if LogsIn(s, a, u) then 1 else 0) + (if Races(s, a, u) then 1 else 0)
  {
    assert |s.rows| == |s.parents| by { SameLength(s); }
    hide Good, LiveOf, Find;
    match a {
      case Whole(q) =>
        if q.Grant? && LogsIn(s, a, q.user) {
          OneMoreLive(s.rows, Issue(q.user, q.minted, q.now), u);
        } else if !q.Refresh? {
          StepExtends(s.rows, q);
          FewerLive(s.rows, Step(s.rows, q), u);
        }
      case LookUp(presented, now) => FewerLive(s.rows, BeginRefresh(s, presented, now).rows, u);
      case Commit(read, minted, now) =>
        if Move(s, a) != s {
          var i := s.refreshes[read].row;
          RotateLive(s.rows, i, Issue(s.rows[i].user, minted, now), now, u);
        }
    }
  }

  /** A user's live tokens never outnumber the user's logins and registrations plus the refreshes
      that committed after their token had been revoked. */
  lemma {:induction false} LiveTokensCounted(actions: seq<Action>, u: nat)
    ensures |LiveOf(RunRace(actions).rows, u)| <= LogIns(actions, u) + RacesIn(actions, u)
  {
    if actions != [] {
      hide Next, LogsIn, Races, LiveOf;
      LiveTokensCounted(Front(actions), u);
      AlwaysGood(Front(actions));
      LiveAfter(RunRace(Front(actions)), Last(actions), u);
    } else {
      assert RunRace(actions) == EMPTY && LiveOf([], u) == {};
    }
  }

  // ---- runs in which a session survives ----

  const LOGIN: seq<Action> := [Whole(Grant(1, 10, 0))]

  /** A login, and a refresh that looks the token up. */
  lemma LookedUp()
    ensures RunRace(LOGIN + [LookUp(10, 1)]) == State([Issue(1, 10, 0)], [None], [Refreshing(0, 1, None)], 2)
  {
    assert [] + LOGIN == LOGIN && RunRace([]) == EMPTY;
    RunThen([], Whole(Grant(1, 10, 0)));
    RunThen(LOGIN, LookUp(10, 1));
    assert Next(EMPTY, Whole(Grant(1, 10, 0))) == State([Issue(1, 10, 0)], [None], [], 1);
  }

  /** The user logs out between look-up and commit, and has a live token all the same. */
  lemma SurvivesLogout()
    ensures var s := RunRace(LOGIN + [LookUp(10, 1)] + [Whole(Logout(10, 2))] + [Commit(0, 11, 3)]);
      |s.rows| == 2 && !Live(s.rows[0]) && Live(s.rows[1]) && s.rows[1].user == 1 && s.parents == [None, Some(0)]
  {
    LookedUp();
    var open := LOGIN + [LookUp(10, 1)];
    RunThen(open, Whole(Logout(10, 2)));
    RunThen(open + [Whole(Logout(10, 2))], Commit(0, 11, 3));
    hide RunRace;
    var t := Revoke(Issue(1, 10, 0), 2);
    var s := State([t], [None], [Refreshing(0, 1, None)], 3);
    assert Next(State([Issue(1, 10, 0)], [None], [Refreshing(0, 1, None)], 2), Whole(Logout(10, 2))) == s;
    assert Find([t], 11).None? by { OnlyOne(t, 11); }
  }

  lemma OnlyOne(t: Token, hash: nat)
    requires t.hash != hash
    ensures Find([t], hash).None?
  {
    assert Front([t]) == [] && Find([], hash).None?;
  }

  /** Two refreshes look the token up, one commits, the spent token is presented again, which revokes
      everything; then the other commits: a live token on the chain the replay was to end. */
  lemma SurvivesReplayRun()
    ensures var s := RunRace(LOGIN + [LookUp(10, 1)] + [LookUp(10, 1)] + [Commit(0, 11, 2)] + [LookUp(10, 3)] + [Commit(1, 12, 4)]);
      |s.rows| == 3 && !Live(s.rows[0]) && !Live(s.rows[1]) && OldLive(s, 1, 2, 2)
  {
    LookedUp();
    var open := LOGIN + [LookUp(10, 1)];
    var two := open + [LookUp(10, 1)];
    RunThen(open, LookUp(10, 1));
    RunThen(two, Commit(0, 11, 2));
    RunThen(two + [Commit(0, 11, 2)], LookUp(10, 3));
    RunThen(two + [Commit(0, 11, 2)] + [LookUp(10, 3)], Commit(1, 12, 4));
    var t := Issue(1, 10, 0);
    var first, second := Refreshing(0, 1, None), Refreshing(0, 2, None);
    assert RunRace(two) == State([t], [None], [first, second], 3);
    hide RunRace;
    ReplayBetween(RunRace(two), t, second);
  }

  lemma ReplayBetween(s: State, t: Token, second: Refreshing)
    requires s == State([t], [None], [Refreshing(0, 1, None), second], 3)
    requires second == Refreshing(0, 2, None) && t.user == 1 && t.hash == 10
    ensures var s' := Next(Next(Next(s, Commit(0, 11, 2)), LookUp(10, 3)), Commit(1, 12, 4));
      |s'.rows| == 3 && !Live(s'.rows[0]) && !Live(s'.rows[1]) && OldLive(s', 1, 2, 2)
  {
    OnlyOne(t, 11);
    var s1 := Next(s, Commit(0, 11, 2));
    var a, b := Revoke(t, 2), Issue(1, 11, 2);
    assert s1.rows == [a, b] && s1.parents == [None, Some(0)] && s1.refreshes[1] == second;
    FindFirst(a, b);
    var s2 := Next(s1, LookUp(10, 3));
    assert s2.refreshes == s1.refreshes && s2.parents == s1.parents && |s2.rows| == 2;
    assert s2.rows[0].hash == 10 && s2.rows[1].hash == 11;
    FindNone(s2.rows[0], s2.rows[1], 12);
    assert s2.rows == [s2.rows[0], s2.rows[1]];
    hide Find, RevokeAll;
    AppendRoots(s2.parents, Some(0));
    assert Next(s2, Commit(1, 12, 4)) == Rotate(s2, 1, 12, 4).(time := s2.time + 1);
  }

  lemma FindFirst(a: Token, b: Token)
    requires a.hash == 10 && b.hash == 11
    ensures Find([a, b], 10) == Some(0)
  {
    assert Front([a, b]) == [a] && Front([a]) == [];
  }
}
