/** Refreshes that overlap: the look-up of the presented token and the commit of its successor are
    separate steps, and anything may happen in between. */
module RefreshRace {
  import opened Common
  import opened TokenRotation

  /** A refresh that found its token live and not expired: the row, the time of the look-up, and, if
      it committed, the time of the commit and the row of the new token. */
  datatype Refreshing = Refreshing(row: nat, begun: nat, done: Option<Done>)
  datatype Done = Done(at: nat, row: nat)

  /** The table, with the row each row replaced; the refreshes so far; the number of actions. */
  datatype State = State(rows: seq<Token>, parents: seq<Option<nat>>, refreshes: seq<Refreshing>, time: nat)

  const EMPTY := State([], [], [], 0)

  /** Registrations, logins and logouts are whole requests; a refresh is a look-up and a commit. */
  datatype Action =
    | Whole(q: Request)
    | LookUp(presented: nat, now: int)
    | Commit(read: nat, minted: nat, now: int)

  /** A token found revoked revokes all tokens of its user. */
  function BeginRefresh(s: State, presented: nat, now: int): State {
    var found := Find(s.rows, presented);
    if found.None? then s
    else
      var i := found.value;
      if !Live(s.rows[i]) then s.(rows := RevokeAll(s.rows, s.rows[i].user, now))
      else if s.rows[i].expiresAt < now then s
      else s.(refreshes := s.refreshes + [Refreshing(i, s.time, None)])
  }

  /** The commit revokes the row that was read, live or not by now, and stores the new token. */
  function Rotate(s: State, read: nat, minted: nat, now: int): State
    requires read < |s.refreshes| && s.refreshes[read].row < |s.rows|
  {
    var i := s.refreshes[read].row;
    s.(rows := s.rows[i := Revoke(s.rows[i], now)] + [Issue(s.rows[i].user, minted, now)],
       parents := s.parents + [Some(i)],
       refreshes := s.refreshes[read := s.refreshes[read].(done := Some(Done(s.time, |s.rows|)))])
  }

  function Move(s: State, a: Action): State {
    match a
    case Whole(q) =>
      if q.Refresh? then s
      else s.(rows := Step(s.rows, q), parents := StepParents(s.rows, s.parents, q))
    case LookUp(presented, now) => BeginRefresh(s, presented, now)
    case Commit(read, minted, now) =>
      if read < |s.refreshes| && s.refreshes[read].row < |s.rows| && s.refreshes[read].done.None? && Find(s.rows, minted).None?
      then Rotate(s, read, minted, now) else s
  }

  function Next(s: State, a: Action): State { Move(s, a).(time := s.time + 1) }

  function RunRace(actions: seq<Action>): State {
    if actions == [] then EMPTY else Next(RunRace(Front(actions)), Last(actions))
  }

  // ---- what every run keeps ----

  ghost predicate Made(s: State, p: nat, j: nat) {
    p < |s.refreshes| && s.refreshes[p].done.Some? && s.refreshes[p].done.value.row == j
  }

  /** No two refreshes made the same row. */
  ghost predicate OwnRows(refreshes: seq<Refreshing>) {
    forall p, q | 0 <= p < q < |refreshes| && refreshes[p].done.Some? && refreshes[q].done.Some? ::
      refreshes[p].done.value.row != refreshes[q].done.value.row
  }

  /** Whoever looked a row up did so before any refresh of the row committed. */
  ghost predicate Overlap(refreshes: seq<Refreshing>) {
    forall p, q | 0 <= p < |refreshes| && 0 <= q < |refreshes| && refreshes[q].done.Some? ::
      refreshes[p].row == refreshes[q].row ==> refreshes[p].begun < refreshes[q].done.value.at
  }

  ghost predicate Good(s: State) {
    && |s.rows| == |s.parents|
    && (forall p | 0 <= p < |s.refreshes| :: GoodRefresh(s, s.refreshes[p]))
    && OwnRows(s.refreshes) && Overlap(s.refreshes)
    && (forall j | 0 <= j < |s.parents| && s.parents[j].Some? :: exists p: nat :: Made(s, p, j))
  }

  /** A refresh that has committed has left its row revoked and a row that replaced it. */
  ghost predicate GoodRefresh(s: State, r: Refreshing)
    requires |s.rows| == |s.parents|
  {
    && r.row < |s.rows| && r.begun < s.time
    && (r.done.Some? ==>
          && r.done.value.at < s.time && r.done.value.row < |s.rows|
          && s.parents[r.done.value.row] == Some(r.row) && !Live(s.rows[r.row]))
  }

  /** Rows may be revoked or added, with no row replaced; the refreshes stay as they are. */
  lemma QuietGood(s: State, rows: seq<Token>, parents: seq<Option<nat>>)
    requires Good(s) && |rows| == |parents| && s.parents <= parents && Extends(s.rows, rows)
    requires forall j | |s.parents| <= j < |parents| :: parents[j].None?
    ensures Good(s.(rows := rows, parents := parents, time := s.time + 1))
  {
    var s' := s.(rows := rows, parents := parents, time := s.time + 1);
    forall p | 0 <= p < |s.refreshes| ensures GoodRefresh(s', s.refreshes[p]) {
      assert GoodRefresh(s, s.refreshes[p]);
    }
    forall j | 0 <= j < |parents| && parents[j].Some? ensures exists p: nat :: Made(s', p, j) {
      var p: nat :| Made(s, p, j);
      assert Made(s', p, j);
    }
  }

  lemma BegunGood(s: State, i: nat)
    requires Good(s) && i < |s.rows| && Live(s.rows[i])
    ensures Good(s.(refreshes := s.refreshes + [Refreshing(i, s.time, None)], time := s.time + 1))
  {
    var s' := s.(refreshes := s.refreshes + [Refreshing(i, s.time, None)], time := s.time + 1);
    forall p | 0 <= p < |s'.refreshes| ensures GoodRefresh(s', s'.refreshes[p]) {
      if p < |s.refreshes| {
        assert GoodRefresh(s, s.refreshes[p]);
      }
    }
    assert Overlap(s'.refreshes) by {
      forall q | 0 <= q < |s.refreshes| && s.refreshes[q].done.Some? ensures s.refreshes[q].row != i {
        assert GoodRefresh(s, s.refreshes[q]);
      }
      hide GoodRefresh;
    }
    forall j | 0 <= j < |s.parents| && s.parents[j].Some? ensures exists p: nat :: Made(s', p, j) {
      var p: nat :| Made(s, p, j);
      assert Made(s', p, j);
    }
  }

  lemma RotateGood(s: State, read: nat, minted: nat, now: int)
    requires Good(s) && read < |s.refreshes| && s.refreshes[read].done.None? && s.refreshes[read].row < |s.rows|
    ensures Good(Rotate(s, read, minted, now).(time := s.time + 1))
  {
    var s' := Rotate(s, read, minted, now).(time := s.time + 1);
    forall p | 0 <= p < |s'.refreshes| ensures GoodRefresh(s', s'.refreshes[p]) {
      assert GoodRefresh(s, s.refreshes[p]);
    }
    forall j | 0 <= j < |s'.parents| && s'.parents[j].Some? ensures exists p: nat :: Made(s', p, j) {
      if j < |s.parents| {
        var p: nat :| Made(s, p, j);
        assert Made(s', p, j);
      } else {
        assert Made(s', read, j);
      }
    }
  }

  lemma WholeKeeps(s: State, q: Request)
    requires |s.rows| == |s.parents| && !q.Refresh?
    ensures var rows, parents := Step(s.rows, q), StepParents(s.rows, s.parents, q);
      && |rows| == |parents| && s.parents <= parents && Extends(s.rows, rows)
      && forall j | |s.parents| <= j < |parents| :: parents[j].None?
  {
    StepExtends(s.rows, q);
    hide Find;
  }

  lemma NextGood(s: State, a: Action)
    requires Good(s)
    ensures Good(Next(s, a))
  {
    hide Good, Step, StepParents, Rotate, Find;
    assert |s.rows| == |s.parents| by { SameLength(s); }
    match a {
      case Whole(q) =>
        if q.Refresh? {
          QuietGood(s, s.rows, s.parents);
        } else {
          WholeKeeps(s, q);
          QuietGood(s, Step(s.rows, q), StepParents(s.rows, s.parents, q));
        }
      case LookUp(presented, now) =>
        var found := Find(s.rows, presented);
        if found.Some? && Live(s.rows[found.value]) && s.rows[found.value].expiresAt >= now {
          BegunGood(s, found.value);
        } else {
          QuietGood(s, BeginRefresh(s, presented, now).rows, s.parents);
        }
      case Commit(read, minted, now) =>
        if Move(s, a) == s {
          QuietGood(s, s.rows, s.parents);
        } else {
          RotateGood(s, read, minted, now);
        }
    }
  }

  lemma SameLength(s: State)
    requires Good(s)
    ensures |s.rows| == |s.parents|
  {
  }

  lemma {:induction false} AlwaysGood(actions: seq<Action>)
    ensures Good(RunRace(actions))
  {
    if actions != [] {
      hide Next, Good;
      AlwaysGood(Front(actions));
      NextGood(RunRace(Front(actions)), Last(actions));
    } else {
      assert RunRace(actions) == EMPTY;
    }
  }

  /** Two refreshes of row i have committed, and each had looked it up before the other committed. */
  ghost predicate Raced(s: State, i: nat, p: nat, q: nat) {
    && p < |s.refreshes| && q < |s.refreshes| && p != q && s.refreshes[p].row == s.refreshes[q].row == i
    && s.refreshes[p].done.Some? && s.refreshes[q].done.Some?
    && s.refreshes[p].begun < s.refreshes[q].done.value.at && s.refreshes[q].begun < s.refreshes[p].done.value.at
  }

  ghost predicate Twins(s: State, i: nat, j: nat, k: nat) {
    j < k < |s.parents| && s.parents[j] == s.parents[k] == Some(i)
  }

  /** A token gets two successors if and only if two refreshes both read it before either committed. */
  lemma TwoSuccessorsIffRaced(actions: seq<Action>, i: nat)
    ensures (exists j: nat, k: nat :: Twins(RunRace(actions), i, j, k)) <==> (exists p: nat, q: nat :: Raced(RunRace(actions), i, p, q))
  {
    AlwaysGood(actions);
    var s := RunRace(actions);
    hide RunRace;
    if j: nat, k: nat :| Twins(s, i, j, k) {
      var p: nat :| Made(s, p, j);
      var q: nat :| Made(s, q, k);
      assert GoodRefresh(s, s.refreshes[p]) && GoodRefresh(s, s.refreshes[q]);
      assert Raced(s, i, p, q);
    }
    if p: nat, q: nat :| Raced(s, i, p, q) {
      assert GoodRefresh(s, s.refreshes[p]) && GoodRefresh(s, s.refreshes[q]);
      var a, b := s.refreshes[p].done.value.row, s.refreshes[q].done.value.row;
      assert Twins(s, i, Min(a, b), Max(a, b));
    }
  }

  lemma RunThen(actions: seq<Action>, a: Action)
    ensures RunRace(actions + [a]) == Next(RunRace(actions), a)
  {
    assert Front(actions + [a]) == actions;
  }

  /** A token presented twice at once: a login, two look-ups, two commits, and two live successors. */
  lemma RaceHappens()
    ensures var s := RunRace([Whole(Grant(1, 10, 0))] + [LookUp(10, 1)] + [LookUp(10, 1)] + [Commit(0, 11, 2)] + [Commit(1, 12, 2)]);
      Twins(s, 0, 1, 2) && |s.rows| == 3 && Live(s.rows[1]) && Live(s.rows[2])
  {
    var a := [Whole(Grant(1, 10, 0))];
    assert [] + a == a && RunRace([]) == EMPTY;
    RunThen([], Whole(Grant(1, 10, 0)));
    RunThen(a, LookUp(10, 1));
    RunThen(a + [LookUp(10, 1)], LookUp(10, 1));
    RunThen(a + [LookUp(10, 1)] + [LookUp(10, 1)], Commit(0, 11, 2));
    RunThen(a + [LookUp(10, 1)] + [LookUp(10, 1)] + [Commit(0, 11, 2)], Commit(1, 12, 2));
    var t := Issue(1, 10, 0);
    var s1 := State([t], [None], [], 1);
    assert Next(EMPTY, Whole(Grant(1, 10, 0))) == s1;
    var read := Refreshing(0, 1, None);
    var s2 := State([t], [None], [read], 2);
    assert Next(s1, LookUp(10, 1)) == s2;
    var s3 := State([t], [None], [read, Refreshing(0, 2, None)], 3);
    assert Next(s2, LookUp(10, 1)) == s3;
    hide RunRace;
    BothCommit(s3, t, Refreshing(0, 2, None));
  }

  lemma BothCommit(s: State, t: Token, second: Refreshing)
    requires s == State([t], [None], [Refreshing(0, 1, None), second], 3)
    requires second == Refreshing(0, 2, None) && t.user == 1 && t.hash == 10
    ensures var s' := Next(Next(s, Commit(0, 11, 2)), Commit(1, 12, 2));
      Twins(s', 0, 1, 2) && |s'.rows| == 3 && Live(s'.rows[1]) && Live(s'.rows[2])
  {
    assert Find([t], 11).None?;
    var s4 := Next(s, Commit(0, 11, 2));
    assert s4.rows == [Revoke(t, 2), Issue(1, 11, 2)] && s4.refreshes[1] == second;
    FindNone(s4.rows[0], s4.rows[1], 12);
  }

  lemma FindNone(a: Token, b: Token, hash: nat)
    requires a.hash != hash && b.hash != hash
    ensures Find([a, b], hash).None?
  {
    assert Front([a, b]) == [a] && Front([a]) == [] && Find([], hash).None?;
  }
}
