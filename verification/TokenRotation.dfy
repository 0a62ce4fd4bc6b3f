/** Refresh tokens: register and login issue one, refresh replaces one by the next, logout and
    the presentation of a spent token revoke. Each request is one atomic step on the table. */
module TokenRotation {
  import opened Common

  const REFRESH_TTL := 2_592_000

  /** A row of refresh_tokens. Token hashes are unique in the table, and a hash stands for the
      raw token it was computed from. */
  datatype Token = Token(user: nat, hash: nat, createdAt: int, expiresAt: int, revokedAt: Option<int>)

  predicate Live(t: Token) { t.revokedAt.None? }

  function Issue(user: nat, hash: nat, now: int): Token {
    Token(user, hash, now, now + REFRESH_TTL, None)
  }

  // ---- the table operations ----

  /** SELECT by hash: the row that holds it, if any. */
  function Find(rows: seq<Token>, hash: nat): (r: Option<nat>)
    ensures r.Some? ==> r.value < |rows| && rows[r.value].hash == hash
    ensures r.None? ==> forall i | 0 <= i < |rows| :: rows[i].hash != hash
  {
    if rows == [] then None
    else if Last(rows).hash == hash then Some(|rows| - 1)
    else Find(Front(rows), hash)
  }

  function Revoke(t: Token, now: int): Token { t.(revokedAt := Some(now)) }

  /** The bulk update after a replay: only tokens of the user that are still live are stamped. */
  function RevokeAll(rows: seq<Token>, user: nat, now: int): (r: seq<Token>)
    ensures |r| == |rows|
    ensures forall i | 0 <= i < |rows| ::
              r[i] == if rows[i].user == user && Live(rows[i]) then Revoke(rows[i], now) else rows[i]
  {
    if rows == [] then []
    else
      var t := Last(rows);
      RevokeAll(Front(rows), user, now) + [if t.user == user && Live(t) then Revoke(t, now) else t]
  }

  // ---- requests ----

  /** `minted` is the hash of the token the server would generate for this request. Grant is a
      registration, or a login whose credentials were accepted. */
  datatype Request =
    | Grant(user: nat, minted: nat, now: int)
    | Refresh(presented: nat, minted: nat, now: int)
    | Logout(presented: nat, now: int)

  datatype Reply =
    | Granted(row: nat)
    | Rotated(spent: nat, row: nat)
    | Replayed(row: nat)
    | Expired
    | Unknown
    | Collision   // the unique constraint on token_hash rejects the commit
    | LoggedOut

  function ReplyTo(rows: seq<Token>, q: Request): Reply {
    match q
    case Grant(_, minted, _) => if Find(rows, minted).Some? then Collision else Granted(|rows|)
    case Logout(_, _) => LoggedOut
    case Refresh(presented, minted, now) =>
      match Find(rows, presented)
      case None => Unknown
      case Some(i) =>
        if !Live(rows[i]) then Replayed(i)
        else if rows[i].expiresAt < now then Expired
        else if Find(rows, minted).Some? then Collision
        else Rotated(i, |rows|)
  }

  function Step(rows: seq<Token>, q: Request): seq<Token> {
    match (q, ReplyTo(rows, q))
    case (Grant(user, minted, now), Granted(_)) => rows + [Issue(user, minted, now)]
    case (Refresh(_, minted, now), Rotated(i, _)) =>
      rows[i := Revoke(rows[i], now)] + [Issue(rows[i].user, minted, now)]
    case (Refresh(_, _, now), Replayed(i)) => RevokeAll(rows, rows[i].user, now)
    case (Logout(presented, now), _) =>
      var found := Find(rows, presented);
      if found.None? then rows else rows[found.value := Revoke(rows[found.value], now)]
    case _ => rows
  }

  function Run(rows: seq<Token>, qs: seq<Request>): seq<Token> {
    if qs == [] then rows else Step(Run(rows, Front(qs)), Last(qs))
  }

  /** History: parents[i] is the row that row i replaced, None for a login or registration. It is
      not stored; it is what the replies of the run say. */
  function StepParents(rows: seq<Token>, parents: seq<Option<nat>>, q: Request): seq<Option<nat>> {
    match ReplyTo(rows, q)
    case Granted(_) => parents + [None]
    case Rotated(i, _) => parents + [Some(i)]
    case _ => parents
  }

  function Parents(qs: seq<Request>): seq<Option<nat>> {
    if qs == [] then [] else StepParents(Run([], Front(qs)), Parents(Front(qs)), Last(qs))
  }

  // ---- chains ----

  /** The first token of the chain that row i belongs to. */
  function Root(parents: seq<Option<nat>>, i: nat): (r: nat)
    requires i < |parents|
    ensures r <= i
  {
    if parents[i].Some? && parents[i].value < i then Root(parents, parents[i].value) else i
  }

  lemma {:induction false} RootOfPrefix(parents: seq<Option<nat>>, p: Option<nat>, i: nat)
    requires i < |parents|
    ensures Root(parents + [p], i) == Root(parents, i) <= i
  {
    if parents[i].Some? && parents[i].value < i {
      RootOfPrefix(parents, p, parents[i].value);
    }
  }

  /** What holds of the table and its history in every reachable state. */
  ghost predicate Chains(rows: seq<Token>, parents: seq<Option<nat>>) {
    && |rows| == |parents|
    && UniqueHashes(rows)
    && (forall i | 0 <= i < |rows| && parents[i].Some? :: Succeeds(rows, parents, i, parents[i].value))
    && OneSuccessor(parents)
    && NewestLive(rows, parents)
  }

  ghost predicate UniqueHashes(rows: seq<Token>) {
    forall i, j | 0 <= i < j < |rows| :: rows[i].hash != rows[j].hash
  }

  /** A replaced token is older than its successor, of the same user, and revoked. */
  ghost predicate Succeeds(rows: seq<Token>, parents: seq<Option<nat>>, i: nat, p: nat)
    requires i < |rows| == |parents|
  {
    p < i && rows[p].user == rows[i].user && !Live(rows[p])
  }

  ghost predicate OneSuccessor(parents: seq<Option<nat>>) {
    forall i, j | 0 <= i < j < |parents| && parents[i].Some? :: parents[i] != parents[j]
  }

  /** In a chain only the newest token can be live. */
  ghost predicate NewestLive(rows: seq<Token>, parents: seq<Option<nat>>)
    requires |rows| == |parents|
  {
    forall i, j | 0 <= i < j < |rows| && Root(parents, i) == Root(parents, j) :: !Live(rows[i])
  }

  /** A step that appends nothing and revives nothing keeps the chains. */
  lemma RevokingKeepsChains(rows: seq<Token>, rows': seq<Token>, parents: seq<Option<nat>>)
    requires Chains(rows, parents) && |rows'| == |rows|
    requires forall i | 0 <= i < |rows| ::
               rows'[i].user == rows[i].user && rows'[i].hash == rows[i].hash && (Live(rows'[i]) ==> Live(rows[i]))
    ensures Chains(rows', parents)
  {
  }

  lemma AppendKeepsRoots(rows: seq<Token>, parents: seq<Option<nat>>, p: Option<nat>)
    requires Chains(rows, parents)
    ensures forall i | 0 <= i < |rows| :: Root(parents + [p], i) == Root(parents, i) <= i
  {
    forall i | 0 <= i < |rows| ensures Root(parents + [p], i) == Root(parents, i) <= i {
      RootOfPrefix(parents, p, i);
    }
  }

  lemma GrantKeepsChains(rows: seq<Token>, parents: seq<Option<nat>>, t: Token)
    requires Chains(rows, parents) && Find(rows, t.hash).None?
    ensures Chains(rows + [t], parents + [None])
  {
    AppendKeepsRoots(rows, parents, None);
  }

  lemma RotateKeepsChains(rows: seq<Token>, parents: seq<Option<nat>>, i: nat, t: Token)
    requires Chains(rows, parents) && Find(rows, t.hash).None?
    requires i < |rows| && !Live(rows[i]) && t.user == rows[i].user
    requires forall j | 0 <= j < |rows| :: parents[j] != Some(i)
    requires forall j | i < j < |rows| :: Root(parents, j) != Root(parents, i)
    ensures Chains(rows + [t], parents + [Some(i)])
  {
    AppendKeepsRoots(rows, parents, Some(i));
    var parents', rows' := parents + [Some(i)], rows + [t];
    assert Root(parents', |rows|) == Root(parents', i) == Root(parents, i);
    forall a, b | 0 <= a < b < |rows'| && Root(parents', a) == Root(parents', b) ensures !Live(rows'[a]) {
      if b == |rows| && a < i {
        assert Root(parents, a) == Root(parents, i);
      }
    }
  }

  lemma StepKeepsChains(rows: seq<Token>, parents: seq<Option<nat>>, q: Request)
    requires Chains(rows, parents)
    ensures Chains(Step(rows, q), StepParents(rows, parents, q))
  {
    match (q, ReplyTo(rows, q)) {
      case (Grant(user, minted, now), Granted(_)) =>
        GrantKeepsChains(rows, parents, Issue(user, minted, now));
      case (Refresh(_, minted, now), Rotated(i, _)) =>
        var revoked := rows[i := Revoke(rows[i], now)];
        RevokingKeepsChains(rows, revoked, parents);
        forall j | 0 <= j < |rows| ensures parents[j] != Some(i) {
          assert parents[j].Some? ==> Succeeds(rows, parents, j, parents[j].value);
        }
        RotateKeepsChains(revoked, parents, i, Issue(rows[i].user, minted, now));
      case _ =>
        RevokingKeepsChains(rows, Step(rows, q), parents);
    }
  }

  lemma {:induction false} AlwaysChains(qs: seq<Request>)
    ensures Chains(Run([], qs), Parents(qs))
  {
    if qs != [] {
      AlwaysChains(Front(qs));
      StepKeepsChains(Run([], Front(qs)), Parents(Front(qs)), Last(qs));
    }
  }

  /** Over every run: a token has at most one successor, a token with a successor is revoked, and
      in each chain the only token that can be live is the newest. */
  lemma RotationChains(qs: seq<Request>)
    ensures var rows, parents := Run([], qs), Parents(qs);
      && |rows| == |parents|
      && (forall i, j | 0 <= i < j < |rows| && parents[i].Some? :: parents[i] != parents[j])
      && (forall i | 0 <= i < |rows| && parents[i].Some? ::
            parents[i].value < i && !Live(rows[parents[i].value])
            && rows[parents[i].value].user == rows[i].user)
      && (forall i, j | 0 <= i < j < |rows| && Root(parents, i) == Root(parents, j) :: !Live(rows[i]))
  {
    AlwaysChains(qs);
    var rows, parents := Run([], qs), Parents(qs);
    forall i | 0 <= i < |rows| && parents[i].Some?
      ensures parents[i].value < i && !Live(rows[parents[i].value])
      ensures rows[parents[i].value].user == rows[i].user
    {
      assert Succeeds(rows, parents, i, parents[i].value);
    }
  }

  // ---- a token refreshes at most once ----

  lemma {:induction false} RunSplit(rows: seq<Token>, first: seq<Request>, next: seq<Request>)
    ensures Run(rows, first + next) == Run(Run(rows, first), next)
  {
    hide Step;
    if next == [] {
      assert first + next == first;
    } else {
      RunSplit(rows, first, Front(next));
      assert Front(first + next) == first + Front(next);
    }
  }

  /** Rows are never removed, keep their user and hash, and are never revived. */
  ghost predicate Extends(rows: seq<Token>, later: seq<Token>) {
    && |rows| <= |later|
    && forall i | 0 <= i < |rows| ::
         && later[i].user == rows[i].user && later[i].hash == rows[i].hash
         && (Live(later[i]) ==> Live(rows[i]))
  }

  lemma StepExtends(rows: seq<Token>, q: Request)
    ensures Extends(rows, Step(rows, q))
  {
  }

  lemma {:induction false} RunExtends(rows: seq<Token>, qs: seq<Request>)
    ensures Extends(rows, Run(rows, qs))
  {
    if qs != [] {
      RunExtends(rows, Front(qs));
      StepExtends(Run(rows, Front(qs)), Last(qs));
    }
  }

  function ReplyAt(qs: seq<Request>, k: nat): Reply
    requires k < |qs|
  {
    ReplyTo(Run([], qs[..k]), qs[k])
  }

  /** No token is exchanged for a successor twice, whatever happens in between. */
  lemma RefreshesOnce(qs: seq<Request>, a: nat, b: nat)
    requires a < b < |qs| && qs[a].Refresh? && qs[b].Refresh?
    requires qs[a].presented == qs[b].presented
    requires ReplyAt(qs, a).Rotated?
    ensures !ReplyAt(qs, b).Rotated?
  {
    var before, after := Run([], qs[..a]), Run([], qs[..a + 1]);
    var i := ReplyAt(qs, a).spent;
    assert Front(qs[..a + 1]) == qs[..a] && Last(qs[..a + 1]) == qs[a];
    assert after == Step(before, qs[a]);
    assert !Live(after[i]) && after[i].hash == qs[a].presented;
    assert qs[..b] == qs[..a + 1] + qs[a + 1..b];
    RunSplit([], qs[..a + 1], qs[a + 1..b]);
    RunExtends(after, qs[a + 1..b]);
    AlwaysChains(qs[..b]);
    assert UniqueHashes(Run([], qs[..b]));
  }

  /** A token given to logout is never exchanged afterwards. */
  lemma LogoutIsFinal(qs: seq<Request>, a: nat, b: nat)
    requires a < b < |qs| && qs[a].Logout? && qs[b].Refresh?
    requires qs[a].presented == qs[b].presented && Find(Run([], qs[..a]), qs[a].presented).Some?
    ensures !ReplyAt(qs, b).Rotated?
  {
    var before, after := Run([], qs[..a]), Run([], qs[..a + 1]);
    var i := Find(before, qs[a].presented).value;
    assert Front(qs[..a + 1]) == qs[..a] && Last(qs[..a + 1]) == qs[a];
    assert after == Step(before, qs[a]);
    assert !Live(after[i]) && after[i].hash == qs[a].presented;
    assert qs[..b] == qs[..a + 1] + qs[a + 1..b];
    RunSplit([], qs[..a + 1], qs[a + 1..b]);
    RunExtends(after, qs[a + 1..b]);
    AlwaysChains(qs[..b]);
    assert UniqueHashes(Run([], qs[..b]));
  }

  lemma StepKeepsLifetimes(rows: seq<Token>, q: Request)
    requires forall i | 0 <= i < |rows| :: rows[i].expiresAt == rows[i].createdAt + REFRESH_TTL
    ensures forall i | 0 <= i < |Step(rows, q)| ::
              Step(rows, q)[i].expiresAt == Step(rows, q)[i].createdAt + REFRESH_TTL
  {
  }

  /** A token is exchanged at most 2,592,000 seconds after it was issued. */
  lemma {:induction false} TokensLastThirtyDays(qs: seq<Request>, q: Request)
    ensures forall i | 0 <= i < |Run([], qs)| :: Run([], qs)[i].expiresAt == Run([], qs)[i].createdAt + REFRESH_TTL
    ensures q.Refresh? && ReplyTo(Run([], qs), q).Rotated? ==>
              q.now <= Run([], qs)[ReplyTo(Run([], qs), q).spent].createdAt + 2_592_000
  {
    if qs != [] {
      hide Step, ReplyTo;
      TokensLastThirtyDays(Front(qs), q);
      StepKeepsLifetimes(Run([], Front(qs)), Last(qs));
    }
    RotatedInTime(Run([], qs), q);
  }

  lemma RotatedInTime(rows: seq<Token>, q: Request)
    ensures q.Refresh? && ReplyTo(rows, q).Rotated? ==>
              ReplyTo(rows, q).spent < |rows| && q.now <= rows[ReplyTo(rows, q).spent].expiresAt
  {
  }

  /** Exactly which refreshes succeed: the token is stored, live and not past its expiry, and the
      generated hash is new. */
  lemma RefreshSucceeds(qs: seq<Request>, q: Request)
    requires q.Refresh?
    ensures var rows := Run([], qs);
      ReplyTo(rows, q).Rotated? <==>
        && (exists i | 0 <= i < |rows| ::
              rows[i].hash == q.presented && Live(rows[i]) && q.now <= rows[i].expiresAt)
        && (forall i | 0 <= i < |rows| :: rows[i].hash != q.minted)
  {
    AlwaysChains(qs);
    hide Run;
  }

  // ---- live tokens against logins ----

  function Grants(qs: seq<Request>, user: nat): nat {
    if qs == [] then 0
    else
      var last := Last(qs);
      Grants(Front(qs), user)
      + (if ReplyTo(Run([], Front(qs)), last).Granted? && last.user == user then 1 else 0)
  }

  function LiveOf(rows: seq<Token>, user: nat): set<nat> {
    set i: nat | i < |rows| && rows[i].user == user && Live(rows[i])
  }

  function RootsOf(rows: seq<Token>, parents: seq<Option<nat>>, user: nat): set<nat>
    requires |rows| == |parents|
  {
    set i: nat | i < |rows| && rows[i].user == user && parents[i].None?
  }

  lemma {:induction false} RootIsRoot(rows: seq<Token>, parents: seq<Option<nat>>, i: nat)
    requires Chains(rows, parents) && i < |rows|
    ensures Root(parents, i) <= i && parents[Root(parents, i)].None?
    ensures rows[Root(parents, i)].user == rows[i].user
  {
    if parents[i].Some? {
      assert Succeeds(rows, parents, i, parents[i].value);
      RootIsRoot(rows, parents, parents[i].value);
    }
  }

  lemma StepRoots(rows: seq<Token>, parents: seq<Option<nat>>, q: Request, user: nat)
    requires |rows| == |parents| && |Step(rows, q)| == |StepParents(rows, parents, q)|
    ensures RootsOf(Step(rows, q), StepParents(rows, parents, q), user)
         == RootsOf(rows, parents, user)
            + (if ReplyTo(rows, q).Granted? && q.user == user then {|rows|} else {})
  {
  }

  lemma {:induction false} RootsAreGrants(qs: seq<Request>, user: nat)
    ensures |Parents(qs)| == |Run([], qs)|
    ensures |RootsOf(Run([], qs), Parents(qs), user)| == Grants(qs, user)
  {
    AlwaysChains(qs);
    if qs != [] {
      RootsAreGrants(Front(qs), user);
      var rows, parents, last := Run([], Front(qs)), Parents(Front(qs)), Last(qs);
      assert Run([], qs) == Step(rows, last) && Parents(qs) == StepParents(rows, parents, last);
      StepRoots(rows, parents, last, user);
    }
  }

  /** A user never has more live tokens than successful logins and registrations. */
  lemma LiveTokensBounded(qs: seq<Request>, user: nat)
    ensures |LiveOf(Run([], qs), user)| <= Grants(qs, user)
  {
    var rows, parents := Run([], qs), Parents(qs);
    AlwaysChains(qs);
    forall i | i in LiveOf(rows, user) ensures Root(parents, i) in RootsOf(rows, parents, user) {
      RootIsRoot(rows, parents, i);
    }
    var roots := map i | i in LiveOf(rows, user) :: Root(parents, i);
    assert roots.Keys == LiveOf(rows, user);
    InjectionSize(roots, RootsOf(rows, parents, user));
    RootsAreGrants(qs, user);
  }

  // ---- a replay ends every session of the user ----

  /** Tokens of the user on chains begun before row n are all revoked. */
  ghost predicate OldChainsDead(rows: seq<Token>, parents: seq<Option<nat>>, user: nat, n: nat)
    requires |rows| == |parents|
  {
    forall i | 0 <= i < |rows| && rows[i].user == user && Root(parents, i) < n :: !Live(rows[i])
  }

  lemma AppendKeepsOldDead(
    rows: seq<Token>, parents: seq<Option<nat>>, t: Token, p: Option<nat>, user: nat, n: nat)
    requires Chains(rows, parents) && OldChainsDead(rows, parents, user, n) && n <= |rows|
    requires p.Some? ==> p.value < |rows| && (t.user == user ==> Root(parents, p.value) >= n)
    ensures OldChainsDead(rows + [t], parents + [p], user, n)
  {
    hide NewestLive, OneSuccessor, UniqueHashes, Succeeds;
    AppendKeepsRoots(rows, parents, p);
    var parents' := parents + [p];
    assert parents'[|rows|] == p;
    assert Root(parents', |rows|) == if p.Some? then Root(parents', p.value) else |rows|;
  }

  lemma StepKeepsOldDead(rows: seq<Token>, parents: seq<Option<nat>>, q: Request, user: nat, n: nat)
    requires Chains(rows, parents) && OldChainsDead(rows, parents, user, n) && n <= |rows|
    ensures Chains(Step(rows, q), StepParents(rows, parents, q))
    ensures OldChainsDead(Step(rows, q), StepParents(rows, parents, q), user, n)
  {
    StepKeepsChains(rows, parents, q);
    match (q, ReplyTo(rows, q)) {
      case (Grant(u, minted, now), Granted(_)) =>
        AppendKeepsOldDead(rows, parents, Issue(u, minted, now), None, user, n);
      case (Refresh(_, minted, now), Rotated(i, _)) =>
        var revoked := rows[i := Revoke(rows[i], now)];
        RevokingKeepsChains(rows, revoked, parents);
        AppendKeepsOldDead(revoked, parents, Issue(rows[i].user, minted, now), Some(i), user, n);
      case _ =>
    }
  }

  /** The state a replay leaves: the user has no live token and nobody else is affected. */
  lemma ReplayRevokesAll(qs: seq<Request>, q: Request)
    requires ReplyTo(Run([], qs), q).Replayed?
    ensures var rows := Run([], qs);
      var later := Step(rows, q);
      var user := rows[ReplyTo(rows, q).row].user;
      && LiveOf(later, user) == {}
      && |later| == |rows|
      && (forall i | 0 <= i < |rows| && rows[i].user != user :: later[i] == rows[i])
  {
  }

  lemma {:induction false} OldDeadForever(qs: seq<Request>, more: seq<Request>, user: nat, n: nat)
    requires |Run([], qs)| == |Parents(qs)|
    requires OldChainsDead(Run([], qs), Parents(qs), user, n) && n <= |Run([], qs)|
    ensures |Run([], qs + more)| == |Parents(qs + more)|
    ensures OldChainsDead(Run([], qs + more), Parents(qs + more), user, n)
    ensures n <= |Run([], qs + more)|
  {
    hide Step, StepParents, OldChainsDead;
    AlwaysChains(qs + more);
    if more == [] {
      assert qs + more == qs;
    } else {
      OldDeadForever(qs, Front(more), user, n);
      assert Front(qs + more) == qs + Front(more) && Last(qs + more) == Last(more);
      AlwaysChains(qs + Front(more));
      var rows, parents := Run([], qs + Front(more)), Parents(qs + Front(more));
      StepKeepsOldDead(rows, parents, Last(more), user, n);
      StepExtends(rows, Last(more));
    }
  }

  /** After a replay, whatever else happens, the user can refresh only with a token whose chain
      was rooted at a login or registration later than the replay. */
  lemma ReplayEndsOldSessions(qs: seq<Request>, replay: Request, more: seq<Request>, next: Request)
    requires ReplyTo(Run([], qs), replay).Replayed?
    requires next.Refresh? && ReplyTo(Run([], qs + [replay] + more), next).Rotated?
    ensures var rows, later := Run([], qs), Run([], qs + [replay] + more);
      var parents, i := Parents(qs + [replay] + more), ReplyTo(later, next).spent;
      && |parents| == |later|
      && (later[i].user == rows[ReplyTo(rows, replay).row].user ==>
            Root(parents, i) >= |rows| && parents[Root(parents, i)].None?)
  {
    var rows, done := Run([], qs), qs + [replay];
    var user := rows[ReplyTo(rows, replay).row].user;
    ReplayRevokesAll(qs, replay);
    AlwaysChains(done);
    assert Front(done) == qs;
    forall i | 0 <= i < |Run([], done)| && Run([], done)[i].user == user ensures !Live(Run([], done)[i]) {
      assert i !in LiveOf(Run([], done), user);
    }
    OldDeadForever(done, more, user, |rows|);
    AlwaysChains(done + more);
    RootIsRoot(Run([], done + more), Parents(done + more), ReplyTo(Run([], done + more), next).spent);
  }
}
