/** The authentication endpoints as methods that update the user table, the refresh-token table
    and the login counters in place. Each call is one request, run without interleaving. */
module Auth {
  import opened Common
  import Tokens = TokenRotation
  import Throttle = LoginThrottle

  /** Accounts are looked up by lower-cased e-mail; an account may have no password. */
  datatype Account = Account(id: nat, password: Option<nat>, deleted: bool)

  datatype Outcome =
    | TokenIssued(user: nat, token: nat)
    | EmailTaken
    | RateLimited
    | InvalidCredentials
    | AccountDisabled
    | Unauthenticated
    | ConstraintViolation   // the commit fails on a unique column and is rolled back
    | Done

  class AuthService {
    var users: map<string, Account>
    var tokens: seq<Tokens.Token>
    var fails: Throttle.Counters

    constructor ()
      ensures users == map[] && tokens == [] && fails == map[]
    {
      users, tokens, fails := map[], [], map[];
    }

    /** `id` and `minted` are the identifier and the token the server generates. */
    method Register(email: string, password: nat, id: nat, minted: nat, now: int) returns (r: Outcome)
      modifies this
      ensures fails == old(fails)
      ensures r == if email in old(users) then EmailTaken
                   else if (exists e | e in old(users) :: old(users)[e].id == id)
                        || (exists i | 0 <= i < |old(tokens)| :: old(tokens)[i].hash == minted) then ConstraintViolation
                   else TokenIssued(id, minted)
      ensures if r.TokenIssued? then
                && users == old(users)[email := Account(id, Some(password), false)]
                && tokens == Tokens.Step(old(tokens), Tokens.Grant(id, minted, now))
                && tokens == old(tokens) + [Tokens.Token(id, minted, now, now + 2_592_000, None)]
              else users == old(users) && tokens == old(tokens)
    {
      if email in users {
        return EmailTaken;
      }
      if IdTaken(users, id) || Tokens.Find(tokens, minted).Some? {
        return ConstraintViolation;
      }
      users := users[email := Account(id, Some(password), false)];
      tokens := tokens + [Tokens.Issue(id, minted, now)];
      return TokenIssued(id, minted);
    }

    /** The counter is checked before anything else and cleared before the token is stored. Only the
        right password of an account that is there gets a token; every other answer has its reason. */
    method Login(email: string, password: nat, minted: nat, now: int) returns (r: Outcome)
      modifies this
      ensures users == old(users)
      ensures var attempt := Throttle.Attempt(email, Verdict(old(users), email, password), now);
        && fails == Throttle.Step(old(fails), attempt)
        && match Throttle.ReplyTo(old(fails), attempt)
           case RateLimited => r == RateLimited && tokens == old(tokens)
           case InvalidCredentials => r == InvalidCredentials && tokens == old(tokens)
           case AccountDisabled => r == AccountDisabled && tokens == old(tokens)
           case LoggedIn =>
             var grant := Tokens.Grant(old(users)[email].id, minted, now);
             && tokens == Tokens.Step(old(tokens), grant)
             && (if Tokens.ReplyTo(old(tokens), grant).Granted? then r == TokenIssued(grant.user, minted)
                 else r == ConstraintViolation)
      ensures r.TokenIssued? ==>
                && email in old(users) && old(users)[email] == Account(r.user, Some(password), false) && r.token == minted
                && tokens == old(tokens) + [Tokens.Token(r.user, minted, now, now + 2_592_000, None)]
                && fails == old(fails) - {email}
      ensures var blocked := email in old(fails) && now <= old(fails)[email].expires && old(fails)[email].count >= 5;
        var found := email in old(users) && old(users)[email].password.Some?;
        && (r == RateLimited <==> blocked)
        && (r == InvalidCredentials <==>
              !blocked && (!found || (!old(users)[email].deleted && old(users)[email].password != Some(password))))
        && (r == AccountDisabled <==> !blocked && found && old(users)[email].deleted)
        && (r == InvalidCredentials ==>
              var failures := if email in old(fails) && now <= old(fails)[email].expires then old(fails)[email].count else 0;
              fails == old(fails)[email := Throttle.Counter(failures + 1, now + 900)])
        && (r == RateLimited || r == AccountDisabled ==> fails == old(fails))
        && (!r.TokenIssued? ==> tokens == old(tokens))
    {
      if Throttle.Blocked(fails, email, now) {
        return RateLimited;
      }
      if email !in users || users[email].password.None? {
        fails := Throttle.Increment(fails, email, now);
        return InvalidCredentials;
      }
      var user := users[email];
      if user.deleted {
        return AccountDisabled;
      }
      if user.password.value != password {
        fails := Throttle.Increment(fails, email, now);
        return InvalidCredentials;
      }
      fails := Throttle.Clear(fails, email);
      if Tokens.Find(tokens, minted).Some? {
        return ConstraintViolation;
      }
      tokens := tokens + [Tokens.Issue(user.id, minted, now)];
      return TokenIssued(user.id, minted);
    }

    method Refresh(cookie: Option<nat>, minted: nat, now: int) returns (r: Outcome)
      modifies this
      ensures users == old(users) && fails == old(fails)
      ensures match cookie
        case None => r == Unauthenticated && tokens == old(tokens)
        case Some(presented) =>
          var q := Tokens.Refresh(presented, minted, now);
          && tokens == Tokens.Step(old(tokens), q)
          && match Tokens.ReplyTo(old(tokens), q)
             case Rotated(i, _) => r == TokenIssued(old(tokens)[i].user, minted)
             case Collision => r == ConstraintViolation
             case _ => r == Unauthenticated
      ensures r.TokenIssued? ==> exists i | 0 <= i < |old(tokens)| ::
                && cookie == Some(old(tokens)[i].hash) && old(tokens)[i].revokedAt.None? && now <= old(tokens)[i].expiresAt
                && r == TokenIssued(old(tokens)[i].user, minted)
                && tokens == old(tokens)[i := old(tokens)[i].(revokedAt := Some(now))]
                             + [Tokens.Token(r.user, minted, now, now + 2_592_000, None)]
      ensures r.TokenIssued? || tokens == old(tokens) || exists i | 0 <= i < |old(tokens)| ::
                cookie == Some(old(tokens)[i].hash) && old(tokens)[i].revokedAt.Some?
      ensures Tokens.UniqueHashes(old(tokens)) ==>
                forall k | 0 <= k < |old(tokens)| && cookie == Some(old(tokens)[k].hash) && old(tokens)[k].revokedAt.Some? ::
                  && r == Unauthenticated && |tokens| == |old(tokens)|
                  && forall i | 0 <= i < |tokens| ::
                       tokens[i] == if old(tokens)[i].user == old(tokens)[k].user && old(tokens)[i].revokedAt.None?
                                    then old(tokens)[i].(revokedAt := Some(now)) else old(tokens)[i]
    {
      if cookie.None? {
        return Unauthenticated;
      }
      var found := Tokens.Find(tokens, cookie.value);
      if found.None? {
        return Unauthenticated;
      }
      var i := found.value;
      var stored := tokens[i];
      if stored.revokedAt.Some? {
        tokens := Tokens.RevokeAll(tokens, stored.user, now);
        return Unauthenticated;
      }
      if stored.expiresAt < now {
        return Unauthenticated;
      }
      if Tokens.Find(tokens, minted).Some? {
        return ConstraintViolation;
      }
      tokens := tokens[i := Tokens.Revoke(stored, now)];
      tokens := tokens + [Tokens.Issue(stored.user, minted, now)];
      return TokenIssued(stored.user, minted);
    }

    method Logout(cookie: Option<nat>, now: int) returns (r: Outcome)
      modifies this
      ensures users == old(users) && fails == old(fails) && r == Done
      ensures tokens == if cookie.None? then old(tokens)
                        else Tokens.Step(old(tokens), Tokens.Logout(cookie.value, now))
      ensures |tokens| == |old(tokens)|
      ensures forall i | 0 <= i < |tokens| :: tokens[i] == old(tokens)[i]
                || (cookie == Some(old(tokens)[i].hash) && tokens[i] == old(tokens)[i].(revokedAt := Some(now)))
      ensures cookie.Some? && (exists i | 0 <= i < |tokens| :: tokens[i].hash == cookie.value) ==>
                exists i | 0 <= i < |tokens| :: tokens[i].hash == cookie.value && tokens[i].revokedAt == Some(now)
    {
      if cookie.Some? {
        var found := Tokens.Find(tokens, cookie.value);
        if found.Some? {
          tokens := tokens[found.value := Tokens.Revoke(tokens[found.value], now)];
        }
      }
      return Done;
    }
  }

  predicate IdTaken(users: map<string, Account>, id: nat) {
    exists email | email in users :: users[email].id == id
  }

  /** The checks a login makes once the counter lets it through, in their order. */
  function Verdict(users: map<string, Account>, email: string, password: nat): Throttle.Verdict {
    if email !in users || users[email].password.None? then Throttle.NoAccount
    else if users[email].deleted then Throttle.Disabled
    else if users[email].password.value != password then Throttle.WrongPassword
    else Throttle.Correct
  }
}
