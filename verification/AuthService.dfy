/**
 The service methods as written, updating customer and token rows in place, each proved against its
 specification. A transaction that throws puts the rows back; an audit insert that throws does not.
 */
module AuthService {
  import opened Prelude
  import opened TokenMachine
  import opened AuthSpecification

  class Database {
    var customers: map<CustomerId, Customer>
    var tokens: seq<Token>

    constructor (customers: map<CustomerId, Customer>)
      ensures View() == AuthState(customers, [])
    {
      this.customers, tokens := customers, [];
    }

    function View(): AuthState
      reads this
    {
      AuthState(customers, tokens)
    }

    /** The UPDATE of a wrong password, with RETURNING lock_until. */
    method CountFailure(cfg: L.Settings, id: CustomerId, now: Millis) returns (lockUntil: Option<Millis>)
      requires id in customers
      modifies this`customers
      ensures customers == old(customers)[id := old(customers)[id].(lock := L.Fail(cfg, old(customers)[id].lock, now))]
      ensures lockUntil.Some? <==> old(customers)[id].lock.failed + 1 >= cfg.threshold
    {
      var lock := customers[id].lock;
      lockUntil := if lock.failed + 1 >= cfg.threshold then Some(now + cfg.durationMs) else None;
      customers := customers[id := customers[id].(lock := L.Lock(lock.failed + 1, lockUntil))];
    }

    /** updateMany over the unrevoked tokens of a customer. */
    method RevokeTokens(customer: CustomerId, at: Millis)
      modifies this`tokens
      ensures tokens == RevokeAll(old(tokens), customer, at)
    {
      for i := 0 to |tokens|
        invariant |tokens| == |old(tokens)|
        invariant forall j :: 0 <= j < i ==> tokens[j] == RevokeAll(old(tokens), customer, at)[j]
        invariant forall j :: i <= j < |tokens| ==> tokens[j] == old(tokens)[j]
      {
        if tokens[i].revokedAt.None? && tokens[i].customer == customer {
          tokens := tokens[i := tokens[i].(revokedAt := Some(at))];
        }
      }
    }

    method CreateToken(customer: CustomerId, expiresAt: Millis) returns (id: nat)
      modifies this`tokens
      ensures id == |old(tokens)| && tokens == old(tokens) + [Token(customer, expiresAt, None, None)]
    {
      id := |tokens|;
      tokens := tokens + [Token(customer, expiresAt, None, None)];
    }

    /** The guarded updateMany of a rotation; `count` is how many rows matched. */
    method RotateIfUsable(i: nat, replacement: nat, at: Millis) returns (count: nat)
      requires i < |tokens|
      modifies this`tokens
      ensures count == if Rotatable(old(tokens), i, at) then 1 else 0
      ensures tokens == if count == 0 then old(tokens)
                        else old(tokens)[i := old(tokens)[i].(revokedAt := Some(at), replacedBy := Some(replacement))]
    {
      if tokens[i].revokedAt.None? && tokens[i].replacedBy.None? && tokens[i].expiresAt > at {
        tokens := tokens[i := tokens[i].(revokedAt := Some(at), replacedBy := Some(replacement))];
        return 1;
      }
      count := 0;
    }
  }

  /** recordSuccess and recordFailure, awaited after the write they tell of. */
  method Audit(trouble: Trouble) returns (r: Result<(), AuthError>)
    ensures r == if trouble == AuditFails then Err(TechnicalError) else Ok(())
  {
    if trouble == AuditFails {
      return Err(TechnicalError);
    }
    r := Ok(());
  }

  class AuthService {
    const db: Database
    const cfg: Config

    constructor (db: Database, cfg: Config)
      ensures this.db == db && this.cfg == cfg
    {
      this.db, this.cfg := db, cfg;
    }

    method Login(id: CustomerId, password: string, checkedAt: Millis, settledAt: Millis, trouble: Trouble)
      returns (r: Result<nat, AuthError>)
      modifies db
      ensures (r, db.View()) == LogIn(cfg, old(db.View()), id, password, checkedAt, settledAt, trouble)
    {
      if id !in db.customers {
        return Err(InvalidCredentials);
      }
      var customer := db.customers[id];
      if customer.lock.lockUntil.Some? && customer.lock.lockUntil.value > checkedAt {
        return Err(AccountLocked);
      }
      if trouble == CounterFails {
        return Err(TechnicalError);
      }
      if password != customer.password {
        var _ := db.CountFailure(cfg.lock, id, settledAt);
        var _ :- Audit(trouble);
        return Err(InvalidCredentials);
      }
      db.customers := db.customers[id := customer.(lock := L.Lock(0, None))];
      if trouble == TokensFail {
        return Err(TechnicalError);
      }
      db.RevokeTokens(id, settledAt);
      var token := db.CreateToken(id, settledAt + cfg.refreshTtlMs);
      var _ :- Audit(trouble);
      r := Ok(token);
    }

    method Refresh(cookie: Option<nat>, startedAt: Millis, guardAt: Millis, trouble: Trouble)
      returns (r: Result<nat, AuthError>)
      modifies db`tokens
      ensures (r, db.View()) == RefreshToken(cfg, old(db.View()), cookie, startedAt, guardAt, trouble)
    {
      if cookie.None? || cookie.value >= |db.tokens| {
        return Err(InvalidRefreshToken);
      }
      var i := cookie.value;
      var before := db.tokens;
      var token := db.CreateToken(db.tokens[i].customer, startedAt + cfg.refreshTtlMs);
      if trouble == TokensFail {
        db.tokens := before;
        return Err(TechnicalError);
      }
      assert db.tokens[i] == before[i];
      var count := db.RotateIfUsable(i, token, guardAt);
      if count != 1 {
        db.tokens := before;
        return Err(InvalidRefreshToken);
      }
      assert db.tokens == Rotate(before, i, guardAt, startedAt + cfg.refreshTtlMs);
      var _ :- Audit(trouble);
      r := Ok(token);
    }

    method Logout(cookie: Option<nat>, at: Millis, trouble: Trouble) returns (r: Result<(), AuthError>)
      modifies db`tokens
      ensures (r, db.View()) == LogOut(old(db.View()), cookie, at, trouble)
    {
      if cookie.Some? && cookie.value < |db.tokens| && db.tokens[cookie.value].revokedAt.None? {
        if trouble == TokensFail {
          return Err(TechnicalError);
        }
        db.tokens := db.tokens[cookie.value := db.tokens[cookie.value].(revokedAt := Some(at))];
        var _ :- Audit(trouble);
      }
      r := Ok(());
    }
  }

  class UsersService {
    const db: Database

    constructor (db: Database)
      ensures this.db == db
    {
      this.db := db;
    }

    method ChangePassword(id: CustomerId, oldPassword: string, newPassword: string, at: Millis, trouble: Trouble)
      returns (r: Result<(), AuthError>)
      modifies db
      ensures (r, db.View()) == PatchPassword(old(db.View()), id, oldPassword, newPassword, at, trouble)
    {
      if id !in db.customers {
        return Err(UserNotFound);
      }
      if oldPassword != db.customers[id].password {
        return Err(InvalidCredentials);
      }
      if oldPassword == newPassword {
        return Err(SamePassword);
      }
      var before := db.customers;
      db.customers := db.customers[id := db.customers[id].(password := newPassword)];
      if trouble == TokensFail {
        db.customers := before;
        return Err(TechnicalError);
      }
      db.RevokeTokens(id, at);
      var _ :- Audit(trouble);
      r := Ok(());
    }
  }
}
