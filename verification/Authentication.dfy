/**
 The authentication flows, each a sequence of steps over the user records and the token store.

 A signed token is its claims, or nothing when its signature, age or purpose does not verify;
 hashing and password checks are the service's. Reading the clock gives `now`.
 */
module Authentication {
  import opened Wrappers
  import opened Tokens

  datatype User = User(hash: Option<string>, confirmed: bool)

  datatype Service = Service(verify: (string, string) -> bool, hash: string -> Option<string>, preventUnconfirmed: bool)

  datatype Claims = Claims(jti: Jti, subject: UserId)

  datatype Error =
    | InvalidCredentials | Unconfirmed | InvalidToken | UserNotFound | ConfirmationMismatch | WeakPassword | NotSent

  datatype State = State(rows: seq<Token>, nextId: nat, users: map<UserId, User>, now: int)

  /** One call of a flow, with the ids and expiry times it draws; or time passing, or another part
      of the application editing the user records. */
  datatype Event =
    | SignIn(subject: UserId, password: string, jti: Jti, expiresAt: int)
    | Rotate(claims: Option<Claims>, jti: Jti, expiresAt: int)
    | Revoke(jti: Jti, holder: Option<UserId>, expiresAt: int)
    | ChangePassword(subject: UserId, current: string, password: string, confirmation: string)
    | RequestReset(subject: UserId, jti: Jti, expiresAt: int, sends: bool)
    | Reset(claims: Option<Claims>, password: string, confirmation: string)
    | Prune
    | Tick(now: int)
    | EditUsers(users: map<UserId, User>)

  // ---------- what each flow does, as a function of the state

  /** Why a password does not sign a user in. */
  function SignInError(service: Service, users: map<UserId, User>, subject: UserId, password: string): Option<Error> {
    if subject !in users || users[subject].hash.None? then Some(InvalidCredentials)
    else if !service.verify(password, users[subject].hash.value) then Some(InvalidCredentials)
    else if service.preventUnconfirmed && !users[subject].confirmed then Some(Unconfirmed)
    else None
  }

  /** Why a new password is not taken. */
  function NewPasswordError(service: Service, password: string, confirmation: string): Option<Error> {
    if password != confirmation then Some(ConfirmationMismatch)
    else if service.hash(password).None? then Some(WeakPassword)
    else None
  }

  function ChangeError(service: Service, users: map<UserId, User>, e: Event): Option<Error>
    requires e.ChangePassword?
  {
    if e.subject !in users then Some(UserNotFound)
    else if users[e.subject].hash.None? || !service.verify(e.current, users[e.subject].hash.value)
      then Some(InvalidCredentials)
    else NewPasswordError(service, e.password, e.confirmation)
  }

  /** Why a reset with a usable token does not complete. */
  function ResetError(service: Service, users: map<UserId, User>, subject: UserId, password: string,
                      confirmation: string)
    : Option<Error>
  {
    if NewPasswordError(service, password, confirmation).Some? then NewPasswordError(service, password, confirmation)
    else if subject !in users then Some(UserNotFound)
    else None
  }

  function Rehashed(service: Service, users: map<UserId, User>, subject: UserId, password: string): map<UserId, User>
    requires subject in users
  {
    users[subject := users[subject].(hash := service.hash(password))]
  }

  function Stored(s: State, jti: Jti, subject: UserId, purpose: Purpose, expiresAt: int): State {
    s.(rows := s.rows + [Token(s.nextId, jti, subject, purpose, expiresAt, false)], nextId := s.nextId + 1)
  }

  function RotateNext(s: State, e: Event): (State, Option<Error>)
    requires e.Rotate?
  {
    match e.claims
    case None => (s, Some(InvalidToken))
    case Some(claims) =>
      match FirstUsable(s.rows, claims.jti, Refresh, s.now)
      case None => (s, Some(InvalidToken))
      case Some(t) =>
        var spent := s.(rows := RevokedIds(s.rows, {t.id}));
        if claims.subject !in s.users then (spent, Some(UserNotFound))
        else (Stored(spent, e.jti, claims.subject, Refresh, e.expiresAt), None)
  }

  function ResetNext(service: Service, s: State, e: Event): (State, Option<Error>)
    requires e.Reset?
  {
    match e.claims
    case None => (s, Some(InvalidToken))
    case Some(claims) =>
      match FirstUsable(s.rows, claims.jti, PasswordReset, s.now)
      case None => (s, Some(InvalidToken))
      case Some(t) =>
        var error := ResetError(service, s.users, claims.subject, e.password, e.confirmation);
        if error.Some? then (s, error)
        else
          var users := Rehashed(service, s.users, claims.subject, e.password);
          (s.(rows := RevokedWhere(RevokedIds(s.rows, {t.id}), ActiveOf(claims.subject)), users := users), None)
  }

  function Next(service: Service, s: State, e: Event): (State, Option<Error>) {
    match e
    case SignIn(subject, password, jti, expiresAt) =>
      var error := SignInError(service, s.users, subject, password);
      (if error.Some? then s else Stored(s, jti, subject, Refresh, expiresAt), error)
    case Rotate(_, _, _) => RotateNext(s, e)
    case Revoke(jti, holder, expiresAt) =>
      var rows := WithRevoked(s.rows, s.nextId, jti, holder.UnwrapOr(0), expiresAt);
      (s.(rows := rows, nextId := s.nextId + |rows| - |s.rows|), None)
    case ChangePassword(subject, _, password, _) =>
      var error := ChangeError(service, s.users, e);
      (if error.Some? then s
       else s.(rows := RevokedWhere(s.rows, ActiveOf(subject)),
               users := Rehashed(service, s.users, subject, password)), error)
    case RequestReset(subject, jti, expiresAt, sends) =>
      if subject !in s.users then (s, Some(UserNotFound))
      else (Stored(s, jti, subject, PasswordReset, expiresAt), if sends then None else Some(NotSent))
    case Reset(_, _, _) => ResetNext(service, s, e)
    case Prune => (s.(rows := Unexpired(s.rows, s.now)), None)
    case Tick(now) => (s.(now := now), None)
    case EditUsers(users) => (s.(users := users), None)
  }

  // ---------- what the checks come to

  /** The password is that of a user who may sign in. */
  predicate SignsIn(service: Service, users: map<UserId, User>, subject: UserId, password: string) {
    && subject in users
    && users[subject].hash.Some?
    && service.verify(password, users[subject].hash.value)
    && (service.preventUnconfirmed ==> users[subject].confirmed)
  }

  /** Signing in succeeds exactly with the password of a user who is confirmed where that is required, and
      then leaves one more row, an unrevoked refresh token for that user. Otherwise it changes nothing,
      and answers that the user is unconfirmed exactly where the password is right. */
  lemma SignInNeedsThePassword(service: Service, s: State, e: Event)
    requires e.SignIn?
    ensures var (after, error) := Next(service, s, e);
            && (error == None <==> SignsIn(service, s.users, e.subject, e.password))
            && (error == None ==>
                  && after.rows == s.rows + [Token(s.nextId, e.jti, e.subject, Refresh, e.expiresAt, false)]
                  && after.users == s.users)
            && (error != None ==> after == s)
            && (error == Some(Unconfirmed)
                <==> && e.subject in s.users
                     && s.users[e.subject].hash.Some?
                     && service.verify(e.password, s.users[e.subject].hash.value)
                     && service.preventUnconfirmed
                     && !s.users[e.subject].confirmed)
            && (error == None || error == Some(Unconfirmed) || error == Some(InvalidCredentials))
  {}

  /** A change succeeds exactly for a user who gives the current password and twice a new one that can be
      hashed. It answers with the first of these that fails, and then changes nothing. */
  lemma ChangeNeedsTheCurrentPassword(service: Service, s: State, e: Event)
    requires e.ChangePassword?
    ensures var (after, error) := Next(service, s, e);
            var known := e.subject in s.users;
            var current := known && s.users[e.subject].hash.Some?
                           && service.verify(e.current, s.users[e.subject].hash.value);
            var twice, hashed := e.password == e.confirmation, service.hash(e.password).Some?;
            && (error == None <==> current && twice && hashed)
            && (error == Some(UserNotFound) <==> !known)
            && (error == Some(InvalidCredentials) <==> known && !current)
            && (error == Some(ConfirmationMismatch) <==> current && !twice)
            && (error == Some(WeakPassword) <==> current && twice && !hashed)
            && (error != None ==> after == s)
  {}

  /** A reset succeeds exactly with a usable reset token and twice a new password that can be hashed, for a
      user who is there. It answers with the first of these that fails, and then changes nothing. */
  lemma ResetNeedsAToken(service: Service, s: State, e: Event)
    requires e.Reset?
    ensures var (after, error) := Next(service, s, e);
            var token := e.claims.Some?
                         && exists t | t in s.rows :: && t.jti == e.claims.value.jti && t.purpose == PasswordReset
                                                      && !t.revoked && t.expiresAt > s.now;
            var twice, hashed := e.password == e.confirmation, service.hash(e.password).Some?;
            var known := e.claims.Some? && e.claims.value.subject in s.users;
            && (error == None <==> token && twice && hashed && known)
            && (error == Some(InvalidToken) <==> !token)
            && (error == Some(ConfirmationMismatch) <==> token && !twice)
            && (error == Some(WeakPassword) <==> token && twice && !hashed)
            && (error == Some(UserNotFound) <==> token && twice && hashed && !known)
            && (error != None ==> after == s)
  {
    if e.claims.Some? {
      FirstUsableIsUsable(s.rows, e.claims.value.jti, PasswordReset, s.now);
      assert forall t | t in s.rows ::
          Usable(t, e.claims.value.jti, PasswordReset, s.now)
          <==> && t.jti == e.claims.value.jti && t.purpose == PasswordReset && !t.revoked && t.expiresAt > s.now;
    }
  }

  /** A password's hash verifies that password and no other. */
  ghost predicate HashesIdentify(service: Service) {
    forall password, other | service.hash(password).Some? ::
      service.verify(other, service.hash(password).value) <==> other == password
  }

  /** Where hashes identify passwords, after a change or a reset exactly the new one is the user's; and no
      other user is touched, nor whether this one is confirmed. */
  lemma NewPasswordIsTheOneThatVerifies(service: Service, s: State, e: Event, password: string)
    requires HashesIdentify(service) && (e.ChangePassword? || e.Reset?) && Next(service, s, e).1 == None
    ensures e.Reset? ==> e.claims.Some?
    ensures var after := Next(service, s, e).0.users;
            var subject := if e.ChangePassword? then e.subject else e.claims.value.subject;
            && after.Keys == s.users.Keys
            && subject in after && subject in s.users
            && after[subject].hash.Some?
            && (service.verify(password, after[subject].hash.value) <==> password == e.password)
            && after[subject].confirmed == s.users[subject].confirmed
            && forall other | other in s.users && other != subject :: after[other] == s.users[other]
  {
    assert service.hash(e.password).Some?;
  }

  // ---------- the flows

  class AuthStrategy {
    const service: Service
    const store: TokenStore
    var users: map<UserId, User>

    ghost predicate Valid()
      reads this, store
    {
      store.Valid()
    }

    ghost function At(now: int): State
      reads this, store
    {
      State(store.rows, store.nextId, users, now)
    }

    constructor (service: Service, store: TokenStore)
      requires store.Valid()
      ensures Valid() && this.service == service && this.store == store && users == map[]
    {
      this.service, this.store, users := service, store, map[];
    }

    method SignInWithTokenPair(subject: UserId, password: string, jti: Jti, expiresAt: int, ghost now: int)
      returns (error: Option<Error>)
      requires Valid()
      modifies this, store
      ensures Valid() && (At(now), error) == Next(service, old(At(now)), SignIn(subject, password, jti, expiresAt))
      ensures error == None <==> SignsIn(service, old(users), subject, password)
      ensures error != None ==> At(now) == old(At(now))
    {
      error := SignInError(service, users, subject, password);
      if error.None? {
        store.StoreToken(jti, subject, Refresh, expiresAt);
      }
    }

    /** The old token is spent before the user is read: a user no longer there leaves no valid token. */
    method RotateRefreshToken(claims: Option<Claims>, jti: Jti, expiresAt: int, now: int) returns (error: Option<Error>)
      requires Valid()
      modifies this, store
      ensures Valid() && (At(now), error) == Next(service, old(At(now)), Rotate(claims, jti, expiresAt))
    {
      if claims.None? {
        return Some(InvalidToken);
      }
      var found := store.GetValidToken(claims.value.jti, Refresh, now);
      if found.None? {
        return Some(InvalidToken);
      }
      store.RevokeRow(found.value.id);
      if claims.value.subject !in users {
        return Some(UserNotFound);
      }
      store.StoreToken(jti, claims.value.subject, Refresh, expiresAt);
      return None;
    }

    method RevokeToken(jti: Jti, holder: Option<UserId>, expiresAt: int, ghost now: int)
      requires Valid()
      modifies this, store
      ensures Valid() && At(now) == Next(service, old(At(now)), Revoke(jti, holder, expiresAt)).0
    {
      store.RevokeToken(jti, holder, expiresAt);
    }

    method ChangeUsersPassword(subject: UserId, current: string, password: string, confirmation: string, ghost now: int)
      returns (error: Option<Error>)
      requires Valid()
      modifies this, store
      ensures Valid()
      ensures (At(now), error) == Next(service, old(At(now)), ChangePassword(subject, current, password, confirmation))
    {
      if subject !in users {
        return Some(UserNotFound);
      }
      var hash := users[subject].hash;
      if hash.None? || !service.verify(current, hash.value) {
        return Some(InvalidCredentials);
      }
      if password != confirmation {
        return Some(ConfirmationMismatch);
      }
      var renewed := service.hash(password);
      if renewed.None? {
        return Some(WeakPassword);
      }
      users := users[subject := users[subject].(hash := renewed)];
      var _ := store.RevokeAllForSubject(subject);
      return None;
    }

    method RequestPasswordReset(subject: UserId, jti: Jti, expiresAt: int, sends: bool, ghost now: int)
      returns (error: Option<Error>)
      requires Valid()
      modifies this, store
      ensures Valid() && (At(now), error) == Next(service, old(At(now)), RequestReset(subject, jti, expiresAt, sends))
    {
      if subject !in users {
        return Some(UserNotFound);
      }
      store.StoreToken(jti, subject, PasswordReset, expiresAt);
      error := if sends then None else Some(NotSent);
    }

    method ResetPasswordWithToken(claims: Option<Claims>, password: string, confirmation: string, now: int)
      returns (error: Option<Error>)
      requires Valid()
      modifies this, store
      ensures Valid() && (At(now), error) == Next(service, old(At(now)), Reset(claims, password, confirmation))
    {
      if claims.None? {
        return Some(InvalidToken);
      }
      var subject := claims.value.subject;
      var found := store.GetValidToken(claims.value.jti, PasswordReset, now);
      if found.None? {
        return Some(InvalidToken);
      }
      if password != confirmation {
        return Some(ConfirmationMismatch);
      }
      var renewed := service.hash(password);
      if renewed.None? {
        return Some(WeakPassword);
      }
      if subject !in users {
        return Some(UserNotFound);
      }
      users := users[subject := users[subject].(hash := renewed)];
      store.RevokeRow(found.value.id);
      var _ := store.RevokeAllForSubject(subject);
      return None;
    }
  }
}
