/**
 Every run of the authentication flows: the token store refines a ledger of the tokens that stand,
 on which pruning does nothing; and what holds of sessions, ended tokens and resets in every
 reachable state.
 */
module Sessions {
  import opened Wrappers
  import opened Tokens
  import opened Authentication

  // ---------- the ledger

  /** A token that stands: not revoked, not expired. */
  datatype Grant = Grant(jti: Jti, subject: UserId, purpose: Purpose, expiresAt: int)

  datatype Ledger = Ledger(grants: set<Grant>, users: map<UserId, User>, now: int)

  predicate Stands(t: Token, now: int) {
    !t.revoked && t.purpose != Revocation && t.expiresAt > now
  }

  function GrantOf(t: Token): Grant {
    Grant(t.jti, t.subject, t.purpose, t.expiresAt)
  }

  function Grants(rows: seq<Token>, now: int): set<Grant> {
    set t | t in rows && Stands(t, now) :: GrantOf(t)
  }

  function LedgerOf(s: State): Ledger {
    Ledger(Grants(s.rows, s.now), s.users, s.now)
  }

  predicate Granted(l: Ledger, jti: Jti, purpose: Purpose) {
    exists g | g in l.grants :: g.jti == jti && g.purpose == purpose
  }

  function Issue(l: Ledger, g: Grant): Ledger {
    if g.expiresAt > l.now then l.(grants := l.grants + {g}) else l
  }

  function Withdraw(l: Ledger, jti: Jti): Ledger {
    l.(grants := set g | g in l.grants && g.jti != jti)
  }

  function WithdrawFrom(l: Ledger, subject: UserId): Ledger {
    l.(grants := set g | g in l.grants && g.subject != subject)
  }

  /** What each flow does to the tokens that stand. */
  function LedgerNext(service: Service, l: Ledger, e: Event): (Ledger, Option<Error>) {
    match e
    case SignIn(subject, password, jti, expiresAt) =>
      var error := SignInError(service, l.users, subject, password);
      (if error.Some? then l else Issue(l, Grant(jti, subject, Refresh, expiresAt)), error)
    case Rotate(claims, jti, expiresAt) =>
      if claims.None? || !Granted(l, claims.value.jti, Refresh) then (l, Some(InvalidToken))
      else
        var spent := Withdraw(l, claims.value.jti);
        if claims.value.subject !in l.users then (spent, Some(UserNotFound))
        else (Issue(spent, Grant(jti, claims.value.subject, Refresh, expiresAt)), None)
    case Revoke(jti, _, _) => (Withdraw(l, jti), None)
    case ChangePassword(subject, _, password, _) =>
      var error := ChangeError(service, l.users, e);
      (if error.Some? then l else WithdrawFrom(l, subject).(users := Rehashed(service, l.users, subject, password)),
       error)
    case RequestReset(subject, jti, expiresAt, sends) =>
      if subject !in l.users then (l, Some(UserNotFound))
      else (Issue(l, Grant(jti, subject, PasswordReset, expiresAt)), if sends then None else Some(NotSent))
    case Reset(claims, password, confirmation) =>
      if claims.None? || !Granted(l, claims.value.jti, PasswordReset) then (l, Some(InvalidToken))
      else
        var error := ResetError(service, l.users, claims.value.subject, password, confirmation);
        if error.Some? then (l, error)
        else
          var users := Rehashed(service, l.users, claims.value.subject, password);
          (WithdrawFrom(Withdraw(l, claims.value.jti), claims.value.subject).(users := users), None)
    case Prune => (l, None)
    case Tick(now) => (l.(now := now, grants := set g | g in l.grants && g.expiresAt > now), None)
    case EditUsers(users) => (l.(users := users), None)
  }

  // ---------- what the store's rows keep

  ghost predicate DistinctJtis(rows: seq<Token>) {
    forall i, j | 0 <= i < j < |rows| :: rows[i].jti != rows[j].jti
  }

  /** The ids the rows carry are all in use, one row each. */
  ghost predicate Sound(s: State, used: set<Jti>) {
    && UniqueIds(s.rows)
    && IdsBelow(s.rows, s.nextId)
    && DistinctJtis(s.rows)
    && forall t | t in s.rows :: t.jti in used
  }

  function Using(used: set<Jti>, e: Event): set<Jti> {
    if e.SignIn? || e.Rotate? || e.Revoke? || e.RequestReset? then used + {e.jti} else used
  }

  /** New tokens draw new ids, and the clock does not go back. */
  predicate Allowed(used: set<Jti>, now: int, e: Event) {
    && (e.SignIn? || e.Rotate? || e.RequestReset? ==> e.jti !in used)
    && (e.Tick? ==> e.now >= now)
  }

  // ---------- the store's steps, on the ledger

  lemma GrantOfSome(rows: seq<Token>, now: int, g: Grant)
    ensures g in Grants(rows, now) <==> exists t | t in rows :: Stands(t, now) && GrantOf(t) == g
  {}

  lemma GrantsOfMore(rows: seq<Token>, t: Token, now: int)
    ensures Grants(rows + [t], now) == Grants(rows, now) + if Stands(t, now) then {GrantOf(t)} else {}
  {
    assert forall u :: u in rows + [t] <==> u in rows || u == t;
  }

  lemma GrantsOfRevoked(rows: seq<Token>, query: Query, now: int, g: Grant)
    requires query.OfJti? || query.ActiveOf?
    ensures g in Grants(RevokedWhere(rows, query), now)
            <==> g in Grants(rows, now) && if query.OfJti? then g.jti != query.jti else g.subject != query.subject
  {
    var after := RevokedWhere(rows, query);
    if g in Grants(after, now) {
      var t :| t in after && Stands(t, now) && GrantOf(t) == g;
      var i :| 0 <= i < |after| && after[i] == t;
      assert rows[i] == t && !query.Matches(t);
      GrantOfSome(rows, now, g);
    }
    if g in Grants(rows, now) && (if query.OfJti? then g.jti != query.jti else g.subject != query.subject) {
      var t :| t in rows && Stands(t, now) && GrantOf(t) == g;
      var i :| 0 <= i < |rows| && rows[i] == t;
      assert after[i] == t;
      GrantOfSome(after, now, g);
    }
  }

  lemma RevokingARow(rows: seq<Token>, t: Token)
    requires UniqueIds(rows) && DistinctJtis(rows) && t in rows
    ensures RevokedIds(rows, {t.id}) == RevokedWhere(rows, OfJti(t.jti))
  {
    var k :| 0 <= k < |rows| && rows[k] == t;
    forall i | 0 <= i < |rows|
      ensures rows[i].id == t.id <==> rows[i].jti == t.jti
    {
      if i < k {
        assert rows[i].id != rows[k].id && rows[i].jti != rows[k].jti;
      } else if k < i {
        assert rows[k].id != rows[i].id && rows[k].jti != rows[i].jti;
      }
    }
  }

  lemma WithdrawnRows(rows: seq<Token>, jti: Jti, l: Ledger)
    requires l.grants == Grants(rows, l.now)
    ensures Grants(RevokedWhere(rows, OfJti(jti)), l.now) == Withdraw(l, jti).grants
  {
    forall g
      ensures g in Grants(RevokedWhere(rows, OfJti(jti)), l.now) <==> g in Withdraw(l, jti).grants
    {
      GrantsOfRevoked(rows, OfJti(jti), l.now, g);
    }
  }

  lemma WithdrawnFromRows(rows: seq<Token>, subject: UserId, l: Ledger)
    requires l.grants == Grants(rows, l.now)
    ensures Grants(RevokedWhere(rows, ActiveOf(subject)), l.now) == WithdrawFrom(l, subject).grants
  {
    forall g
      ensures g in Grants(RevokedWhere(rows, ActiveOf(subject)), l.now) <==> g in WithdrawFrom(l, subject).grants
    {
      GrantsOfRevoked(rows, ActiveOf(subject), l.now, g);
    }
  }

  lemma GrantsOfTombstone(rows: seq<Token>, nextId: nat, jti: Jti, subject: UserId, expiresAt: int, l: Ledger)
    requires l.grants == Grants(rows, l.now)
    ensures Grants(WithRevoked(rows, nextId, jti, subject, expiresAt), l.now) == Withdraw(l, jti).grants
  {
    if exists t | t in rows :: t.jti == jti {
      WithdrawnRows(rows, jti, l);
    } else {
      GrantsOfMore(rows, Token(nextId, jti, subject, Revocation, expiresAt, false), l.now);
      assert forall g | g in l.grants :: g.jti != jti;
    }
  }

  lemma GrantsOfUnexpired(rows: seq<Token>, now: int)
    ensures Grants(Unexpired(rows, now), now) == Grants(rows, now)
  {
    UnexpiredRows(rows, now);
  }

  lemma GrantsLater(rows: seq<Token>, now: int, later: int)
    requires later >= now
    ensures Grants(rows, later) == set g | g in Grants(rows, now) && g.expiresAt > later
  {
    forall g
      ensures g in Grants(rows, later) <==> g in Grants(rows, now) && g.expiresAt > later
    {
      GrantOfSome(rows, now, g);
      GrantOfSome(rows, later, g);
    }
  }

  /** A token is valid exactly when it stands on the ledger. */
  lemma ValidMeansGranted(s: State, jti: Jti, purpose: Purpose)
    requires purpose != Revocation
    ensures FirstUsable(s.rows, jti, purpose, s.now).Some? <==> Granted(LedgerOf(s), jti, purpose)
    ensures var found := FirstUsable(s.rows, jti, purpose, s.now);
            found.Some? ==>
              found.value in s.rows && found.value.jti == jti && GrantOf(found.value) in LedgerOf(s).grants
  {
    FirstUsableIsUsable(s.rows, jti, purpose, s.now);
    var found := FirstUsable(s.rows, jti, purpose, s.now);
    if found.Some? {
      GrantOfSome(s.rows, s.now, GrantOf(found.value));
    }
  }

  // ---------- the store's steps keep its rows sound

  lemma StoredIsSound(s: State, used: set<Jti>, jti: Jti, subject: UserId, purpose: Purpose, expiresAt: int)
    requires Sound(s, used) && jti !in used
    ensures Sound(Stored(s, jti, subject, purpose, expiresAt), used + {jti})
  {
    var after := Stored(s, jti, subject, purpose, expiresAt);
    assert forall i | 0 <= i < |s.rows| :: s.rows[i] in s.rows;
    assert forall t | t in after.rows :: t in s.rows || t.jti == jti;
  }

  lemma RevokedIsSound(s: State, used: set<Jti>, query: Query)
    requires Sound(s, used)
    ensures Sound(s.(rows := RevokedWhere(s.rows, query)), used)
  {
    var after := RevokedWhere(s.rows, query);
    forall t | t in after
      ensures t.jti in used
    {
      var i :| 0 <= i < |after| && after[i] == t;
      assert s.rows[i] in s.rows && t.jti == s.rows[i].jti;
    }
  }

  lemma TombstoneIsSound(s: State, used: set<Jti>, e: Event, service: Service)
    requires Sound(s, used) && e.Revoke?
    ensures Sound(Next(service, s, e).0, used + {e.jti})
  {
    if exists t | t in s.rows :: t.jti == e.jti {
      RevokedIsSound(s, used, OfJti(e.jti));
    } else {
      var after := Next(service, s, e).0;
      assert forall i | 0 <= i < |s.rows| :: s.rows[i] in s.rows;
      assert forall t | t in after.rows :: t in s.rows || t.jti == e.jti;
    }
  }

  lemma {:induction false} UnexpiredKeepsJtis(rows: seq<Token>, now: int)
    requires DistinctJtis(rows)
    ensures DistinctJtis(Unexpired(rows, now))
  {
    if rows != [] {
      var rest := Unexpired(rows[1..], now);
      assert forall i | 0 <= i < |rows[1..]| :: rows[1..][i] == rows[i + 1];
      UnexpiredKeepsJtis(rows[1..], now);
      UnexpiredRows(rows[1..], now);
      forall i | 0 <= i < |rest|
        ensures rest[i].jti != rows[0].jti
      {
        assert rest[i] in rows[1..];
      }
    }
  }

  lemma PrunedIsSound(s: State, used: set<Jti>)
    requires Sound(s, used)
    ensures Sound(s.(rows := Unexpired(s.rows, s.now)), used)
  {
    UnexpiredKeepsIds(s.rows, s.now, s.nextId);
    UnexpiredKeepsJtis(s.rows, s.now);
    UnexpiredRows(s.rows, s.now);
  }

  // ---------- refinement

  lemma StoredRefines(s: State, jti: Jti, subject: UserId, purpose: Purpose, expiresAt: int)
    requires purpose != Revocation
    ensures LedgerOf(Stored(s, jti, subject, purpose, expiresAt))
            == Issue(LedgerOf(s), Grant(jti, subject, purpose, expiresAt))
  {
    GrantsOfMore(s.rows, Token(s.nextId, jti, subject, purpose, expiresAt, false), s.now);
  }

  lemma SpentRefines(s: State, used: set<Jti>, t: Token)
    requires Sound(s, used) && t in s.rows
    ensures LedgerOf(s.(rows := RevokedIds(s.rows, {t.id}))) == Withdraw(LedgerOf(s), t.jti)
    ensures Sound(s.(rows := RevokedIds(s.rows, {t.id})), used)
  {
    RevokingARow(s.rows, t);
    WithdrawnRows(s.rows, t.jti, LedgerOf(s));
    RevokedIsSound(s, used, OfJti(t.jti));
  }

  lemma RotateRefines(service: Service, s: State, used: set<Jti>, e: Event)
    requires Sound(s, used) && e.Rotate? && e.jti !in used
    ensures Sound(RotateNext(s, e).0, used + {e.jti})
    ensures (LedgerOf(RotateNext(s, e).0), RotateNext(s, e).1) == LedgerNext(service, LedgerOf(s), e)
  {
    hide Grants, RevokedIds, FirstUsable, Stored, Issue, Withdraw, Granted;
    if e.claims.Some? {
      var claims := e.claims.value;
      ValidMeansGranted(s, claims.jti, Refresh);
      var found := FirstUsable(s.rows, claims.jti, Refresh, s.now);
      if found.Some? {
        SpentRefines(s, used, found.value);
        var spent := s.(rows := RevokedIds(s.rows, {found.value.id}));
        StoredIsSound(spent, used, e.jti, claims.subject, Refresh, e.expiresAt);
        StoredRefines(spent, e.jti, claims.subject, Refresh, e.expiresAt);
      }
    }
  }

  lemma ResetRefines(service: Service, s: State, used: set<Jti>, e: Event)
    requires Sound(s, used) && e.Reset?
    ensures Sound(ResetNext(service, s, e).0, used)
    ensures (LedgerOf(ResetNext(service, s, e).0), ResetNext(service, s, e).1) == LedgerNext(service, LedgerOf(s), e)
  {
    hide Grants, RevokedIds, RevokedWhere, FirstUsable, Withdraw, WithdrawFrom, Granted, Rehashed;
    if e.claims.Some? {
      var claims := e.claims.value;
      ValidMeansGranted(s, claims.jti, PasswordReset);
      var found := FirstUsable(s.rows, claims.jti, PasswordReset, s.now);
      if found.Some? {
        SpentRefines(s, used, found.value);
        var spent := s.(rows := RevokedIds(s.rows, {found.value.id}));
        WithdrawnFromRows(spent.rows, claims.subject, LedgerOf(spent));
        RevokedIsSound(spent, used, ActiveOf(claims.subject));
        WithdrawKeeps(LedgerOf(s), claims.jti, claims.subject);
        WithdrawKeeps(LedgerOf(spent), claims.jti, claims.subject);
      }
    }
  }

  lemma WithdrawKeeps(l: Ledger, jti: Jti, subject: UserId)
    ensures Withdraw(l, jti).users == l.users && Withdraw(l, jti).now == l.now
    ensures WithdrawFrom(l, subject).users == l.users && WithdrawFrom(l, subject).now == l.now
  {}

  /** Each flow does to the ledger what the ledger's own step does, with the same answer. */
  lemma StepRefines(service: Service, s: State, used: set<Jti>, e: Event)
    requires Sound(s, used) && Allowed(used, s.now, e)
    ensures Sound(Next(service, s, e).0, Using(used, e))
    ensures (LedgerOf(Next(service, s, e).0), Next(service, s, e).1) == LedgerNext(service, LedgerOf(s), e)
  {
    hide Grants, RevokedWhere, RotateNext, ResetNext, Unexpired, WithRevoked, Stored, Issue, Withdraw, WithdrawFrom,
      Rehashed;
    match e
    case SignIn(subject, _, jti, expiresAt) =>
      StoredIsSound(s, used, jti, subject, Refresh, expiresAt);
      StoredRefines(s, jti, subject, Refresh, expiresAt);
    case Rotate(_, _, _) => RotateRefines(service, s, used, e);
    case Revoke(jti, holder, expiresAt) =>
      TombstoneIsSound(s, used, e, service);
      GrantsOfTombstone(s.rows, s.nextId, jti, holder.UnwrapOr(0), expiresAt, LedgerOf(s));
      WithdrawKeeps(LedgerOf(s), jti, 0);
    case ChangePassword(subject, _, _, _) =>
      RevokedIsSound(s, used, ActiveOf(subject));
      WithdrawnFromRows(s.rows, subject, LedgerOf(s));
      WithdrawKeeps(LedgerOf(s), [], subject);
    case RequestReset(subject, jti, expiresAt, _) =>
      StoredIsSound(s, used, jti, subject, PasswordReset, expiresAt);
      StoredRefines(s, jti, subject, PasswordReset, expiresAt);
    case Reset(_, _, _) => ResetRefines(service, s, used, e);
    case Prune =>
      PrunedIsSound(s, used);
      GrantsOfUnexpired(s.rows, s.now);
    case Tick(now) => GrantsLater(s.rows, s.now, now);
    case EditUsers(_) =>
  }

  // ---------- runs

  /** The events of a run draw new ids and do not turn the clock back. */
  predicate AllAllowed(used: set<Jti>, now: int, events: seq<Event>)
    decreases |events|
  {
    events == []
    || (&& Allowed(used, now, events[0])
        && AllAllowed(Using(used, events[0]), if events[0].Tick? then events[0].now else now, events[1..]))
  }

  function UsingAll(used: set<Jti>, events: seq<Event>): set<Jti>
    decreases |events|
  {
    if events == [] then used else UsingAll(Using(used, events[0]), events[1..])
  }

  /** The state after the events, and what they answered, pruning aside. */
  function Run(service: Service, s: State, events: seq<Event>): (State, seq<Option<Error>>)
    decreases |events|
  {
    if events == [] then (s, [])
    else
      var (next, answer) := Next(service, s, events[0]);
      var (last, answers) := Run(service, next, events[1..]);
      (last, (if events[0].Prune? then [] else [answer]) + answers)
  }

  function LedgerRun(service: Service, l: Ledger, events: seq<Event>): (Ledger, seq<Option<Error>>)
    decreases |events|
  {
    if events == [] then (l, [])
    else
      var (next, answer) := LedgerNext(service, l, events[0]);
      var (last, answers) := LedgerRun(service, next, events[1..]);
      (last, (if events[0].Prune? then [] else [answer]) + answers)
  }

  function Unpruned(events: seq<Event>): seq<Event> {
    if events == [] then []
    else (if events[0].Prune? then [] else [events[0]]) + Unpruned(events[1..])
  }

  lemma StepsClock(service: Service, s: State, e: Event)
    ensures Next(service, s, e).0.now == if e.Tick? then e.now else s.now
  {}

  /** Over every run the store's answers and standing tokens are the ledger's. */
  lemma {:induction false} RunRefines(service: Service, s: State, used: set<Jti>, events: seq<Event>)
    requires Sound(s, used) && AllAllowed(used, s.now, events)
    ensures Sound(Run(service, s, events).0, UsingAll(used, events))
    ensures (LedgerOf(Run(service, s, events).0), Run(service, s, events).1) == LedgerRun(service, LedgerOf(s), events)
    decreases |events|
  {
    hide Next, LedgerNext, LedgerOf, Sound, Allowed, Using;
    if events != [] {
      StepRefines(service, s, used, events[0]);
      StepsClock(service, s, events[0]);
      RunRefines(service, Next(service, s, events[0]).0, Using(used, events[0]), events[1..]);
    }
  }

  lemma {:induction false} LedgerIgnoresPruning(service: Service, l: Ledger, events: seq<Event>)
    ensures LedgerRun(service, l, Unpruned(events)) == LedgerRun(service, l, events)
    decreases |events|
  {
    hide LedgerNext;
    if events != [] {
      var (next, answer) := LedgerNext(service, l, events[0]);
      LedgerIgnoresPruning(service, next, events[1..]);
      var (last, answers) := LedgerRun(service, next, events[1..]);
      if events[0].Prune? {
        PruneDoesNothing(service, l);
        assert Unpruned(events) == Unpruned(events[1..]);
        var none: seq<Option<Error>> := [];
        assert none + answers == answers;
      } else {
        var rest := Unpruned(events);
        assert rest[0] == events[0] && rest[1..] == Unpruned(events[1..]);
        assert LedgerRun(service, l, rest) == (last, [answer] + answers);
      }
    }
  }

  lemma PruneDoesNothing(service: Service, l: Ledger)
    ensures LedgerNext(service, l, Prune) == (l, None)
  {}

  lemma {:induction false} UnprunedIsAllowed(used: set<Jti>, now: int, events: seq<Event>)
    requires AllAllowed(used, now, events)
    ensures AllAllowed(used, now, Unpruned(events))
    decreases |events|
  {
    hide Allowed;
    if events != [] {
      UnprunedIsAllowed(Using(used, events[0]), if events[0].Tick? then events[0].now else now, events[1..]);
      if events[0].Prune? {
        assert Unpruned(events) == Unpruned(events[1..]);
      } else {
        assert Unpruned(events)[1..] == Unpruned(events[1..]);
      }
    }
  }

  /** Pruning, however often and whenever, changes no flow's answer in the rest of the run, and no
      token's validity at its end. */
  lemma PruningIsInvisible(service: Service, s: State, used: set<Jti>, events: seq<Event>, jti: Jti, purpose: Purpose)
    requires Sound(s, used) && AllAllowed(used, s.now, events) && purpose != Revocation
    ensures Run(service, s, events).1 == Run(service, s, Unpruned(events)).1
    ensures var a, b := Run(service, s, events).0, Run(service, s, Unpruned(events)).0;
            FirstUsable(a.rows, jti, purpose, a.now).Some? <==> FirstUsable(b.rows, jti, purpose, b.now).Some?
  {
    hide Run, LedgerRun, LedgerOf, Sound, AllAllowed, FirstUsable, Granted;
    UnprunedIsAllowed(used, s.now, events);
    RunRefines(service, s, used, events);
    RunRefines(service, s, used, Unpruned(events));
    LedgerIgnoresPruning(service, LedgerOf(s), events);
    ValidMeansGranted(Run(service, s, events).0, jti, purpose);
    ValidMeansGranted(Run(service, s, Unpruned(events)).0, jti, purpose);
  }

  // ---------- what happened so far

  /** Ids drawn or revoked; the sign-in each refresh token descends from; ids spent or revoked; and
      how many resets each reset token completed. */
  datatype Past = Past(used: set<Jti>, session: map<Jti, Jti>, ended: set<Jti>, completed: map<Jti, nat>)

  function HeldBy(l: Ledger, subject: UserId): set<Jti> {
    set g | g in l.grants && g.subject == subject :: g.jti
  }

  function Completions(past: Past, jti: Jti): nat {
    if jti in past.completed then past.completed[jti] else 0
  }

  function SessionOf(past: Past, jti: Jti): Jti {
    if jti in past.session then past.session[jti] else jti
  }

  /** What a step adds to the past. */
  function Remember(service: Service, past: Past, l: Ledger, e: Event): Past {
    var (after, error) := LedgerNext(service, l, e);
    var noted := past.(used := Using(past.used, e));
    match e
    case SignIn(_, _, jti, _) => if error.Some? then noted else noted.(session := past.session[jti := jti])
    case Rotate(claims, jti, _) =>
      if claims.None? || !Granted(l, claims.value.jti, Refresh) then noted
      else
        var spent := noted.(ended := past.ended + {claims.value.jti});
        if error.Some? then spent else spent.(session := past.session[jti := SessionOf(past, claims.value.jti)])
    case Revoke(jti, _, _) => noted.(ended := past.ended + {jti})
    case ChangePassword(subject, _, _, _) =>
      if error.Some? then noted else noted.(ended := past.ended + HeldBy(l, subject))
    case Reset(claims, _, _) =>
      if error.Some? || claims.None? then noted
      else
        noted.(ended := past.ended + {claims.value.jti} + HeldBy(l, claims.value.subject),
               completed := past.completed[claims.value.jti := Completions(past, claims.value.jti) + 1])
    case _ => noted
  }

  // The parts of the invariant.

  ghost predicate StandingAreInUse(past: Past, l: Ledger) {
    forall g | g in l.grants :: g.jti in past.used && g.jti !in past.ended
  }

  ghost predicate StandingAreDistinct(l: Ledger) {
    forall g, h | g in l.grants && h in l.grants && g.jti == h.jti :: g == h
  }

  ghost predicate StandingDescend(past: Past, l: Ledger) {
    forall g | g in l.grants && g.purpose == Refresh :: g.jti in past.session
  }

  ghost predicate OneStandsPerSession(past: Past, l: Ledger) {
    forall g, h | g in l.grants && h in l.grants && g.purpose == Refresh && h.purpose == Refresh
                  && SessionOf(past, g.jti) == SessionOf(past, h.jti) :: g.jti == h.jti
  }

  ghost predicate PastInUse(past: Past) {
    && past.ended <= past.used
    && past.session.Keys <= past.used
    && (forall jti | jti in past.session :: past.session[jti] in past.used)
  }

  ghost predicate CompletedOnce(past: Past) {
    forall jti | jti in past.completed :: past.completed[jti] <= 1 && jti in past.ended
  }

  ghost predicate Kept(past: Past, l: Ledger) {
    && StandingAreInUse(past, l)
    && StandingAreDistinct(l)
    && StandingDescend(past, l)
    && OneStandsPerSession(past, l)
    && PastInUse(past)
    && CompletedOnce(past)
  }

  // ---------- every step keeps it

  /** Withdrawing grants, and ending the ids of those withdrawn, keeps the invariant. */
  lemma FewerKept(past: Past, l: Ledger, more: set<Jti>, fewer: Ledger)
    requires Kept(past, l) && fewer.grants <= l.grants
    requires forall g | g in fewer.grants :: g.jti !in more
    ensures Kept(past.(used := past.used + more, ended := past.ended + more), fewer)
  {
    var after := past.(used := past.used + more, ended := past.ended + more);
    assert forall jti :: SessionOf(after, jti) == SessionOf(past, jti);
  }

  /** Issuing under a new id, to a session no standing token has. */
  lemma IssuedKept(past: Past, l: Ledger, g: Grant, root: Jti)
    requires Kept(past, l) && g.jti !in past.used
    requires root in past.used + {g.jti}
    requires forall h | h in l.grants && h.purpose == Refresh :: SessionOf(past, h.jti) != root
    ensures Kept(past.(used := past.used + {g.jti}, session := past.session[g.jti := root]), Issue(l, g))
  {
    var after := past.(used := past.used + {g.jti}, session := past.session[g.jti := root]);
    assert forall h | h in l.grants :: h.jti != g.jti && SessionOf(after, h.jti) == SessionOf(past, h.jti);
    assert SessionOf(after, g.jti) == root;
  }

  lemma ResetIssuedKept(past: Past, l: Ledger, g: Grant)
    requires Kept(past, l) && g.jti !in past.used && g.purpose == PasswordReset
    ensures Kept(past.(used := past.used + {g.jti}), Issue(l, g))
  {
    var after := past.(used := past.used + {g.jti});
    assert forall jti :: SessionOf(after, jti) == SessionOf(past, jti);
  }

  lemma UsedKept(past: Past, l: Ledger, jti: Jti)
    requires Kept(past, l)
    ensures Kept(past.(used := past.used + {jti}), l)
  {
    var after := past.(used := past.used + {jti});
    assert forall j :: SessionOf(after, j) == SessionOf(past, j);
  }

  lemma SessionsInUse(past: Past, l: Ledger, g: Grant)
    requires Kept(past, l) && g in l.grants && g.purpose == Refresh
    ensures SessionOf(past, g.jti) in past.used
  {}

  lemma SignInKeeps(service: Service, past: Past, l: Ledger, e: Event)
    requires Kept(past, l) && e.SignIn? && e.jti !in past.used
    ensures Kept(Remember(service, past, l, e), LedgerNext(service, l, e).0)
  {
    hide Kept, Issue, SignInError;
    if SignInError(service, l.users, e.subject, e.password).Some? {
      UsedKept(past, l, e.jti);
    } else {
      forall h | h in l.grants && h.purpose == Refresh
        ensures SessionOf(past, h.jti) != e.jti
      {
        SessionsInUse(past, l, h);
      }
      IssuedKept(past, l, Grant(e.jti, e.subject, Refresh, e.expiresAt), e.jti);
    }
  }

  lemma SpendingFreesItsSession(past: Past, l: Ledger, g: Grant, h: Grant)
    requires Kept(past, l) && g in l.grants && g.purpose == Refresh
    requires h in Withdraw(l, g.jti).grants && h.purpose == Refresh
    ensures SessionOf(past, h.jti) != SessionOf(past, g.jti)
  {
    assert h in l.grants && h.jti != g.jti;
  }

  lemma RotateKeeps(service: Service, past: Past, l: Ledger, e: Event)
    requires Kept(past, l) && e.Rotate? && e.jti !in past.used
    ensures Kept(Remember(service, past, l, e), LedgerNext(service, l, e).0)
  {
    hide Kept, Issue, Withdraw, SessionOf;
    UsedKept(past, l, e.jti);
    if e.claims.Some? && Granted(l, e.claims.value.jti, Refresh) {
      var gone := e.claims.value.jti;
      var g :| g in l.grants && g.jti == gone && g.purpose == Refresh;
      InUse(past, l, g);
      SessionsInUse(past, l, g);
      WithdrawnAreGone(l, gone);
      var spentPast := past.(used := past.used + {gone}, ended := past.ended + {gone});
      assert past.used + {gone} == past.used;
      FewerKept(past, l, {gone}, Withdraw(l, gone));
      SameSessions(past, spentPast);
      if e.claims.value.subject in l.users {
        forall h | h in Withdraw(l, gone).grants && h.purpose == Refresh
          ensures SessionOf(spentPast, h.jti) != SessionOf(past, gone)
        {
          SpendingFreesItsSession(past, l, g, h);
        }
        IssuedKept(spentPast, Withdraw(l, gone), Grant(e.jti, e.claims.value.subject, Refresh, e.expiresAt),
                   SessionOf(past, gone));
      } else {
        UsedKept(spentPast, Withdraw(l, gone), e.jti);
      }
    }
  }

  lemma SameSessions(a: Past, b: Past)
    requires a.session == b.session
    ensures forall jti :: SessionOf(a, jti) == SessionOf(b, jti)
  {}

  lemma InUse(past: Past, l: Ledger, g: Grant)
    requires Kept(past, l) && g in l.grants
    ensures g.jti in past.used && g.jti !in past.ended
  {}

  lemma WithdrawnAreGone(l: Ledger, jti: Jti)
    ensures Withdraw(l, jti).grants <= l.grants
    ensures forall g | g in Withdraw(l, jti).grants :: g.jti != jti
  {}

  /** The ids ended with a subject's tokens are in use, and stand no more. */
  lemma HeldAreGone(past: Past, l: Ledger, subject: UserId)
    requires Kept(past, l)
    ensures HeldBy(l, subject) <= past.used
    ensures WithdrawFrom(l, subject).grants <= l.grants
    ensures forall g | g in WithdrawFrom(l, subject).grants :: g.jti !in HeldBy(l, subject)
  {}

  lemma ChangeKeeps(service: Service, past: Past, l: Ledger, e: Event)
    requires Kept(past, l) && e.ChangePassword?
    ensures Kept(Remember(service, past, l, e), LedgerNext(service, l, e).0)
  {
    hide Kept, ChangeError, Rehashed, HeldBy, WithdrawFrom;
    if ChangeError(service, l.users, e).None? {
      HeldAreGone(past, l, e.subject);
      assert past.used + HeldBy(l, e.subject) == past.used;
      FewerKept(past, l, HeldBy(l, e.subject), LedgerNext(service, l, e).0);
    }
  }

  lemma FirstCompletion(past: Past, l: Ledger, jti: Jti)
    requires Kept(past, l) && jti in past.ended && Completions(past, jti) == 0
    ensures Kept(past.(completed := past.completed[jti := 1]), l)
  {
    SameSessions(past, past.(completed := past.completed[jti := 1]));
  }

  lemma StandingNeverCompleted(past: Past, l: Ledger, g: Grant)
    requires Kept(past, l) && g in l.grants
    ensures Completions(past, g.jti) == 0
  {}

  lemma ResetKeeps(service: Service, past: Past, l: Ledger, e: Event)
    requires Kept(past, l) && e.Reset?
    ensures Kept(Remember(service, past, l, e), LedgerNext(service, l, e).0)
  {
    hide Kept, ResetError, Rehashed, HeldBy, Withdraw, WithdrawFrom;
    var (after, error) := LedgerNext(service, l, e);
    if error.None? {
      var jti, subject := e.claims.value.jti, e.claims.value.subject;
      var g :| g in l.grants && g.jti == jti && g.purpose == PasswordReset;
      InUse(past, l, g);
      StandingNeverCompleted(past, l, g);
      HeldAreGone(past, l, subject);
      WithdrawnAreGone(l, jti);
      WithdrawnTwice(l, jti, subject);
      var more := {jti} + HeldBy(l, subject);
      assert past.used + more == past.used;
      assert past.ended + {jti} + HeldBy(l, subject) == past.ended + more;
      FewerKept(past, l, more, after);
      FirstCompletion(past.(ended := past.ended + more), after, jti);
    }
  }

  lemma WithdrawnTwice(l: Ledger, jti: Jti, subject: UserId)
    ensures WithdrawFrom(Withdraw(l, jti), subject).grants <= WithdrawFrom(l, subject).grants
    ensures WithdrawFrom(Withdraw(l, jti), subject).grants <= Withdraw(l, jti).grants
  {}

  /** Every step keeps the invariant. */
  lemma StepKeeps(service: Service, past: Past, l: Ledger, e: Event)
    requires Kept(past, l) && Allowed(past.used, l.now, e)
    ensures Kept(Remember(service, past, l, e), LedgerNext(service, l, e).0)
  {
    hide Kept, Withdraw, Issue;
    match e
    case SignIn(_, _, _, _) => SignInKeeps(service, past, l, e);
    case Rotate(_, _, _) => RotateKeeps(service, past, l, e);
    case Revoke(jti, _, _) =>
      WithdrawnAreGone(l, jti);
      FewerKept(past, l, {jti}, Withdraw(l, jti));
    case ChangePassword(_, _, _, _) => ChangeKeeps(service, past, l, e);
    case RequestReset(subject, jti, expiresAt, _) =>
      UsedKept(past, l, jti);
      ResetIssuedKept(past, l, Grant(jti, subject, PasswordReset, expiresAt));
    case Reset(_, _, _) => ResetKeeps(service, past, l, e);
    case Prune =>
    case Tick(now) => FewerStandKept(past, l, LedgerNext(service, l, e).0);
    case EditUsers(_) => FewerStandKept(past, l, LedgerNext(service, l, e).0);
  }

  lemma FewerStandKept(past: Past, l: Ledger, fewer: Ledger)
    requires Kept(past, l) && fewer.grants <= l.grants
    ensures Kept(past, fewer)
  {}

  // ---------- every reachable state

  datatype System = System(state: State, past: Past)

  function SystemNext(service: Service, system: System, e: Event): System {
    System(Next(service, system.state, e).0, Remember(service, system.past, LedgerOf(system.state), e))
  }

  function SystemRun(service: Service, system: System, events: seq<Event>): System
    decreases |events|
  {
    if events == [] then system else SystemRun(service, SystemNext(service, system, events[0]), events[1..])
  }

  function Start(users: map<UserId, User>, now: int): System {
    System(State([], 0, users, now), Past({}, map[], {}, map[]))
  }

  ghost predicate SystemKept(system: System) {
    Sound(system.state, system.past.used) && Kept(system.past, LedgerOf(system.state))
  }

  lemma RememberUses(service: Service, past: Past, l: Ledger, e: Event)
    ensures Remember(service, past, l, e).used == Using(past.used, e)
    ensures past.ended <= Remember(service, past, l, e).ended
  {}

  lemma SystemStepKeeps(service: Service, system: System, e: Event)
    requires SystemKept(system) && Allowed(system.past.used, system.state.now, e)
    ensures SystemKept(SystemNext(service, system, e))
  {
    hide Next, LedgerNext, Remember, Kept, Sound, Allowed, Grants, Using;
    var l := LedgerOf(system.state);
    StepRefines(service, system.state, system.past.used, e);
    StepKeeps(service, system.past, l, e);
    RememberUses(service, system.past, l, e);
  }

  lemma {:induction false} RunKeeps(service: Service, system: System, events: seq<Event>)
    requires SystemKept(system) && AllAllowed(system.past.used, system.state.now, events)
    ensures SystemKept(SystemRun(service, system, events))
    ensures system.past.ended <= SystemRun(service, system, events).past.ended
    decreases |events|
  {
    hide SystemKept, Allowed, Next, Remember, LedgerOf, Using;
    if events != [] {
      SystemStepKeeps(service, system, events[0]);
      RememberUses(service, system.past, LedgerOf(system.state), events[0]);
      StepsClock(service, system.state, events[0]);
      RunKeeps(service, SystemNext(service, system, events[0]), events[1..]);
    }
  }

  lemma StartIsKept(users: map<UserId, User>, now: int)
    ensures SystemKept(Start(users, now))
  {}

  predicate Valid(s: State, jti: Jti, purpose: Purpose) {
    FirstUsable(s.rows, jti, purpose, s.now).Some?
  }

  /** In every reachable state a sign-in has at most one valid refresh token, however often it was
      rotated. */
  lemma OneValidRefreshTokenPerSignIn(
    service: Service, users: map<UserId, User>, now: int, events: seq<Event>, a: Jti, b: Jti)
    requires AllAllowed({}, now, events)
    ensures var system := SystemRun(service, Start(users, now), events);
            && (Valid(system.state, a, Refresh) ==> a in system.past.session)
            && (Valid(system.state, a, Refresh) && Valid(system.state, b, Refresh) ==>
                  (SessionOf(system.past, a) == SessionOf(system.past, b) ==> a == b))
  {
    hide SystemRun, AllAllowed, LedgerOf, Sound, FirstUsable;
    StartIsKept(users, now);
    RunKeeps(service, Start(users, now), events);
    var system := SystemRun(service, Start(users, now), events);
    ValidMeansGranted(system.state, a, Refresh);
    ValidMeansGranted(system.state, b, Refresh);
  }

  /** Event `k` of the run is a sign-in that drew `root`, with the password of a user who, in the state it
      found, may sign in. */
  ghost predicate SignedInAt(service: Service, start: System, events: seq<Event>, k: nat, root: Jti) {
    && k < |events|
    && events[k].SignIn? && events[k].jti == root
    && SignsIn(service, SystemRun(service, start, events[..k]).state.users, events[k].subject, events[k].password)
  }

  lemma SignedInStays(service: Service, start: System, events: seq<Event>, k: nat, root: Jti, more: seq<Event>)
    requires SignedInAt(service, start, events, k, root)
    ensures SignedInAt(service, start, events + more, k, root)
  {
    assert (events + more)[..k] == events[..k] && (events + more)[k] == events[k];
  }

  /** What one more event may add to the sessions: a sign-in its own, under the id it drew, if it succeeds;
      a rotation that of the token it spends, which has one. */
  lemma SessionsGrow(service: Service, system: System, e: Event, jti: Jti)
    requires SystemKept(system) && Allowed(system.past.used, system.state.now, e)
    requires jti in SystemNext(service, system, e).past.session
    ensures var root := SystemNext(service, system, e).past.session[jti];
            || (exists earlier | earlier in system.past.session :: system.past.session[earlier] == root)
            || (e.SignIn? && e.jti == root && SignsIn(service, system.state.users, e.subject, e.password))
  {
    hide Next, LedgerNext, Sound, Grants, Issue, Withdraw, SignInError;
    var past, l := system.past, LedgerOf(system.state);
    var later := Remember(service, past, l, e);
    if jti in past.session && later.session[jti] == past.session[jti] {
    } else if e.SignIn? {
      SignInNeedsThePassword(service, system.state, e);
      StepRefines(service, system.state, past.used, e);
    } else {
      assert e.Rotate? && e.claims.Some? && Granted(l, e.claims.value.jti, Refresh);
      var g :| g in l.grants && g.jti == e.claims.value.jti && g.purpose == Refresh;
      assert g.jti in past.session;
    }
  }

  lemma {:induction false} SessionsBeginWithAPassword(service: Service, start: System, events: seq<Event>, jti: Jti)
    requires SystemKept(start) && start.past.session == map[]
    requires AllAllowed(start.past.used, start.state.now, events)
    requires jti in SystemRun(service, start, events).past.session
    ensures exists k: nat ::
              SignedInAt(service, start, events, k, SystemRun(service, start, events).past.session[jti])
    decreases |events|
  {
    hide SystemKept, SystemNext, AllAllowed, SignedInAt;
    if events != [] {
      hide SystemRun;
      var n := |events| - 1;
      var before, e := events[..n], events[n];
      assert events == before + [e];
      RunInTwo(service, start, before, [e]);
      RunKeeps(service, start, before);
      var system := SystemRun(service, start, before);
      OneEvent(service, system, e);
      var last := SystemRun(service, start, events);
      SessionsGrow(service, system, e, jti);
      var root := last.past.session[jti];
      if earlier :| earlier in system.past.session && system.past.session[earlier] == root {
        SessionsBeginWithAPassword(service, start, before, earlier);
        var k: nat :| SignedInAt(service, start, before, k, root);
        SignedInStays(service, start, before, k, root, [e]);
      } else {
        assert SignedInAt(service, start, events, n, root) by {
          SignedInLast(service, start, before, e);
        }
      }
    }
  }

  lemma SignedInLast(service: Service, start: System, before: seq<Event>, e: Event)
    requires e.SignIn? && SignsIn(service, SystemRun(service, start, before).state.users, e.subject, e.password)
    ensures SignedInAt(service, start, before + [e], |before|, e.jti)
  {
    assert (before + [e])[..|before|] == before;
  }

  lemma OneEvent(service: Service, system: System, e: Event)
    ensures SystemRun(service, system, [e]) == SystemNext(service, system, e)
    ensures AllAllowed(system.past.used, system.state.now, [e]) ==>
              Allowed(system.past.used, system.state.now, e)
  {
    hide SystemNext, Allowed;
    assert [e][1..] == [];
  }

  /** Nobody holds a valid refresh token without a password: in every reachable state each descends, through
      rotations, from a sign-in of the run whose password verified against its user's hash as it then was,
      and whose user was confirmed then where that is required. */
  lemma EveryRefreshTokenBeganWithAPassword(
    service: Service, users: map<UserId, User>, now: int, events: seq<Event>, jti: Jti)
    requires AllAllowed({}, now, events)
    requires Valid(SystemRun(service, Start(users, now), events).state, jti, Refresh)
    ensures jti in SystemRun(service, Start(users, now), events).past.session
    ensures exists k: nat ::
              SignedInAt(service, Start(users, now), events, k,
                         SystemRun(service, Start(users, now), events).past.session[jti])
  {
    hide SystemRun, AllAllowed, SignedInAt, Valid;
    StartIsKept(users, now);
    OneValidRefreshTokenPerSignIn(service, users, now, events, jti, jti);
    SessionsBeginWithAPassword(service, Start(users, now), events, jti);
  }

  /** An id rotated away, revoked, spent on a reset, or ended with its user's password is valid in no
      later state of the run. */
  lemma EndedNeverValidAgain(service: Service, users: map<UserId, User>, now: int, before: seq<Event>,
                             after: seq<Event>,
                             jti: Jti, purpose: Purpose)
    requires AllAllowed({}, now, before + after) && purpose != Revocation
    requires jti in SystemRun(service, Start(users, now), before).past.ended
    ensures !Valid(SystemRun(service, Start(users, now), before + after).state, jti, purpose)
  {
    hide SystemRun, AllAllowed, LedgerOf, FirstUsable, Sound;
    StartIsKept(users, now);
    RunInTwo(service, Start(users, now), before, after);
    var middle := SystemRun(service, Start(users, now), before);
    RunKeeps(service, Start(users, now), before);
    RunKeeps(service, middle, after);
    var last := SystemRun(service, middle, after);
    ValidMeansGranted(last.state, jti, purpose);
  }

  lemma {:induction false} RunInTwo(service: Service, system: System, before: seq<Event>, after: seq<Event>)
    requires AllAllowed(system.past.used, system.state.now, before + after)
    ensures AllAllowed(system.past.used, system.state.now, before)
    ensures var middle := SystemRun(service, system, before);
            && AllAllowed(middle.past.used, middle.state.now, after)
            && SystemRun(service, system, before + after) == SystemRun(service, middle, after)
    decreases |before|
  {
    hide Allowed, Next, Remember, LedgerOf, Using;
    if before == [] {
      assert before + after == after;
    } else {
      assert (before + after)[1..] == before[1..] + after;
      RememberUses(service, system.past, LedgerOf(system.state), before[0]);
      StepsClock(service, system.state, before[0]);
      RunInTwo(service, SystemNext(service, system, before[0]), before[1..], after);
    }
  }

  /** A reset token completes at most one reset. */
  lemma ResetCompletesOnce(service: Service, users: map<UserId, User>, now: int, events: seq<Event>, jti: Jti)
    requires AllAllowed({}, now, events)
    ensures Completions(SystemRun(service, Start(users, now), events).past, jti) <= 1
  {
    hide SystemRun, AllAllowed, LedgerOf, Sound;
    StartIsKept(users, now);
    RunKeeps(service, Start(users, now), events);
  }

  /** A changed or reset password leaves its user no valid token from before. */
  lemma NewPasswordEndsEveryToken(service: Service, s: State, used: set<Jti>, e: Event, t: Token)
    requires Sound(s, used) && Allowed(used, s.now, e) && Next(service, s, e).1.None?
    requires e.ChangePassword? || (e.Reset? && e.claims.Some?)
    requires t in Next(service, s, e).0.rows && t.purpose != Revocation
    requires t.subject == if e.ChangePassword? then e.subject else e.claims.value.subject
    ensures !Usable(t, t.jti, t.purpose, Next(service, s, e).0.now)
  {
    hide Next, Sound, Allowed;
    StepRefines(service, s, used, e);
    var after := Next(service, s, e).0;
    GrantOfSome(after.rows, after.now, GrantOf(t));
    var subject := if e.ChangePassword? then e.subject else e.claims.value.subject;
    assert forall g | g in LedgerOf(after).grants :: g.subject != subject;
  }

  /** Ids must be new: whatever the store holds, a token stored under an id that was revoked just before
      is valid exactly when it has time to run. The revocation, flagged rows or tombstone, counts for
      nothing. */
  lemma TombstoneBlocksNothing(service: Service, s: State, jti: Jti, holder: Option<UserId>, until: int,
                               subject: UserId, expiresAt: int)
    ensures Valid(Stored(Next(service, s, Revoke(jti, holder, until)).0, jti, subject, Refresh, expiresAt), jti,
                  Refresh)
            <==> expiresAt > s.now
  {
    var revoked := Next(service, s, Revoke(jti, holder, until)).0;
    var stored := Stored(revoked, jti, subject, Refresh, expiresAt);
    RevokedRowsAreSpent(s.rows, s.nextId, jti, holder.UnwrapOr(0), until);
    FirstUsableIsUsable(stored.rows, jti, Refresh, s.now);
    assert stored.rows[|revoked.rows|] in stored.rows;
  }

  lemma RevokedRowsAreSpent(rows: seq<Token>, nextId: nat, jti: Jti, subject: UserId, until: int)
    ensures forall t | t in WithRevoked(rows, nextId, jti, subject, until) ::
              t.jti == jti ==> t.revoked || t.purpose == Revocation
  {
    var after := RevokedWhere(rows, OfJti(jti));
    forall t | t in after && t.jti == jti
      ensures t.revoked
    {
      var i :| 0 <= i < |after| && after[i] == t;
    }
  }

  /** A rotation with a valid token spends it before it reads the user. So it leaves the sign-in a
      valid refresh token exactly when the user is there still and the new token has time to run. */
  lemma RotationLeavesATokenExactlyForAUser(service: Service, system: System, e: Event)
    requires SystemKept(system) && e.Rotate? && e.claims.Some? && Allowed(system.past.used, system.state.now, e)
    requires Valid(system.state, e.claims.value.jti, Refresh)
    ensures var next := SystemNext(service, system, e);
            var leaves := e.claims.value.subject in system.state.users && e.expiresAt > system.state.now;
            && (Valid(next.state, e.jti, Refresh) <==> leaves)
            && ((exists jti :: Valid(next.state, jti, Refresh)
                               && SessionOf(next.past, jti) == SessionOf(system.past, e.claims.value.jti))
                <==> leaves)
  {
    hide Next, LedgerNext, Sound, FirstUsable, LedgerOf, Kept, SessionOf, Remember;
    var next, l, gone := SystemNext(service, system, e), LedgerOf(system.state), e.claims.value.jti;
    var leaves := e.claims.value.subject in system.state.users && e.expiresAt > system.state.now;
    StepRefines(service, system.state, system.past.used, e);
    SameUsers(system.state);
    ValidMeansGranted(system.state, gone, Refresh);
    ValidMeansGranted(next.state, e.jti, Refresh);
    RotatedLedger(service, system.past, l, e);
    if leaves {
      assert Valid(next.state, e.jti, Refresh);
    } else if jti :| Valid(next.state, jti, Refresh) && SessionOf(next.past, jti) == SessionOf(system.past, gone) {
      ValidMeansGranted(next.state, jti, Refresh);
    }
  }

  lemma SameUsers(s: State)
    ensures LedgerOf(s).users == s.users && LedgerOf(s).now == s.now
  {}

  lemma RotatedLedger(service: Service, past: Past, l: Ledger, e: Event)
    requires Kept(past, l) && e.Rotate? && e.claims.Some? && e.jti !in past.used
             && Granted(l, e.claims.value.jti, Refresh)
    ensures var after, later := LedgerNext(service, l, e).0, Remember(service, past, l, e);
            var leaves := e.claims.value.subject in l.users && e.expiresAt > l.now;
            && (Granted(after, e.jti, Refresh) <==> leaves)
            && (leaves ==> SessionOf(later, e.jti) == SessionOf(past, e.claims.value.jti))
            && (!leaves ==> forall jti | Granted(after, jti, Refresh) ::
                              SessionOf(later, jti) != SessionOf(past, e.claims.value.jti))
  {
    hide Kept;
    var gone := e.claims.value.jti;
    var after, later := LedgerNext(service, l, e).0, Remember(service, past, l, e);
    var g :| g in l.grants && g.jti == gone && g.purpose == Refresh;
    forall h | h in Withdraw(l, gone).grants
      ensures h.jti in past.used
      ensures h.purpose == Refresh ==> SessionOf(past, h.jti) != SessionOf(past, gone)
    {
      InUse(past, l, h);
      if h.purpose == Refresh {
        SpendingFreesItsSession(past, l, g, h);
      }
    }
    var issued := Grant(e.jti, e.claims.value.subject, Refresh, e.expiresAt);
    if e.claims.value.subject in l.users && e.expiresAt > l.now {
      assert issued in after.grants;
    } else {
      assert after.grants == Withdraw(l, gone).grants;
      assert forall jti | jti != e.jti :: SessionOf(later, jti) == SessionOf(past, jti);
    }
  }
}
