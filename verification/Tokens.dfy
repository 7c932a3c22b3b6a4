/**
 The database token store: its rows, and the queries and loops over them.
 */
module Tokens {
  import opened Wrappers

  type Jti = string
  type UserId = nat

  datatype Purpose = Refresh | PasswordReset | Revocation

  /** A stored row; `id` is its primary key. */
  datatype Token = Token(id: nat, jti: Jti, subject: UserId, purpose: Purpose, expiresAt: int, revoked: bool)

  datatype Query = OfJti(jti: Jti) | ActiveOf(subject: UserId) | ExpiredBy(now: int) {
    predicate Matches(t: Token) {
      match this
      case OfJti(jti) => t.jti == jti
      case ActiveOf(subject) => t.subject == subject && !t.revoked
      case ExpiredBy(now) => t.expiresAt < now
    }
  }

  // ---------- rows

  ghost predicate UniqueIds(rows: seq<Token>) {
    forall i, j | 0 <= i < j < |rows| :: rows[i].id != rows[j].id
  }

  ghost predicate IdsBelow(rows: seq<Token>, nextId: nat) {
    forall i | 0 <= i < |rows| :: rows[i].id < nextId
  }

  predicate Usable(t: Token, jti: Jti, purpose: Purpose, now: int) {
    t.jti == jti && t.purpose == purpose && !t.revoked && t.expiresAt > now
  }

  /** The first row that `get_valid_token` takes. */
  function FirstUsable(rows: seq<Token>, jti: Jti, purpose: Purpose, now: int): Option<Token> {
    if rows == [] then None
    else if Usable(rows[0], jti, purpose, now) then Some(rows[0])
    else FirstUsable(rows[1..], jti, purpose, now)
  }

  function Matching(rows: seq<Token>, query: Query): (found: seq<Token>)
    ensures forall t :: t in found <==> t in rows && query.Matches(t)
  {
    if rows == [] then []
    else (if query.Matches(rows[0]) then [rows[0]] else []) + Matching(rows[1..], query)
  }

  function Ids(rows: seq<Token>): set<nat> {
    set t | t in rows :: t.id
  }

  function RevokeIf(t: Token, yes: bool): Token {
    if yes then t.(revoked := true) else t
  }

  function RevokedIds(rows: seq<Token>, ids: set<nat>): seq<Token> {
    seq(|rows|, i requires 0 <= i < |rows| => RevokeIf(rows[i], rows[i].id in ids))
  }

  function RevokedWhere(rows: seq<Token>, query: Query): seq<Token> {
    seq(|rows|, i requires 0 <= i < |rows| => RevokeIf(rows[i], query.Matches(rows[i])))
  }

  function DroppedIds(rows: seq<Token>, ids: set<nat>): seq<Token> {
    if rows == [] then []
    else (if rows[0].id in ids then [] else [rows[0]]) + DroppedIds(rows[1..], ids)
  }

  /** What pruning keeps. */
  function Unexpired(rows: seq<Token>, now: int): seq<Token> {
    if rows == [] then []
    else (if rows[0].expiresAt < now then [] else [rows[0]]) + Unexpired(rows[1..], now)
  }

  /** The rows after revoking a token id: its rows are flagged, or a tombstone stands in for them. */
  function WithRevoked(rows: seq<Token>, nextId: nat, jti: Jti, subject: UserId, expiresAt: int): seq<Token> {
    if exists t | t in rows :: t.jti == jti then RevokedWhere(rows, OfJti(jti))
    else rows + [Token(nextId, jti, subject, Revocation, expiresAt, false)]
  }

  lemma RevokedTwice(rows: seq<Token>, a: set<nat>, b: set<nat>)
    ensures RevokedIds(RevokedIds(rows, a), b) == RevokedIds(rows, a + b)
  {}

  lemma {:induction false} DroppedTwice(rows: seq<Token>, a: set<nat>, b: set<nat>)
    ensures DroppedIds(DroppedIds(rows, a), b) == DroppedIds(rows, a + b)
  {
    if rows != [] {
      DroppedTwice(rows[1..], a, b);
      var rest := DroppedIds(rows[1..], a);
      if rows[0].id in a {
        assert DroppedIds(rows, a) == rest;
      } else {
        var kept := [rows[0]] + rest;
        assert kept[1..] == rest && DroppedIds(rows, a) == kept;
      }
    }
  }

  lemma {:induction false} DroppedNone(rows: seq<Token>)
    ensures DroppedIds(rows, Ids([])) == rows
  {
    if rows != [] {
      DroppedNone(rows[1..]);
    }
  }

  lemma SameRow(rows: seq<Token>, found: seq<Token>, i: nat)
    requires UniqueIds(rows) && i < |rows| && forall t | t in found :: t in rows
    ensures rows[i].id in Ids(found) <==> rows[i] in found
  {
    if rows[i].id in Ids(found) {
      var t :| t in found && t.id == rows[i].id;
      var j :| 0 <= j < |rows| && rows[j] == t;
      assert i == j;
    }
  }

  /** Revoking each row a query finds, one by one, is revoking all the query's rows. */
  lemma RevokingEach(rows: seq<Token>, query: Query)
    requires UniqueIds(rows)
    ensures RevokedIds(rows, Ids(Matching(rows, query))) == RevokedWhere(rows, query)
  {
    var found := Matching(rows, query);
    forall i | 0 <= i < |rows|
      ensures rows[i].id in Ids(found) <==> query.Matches(rows[i])
    {
      SameRow(rows, found, i);
    }
  }

  lemma {:induction false} DroppingEach(rows: seq<Token>, ids: set<nat>, now: int)
    requires forall i | 0 <= i < |rows| :: rows[i].id in ids <==> rows[i].expiresAt < now
    ensures DroppedIds(rows, ids) == Unexpired(rows, now)
  {
    if rows != [] {
      assert forall i | 0 <= i < |rows[1..]| :: rows[1..][i] == rows[i + 1];
      DroppingEach(rows[1..], ids, now);
    }
  }

  lemma ExpiredIds(rows: seq<Token>, now: int)
    requires UniqueIds(rows)
    ensures forall i | 0 <= i < |rows| :: rows[i].id in Ids(Matching(rows, ExpiredBy(now))) <==> rows[i].expiresAt < now
  {
    var found := Matching(rows, ExpiredBy(now));
    forall i | 0 <= i < |rows|
      ensures rows[i].id in Ids(found) <==> rows[i].expiresAt < now
    {
      SameRow(rows, found, i);
    }
  }

  lemma {:induction false} UnexpiredRows(rows: seq<Token>, now: int)
    ensures forall t :: t in Unexpired(rows, now) <==> t in rows && t.expiresAt >= now
  {
    if rows != [] {
      UnexpiredRows(rows[1..], now);
    }
  }

  lemma {:induction false} UnexpiredKeepsIds(rows: seq<Token>, now: int, nextId: nat)
    requires UniqueIds(rows) && IdsBelow(rows, nextId)
    ensures UniqueIds(Unexpired(rows, now)) && IdsBelow(Unexpired(rows, now), nextId)
  {
    if rows != [] {
      var rest := Unexpired(rows[1..], now);
      assert forall i | 0 <= i < |rows[1..]| :: rows[1..][i] == rows[i + 1];
      UnexpiredKeepsIds(rows[1..], now, nextId);
      UnexpiredRows(rows[1..], now);
      forall i | 0 <= i < |rest|
        ensures rest[i].id != rows[0].id
      {
        assert rest[i] in rows[1..];
      }
    }
  }

  /** The first usable row is usable, and there is one whenever any row is. */
  lemma {:induction false} FirstUsableIsUsable(rows: seq<Token>, jti: Jti, purpose: Purpose, now: int)
    ensures match FirstUsable(rows, jti, purpose, now)
            case Some(t) => t in rows && Usable(t, jti, purpose, now)
            case None => forall t | t in rows :: !Usable(t, jti, purpose, now)
  {
    if rows != [] {
      FirstUsableIsUsable(rows[1..], jti, purpose, now);
    }
  }

  // ---------- the store

  class TokenStore {
    var rows: seq<Token>
    var nextId: nat

    ghost predicate Valid()
      reads this
    {
      UniqueIds(rows) && IdsBelow(rows, nextId)
    }

    constructor ()
      ensures Valid() && rows == [] && nextId == 0
    {
      rows, nextId := [], 0;
    }

    method StoreToken(jti: Jti, subject: UserId, purpose: Purpose, expiresAt: int)
      requires Valid()
      modifies this
      ensures Valid() && nextId == old(nextId) + 1
      ensures rows == old(rows) + [Token(old(nextId), jti, subject, purpose, expiresAt, false)]
    {
      rows := rows + [Token(nextId, jti, subject, purpose, expiresAt, false)];
      nextId := nextId + 1;
    }

    method GetValidToken(jti: Jti, purpose: Purpose, now: int) returns (found: Option<Token>)
      ensures found == FirstUsable(rows, jti, purpose, now)
    {
      assert rows[0..] == rows;
      for i := 0 to |rows|
        invariant FirstUsable(rows[i..], jti, purpose, now) == FirstUsable(rows, jti, purpose, now)
      {
        assert rows[i..][1..] == rows[i + 1..];
        if Usable(rows[i], jti, purpose, now) {
          return Some(rows[i]);
        }
      }
      return None;
    }

    /** Flags one row, found by its primary key. */
    method RevokeRow(id: nat)
      requires Valid()
      modifies this`rows
      ensures Valid() && rows == RevokedIds(old(rows), {id})
    {
      rows := RevokedIds(rows, {id});
    }

    method DestroyRow(id: nat)
      requires Valid()
      modifies this`rows
      ensures rows == DroppedIds(old(rows), {id})
    {
      rows := DroppedIds(rows, {id});
    }

    method RevokeToken(jti: Jti, subject: Option<UserId>, expiresAt: int)
      requires Valid()
      modifies this
      ensures Valid() && nextId >= old(nextId)
      ensures rows == WithRevoked(old(rows), old(nextId), jti, subject.UnwrapOr(0), expiresAt)
      ensures nextId == old(nextId) + |rows| - |old(rows)|
    {
      hide Matching, Ids, UniqueIds, IdsBelow;
      var existing := Matching(rows, OfJti(jti));
      if existing == [] {
        assert forall t | t in rows :: t.jti != jti;
        StoreToken(jti, subject.UnwrapOr(0), Revocation, expiresAt);
      } else {
        assert existing[0] in rows;
        ghost var was := rows;
        RevokedIdsNone(rows);
        for i := 0 to |existing|
          invariant Valid() && nextId == old(nextId)
          invariant rows == RevokedIds(was, Ids(existing[..i]))
        {
          assert existing[i] in existing;
          IdsOfMore(existing, i);
          RevokedTwice(was, Ids(existing[..i]), {existing[i].id});
          if !existing[i].revoked {
            RevokeRow(existing[i].id);
          } else {
            AlreadyRevoked(was, existing, i);
          }
        }
        assert existing[..|existing|] == existing;
        RevokingEach(was, OfJti(jti));
      }
    }

    /** Flags every active row of a subject, and counts them. */
    method RevokeAllForSubject(subject: UserId) returns (count: nat)
      requires Valid()
      modifies this`rows
      ensures Valid() && rows == RevokedWhere(old(rows), ActiveOf(subject))
      ensures count == |Matching(old(rows), ActiveOf(subject))|
    {
      var tokens := Matching(rows, ActiveOf(subject));
      count := |tokens|;
      ghost var was := rows;
      RevokedIdsNone(rows);
      for i := 0 to |tokens|
        invariant Valid()
        invariant rows == RevokedIds(was, Ids(tokens[..i]))
      {
        IdsOfMore(tokens, i);
        RevokedTwice(was, Ids(tokens[..i]), {tokens[i].id});
        RevokeRow(tokens[i].id);
      }
      assert tokens[..|tokens|] == tokens;
      RevokingEach(was, ActiveOf(subject));
    }

    method PruneExpired(now: int) returns (count: nat)
      requires Valid()
      modifies this`rows
      ensures Valid() && rows == Unexpired(old(rows), now)
      ensures count == |Matching(old(rows), ExpiredBy(now))|
    {
      var expired := Matching(rows, ExpiredBy(now));
      count := |expired|;
      ghost var was := rows;
      DroppedNone(rows);
      for i := 0 to |expired|
        invariant Valid()
        invariant rows == DroppedIds(was, Ids(expired[..i]))
      {
        IdsOfMore(expired, i);
        DroppedTwice(was, Ids(expired[..i]), {expired[i].id});
        DroppedKeepsIds(rows, {expired[i].id}, nextId);
        DestroyRow(expired[i].id);
      }
      assert expired[..|expired|] == expired;
      ExpiredIds(was, now);
      DroppingEach(was, Ids(expired), now);
    }
  }

  lemma RevokedIdsNone(rows: seq<Token>)
    ensures RevokedIds(rows, Ids([])) == rows
  {}

  lemma IdsOfMore(rows: seq<Token>, i: nat)
    requires i < |rows|
    ensures Ids(rows[..i + 1]) == Ids(rows[..i]) + {rows[i].id}
  {
    assert rows[..i + 1] == rows[..i] + [rows[i]];
  }

  lemma AlreadyRevoked(rows: seq<Token>, found: seq<Token>, i: nat)
    requires UniqueIds(rows) && i < |found| && found[i] in rows && found[i].revoked
    ensures RevokedIds(rows, Ids(found[..i])) == RevokedIds(rows, Ids(found[..i]) + {found[i].id})
  {
    var j :| 0 <= j < |rows| && rows[j] == found[i];
    assert forall k | 0 <= k < |rows| && rows[k].id == found[i].id :: k == j;
  }

  lemma {:induction false} DroppedRows(rows: seq<Token>, ids: set<nat>)
    ensures forall t :: t in DroppedIds(rows, ids) <==> t in rows && t.id !in ids
  {
    if rows != [] {
      DroppedRows(rows[1..], ids);
    }
  }

  lemma {:induction false} DroppedKeepsIds(rows: seq<Token>, ids: set<nat>, nextId: nat)
    requires UniqueIds(rows) && IdsBelow(rows, nextId)
    ensures UniqueIds(DroppedIds(rows, ids)) && IdsBelow(DroppedIds(rows, ids), nextId)
  {
    if rows != [] {
      var rest := DroppedIds(rows[1..], ids);
      assert forall i | 0 <= i < |rows[1..]| :: rows[1..][i] == rows[i + 1];
      DroppedKeepsIds(rows[1..], ids, nextId);
      DroppedRows(rows[1..], ids);
      forall i | 0 <= i < |rest|
        ensures rest[i].id != rows[0].id
      {
        assert rest[i] in rows[1..];
      }
    }
  }
}
