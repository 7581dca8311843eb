/**
  Refresh-token rotation with families, reuse detection, an idle limit and an absolute
  limit, as in section 10.4 of RFC 6749. Every write to the token table is one atomic step:
  the calls of the repository, the nightly deletion of expired rows, and the erasure of a
  user. Any number of requests interleave, and a request may die between two steps.

  `issued`, `families`, `place` and `parent` record what happened: every row as it was
  inserted, the rows of each family in the order they were inserted, the position of each
  row there, and the row each rotation replaced. They decide no step; only the freshness of
  random ids and tokens is said with them.
 */
module RefreshTokens {
  import opened Common

  const REFRESH_TOKEN_TTL_MS := 7 * 24 * 60 * 60 * 1000
  const ABSOLUTE_SESSION_MAX_MS := 30 * 24 * 60 * 60 * 1000

  datatype Token = Token(
    id: nat,
    tokenHash: string,
    userId: nat,
    familyId: nat,
    createdAt: int,
    expiresAt: int,
    familySessionExpiresAt: int,
    revokedAt: Option<int>)

  type Table = map<nat, Token>

  /** What a request still has to do after the step it took last. */
  datatype Request =
    | Checked(stored: Token)       // refresh: the row passed its checks
    | RevokingFamily(familyId: nat)  // refresh: reuse or session limit, family to be revoked
    | Rotating(stored: Token)      // refresh: won the conditional revoke, has to insert
    | RevokingOne(id: nat)         // logout, revokeSession

  /** What the login that started a family fixed, and the rows of the family as they were inserted. */
  datatype Family = Family(userId: nat, sessionEnd: int, loginAt: int, line: seq<nat>)

  datatype State = State(
    now: int,
    tokens: Table,
    requests: map<nat, Request>,
    issued: Table,
    families: map<nat, Family>,
    place: map<nat, nat>,
    parent: map<nat, nat>)

  datatype Event =
    | Tick(ms: nat)
    | Login(userId: nat, id: nat, tokenHash: string, familyId: nat, issuedAt: int, startedAt: int)
    | RefreshRead(req: nat, tokenHash: string)
    | UserMissing(req: nat)
    | RefreshCas(req: nat)
    | RefreshInsert(req: nat, id: nat, tokenHash: string, issuedAt: int)
    | FamilyRevoke(req: nat)
    | LogoutRead(req: nat, userId: nat, tokenHash: string)
    | SessionRead(req: nat, userId: nat, id: nat)
    | RevokeById(req: nat)
    | RevokeAll(userId: nat)
    | Purge                  // the nightly job
    | Erase(userId: nat)     // the erasure of a user's data
    | Die(req: nat)

  // ---- The repository calls on the table ----

  predicate Active(t: Table, id: nat) {
    id in t && t[id].revokedAt.None?
  }

  function Revoked(t: Token, now: int): Token {
    t.(revokedAt := Some(now))
  }

  function RevokeOne(t: Table, id: nat, now: int): Table {
    if id in t then t[id := Revoked(t[id], now)] else t
  }

  function RevokeFamily(t: Table, familyId: nat, now: int): Table {
    map id | id in t ::
      if t[id].familyId == familyId && t[id].revokedAt.None? then Revoked(t[id], now) else t[id]
  }

  function RevokeUser(t: Table, userId: nat, now: int): Table {
    map id | id in t ::
      if t[id].userId == userId && t[id].revokedAt.None? then Revoked(t[id], now) else t[id]
  }

  /** Past one of its two limits. */
  predicate Expired(t: Token, now: int) {
    t.expiresAt < now || t.familySessionExpiresAt < now
  }

  function DeleteExpired(t: Table, now: int): Table {
    map id | id in t && !Expired(t[id], now) :: t[id]
  }

  function DeleteUser(t: Table, userId: nat): Table {
    map id | id in t && t[id].userId != userId :: t[id]
  }

  ghost function FindByHash(t: Table, tokenHash: string): (r: Option<Token>)
    ensures r.Some? ==> exists id :: id in t && t[id] == r.value && r.value.tokenHash == tokenHash
    ensures r.None? ==> forall id :: id in t ==> t[id].tokenHash != tokenHash
  {
    if id :| id in t && t[id].tokenHash == tokenHash then Some(t[id]) else None
  }

  /** A random id and a random token are none that was ever drawn before. */
  predicate Fresh(s: State, id: nat, tokenHash: string) {
    id !in s.issued && forall i :: i in s.issued ==> s.issued[i].tokenHash != tokenHash
  }

  // ---- Steps ----

  /** What `refresh` does with the row it found: go on, revoke the family, or give up. */
  function RefreshChecks(t: Token, now: int): Option<Request> {
    if t.revokedAt.Some? then Some(RevokingFamily(t.familyId))
    else if t.expiresAt < now then None
    else if t.familySessionExpiresAt < now then Some(RevokingFamily(t.familyId))
    else Some(Checked(t))
  }

  ghost predicate Enabled(s: State, e: Event) {
    match e
    case Tick(_) => true
    case Login(_, id, h, f, issuedAt, startedAt) =>
      Fresh(s, id, h) && f !in s.families && issuedAt <= startedAt <= s.now
    case RefreshRead(req, h) => req !in s.requests && FindByHash(s.tokens, h).Some?
    case UserMissing(req) => req in s.requests && s.requests[req].Checked?
    case RefreshCas(req) => req in s.requests && s.requests[req].Checked?
    case RefreshInsert(req, id, h, issuedAt) =>
      req in s.requests && s.requests[req].Rotating? && Fresh(s, id, h) && issuedAt <= s.now
    case FamilyRevoke(req) => req in s.requests && s.requests[req].RevokingFamily?
    case LogoutRead(req, u, h) => req !in s.requests && FindByHash(s.tokens, h).Some?
    case SessionRead(req, u, id) => req !in s.requests && id in s.tokens
    case RevokeById(req) => req in s.requests && s.requests[req].RevokingOne?
    case RevokeAll(_) => true
    case Purge => true
    case Erase(_) => true
    case Die(req) => req in s.requests
  }

  /** `logout` and `revokeSession` act on the caller's own unrevoked row only. */
  function OwnRowToRevoke(t: Token, userId: nat): Option<Request> {
    if t.userId == userId && t.revokedAt.None? then Some(RevokingOne(t.id)) else None
  }

  function Proceed(requests: map<nat, Request>, req: nat, next: Option<Request>): map<nat, Request> {
    if next.Some? then requests[req := next.value] else requests - {req}
  }

  function NewToken(id: nat, h: string, userId: nat, familyId: nat, now: int, issuedAt: int, sessionEnd: int): Token {
    Token(id, h, userId, familyId, now, issuedAt + REFRESH_TOKEN_TTL_MS, sessionEnd, None)
  }

  function AfterLogin(s: State, userId: nat, id: nat, h: string, f: nat, issuedAt: int, startedAt: int): State {
    var sessionEnd := startedAt + ABSOLUTE_SESSION_MAX_MS;
    var t := NewToken(id, h, userId, f, s.now, issuedAt, sessionEnd);
    s.(tokens := s.tokens[id := t], issued := s.issued[id := t],
       families := s.families[f := Family(userId, sessionEnd, s.now, [id])],
       place := s.place[id := 0])
  }

  function AfterRead(s: State, req: nat, next: Option<Request>): State {
    s.(requests := Proceed(s.requests, req, next))
  }

  /** The conditional revoke: whoever finds the row unrevoked goes on to insert its successor. */
  function AfterCas(s: State, req: nat, t: Token): State {
    if Active(s.tokens, t.id) then
      s.(tokens := RevokeOne(s.tokens, t.id, s.now), requests := s.requests[req := Rotating(t)])
    else
      s.(requests := s.requests[req := RevokingFamily(t.familyId)])
  }

  function AfterInsert(s: State, req: nat, t: Token, id: nat, h: string, issuedAt: int): State {
    var fam := if t.familyId in s.families then s.families[t.familyId] else Family(t.userId, 0, 0, []);
    var t' := NewToken(id, h, t.userId, t.familyId, s.now, issuedAt, t.familySessionExpiresAt);
    s.(tokens := s.tokens[id := t'], issued := s.issued[id := t'], requests := s.requests - {req},
       families := s.families[t.familyId := fam.(line := fam.line + [id])],
       place := s.place[id := |fam.line|],
       parent := s.parent[id := t.id])
  }

  function AfterRevoke(s: State, requests: map<nat, Request>, tokens: Table): State {
    s.(tokens := tokens, requests := requests)
  }

  /** One atomic step; a step that cannot be taken leaves everything as it is. */
  ghost function Step(s: State, e: Event): State {
    if !Enabled(s, e) then s
    else match e
    case Tick(ms) => s.(now := s.now + ms)
    case Login(u, id, h, f, issuedAt, startedAt) => AfterLogin(s, u, id, h, f, issuedAt, startedAt)
    case RefreshRead(req, h) => AfterRead(s, req, RefreshChecks(FindByHash(s.tokens, h).value, s.now))
    case LogoutRead(req, u, h) => AfterRead(s, req, OwnRowToRevoke(FindByHash(s.tokens, h).value, u))
    case SessionRead(req, u, id) => AfterRead(s, req, OwnRowToRevoke(s.tokens[id], u))
    case RefreshCas(req) => AfterCas(s, req, s.requests[req].stored)
    case RefreshInsert(req, id, h, issuedAt) => AfterInsert(s, req, s.requests[req].stored, id, h, issuedAt)
    case FamilyRevoke(req) =>
      AfterRevoke(s, s.requests - {req}, RevokeFamily(s.tokens, s.requests[req].familyId, s.now))
    case RevokeById(req) => AfterRevoke(s, s.requests - {req}, RevokeOne(s.tokens, s.requests[req].id, s.now))
    case RevokeAll(u) => AfterRevoke(s, s.requests, RevokeUser(s.tokens, u, s.now))
    case Purge => s.(tokens := DeleteExpired(s.tokens, s.now))
    case Erase(u) => s.(tokens := DeleteUser(s.tokens, u))
    case UserMissing(req) => s.(requests := s.requests - {req})
    case Die(req) => s.(requests := s.requests - {req})
  }

  ghost function Exec(s: State, es: seq<Event>): State {
    if es == [] then s else Step(Exec(s, es[..|es| - 1]), es[|es| - 1])
  }

  ghost predicate Init(s: State) {
    && s.tokens == map[] && s.requests == map[]
    && s.issued == map[] && s.families == map[] && s.place == map[] && s.parent == map[]
  }

  // ---- The invariant ----

  /** Two readings of one row differ at most in the time of revocation, which is never undone. */
  predicate Later(t: Token, t': Token) {
    t'.(revokedAt := t.revokedAt) == t && (t.revokedAt.Some? ==> t'.revokedAt.Some?)
  }

  /** A row that was ever inserted has its place in its family. */
  ghost predicate RowInv(s: State, id: nat)
    requires id in s.issued
  {
    var t := s.issued[id];
    && t.id == id && t.revokedAt.None? && t.familyId in s.families && id in s.place
    && var fam, i := s.families[t.familyId], s.place[id];
    && i < |fam.line| && fam.line[i] == id
    && t.userId == fam.userId && t.familySessionExpiresAt == fam.sessionEnd
    && t.createdAt <= s.now && t.expiresAt <= t.createdAt + REFRESH_TOKEN_TTL_MS
    && (if i == 0 then id !in s.parent else id in s.parent && s.parent[id] == fam.line[i - 1])
  }

  /** What the table holds was inserted once; all rows but the newest of a family are revoked. */
  ghost predicate TokenInv(s: State, id: nat)
    requires id in s.tokens
  {
    id in s.issued && Later(s.issued[id], s.tokens[id]) && (!IsNewest(s, id) ==> s.tokens[id].revokedAt.Some?)
  }

  ghost predicate Member(s: State, f: nat, i: nat)
    requires f in s.families && i < |s.families[f].line|
  {
    var id := s.families[f].line[i];
    id in s.issued && s.issued[id].familyId == f && id in s.place && s.place[id] == i
  }

  ghost predicate FamilyInv(s: State, f: nat)
    requires f in s.families
  {
    && s.families[f].line != []
    && s.families[f].sessionEnd <= s.families[f].loginAt + ABSOLUTE_SESSION_MAX_MS
    && (forall i {:trigger Member(s, f, i)} :: 0 <= i < |s.families[f].line| ==> Member(s, f, i))
  }

  predicate IsNewest(s: State, id: nat) {
    && id in s.issued && s.issued[id].familyId in s.families && id in s.place
    && s.place[id] == |s.families[s.issued[id].familyId].line| - 1
  }

  /** A rotation in flight replaces the newest row of its family, which is not usable any more. */
  ghost predicate RequestInv(s: State, r: nat)
    requires r in s.requests
  {
    match s.requests[r]
    case Checked(t) =>
      t.id in s.issued && Later(s.issued[t.id], t) && (t.id in s.tokens ==> Later(t, s.tokens[t.id]))
    case Rotating(t) =>
      t.id in s.issued && Later(s.issued[t.id], t) && !Active(s.tokens, t.id) && IsNewest(s, t.id)
    case RevokingFamily(f) => f in s.families
    case RevokingOne(id) => id in s.issued
  }

  predicate RotatesIn(s: State, r: nat, f: nat) {
    r in s.requests && s.requests[r].Rotating? && s.requests[r].stored.familyId == f
  }

  ghost predicate OneRotation(s: State) {
    forall r, q, f :: RotatesIn(s, r, f) && RotatesIn(s, q, f) ==> r == q
  }

  ghost predicate UniqueHashes(issued: Table) {
    forall i, j :: i in issued && j in issued && issued[i].tokenHash == issued[j].tokenHash ==> i == j
  }

  ghost predicate Inv(s: State) {
    && (forall id :: id in s.issued ==> RowInv(s, id))
    && (forall id :: id in s.tokens ==> TokenInv(s, id))
    && (forall f :: f in s.families ==> FamilyInv(s, f))
    && (forall r :: r in s.requests ==> RequestInv(s, r))
    && (forall id :: id in s.parent ==> id in s.issued)
    && UniqueHashes(s.issued) && OneRotation(s)
  }

  // ---- Every step keeps the invariant ----

  ghost predicate SameRecords(s: State, s': State) {
    s'.issued == s.issued && s'.families == s.families && s'.place == s.place && s'.parent == s.parent
  }

  /** Rows were revoked or deleted at most; nothing was inserted. */
  ghost predicate NothingInserted(s: State, s': State) {
    && (forall id :: id in s'.tokens ==> id in s.tokens && Later(s.tokens[id], s'.tokens[id]))
    && s.now <= s'.now && SameRecords(s, s')
  }

  lemma QuietKeepsRows(s: State, s': State)
    requires Inv(s) && NothingInserted(s, s')
    ensures forall id :: id in s'.issued ==> RowInv(s', id)
    ensures forall id :: id in s'.tokens ==> TokenInv(s', id)
    ensures forall f :: f in s'.families ==> FamilyInv(s', f)
  {
    forall id | id in s'.issued
      ensures RowInv(s', id)
    {
      assert RowInv(s, id);
    }
    forall id | id in s'.tokens
      ensures TokenInv(s', id)
    {
      assert TokenInv(s, id) && Later(s.tokens[id], s'.tokens[id]);
    }
    forall f | f in s'.families
      ensures FamilyInv(s', f)
    {
      assert FamilyInv(s, f);
      forall i | 0 <= i < |s'.families[f].line|
        ensures Member(s', f, i)
      {
        assert Member(s, f, i);
      }
    }
  }

  lemma QuietKeepsRequest(s: State, s': State, r: nat)
    requires Inv(s) && NothingInserted(s, s')
    requires r in s.requests && r in s'.requests && s.requests[r] == s'.requests[r]
    ensures RequestInv(s', r)
  {
    assert RequestInv(s, r);
    match s.requests[r]
    case Checked(t) => assert t.id in s'.tokens ==> Later(s.tokens[t.id], s'.tokens[t.id]);
    case Rotating(t) => assert t.id in s'.tokens ==> Later(s.tokens[t.id], s'.tokens[t.id]);
    case _ =>
  }

  /** Steps that revoke, delete or only move one request on, without starting a rotation. */
  lemma QuietStepKeepsInv(s: State, s': State)
    requires Inv(s) && NothingInserted(s, s')
    requires forall r :: r in s'.requests ==>
               || (r in s.requests && s.requests[r] == s'.requests[r])
               || (RequestInv(s', r) && !s'.requests[r].Rotating?)
    ensures Inv(s')
  {
    QuietKeepsRows(s, s');
    forall r | r in s'.requests
      ensures RequestInv(s', r)
    {
      if r in s.requests && s.requests[r] == s'.requests[r] {
        QuietKeepsRequest(s, s', r);
      }
    }
    forall r, q, f | RotatesIn(s', r, f) && RotatesIn(s', q, f)
      ensures r == q
    {
      assert RotatesIn(s, r, f) && RotatesIn(s, q, f);
    }
  }

  lemma ActiveIsNewest(s: State, id: nat)
    requires Inv(s) && Active(s.tokens, id)
    ensures IsNewest(s, id) && s.tokens[id].familyId == s.issued[id].familyId
  {
    assert TokenInv(s, id);
  }

  lemma NewestIsOne(s: State, id: nat, id': nat)
    requires Inv(s) && IsNewest(s, id) && IsNewest(s, id') && s.issued[id].familyId == s.issued[id'].familyId
    ensures id == id'
  {
    assert RowInv(s, id) && RowInv(s, id');
  }

  /** While a row is unrevoked no rotation of its family is in flight. */
  lemma ActiveExcludesRotation(s: State, id: nat, r: nat)
    requires Inv(s) && Active(s.tokens, id) && r in s.requests
    ensures !RotatesIn(s, r, s.tokens[id].familyId)
  {
    if RotatesIn(s, r, s.tokens[id].familyId) {
      assert RequestInv(s, r);
      ActiveIsNewest(s, id);
      NewestIsOne(s, id, s.requests[r].stored.id);
    }
  }

  lemma LostCasKeepsInv(s: State, req: nat, t: Token)
    requires Inv(s) && t.familyId in s.families && !Active(s.tokens, t.id)
    ensures Inv(AfterCas(s, req, t))
  {
    QuietStepKeepsInv(s, AfterCas(s, req, t));
  }

  lemma CasKeepsInv(s: State, req: nat, t: Token)
    requires Inv(s) && req in s.requests && s.requests[req] == Checked(t)
    ensures Inv(AfterCas(s, req, t))
  {
    assert RequestInv(s, req);
    assert RowInv(s, t.id);
    if !Active(s.tokens, t.id) {
      LostCasKeepsInv(s, req, t);
    } else {
      WonCasKeepsInv(s, req, t);
    }
  }

  lemma CasOnlyRevokes(s: State, req: nat, t: Token)
    requires Active(s.tokens, t.id)
    ensures NothingInserted(s, AfterCas(s, req, t)) && !Active(AfterCas(s, req, t).tokens, t.id)
  {}

  lemma WonCasKeepsOthers(s: State, req: nat, t: Token, r: nat, f: nat)
    requires Inv(s) && Active(s.tokens, t.id) && t.familyId == s.tokens[t.id].familyId
    requires r != req && RotatesIn(AfterCas(s, req, t), r, f)
    ensures f != t.familyId && RotatesIn(s, r, f)
  {
    ActiveExcludesRotation(s, t.id, r);
  }

  lemma WinnerRotates(s: State, req: nat, t: Token)
    requires Active(s.tokens, t.id) && IsNewest(s, t.id) && Later(s.issued[t.id], t)
    ensures RequestInv(AfterCas(s, req, t), req)
  {}

  lemma WonCasKeepsRequests(s: State, req: nat, t: Token, r: nat)
    requires Inv(s) && Active(s.tokens, t.id) && IsNewest(s, t.id) && Later(s.issued[t.id], t)
    requires r in AfterCas(s, req, t).requests
    ensures RequestInv(AfterCas(s, req, t), r)
  {
    CasOnlyRevokes(s, req, t);
    if r == req {
      WinnerRotates(s, req, t);
    } else {
      QuietKeepsRequest(s, AfterCas(s, req, t), r);
    }
  }

  lemma WonCasKeepsOneRotation(s: State, req: nat, t: Token)
    requires Inv(s) && Active(s.tokens, t.id) && t.familyId == s.tokens[t.id].familyId
    ensures OneRotation(AfterCas(s, req, t))
  {
    var s' := AfterCas(s, req, t);
    forall r, q, f | RotatesIn(s', r, f) && RotatesIn(s', q, f)
      ensures r == q
    {
      if r != req {
        WonCasKeepsOthers(s, req, t, r, f);
      }
      if q != req {
        WonCasKeepsOthers(s, req, t, q, f);
      }
    }
  }

  lemma WonCasKeepsInv(s: State, req: nat, t: Token)
    requires Inv(s) && req in s.requests && s.requests[req] == Checked(t)
    requires Active(s.tokens, t.id) && t.id in s.issued && Later(s.issued[t.id], t) && t.familyId == s.tokens[t.id].familyId
    ensures Inv(AfterCas(s, req, t))
  {
    var s' := AfterCas(s, req, t);
    CasOnlyRevokes(s, req, t);
    QuietKeepsRows(s, s');
    ActiveIsNewest(s, t.id);
    forall r | r in s'.requests
      ensures RequestInv(s', r)
    {
      WonCasKeepsRequests(s, req, t, r);
    }
    WonCasKeepsOneRotation(s, req, t);
  }

  /** The line of a family grows at its end only. */
  predicate Extends(fam: Family, fam': Family) {
    fam'.userId == fam.userId && fam'.sessionEnd == fam.sessionEnd && fam'.loginAt == fam.loginAt && fam.line <= fam'.line
  }

  /** A new row was inserted into family `f`, everything else is as before. */
  ghost predicate GrowsIn(s: State, s': State, f: nat, id: nat) {
    && id !in s.issued && s'.now == s.now
    && (forall g :: g in s.families ==> g in s'.families && Extends(s.families[g], s'.families[g]))
    && (forall g :: g in s'.families && g != f ==> g in s.families && s'.families[g] == s.families[g])
    && (forall i :: i in s.issued ==> i in s'.issued && s'.issued[i] == s.issued[i])
    && (forall i :: i in s'.tokens && i != id ==> i in s.tokens && s'.tokens[i] == s.tokens[i])
    && (forall i :: i in s.place && i in s.issued ==> i in s'.place && s'.place[i] == s.place[i])
    && (forall i :: i != id ==> (i in s'.parent <==> i in s.parent) && (i in s.parent ==> s'.parent[i] == s.parent[i]))
  }

  lemma RowAfterGrowth(s: State, s': State, f: nat, id: nat, i: nat)
    requires GrowsIn(s, s', f, id) && i in s.issued && RowInv(s, i)
    ensures RowInv(s', i)
  {
    assert Extends(s.families[s.issued[i].familyId], s'.families[s.issued[i].familyId]);
  }

  lemma FamilyAfterGrowth(s: State, s': State, f: nat, id: nat, g: nat)
    requires GrowsIn(s, s', f, id) && g in s'.families && g != f && FamilyInv(s, g)
    ensures FamilyInv(s', g)
  {
    forall i | 0 <= i < |s'.families[g].line|
      ensures Member(s', g, i)
    {
      assert Member(s, g, i);
    }
  }

  /** Requests that rotate in other families do not notice an insert. */
  lemma RequestsAfterGrowth(s: State, s': State, f: nat, id: nat, r: nat)
    requires Inv(s) && r in s.requests && r in s'.requests && s'.requests[r] == s.requests[r] && !RotatesIn(s, r, f)
    requires GrowsIn(s, s', f, id)
    ensures RequestInv(s', r)
  {
    assert RequestInv(s, r);
    if s.requests[r].Rotating? {
      assert RowInv(s, s.requests[r].stored.id);
    }
  }

  /** Rows of other families do not notice it either, and rows of this family are revoked. */
  lemma TokenAfterGrowth(s: State, s': State, f: nat, id: nat, i: nat)
    requires Inv(s) && GrowsIn(s, s', f, id) && i in s'.tokens && i != id
    requires s.tokens[i].familyId == f ==> s.tokens[i].revokedAt.Some?
    ensures TokenInv(s', i)
  {
    assert TokenInv(s, i) && RowInv(s, i);
  }

  lemma FreshHashKept(s: State, s': State, id: nat, h: string)
    requires UniqueHashes(s.issued) && Fresh(s, id, h)
    requires id in s'.issued && s'.issued[id].tokenHash == h && s'.issued == s.issued[id := s'.issued[id]]
    ensures UniqueHashes(s'.issued)
  {}

  /** What is left to say of an insert into `f` once its rows and families are in order. */
  lemma GrowthKeepsInv(s: State, s': State, f: nat, id: nat)
    requires Inv(s) && GrowsIn(s, s', f, id) && UniqueHashes(s'.issued)
    requires forall i :: i in s'.issued ==> RowInv(s', i)
    requires forall i :: i in s'.tokens ==> TokenInv(s', i)
    requires forall g :: g in s'.families ==> FamilyInv(s', g)
    requires forall r :: r in s'.requests ==> r in s.requests && s'.requests[r] == s.requests[r] && !RotatesIn(s, r, f)
    requires forall i :: i in s'.parent ==> i in s'.issued
    ensures Inv(s')
  {
    forall r | r in s'.requests
      ensures RequestInv(s', r)
    {
      RequestsAfterGrowth(s, s', f, id, r);
    }
    forall r, q, g | RotatesIn(s', r, g) && RotatesIn(s', q, g)
      ensures r == q
    {
      assert RotatesIn(s, r, g) && RotatesIn(s, q, g);
    }
  }

  lemma LoginGrows(s: State, u: nat, id: nat, h: string, f: nat, issuedAt: int, startedAt: int)
    requires Fresh(s, id, h) && f !in s.families
    ensures GrowsIn(s, AfterLogin(s, u, id, h, f, issuedAt, startedAt), f, id)
  {}

  /** The new row and its family, of which it is the only row. */
  lemma LoginKeepsRows(s: State, u: nat, id: nat, h: string, f: nat, issuedAt: int, startedAt: int)
    requires id !in s.parent && issuedAt <= startedAt <= s.now
    ensures var s' := AfterLogin(s, u, id, h, f, issuedAt, startedAt);
            RowInv(s', id) && TokenInv(s', id) && FamilyInv(s', f)
  {
    var s' := AfterLogin(s, u, id, h, f, issuedAt, startedAt);
    assert Member(s', f, 0);
  }

  /** Rows of other families keep what holds of them. */
  lemma OthersAfterGrowth(s: State, s': State, f: nat, id: nat)
    requires Inv(s) && GrowsIn(s, s', f, id) && s'.issued.Keys == s.issued.Keys + {id}
    requires id in s'.issued && RowInv(s', id) && id in s'.tokens && TokenInv(s', id)
    requires f in s'.families && FamilyInv(s', f)
    requires forall i :: i in s.tokens && s.tokens[i].familyId == f ==> s.tokens[i].revokedAt.Some?
    ensures forall i :: i in s'.issued ==> RowInv(s', i)
    ensures forall i :: i in s'.tokens ==> TokenInv(s', i)
    ensures forall g :: g in s'.families ==> FamilyInv(s', g)
  {
    forall i | i in s'.issued && i != id
      ensures RowInv(s', i)
    {
      RowAfterGrowth(s, s', f, id, i);
    }
    forall i | i in s'.tokens && i != id
      ensures TokenInv(s', i)
    {
      TokenAfterGrowth(s, s', f, id, i);
    }
    forall g | g in s'.families && g != f
      ensures FamilyInv(s', g)
    {
      FamilyAfterGrowth(s, s', f, id, g);
    }
  }

  /** Nobody rotates in a family that does not exist. */
  lemma RotationHasFamily(s: State, f: nat, r: nat)
    requires Inv(s) && f !in s.families && r in s.requests
    ensures !RotatesIn(s, r, f)
  {
    assert RequestInv(s, r);
    if s.requests[r].Rotating? {
      assert RowInv(s, s.requests[r].stored.id);
    }
  }

  lemma NoRowWithoutFamily(s: State, f: nat, i: nat)
    requires Inv(s) && f !in s.families && i in s.tokens
    ensures s.tokens[i].familyId != f
  {
    assert TokenInv(s, i) && RowInv(s, i);
  }

  lemma LoginKeepsInv(s: State, u: nat, id: nat, h: string, f: nat, issuedAt: int, startedAt: int)
    requires Inv(s) && Fresh(s, id, h) && f !in s.families && issuedAt <= startedAt <= s.now
    ensures Inv(AfterLogin(s, u, id, h, f, issuedAt, startedAt))
  {
    var s' := AfterLogin(s, u, id, h, f, issuedAt, startedAt);
    LoginGrows(s, u, id, h, f, issuedAt, startedAt);
    LoginKeepsRows(s, u, id, h, f, issuedAt, startedAt);
    FreshHashKept(s, s', id, h);
    forall i | i in s.tokens
      ensures s.tokens[i].familyId != f
    {
      NoRowWithoutFamily(s, f, i);
    }
    OthersAfterGrowth(s, s', f, id);
    forall r | r in s'.requests
      ensures !RotatesIn(s, r, f)
    {
      RotationHasFamily(s, f, r);
    }
    GrowthKeepsInv(s, s', f, id);
  }

  lemma InsertGrows(s: State, req: nat, t: Token, id: nat, h: string, issuedAt: int)
    requires Fresh(s, id, h) && t.familyId in s.families
    ensures GrowsIn(s, AfterInsert(s, req, t, id, h, issuedAt), t.familyId, id)
  {}

  /** The new row, behind the one it replaces. */
  lemma InsertKeepsRow(s: State, req: nat, t: Token, id: nat, h: string, issuedAt: int)
    requires IsNewest(s, t.id) && Later(s.issued[t.id], t) && RowInv(s, t.id) && issuedAt <= s.now
    ensures var s' := AfterInsert(s, req, t, id, h, issuedAt); RowInv(s', id) && TokenInv(s', id)
  {}

  lemma InsertKeepsFamily(s: State, req: nat, t: Token, id: nat, h: string, issuedAt: int)
    requires t.familyId in s.families && FamilyInv(s, t.familyId) && id !in s.issued
    ensures FamilyInv(AfterInsert(s, req, t, id, h, issuedAt), t.familyId)
  {
    var s', f := AfterInsert(s, req, t, id, h, issuedAt), t.familyId;
    forall i | 0 <= i < |s'.families[f].line|
      ensures Member(s', f, i)
    {
      assert i < |s.families[f].line| ==> Member(s, f, i);
    }
  }

  /** While a rotation is in flight all rows of its family are revoked. */
  lemma RotationMeansAllRevoked(s: State, r: nat, f: nat)
    requires Inv(s) && RotatesIn(s, r, f)
    ensures forall i :: i in s.tokens && s.tokens[i].familyId == f ==> s.tokens[i].revokedAt.Some?
  {
    forall i | i in s.tokens && s.tokens[i].familyId == f
      ensures s.tokens[i].revokedAt.Some?
    {
      if s.tokens[i].revokedAt.None? {
        ActiveExcludesRotation(s, i, r);
      }
    }
  }

  lemma RotatingRow(s: State, req: nat, t: Token)
    requires Inv(s) && req in s.requests && s.requests[req] == Rotating(t)
    ensures IsNewest(s, t.id) && Later(s.issued[t.id], t) && RowInv(s, t.id)
    ensures RotatesIn(s, req, t.familyId) && t.familyId in s.families && FamilyInv(s, t.familyId)
  {
    assert RequestInv(s, req) && RowInv(s, t.id);
  }

  lemma InsertAddsOneRow(s: State, req: nat, t: Token, id: nat, h: string, issuedAt: int)
    requires Inv(s) && req in s.requests && s.requests[req] == Rotating(t) && Fresh(s, id, h) && issuedAt <= s.now
    ensures var s' := AfterInsert(s, req, t, id, h, issuedAt);
            && RotatesIn(s, req, t.familyId) && GrowsIn(s, s', t.familyId, id) && UniqueHashes(s'.issued)
            && s'.issued.Keys == s.issued.Keys + {id}
            && id in s'.issued && RowInv(s', id) && id in s'.tokens && TokenInv(s', id)
            && t.familyId in s'.families && FamilyInv(s', t.familyId)
  {
    RotatingRow(s, req, t);
    InsertGrows(s, req, t, id, h, issuedAt);
    InsertKeepsRow(s, req, t, id, h, issuedAt);
    InsertKeepsFamily(s, req, t, id, h, issuedAt);
    FreshHashKept(s, AfterInsert(s, req, t, id, h, issuedAt), id, h);
  }

  /** The inserting request was the family's one rotation, and it is over. */
  lemma InsertEndsRotation(s: State, req: nat, t: Token, id: nat, h: string, issuedAt: int)
    requires Inv(s) && RotatesIn(s, req, t.familyId)
    ensures var s' := AfterInsert(s, req, t, id, h, issuedAt);
            && (forall r :: r in s'.requests ==>
                  r in s.requests && s'.requests[r] == s.requests[r] && !RotatesIn(s, r, t.familyId))
            && forall i :: i in s'.parent ==> i in s'.issued
  {}

  lemma InsertKeepsInv(s: State, req: nat, t: Token, id: nat, h: string, issuedAt: int)
    requires Inv(s) && req in s.requests && s.requests[req] == Rotating(t) && Fresh(s, id, h) && issuedAt <= s.now
    ensures Inv(AfterInsert(s, req, t, id, h, issuedAt))
  {
    var s' := AfterInsert(s, req, t, id, h, issuedAt);
    InsertAddsOneRow(s, req, t, id, h, issuedAt);
    RotationMeansAllRevoked(s, req, t.familyId);
    OthersAfterGrowth(s, s', t.familyId, id);
    InsertEndsRotation(s, req, t, id, h, issuedAt);
    GrowthKeepsInv(s, s', t.familyId, id);
  }

  lemma StoredRow(s: State, id: nat)
    requires Inv(s) && id in s.tokens
    ensures s.tokens[id].id == id && id in s.issued && Later(s.issued[id], s.tokens[id])
    ensures s.tokens[id].familyId in s.families
    ensures s.tokens[id].userId == s.families[s.tokens[id].familyId].userId
  {
    assert TokenInv(s, id) && RowInv(s, id);
  }

  lemma FoundRow(s: State, h: string)
    requires Inv(s) && FindByHash(s.tokens, h).Some?
    ensures var t := FindByHash(s.tokens, h).value;
            t.id in s.tokens && s.tokens[t.id] == t && t.id in s.issued && Later(s.issued[t.id], t) && t.familyId in s.families
  {
    var t := FindByHash(s.tokens, h).value;
    var id :| id in s.tokens && s.tokens[id] == t;
    StoredRow(s, id);
  }

  /** Every token has its own hash: a lookup finds the row of that token or none. */
  lemma FindsOwnRow(s: State, id: nat)
    requires Inv(s) && id in s.issued
    ensures FindByHash(s.tokens, s.issued[id].tokenHash) == if id in s.tokens then Some(s.tokens[id]) else None
  {
    var h := s.issued[id].tokenHash;
    if id in s.tokens {
      StoredRow(s, id);
      assert s.tokens[id].tokenHash == h;
    }
    if FindByHash(s.tokens, h).Some? {
      FoundRow(s, h);
      assert FindByHash(s.tokens, h).value.id == id;
    }
  }

  lemma ReadKeepsInv(s: State, req: nat, t: Token, next: Option<Request>)
    requires Inv(s) && t.id in s.tokens && s.tokens[t.id] == t && t.id in s.issued && Later(s.issued[t.id], t) && t.familyId in s.families
    requires next.Some? ==> next.value == Checked(t) || next.value == RevokingFamily(t.familyId) || next.value == RevokingOne(t.id)
    ensures Inv(AfterRead(s, req, next))
  {
    QuietStepKeepsInv(s, AfterRead(s, req, next));
  }

  lemma RevokeKeepsInv(s: State, requests: map<nat, Request>, tokens: Table)
    requires Inv(s) && (requests == s.requests || exists r :: requests == s.requests - {r})
    requires tokens.Keys == s.tokens.Keys && forall id :: id in s.tokens ==> Later(s.tokens[id], tokens[id])
    ensures Inv(AfterRevoke(s, requests, tokens))
  {
    QuietStepKeepsInv(s, AfterRevoke(s, requests, tokens));
  }

  lemma ReadStepKeepsInv(s: State, e: Event)
    requires Inv(s) && Enabled(s, e) && (e.RefreshRead? || e.LogoutRead? || e.SessionRead?)
    ensures Inv(Step(s, e))
  {
    if e.SessionRead? {
      StoredRow(s, e.id);
      ReadKeepsInv(s, e.req, s.tokens[e.id], OwnRowToRevoke(s.tokens[e.id], e.userId));
    } else {
      FoundRow(s, e.tokenHash);
      var t := FindByHash(s.tokens, e.tokenHash).value;
      ReadKeepsInv(s, e.req, t, if e.RefreshRead? then RefreshChecks(t, s.now) else OwnRowToRevoke(t, e.userId));
    }
  }

  lemma FamilyRevokeKeepsInv(s: State, req: nat)
    requires Inv(s) && Enabled(s, FamilyRevoke(req))
    ensures Inv(Step(s, FamilyRevoke(req)))
  {
    RevokeKeepsInv(s, s.requests - {req}, RevokeFamily(s.tokens, s.requests[req].familyId, s.now));
  }

  lemma RevokeByIdKeepsInv(s: State, req: nat)
    requires Inv(s) && Enabled(s, RevokeById(req))
    ensures Inv(Step(s, RevokeById(req)))
  {
    RevokeKeepsInv(s, s.requests - {req}, RevokeOne(s.tokens, s.requests[req].id, s.now));
  }

  lemma RevokeAllKeepsInv(s: State, u: nat)
    requires Inv(s)
    ensures Inv(Step(s, RevokeAll(u)))
  {
    RevokeKeepsInv(s, s.requests, RevokeUser(s.tokens, u, s.now));
  }

  lemma DeletionInsertsNothing(s: State, e: Event)
    requires e.Purge? || e.Erase?
    ensures NothingInserted(s, Step(s, e)) && Step(s, e).requests == s.requests
  {}

  lemma DeletionKeepsInv(s: State, e: Event)
    requires Inv(s) && (e.Purge? || e.Erase?)
    ensures Inv(Step(s, e))
  {
    DeletionInsertsNothing(s, e);
    QuietStepKeepsInv(s, Step(s, e));
  }

  lemma PlainStepKeepsInv(s: State, e: Event)
    requires Inv(s) && Enabled(s, e) && (e.UserMissing? || e.Die? || e.Tick?)
    ensures Inv(Step(s, e))
  {
    QuietStepKeepsInv(s, Step(s, e));
  }

  lemma StepKeepsInv(s: State, e: Event)
    requires Inv(s)
    ensures Inv(Step(s, e))
  {
    if Enabled(s, e) {
      match e
      case RefreshCas(req) => CasKeepsInv(s, req, s.requests[req].stored);
      case RefreshInsert(req, id, h, issuedAt) => InsertKeepsInv(s, req, s.requests[req].stored, id, h, issuedAt);
      case Login(u, id, h, f, issuedAt, startedAt) => LoginKeepsInv(s, u, id, h, f, issuedAt, startedAt);
      case FamilyRevoke(req) => FamilyRevokeKeepsInv(s, req);
      case RevokeById(req) => RevokeByIdKeepsInv(s, req);
      case RevokeAll(u) => RevokeAllKeepsInv(s, u);
      case _ =>
        if e.RefreshRead? || e.LogoutRead? || e.SessionRead? {
          ReadStepKeepsInv(s, e);
        } else if e.Purge? || e.Erase? {
          DeletionKeepsInv(s, e);
        } else {
          PlainStepKeepsInv(s, e);
        }
    }
  }

  lemma {:induction false} ReachableInv(s: State, es: seq<Event>)
    requires Inv(s)
    ensures Inv(Exec(s, es))
  {
    if es != [] {
      ReachableInv(s, es[..|es| - 1]);
      StepKeepsInv(Exec(s, es[..|es| - 1]), es[|es| - 1]);
    }
  }

  // ---- What holds in every reachable state ----

  ghost function ActiveRows(s: State, f: nat): set<nat> {
    set id | id in s.tokens && s.tokens[id].familyId == f && s.tokens[id].revokedAt.None?
  }

  ghost function Rotations(s: State, f: nat): set<nat> {
    set r | r in s.requests && RotatesIn(s, r, f)
  }

  lemma NoTwoMembers<T>(xs: set<T>)
    requires forall x, y :: x in xs && y in xs ==> x == y
    ensures |xs| <= 1
  {
    if x :| x in xs {
      assert xs == {x};
    }
  }

  /** Unrevoked rows and rotations in flight of one family are never more than one together. */
  lemma AtMostOneLive(s: State, es: seq<Event>, f: nat)
    requires Init(s)
    ensures |ActiveRows(Exec(s, es), f)| + |Rotations(Exec(s, es), f)| <= 1
  {
    ReachableInv(s, es);
    var end := Exec(s, es);
    forall x, y | x in ActiveRows(end, f) && y in ActiveRows(end, f)
      ensures x == y
    {
      ActiveIsNewest(end, x);
      ActiveIsNewest(end, y);
      NewestIsOne(end, x, y);
    }
    forall x, r | x in ActiveRows(end, f) && r in end.requests
      ensures r !in Rotations(end, f)
    {
      ActiveExcludesRotation(end, x, r);
    }
    NoTwoMembers(ActiveRows(end, f));
    NoTwoMembers(Rotations(end, f));
    assert ActiveRows(end, f) == {} || Rotations(end, f) == {};
  }

  /** The step deletes the row: the job finds it past a limit, or its user is erased. */
  predicate Deletes(s: State, e: Event, id: nat) {
    id in s.tokens &&
    ((e.Purge? && Expired(s.tokens[id], s.now)) || (e.Erase? && s.tokens[id].userId == e.userId))
  }

  ghost predicate WasDeleted(s: State, es: seq<Event>, id: nat) {
    es != [] &&
    (WasDeleted(s, es[..|es| - 1], id) || Deletes(Exec(s, es[..|es| - 1]), es[|es| - 1], id))
  }

  lemma RevokeKeepsRow(s: State, e: Event, id: nat)
    requires id in s.tokens && Enabled(s, e)
    requires e.FamilyRevoke? || e.RevokeById? || e.RevokeAll? || e.RefreshCas?
    ensures id in Step(s, e).tokens && Later(s.tokens[id], Step(s, e).tokens[id])
  {
    match e
    case FamilyRevoke(req) => RevokeFamilyKeepsRow(s.tokens, s.requests[req].familyId, s.now, id);
    case RevokeAll(u) => RevokeUserKeepsRow(s.tokens, u, s.now, id);
    case RevokeById(_) =>
    case RefreshCas(_) =>
  }

  lemma RevokeFamilyKeepsRow(t: Table, f: nat, now: int, id: nat)
    requires id in t
    ensures id in RevokeFamily(t, f, now) && Later(t[id], RevokeFamily(t, f, now)[id])
  {}

  lemma RevokeUserKeepsRow(t: Table, u: nat, now: int, id: nat)
    requires id in t
    ensures id in RevokeUser(t, u, now) && Later(t[id], RevokeUser(t, u, now)[id])
  {}

  lemma InsertDeletesNothing(s: State, e: Event, id: nat)
    requires id in s.issued && Enabled(s, e) && (e.Login? || e.RefreshInsert?)
    ensures id in Step(s, e).issued && Step(s, e).issued[id] == s.issued[id]
    ensures id in s.tokens <==> id in Step(s, e).tokens
    ensures id in s.tokens ==> s.tokens[id] == Step(s, e).tokens[id]
  {}

  lemma RevokeDeletesNothing(s: State, e: Event)
    requires e.FamilyRevoke? || e.RevokeById? || e.RevokeAll? || e.RefreshCas?
    ensures Step(s, e).issued == s.issued && Step(s, e).tokens.Keys == s.tokens.Keys
  {}

  /** A row that was inserted stays in the table unless the step deletes it, and no revocation is undone. */
  lemma StepKeepsRow(s: State, e: Event, id: nat)
    requires id in s.issued
    ensures id in Step(s, e).issued && Step(s, e).issued[id] == s.issued[id]
    ensures id in Step(s, e).tokens <==> id in s.tokens && !Deletes(s, e, id)
    ensures id in Step(s, e).tokens ==> Later(s.tokens[id], Step(s, e).tokens[id])
  {
    if Enabled(s, e) {
      if e.FamilyRevoke? || e.RevokeById? || e.RevokeAll? || e.RefreshCas? {
        RevokeDeletesNothing(s, e);
        if id in s.tokens {
          RevokeKeepsRow(s, e, id);
        }
      } else if e.Login? || e.RefreshInsert? {
        InsertDeletesNothing(s, e, id);
      } else if !e.Purge? && !e.Erase? {
        assert Step(s, e).tokens == s.tokens && Step(s, e).issued == s.issued;
      }
    }
  }

  lemma NewRowIsStored(s: State, e: Event, id: nat)
    requires id !in s.issued && id in Step(s, e).issued
    ensures id in Step(s, e).tokens && id !in s.tokens ==> !Deletes(s, e, id)
    ensures id in Step(s, e).tokens && (e.Login? || e.RefreshInsert?)
  {}

  /** Between two moments a row keeps owner, family and limits, and no revocation is undone. */
  lemma {:induction false} RowsKeepTheirData(s: State, es: seq<Event>, id: nat)
    requires id in s.issued
    ensures id in Exec(s, es).issued && Exec(s, es).issued[id] == s.issued[id]
    ensures id in Exec(s, es).tokens ==> id in s.tokens && Later(s.tokens[id], Exec(s, es).tokens[id])
  {
    if es != [] {
      RowsKeepTheirData(s, es[..|es| - 1], id);
      StepKeepsRow(Exec(s, es[..|es| - 1]), es[|es| - 1], id);
    }
  }

  /** Over any run, a row that was ever inserted is in the table exactly if no step has deleted it. */
  lemma {:induction false} RowsAreKept(s: State, es: seq<Event>, id: nat)
    requires Init(s)
    ensures id in Exec(s, es).issued ==> (id in Exec(s, es).tokens <==> !WasDeleted(s, es, id))
    ensures id !in Exec(s, es).issued ==> !WasDeleted(s, es, id)
  {
    if es != [] {
      var before, e := es[..|es| - 1], es[|es| - 1];
      RowsAreKept(s, before, id);
      ReachableInv(s, before);
      var s' := Exec(s, before);
      if id in s'.issued {
        StepKeepsRow(s', e, id);
      } else {
        assert id in s'.tokens ==> TokenInv(s', id);
        if id in Step(s', e).issued {
          NewRowIsStored(s', e, id);
        }
      }
    }
  }

  lemma UnexpiredIsKept(s: State, e: Event, id: nat)
    requires Inv(s) && id in s.tokens && !Expired(s.issued[id], s.now) && e != Erase(s.issued[id].userId)
    ensures !Deletes(s, e, id)
  {
    assert TokenInv(s, id);
  }

  lemma TimeGoesOn(s: State, e: Event)
    ensures s.now <= Step(s, e).now
  {}

  /** Up to both its limits a row is in the table, unless its user was erased. */
  lemma {:induction false} RowStaysUntilLimit(s: State, es: seq<Event>, id: nat)
    requires Init(s) && id in Exec(s, es).issued && !Expired(Exec(s, es).issued[id], Exec(s, es).now)
    requires Erase(Exec(s, es).issued[id].userId) !in es
    ensures id in Exec(s, es).tokens
  {
    if es != [] {
      var s', e := Exec(s, es[..|es| - 1]), es[|es| - 1];
      assert e in es;
      TimeGoesOn(s', e);
      if id in s'.issued {
        StepKeepsRow(s', e, id);
        RowStaysUntilLimit(s, es[..|es| - 1], id);
        ReachableInv(s, es[..|es| - 1]);
        UnexpiredIsKept(s', e, id);
      } else {
        NewRowIsStored(s', e, id);
      }
    }
  }

  lemma PathOfFamily(s: State, f: nat)
    requires Inv(s) && f in s.families
    ensures var line := s.families[f].line;
            && line != [] && line[0] !in s.parent
            && (forall i, j :: 0 <= i < j < |line| ==> line[i] != line[j])
            && (forall i :: 0 < i < |line| ==> line[i] in s.parent && s.parent[line[i]] == line[i - 1])
            && (forall id :: id in line <==> id in s.issued && s.issued[id].familyId == f)
  {
    var line := s.families[f].line;
    assert FamilyInv(s, f);
    forall i | 0 <= i < |line|
      ensures line[i] in s.issued && s.issued[line[i]].familyId == f && s.place[line[i]] == i
      ensures if i == 0 then line[i] !in s.parent else line[i] in s.parent && s.parent[line[i]] == line[i - 1]
    {
      assert Member(s, f, i);
      assert RowInv(s, line[i]);
    }
    forall id | id in s.issued && s.issued[id].familyId == f
      ensures id in line
    {
      assert RowInv(s, id);
    }
  }

  /**
    A family is one simple path: every row but the first replaced the row just before it. In
    the table are those rows of the path that have not been deleted.
   */
  lemma FamilyIsAPath(s: State, es: seq<Event>, f: nat)
    requires Init(s) && f in Exec(s, es).families
    ensures var end := Exec(s, es); var line := end.families[f].line;
            && line != [] && line[0] !in end.parent
            && (forall i, j :: 0 <= i < j < |line| ==> line[i] != line[j])
            && (forall i :: 0 < i < |line| ==> line[i] in end.parent && end.parent[line[i]] == line[i - 1])
            && (forall id :: id in end.tokens && end.tokens[id].familyId == f <==> id in line && !WasDeleted(s, es, id))
  {
    ReachableInv(s, es);
    PathOfFamily(Exec(s, es), f);
    forall id
      ensures id in Exec(s, es).tokens && Exec(s, es).tokens[id].familyId == f
         <==> id in Exec(s, es).families[f].line && !WasDeleted(s, es, id)
    {
      RowsAreKept(s, es, id);
      if id in Exec(s, es).tokens {
        StoredRow(Exec(s, es), id);
      }
    }
  }

  /** The step completes a rotation of the family: it inserts the row that replaces another. */
  ghost predicate CompletesRotation(s: State, e: Event, f: nat) {
    e.RefreshInsert? && Enabled(s, e) && RotatesIn(s, e.req, f)
  }

  /** How many steps of the run complete a rotation of the family. */
  ghost function RotationsDone(s: State, es: seq<Event>, f: nat): nat {
    if es == [] then 0
    else
      var before := es[..|es| - 1];
      RotationsDone(s, before, f) + if CompletesRotation(Exec(s, before), es[|es| - 1], f) then 1 else 0
  }

  function RowsOf(s: State, f: nat): nat {
    if f in s.families then |s.families[f].line| else 0
  }

  lemma InsertAddsRow(s: State, e: Event, f: nat)
    requires Inv(s) && e.RefreshInsert? && Enabled(s, e)
    ensures f in s.families <==> f in Step(s, e).families
    ensures RowsOf(Step(s, e), f) == RowsOf(s, f) + if CompletesRotation(s, e, f) then 1 else 0
    ensures f !in s.families ==> !CompletesRotation(s, e, f)
  {
    var t := s.requests[e.req].stored;
    assert RequestInv(s, e.req);
    assert RowInv(s, t.id);
    assert t.familyId in s.families;
  }

  lemma OtherStepAddsNoRow(s: State, e: Event)
    requires !e.RefreshInsert? && !e.Login?
    ensures Step(s, e).families == s.families
  {}

  /** What one step adds to a family: its first row by a login, else one row by a completed rotation. */
  lemma StepAddsRow(s: State, e: Event, f: nat)
    requires Inv(s)
    ensures f in s.families ==> f in Step(s, e).families
    ensures f in s.families ==> RowsOf(Step(s, e), f) == RowsOf(s, f) + if CompletesRotation(s, e, f) then 1 else 0
    ensures f !in s.families ==> !CompletesRotation(s, e, f)
    ensures f !in s.families && f in Step(s, e).families ==> RowsOf(Step(s, e), f) == 1
  {
    if e.RefreshInsert? {
      if Enabled(s, e) {
        InsertAddsRow(s, e, f);
      }
    } else if e.Login? {
    } else {
      OtherStepAddsNoRow(s, e);
    }
  }

  lemma {:induction false} RowsAndRotations(s: State, es: seq<Event>, f: nat)
    requires Inv(s) && f !in s.families
    ensures if f in Exec(s, es).families then RowsOf(Exec(s, es), f) == RotationsDone(s, es, f) + 1
            else RotationsDone(s, es, f) == 0
  {
    if es != [] {
      RowsAndRotations(s, es[..|es| - 1], f);
      ReachableInv(s, es[..|es| - 1]);
      StepAddsRow(Exec(s, es[..|es| - 1]), es[|es| - 1], f);
    }
  }

  ghost function MembersOf(q: seq<nat>): set<nat> {
    set x | x in q
  }

  lemma {:induction false} CountMembers(q: seq<nat>)
    requires forall i, j :: 0 <= i < j < |q| ==> q[i] != q[j]
    ensures |MembersOf(q)| == |q|
  {
    if q != [] {
      CountMembers(q[1..]);
      assert q[0] !in MembersOf(q[1..]);
      assert MembersOf(q) == {q[0]} + MembersOf(q[1..]);
    }
  }

  ghost function TableRows(s: State, f: nat): set<nat> {
    set id | id in s.tokens && s.tokens[id].familyId == f
  }

  ghost function DeletedRows(s: State, es: seq<Event>, f: nat): set<nat>
    requires f in Exec(s, es).families
  {
    set id | id in Exec(s, es).families[f].line && WasDeleted(s, es, id)
  }

  /**
    The path is one row longer than the run has completed rotations of the family, and so are
    the rows in the table and the deleted ones together.
   */
  lemma OneRowMoreThanRotations(s: State, es: seq<Event>, f: nat)
    requires Init(s) && f in Exec(s, es).families
    ensures |Exec(s, es).families[f].line| == RotationsDone(s, es, f) + 1
    ensures |TableRows(Exec(s, es), f)| + |DeletedRows(s, es, f)| == RotationsDone(s, es, f) + 1
  {
    RowsAndRotations(s, es, f);
    FamilyIsAPath(s, es, f);
    var line := Exec(s, es).families[f].line;
    CountMembers(line);
    assert MembersOf(line) == TableRows(Exec(s, es), f) + DeletedRows(s, es, f);
    assert TableRows(Exec(s, es), f) !! DeletedRows(s, es, f);
  }

  lemma ParentIsPrevious(s: State, id: nat)
    requires Inv(s) && id in s.parent
    ensures id in s.issued && id in s.place
    ensures var f := s.issued[id].familyId; var i := s.place[id];
            && f in s.families && 0 < i < |s.families[f].line|
            && s.families[f].line[i] == id && s.parent[id] == s.families[f].line[i - 1]
            && s.parent[id] in s.issued && s.issued[s.parent[id]].familyId == f
            && s.parent[id] in s.place && s.place[s.parent[id]] == i - 1
  {
    assert RowInv(s, id);
    assert FamilyInv(s, s.issued[id].familyId);
    assert Member(s, s.issued[id].familyId, s.place[id] - 1);
  }

  lemma SameParentSameRow(s: State, id: nat, id': nat)
    requires Inv(s) && id in s.parent && id' in s.parent && s.parent[id] == s.parent[id']
    ensures id == id'
  {
    ParentIsPrevious(s, id);
    ParentIsPrevious(s, id');
  }

  /** No row has two successors: a token is exchanged at most once, however requests race. */
  lemma NoDoubleExchange(s: State, es: seq<Event>, id: nat, id': nat)
    requires Init(s)
    requires id in Exec(s, es).parent && id' in Exec(s, es).parent && Exec(s, es).parent[id] == Exec(s, es).parent[id']
    ensures id == id'
  {
    ReachableInv(s, es);
    SameParentSameRow(Exec(s, es), id, id');
  }

  /** User and absolute limit are the same on every row of a family. */
  lemma FamilyKeepsUserAndLimit(s: State, es: seq<Event>, id: nat, id': nat)
    requires Init(s) && id in Exec(s, es).tokens && id' in Exec(s, es).tokens
    requires Exec(s, es).tokens[id].familyId == Exec(s, es).tokens[id'].familyId
    ensures Exec(s, es).tokens[id].userId == Exec(s, es).tokens[id'].userId
    ensures Exec(s, es).tokens[id].familySessionExpiresAt == Exec(s, es).tokens[id'].familySessionExpiresAt
  {
    ReachableInv(s, es);
    assert TokenInv(Exec(s, es), id) && TokenInv(Exec(s, es), id');
    assert RowInv(Exec(s, es), id) && RowInv(Exec(s, es), id');
  }

  /** A refresh that passes its checks is in time: 7 days since its row, 30 days since the login. */
  lemma RefreshWithinLimits(s: State, es: seq<Event>, id: nat)
    requires Init(s) && id in Exec(s, es).tokens
    requires RefreshChecks(Exec(s, es).tokens[id], Exec(s, es).now) == Some(Checked(Exec(s, es).tokens[id]))
    ensures var end := Exec(s, es); var t := end.tokens[id];
            && t.familyId in end.families
            && end.now <= t.createdAt + 604_800_000
            && end.now <= end.families[t.familyId].loginAt + 2_592_000_000
  {
    ReachableInv(s, es);
    assert TokenInv(Exec(s, es), id) && RowInv(Exec(s, es), id);
    assert FamilyInv(Exec(s, es), Exec(s, es).tokens[id].familyId);
  }

  lemma ReadGoesOn(s: State, req: nat, t: Token)
    requires req !in s.requests && FindByHash(s.tokens, t.tokenHash) == Some(t)
    requires t.revokedAt.None? && s.now <= t.expiresAt && s.now <= t.familySessionExpiresAt
    ensures Step(s, RefreshRead(req, t.tokenHash)) == s.(requests := s.requests[req := Checked(t)])
  {}

  lemma CasGoesOn(s: State, req: nat, t: Token)
    requires req in s.requests && s.requests[req] == Checked(t) && Active(s.tokens, t.id)
    ensures Step(s, RefreshCas(req))
         == s.(tokens := RevokeOne(s.tokens, t.id, s.now), requests := s.requests[req := Rotating(t)])
  {}

  lemma InsertGoesOn(s: State, req: nat, t: Token, id: nat, h: string, issuedAt: int)
    requires req in s.requests && s.requests[req] == Rotating(t) && Fresh(s, id, h) && issuedAt <= s.now && id != t.id
    ensures var end := Step(s, RefreshInsert(req, id, h, issuedAt));
            && Active(end.tokens, id) && req !in end.requests
            && (t.id in s.tokens ==> t.id in end.tokens && end.tokens[t.id] == s.tokens[t.id])
            && end.tokens[id].tokenHash == h && end.tokens[id].familyId == t.familyId && end.tokens[id].userId == t.userId
  {}

  /** A refresh that nobody disturbs succeeds: the old row is revoked, a usable one takes its place. */
  lemma UndisturbedRefresh(s: State, req: nat, h: string, id: nat, h': string, issuedAt: int)
    requires Inv(s) && Enabled(s, RefreshRead(req, h)) && Fresh(s, id, h') && issuedAt <= s.now
    requires var t := FindByHash(s.tokens, h).value;
             t.revokedAt.None? && s.now <= t.expiresAt && s.now <= t.familySessionExpiresAt
    ensures var t := FindByHash(s.tokens, h).value;
            var end := Step(Step(Step(s, RefreshRead(req, h)), RefreshCas(req)), RefreshInsert(req, id, h', issuedAt));
            && Active(end.tokens, id) && t.id in end.tokens && !Active(end.tokens, t.id) && req !in end.requests
            && end.tokens[id].tokenHash == h' && end.tokens[id].familyId == t.familyId && end.tokens[id].userId == t.userId
  {
    FoundRow(s, h);
    var t := FindByHash(s.tokens, h).value;
    ReadGoesOn(s, req, t);
    var s1 := s.(requests := s.requests[req := Checked(t)]);
    CasGoesOn(s1, req, t);
    InsertGoesOn(Step(s1, RefreshCas(req)), req, t, id, h', issuedAt);
  }

  // ---- What each write to the table writes ----

  /** The step is the login that inserted this row: good for 7 days, in a session of 30 days. */
  ghost predicate ByLogin(s: State, e: Event, t: Token) {
    && e.Login? && Enabled(s, e)
    && t == Token(e.id, e.tokenHash, e.userId, e.familyId, s.now, e.issuedAt + 604_800_000, e.startedAt + 2_592_000_000, None)
    && Step(s, e).tokens == s.tokens[e.id := t] && Step(s, e).requests == s.requests
  }

  /** The step is the rotation that inserted it: good for 7 days, in the session of the row it replaced. */
  ghost predicate ByRotation(s: State, e: Event, t: Token) {
    && e.RefreshInsert? && Enabled(s, e)
    && var old_ := s.requests[e.req].stored;
    && t == Token(e.id, e.tokenHash, old_.userId, old_.familyId, s.now, e.issuedAt + 604_800_000, old_.familySessionExpiresAt, None)
    && Step(s, e).tokens == s.tokens[e.id := t] && Step(s, e).requests == s.requests - {e.req}
  }

  /** Over all runs: every row that was ever inserted was inserted by one of the two, with just these values. */
  lemma {:induction false} InsertedAsGiven(s: State, es: seq<Event>, id: nat) returns (n: nat)
    requires Init(s) && id in Exec(s, es).issued
    ensures n < |es|
    ensures ByLogin(Exec(s, es[..n]), es[n], Exec(s, es).issued[id]) || ByRotation(Exec(s, es[..n]), es[n], Exec(s, es).issued[id])
  {
    var front, e := es[..|es| - 1], es[|es| - 1];
    if id in Exec(s, front).issued {
      IssuedKept(Exec(s, front), e, id);
      n := InsertedAsGiven(s, front, id);
      assert front[..n] == es[..n];
    } else {
      n := |es| - 1;
      IssuedNow(Exec(s, front), e, id);
    }
  }

  lemma IssuedKept(s: State, e: Event, id: nat)
    requires id in s.issued
    ensures id in Step(s, e).issued && Step(s, e).issued[id] == s.issued[id]
  {}

  lemma IssuedNow(s: State, e: Event, id: nat)
    requires id !in s.issued && id in Step(s, e).issued
    ensures ByLogin(s, e, Step(s, e).issued[id]) || ByRotation(s, e, Step(s, e).issued[id])
  {}

  /** The nightly job takes exactly the rows past one of their limits, and changes no other. */
  lemma PurgeReach(s: State, id: nat)
    ensures var after := Step(s, Purge).tokens;
            && (id in after <==> id in s.tokens && s.now <= s.tokens[id].expiresAt && s.now <= s.tokens[id].familySessionExpiresAt)
            && (id in after ==> after[id] == s.tokens[id])
  {}

  /** An erasure takes exactly the rows of the user, and changes no other. */
  lemma EraseReach(s: State, u: nat, id: nat)
    ensures var after := Step(s, Erase(u)).tokens;
            && (id in after <==> id in s.tokens && s.tokens[id].userId != u)
            && (id in after ==> after[id] == s.tokens[id])
  {}

  /**
    What `refresh` makes of a row it finds, in any run, by the fields of the row: an idle row
    is turned down and nothing changes; a revoked one, and one in a session past its limit,
    leads to the family revoke; every other passes. The read itself writes no row.
   */
  lemma RefreshAnswer(s: State, es: seq<Event>, req: nat, id: nat)
    requires Init(s) && id in Exec(s, es).tokens && req !in Exec(s, es).requests
    ensures var end := Exec(s, es); var t := end.tokens[id]; var read := Step(end, RefreshRead(req, t.tokenHash));
            && read.tokens == end.tokens
            && (t.revokedAt.None? && t.expiresAt < end.now <==> read == end)
            && (t.revokedAt.Some? || (t.expiresAt >= end.now && t.familySessionExpiresAt < end.now)
                <==> read == end.(requests := end.requests[req := RevokingFamily(t.familyId)]))
            && (t.revokedAt.None? && t.expiresAt >= end.now && t.familySessionExpiresAt >= end.now
                <==> read == end.(requests := end.requests[req := Checked(t)]))
  {
    ReachableInv(s, es);
    StoredRow(Exec(s, es), id);
    FindsOwnRow(Exec(s, es), id);
    var t := Exec(s, es).tokens[id];
    AnswerByFields(Exec(s, es), req, t);
    AnswersDiffer(Exec(s, es), req, Checked(t), RevokingFamily(t.familyId));
  }

  lemma AnswersDiffer(s: State, req: nat, a: Request, b: Request)
    requires req !in s.requests && a != b
    ensures s.(requests := s.requests[req := a]) != s && s.(requests := s.requests[req := b]) != s
    ensures s.(requests := s.requests[req := a]) != s.(requests := s.requests[req := b])
  {
    assert s.requests[req := a][req] == a && s.requests[req := b][req] == b;
    assert req in s.requests[req := a] && req in s.requests[req := b];
  }

  lemma AnswerByFields(s: State, req: nat, t: Token)
    requires FindByHash(s.tokens, t.tokenHash) == Some(t) && req !in s.requests
    ensures var read := Step(s, RefreshRead(req, t.tokenHash));
            && (t.revokedAt.Some? ==> read == s.(requests := s.requests[req := RevokingFamily(t.familyId)]))
            && (t.revokedAt.None? && t.expiresAt < s.now ==> read == s)
            && (t.revokedAt.None? && t.expiresAt >= s.now && t.familySessionExpiresAt < s.now ==>
                  read == s.(requests := s.requests[req := RevokingFamily(t.familyId)]))
            && (t.revokedAt.None? && t.expiresAt >= s.now && t.familySessionExpiresAt >= s.now ==>
                  read == s.(requests := s.requests[req := Checked(t)]))
  {
    assert s.requests - {req} == s.requests;
  }

  // ---- What a revocation reaches ----

  /** A family revoke ends every row of the family and touches no other family. */
  lemma FamilyRevokeReach(s: State, req: nat, id: nat)
    requires Enabled(s, FamilyRevoke(req)) && id in s.tokens
    ensures var after := Step(s, FamilyRevoke(req)).tokens;
            && id in after && (after[id].revokedAt.Some? <==> s.tokens[id].revokedAt.Some? || s.tokens[id].familyId == s.requests[req].familyId)
            && (s.tokens[id].familyId != s.requests[req].familyId ==> after[id] == s.tokens[id])
  {}

  /** Revoking all sessions of a user ends every row of the user and touches no other user. */
  lemma RevokeAllReach(s: State, u: nat, id: nat)
    requires id in s.tokens
    ensures var after := Step(s, RevokeAll(u)).tokens;
            && id in after && (after[id].revokedAt.Some? <==> s.tokens[id].revokedAt.Some? || s.tokens[id].userId == u)
            && (s.tokens[id].userId != u ==> after[id] == s.tokens[id])
  {}

  lemma PendingRevokeOneUnlessTaken(s: State, e: Event, req: nat)
    requires req in s.requests && s.requests[req].RevokingOne? && e != RevokeById(req) && e != Die(req)
    ensures req in Step(s, e).requests && Step(s, e).requests[req] == s.requests[req]
  {
    if Enabled(s, e) && (e.RefreshRead? || e.LogoutRead? || e.SessionRead?) {
      assert e.req != req;
    }
  }

  lemma {:induction false} PendingRevokeOneRemains(s: State, es: seq<Event>, req: nat)
    requires req in s.requests && s.requests[req].RevokingOne?
    requires RevokeById(req) !in es && Die(req) !in es
    ensures req in Exec(s, es).requests && Exec(s, es).requests[req] == s.requests[req]
  {
    if es != [] {
      var e := es[|es| - 1];
      assert e in es;
      PendingRevokeOneRemains(s, es[..|es| - 1], req);
      PendingRevokeOneUnlessTaken(Exec(s, es[..|es| - 1]), e, req);
    }
  }

  predicate OneRowRead(e: Event) {
    e.LogoutRead? || e.SessionRead?
  }

  /** The row that `logout` or `revokeSession` is called for. */
  ghost function Target(s: State, e: Event): Token
    requires OneRowRead(e) && Enabled(s, e)
  {
    if e.LogoutRead? then FindByHash(s.tokens, e.tokenHash).value else s.tokens[e.id]
  }

  lemma TargetIsStored(s: State, e: Event)
    requires Inv(s) && OneRowRead(e) && Enabled(s, e)
    ensures var t := Target(s, e); t.id in s.tokens && s.tokens[t.id] == t
  {
    if e.LogoutRead? {
      FoundRow(s, e.tokenHash);
    } else {
      StoredRow(s, e.id);
    }
  }

  lemma OneRowReadGoesOn(s: State, e: Event)
    requires Inv(s) && OneRowRead(e) && Enabled(s, e)
    ensures var t, read := Target(s, e), Step(s, e);
            && read.tokens == s.tokens && read.issued == s.issued
            && (e.req in read.requests <==> t.userId == e.userId && t.revokedAt.None?)
            && (e.req in read.requests ==> read.requests[e.req] == RevokingOne(t.id))
  {}

  lemma WriteEndsItsRow(s: State, req: nat, id: nat, between: seq<Event>)
    requires req in s.requests && s.requests[req] == RevokingOne(id) && id in s.issued
    requires RevokeById(req) !in between && Die(req) !in between
    ensures var s1 := Exec(s, between);
            && Enabled(s1, RevokeById(req)) && (id in s1.tokens ==> id in s.tokens && s1.tokens[id].userId == s.tokens[id].userId)
            && Step(s1, RevokeById(req)).tokens
               == if id in s1.tokens then s1.tokens[id := Revoked(s1.tokens[id], s1.now)] else s1.tokens
  {
    PendingRevokeOneRemains(s, between, req);
    RowsKeepTheirData(s, between, id);
  }

  /**
    `logout` and `revokeSession` go on to a write exactly for an unrevoked row of the caller.
    Whatever happens in between, that write ends this row, if it is still in the table, and
    changes no other.
   */
  lemma OwnRowOnly(s: State, es: seq<Event>, e: Event, between: seq<Event>)
    requires Init(s) && OneRowRead(e) && Enabled(Exec(s, es), e)
    requires RevokeById(e.req) !in between && Die(e.req) !in between
    ensures var t, read := Target(Exec(s, es), e), Step(Exec(s, es), e);
            && read.tokens == Exec(s, es).tokens
            && (e.req in read.requests <==> t.userId == e.userId && t.revokedAt.None?)
            && (e.req in read.requests ==>
                  var s1 := Exec(read, between);
                  && Enabled(s1, RevokeById(e.req)) && (t.id in s1.tokens ==> s1.tokens[t.id].userId == e.userId)
                  && Step(s1, RevokeById(e.req)).tokens
                     == if t.id in s1.tokens then s1.tokens[t.id := Revoked(s1.tokens[t.id], s1.now)] else s1.tokens)
  {
    ReachableInv(s, es);
    TargetIsStored(Exec(s, es), e);
    OneRowReadGoesOn(Exec(s, es), e);
    var t, read := Target(Exec(s, es), e), Step(Exec(s, es), e);
    if e.req in read.requests {
      StoredRow(Exec(s, es), t.id);
      WriteEndsItsRow(read, e.req, t.id, between);
    }
  }

  // ---- What ends a row, and what makes a family revoke due ----

  /** The step is a write that is meant for this unrevoked row. */
  ghost predicate EndsRow(s: State, e: Event, id: nat)
    requires id in s.tokens
  {
    match e
    case RefreshCas(r) => r in s.requests && s.requests[r].Checked? && s.requests[r].stored.id == id
    case FamilyRevoke(r) => r in s.requests && s.requests[r].RevokingFamily? && s.requests[r].familyId == s.tokens[id].familyId
    case RevokeById(r) => r in s.requests && s.requests[r].RevokingOne? && s.requests[r].id == id
    case RevokeAll(u) => s.tokens[id].userId == u
    case _ => false
  }

  predicate IsWrite(e: Event) {
    e.RefreshCas? || e.FamilyRevoke? || e.RevokeById? || e.RevokeAll?
  }

  lemma WriteEndsRowIff(s: State, e: Event, id: nat)
    requires Active(s.tokens, id) && IsWrite(e)
    ensures id in Step(s, e).tokens
    ensures Step(s, e).tokens[id] == if EndsRow(s, e, id) then s.tokens[id].(revokedAt := Some(s.now)) else s.tokens[id]
  {}

  lemma OtherStepKeepsRow(s: State, e: Event, id: nat)
    requires Active(s.tokens, id) && id in s.issued && id in Step(s, e).tokens && !IsWrite(e)
    ensures Step(s, e).tokens[id] == s.tokens[id]
  {}

  /** In every reachable state, a step ends an unrevoked row if and only if it is one of these writes. */
  lemma RowEndsIff(s: State, es: seq<Event>, e: Event, id: nat)
    requires Init(s) && Active(Exec(s, es).tokens, id) && id in Step(Exec(s, es), e).tokens
    ensures Step(Exec(s, es), e).tokens[id]
         == if EndsRow(Exec(s, es), e, id) then Exec(s, es).tokens[id].(revokedAt := Some(Exec(s, es).now)) else Exec(s, es).tokens[id]
  {
    ReachableInv(s, es);
    StoredRow(Exec(s, es), id);
    if IsWrite(e) {
      WriteEndsRowIff(Exec(s, es), e, id);
    } else {
      OtherStepKeepsRow(Exec(s, es), e, id);
    }
  }

  ghost predicate RevokeIsDue(s: State, r: nat, f: nat) {
    r in s.requests && s.requests[r] == RevokingFamily(f)
  }

  /** The request has just read a row of the family that was revoked, or past its session limit and not idle. */
  ghost predicate ReadsEndedRow(s: State, e: Event, r: nat, f: nat) {
    && e.RefreshRead? && e.req == r && r !in s.requests
    && exists id :: id in s.tokens && s.tokens[id].tokenHash == e.tokenHash && s.tokens[id].familyId == f
                    && (s.tokens[id].revokedAt.Some? || (s.tokens[id].expiresAt >= s.now > s.tokens[id].familySessionExpiresAt))
  }

  /** The request has just lost the conditional revoke of a row of the family. */
  ghost predicate LosesRace(s: State, e: Event, r: nat, f: nat) {
    && e == RefreshCas(r) && r in s.requests && s.requests[r].Checked?
    && s.requests[r].stored.familyId == f && !Active(s.tokens, s.requests[r].stored.id)
  }

  lemma OneRowPerHash(s: State, i: nat, j: nat)
    requires Inv(s) && i in s.tokens && j in s.tokens && s.tokens[i].tokenHash == s.tokens[j].tokenHash
    ensures i == j
  {
    StoredRow(s, i);
    StoredRow(s, j);
    FindsOwnRow(s, i);
    FindsOwnRow(s, j);
  }

  lemma ReadMakesDue(s: State, e: Event, r: nat, f: nat)
    requires e.RefreshRead? && !RevokeIsDue(s, r, f)
    requires forall i, j :: i in s.tokens && j in s.tokens && s.tokens[i].tokenHash == s.tokens[j].tokenHash ==> i == j
    ensures RevokeIsDue(Step(s, e), r, f) <==> ReadsEndedRow(s, e, r, f)
  {}

  lemma NoReadMakesDue(s: State, e: Event, r: nat, f: nat)
    requires !e.RefreshRead? && !RevokeIsDue(s, r, f)
    ensures RevokeIsDue(Step(s, e), r, f) <==> LosesRace(s, e, r, f)
  {}

  /** A family revoke becomes due in these two ways only: not for an idle row, a missing user or a request that dies. */
  lemma RevokeBecomesDueIff(s: State, es: seq<Event>, e: Event, r: nat, f: nat)
    requires Init(s) && !RevokeIsDue(Exec(s, es), r, f)
    ensures RevokeIsDue(Step(Exec(s, es), e), r, f)
       <==> ReadsEndedRow(Exec(s, es), e, r, f) || LosesRace(Exec(s, es), e, r, f)
  {
    var st := Exec(s, es);
    ReachableInv(s, es);
    if e.RefreshRead? {
      forall i, j | i in st.tokens && j in st.tokens && st.tokens[i].tokenHash == st.tokens[j].tokenHash
        ensures i == j
      {
        OneRowPerHash(st, i, j);
      }
      ReadMakesDue(st, e, r, f);
    } else {
      NoReadMakesDue(st, e, r, f);
    }
  }

  // ---- Dead families and reuse ----

  /** Nothing of the family can be used any more, nor is anything about to be inserted. */
  ghost predicate Dead(s: State, f: nat) {
    && f in s.families
    && (forall id :: id in s.tokens && s.tokens[id].familyId == f ==> s.tokens[id].revokedAt.Some?)
    && (forall r :: r in s.requests ==> !RotatesIn(s, r, f))
  }

  /** A step that starts no rotation of `f` and inserts no row of `f`, undoing no revocation. */
  ghost predicate Harmless(s: State, s': State, f: nat) {
    && f in s'.families
    && (forall id :: id in s'.tokens && s'.tokens[id].familyId == f ==> id in s.tokens && Later(s.tokens[id], s'.tokens[id]))
    && (forall r :: r in s'.requests && RotatesIn(s', r, f) ==> RotatesIn(s, r, f))
  }

  lemma DeadCasHarmless(s: State, f: nat, req: nat, t: Token)
    requires Inv(s) && Dead(s, f) && req in s.requests && s.requests[req] == Checked(t)
    ensures Harmless(s, AfterCas(s, req, t), f)
  {
    assert RequestInv(s, req);
    assert RowInv(s, t.id);
  }

  lemma DeadInsertHarmless(s: State, f: nat, req: nat, t: Token, id: nat, h: string, issuedAt: int)
    requires Inv(s) && Dead(s, f) && req in s.requests && s.requests[req] == Rotating(t) && Fresh(s, id, h)
    ensures Harmless(s, AfterInsert(s, req, t, id, h, issuedAt), f)
  {
    assert !RotatesIn(s, req, f);
  }

  lemma QuietHarmless(s: State, s': State, f: nat)
    requires Dead(s, f) && NothingInserted(s, s')
    requires forall r :: r in s'.requests && s'.requests[r].Rotating? ==> r in s.requests && s.requests[r] == s'.requests[r]
    ensures Harmless(s, s', f)
  {}

  lemma DeadLoginHarmless(s: State, f: nat, e: Event)
    requires Dead(s, f) && Enabled(s, e) && e.Login?
    ensures Harmless(s, Step(s, e), f)
  {}

  lemma DeadRevokeHarmless(s: State, f: nat, requests: map<nat, Request>, tokens: Table)
    requires Dead(s, f) && forall r :: r in requests ==> r in s.requests && requests[r] == s.requests[r]
    requires tokens.Keys == s.tokens.Keys && forall id :: id in s.tokens ==> Later(s.tokens[id], tokens[id])
    ensures Harmless(s, AfterRevoke(s, requests, tokens), f)
  {
    QuietHarmless(s, AfterRevoke(s, requests, tokens), f);
  }

  lemma DeadRevokeStepHarmless(s: State, f: nat, e: Event)
    requires Dead(s, f) && Enabled(s, e) && (e.FamilyRevoke? || e.RevokeById? || e.RevokeAll?)
    ensures Harmless(s, Step(s, e), f)
  {
    match e
    case FamilyRevoke(req) =>
      DeadRevokeHarmless(s, f, s.requests - {req}, RevokeFamily(s.tokens, s.requests[req].familyId, s.now));
    case RevokeById(req) =>
      DeadRevokeHarmless(s, f, s.requests - {req}, RevokeOne(s.tokens, s.requests[req].id, s.now));
    case RevokeAll(u) =>
      DeadRevokeHarmless(s, f, s.requests, RevokeUser(s.tokens, u, s.now));
  }

  lemma DeadQuietStepHarmless(s: State, f: nat, e: Event)
    requires Dead(s, f) && Enabled(s, e)
    requires e.RefreshRead? || e.LogoutRead? || e.SessionRead? || e.UserMissing? || e.Die? || e.Tick? || e.Purge? || e.Erase?
    ensures Harmless(s, Step(s, e), f)
  {
    QuietHarmless(s, Step(s, e), f);
  }

  lemma DeadStepHarmless(s: State, f: nat, e: Event)
    requires Inv(s) && Dead(s, f) && Enabled(s, e)
    ensures Harmless(s, Step(s, e), f)
  {
    if e.RefreshCas? {
      DeadCasHarmless(s, f, e.req, s.requests[e.req].stored);
    } else if e.RefreshInsert? {
      DeadInsertHarmless(s, f, e.req, s.requests[e.req].stored, e.id, e.tokenHash, e.issuedAt);
    } else if e.Login? {
      DeadLoginHarmless(s, f, e);
    } else if e.FamilyRevoke? || e.RevokeById? || e.RevokeAll? {
      DeadRevokeStepHarmless(s, f, e);
    } else {
      DeadQuietStepHarmless(s, f, e);
    }
  }

  /** A dead family stays dead in every continuation. */
  lemma {:induction false} DeadForever(s: State, f: nat, es: seq<Event>)
    requires Inv(s) && Dead(s, f)
    ensures Dead(Exec(s, es), f)
  {
    if es != [] {
      var s', e := Exec(s, es[..|es| - 1]), es[|es| - 1];
      DeadForever(s, f, es[..|es| - 1]);
      ReachableInv(s, es[..|es| - 1]);
      if Enabled(s', e) {
        DeadStepHarmless(s', f, e);
      }
    }
  }

  /** Revoking a family ends it exactly when no rotation of it is between its two steps. */
  lemma FamilyRevokeKillsIff(s: State, req: nat)
    requires Inv(s) && Enabled(s, FamilyRevoke(req))
    ensures Dead(Step(s, FamilyRevoke(req)), s.requests[req].familyId) <==> Rotations(s, s.requests[req].familyId) == {}
  {
    assert RequestInv(s, req);
    var f := s.requests[req].familyId;
    var s' := Step(s, FamilyRevoke(req));
    forall r
      ensures r in s'.requests && RotatesIn(s', r, f) <==> r in Rotations(s, f)
    {}
    if Rotations(s, f) != {} {
      var r :| r in Rotations(s, f);
      assert r in s'.requests && RotatesIn(s', r, f);
    }
  }

  lemma PendingRevokeUnlessTaken(s: State, e: Event, req: nat)
    requires req in s.requests && s.requests[req].RevokingFamily? && e != FamilyRevoke(req) && e != Die(req)
    ensures req in Step(s, e).requests && Step(s, e).requests[req] == s.requests[req]
  {
    if Enabled(s, e) && (e.RefreshRead? || e.LogoutRead? || e.SessionRead?) {
      assert e.req != req;
    }
  }

  lemma {:induction false} PendingRevokeRemains(s: State, es: seq<Event>, req: nat)
    requires req in s.requests && s.requests[req].RevokingFamily?
    requires FamilyRevoke(req) !in es && Die(req) !in es
    ensures req in Exec(s, es).requests && Exec(s, es).requests[req] == s.requests[req]
  {
    if es != [] {
      var e := es[|es| - 1];
      assert e in es;
      PendingRevokeRemains(s, es[..|es| - 1], req);
      PendingRevokeUnlessTaken(Exec(s, es[..|es| - 1]), e, req);
    }
  }

  /** A family revoke that is due comes, whatever `between` does, and ends the family unless a rotation is in flight. */
  lemma DueRevokeKillsFamily(s: State, req: nat, between: seq<Event>, after: seq<Event>)
    requires Inv(s) && req in s.requests && s.requests[req].RevokingFamily?
    requires FamilyRevoke(req) !in between && Die(req) !in between
    ensures var f := s.requests[req].familyId; var s1 := Exec(s, between);
            && Enabled(s1, FamilyRevoke(req))
            && (Dead(Step(s1, FamilyRevoke(req)), f) <==> Rotations(s1, f) == {})
            && (Rotations(s1, f) == {} ==> Dead(Exec(Step(s1, FamilyRevoke(req)), after), f))
  {
    var f := s.requests[req].familyId;
    var s1 := Exec(s, between);
    ReachableInv(s, between);
    PendingRevokeRemains(s, between, req);
    FamilyRevokeKillsIff(s1, req);
    StepKeepsInv(s1, FamilyRevoke(req));
    if Rotations(s1, f) == {} {
      DeadForever(Step(s1, FamilyRevoke(req)), f, after);
    }
  }

  /** Already used or revoked, or still within the week of its row but past the limit of its session. */
  predicate Spent(t: Token, now: int) {
    t.revokedAt.Some? || (t.expiresAt >= now && t.familySessionExpiresAt < now)
  }

  /** A rotation has replaced the row. */
  ghost predicate Exchanged(s: State, id: nat) {
    exists next :: next in s.parent && s.parent[next] == id
  }

  /** A row that was replaced is revoked, as long as it is in the table. */
  lemma ExchangedIsRevoked(s: State, id: nat)
    requires Inv(s) && Exchanged(s, id)
    ensures id in s.issued && (id in s.tokens ==> s.tokens[id].revokedAt.Some?)
  {
    var next :| next in s.parent && s.parent[next] == id;
    ParentIsPrevious(s, next);
    if id in s.tokens {
      assert TokenInv(s, id);
    }
  }

  /** What presenting the token of a row does at once: with the row in the table its checks, else nothing. */
  lemma PresentedToken(s: State, id: nat, req: nat)
    requires Inv(s) && id in s.issued && req !in s.requests
    ensures var read := Step(s, RefreshRead(req, s.issued[id].tokenHash));
            && (id !in s.tokens ==> read == s)
            && (id in s.tokens ==> read == AfterRead(s, req, RefreshChecks(s.tokens[id], s.now)))
  {
    FindsOwnRow(s, id);
  }

  /**
    Reuse detection. When the token of a row that was exchanged is presented (or of a row in
    the table that was revoked, or is past its session's limit), the request goes on to
    revoke the family if and only if the row has not been deleted; otherwise it changes
    nothing. If it goes on, then whatever steps `between` the other requests take, its family
    revoke follows, and the family is then dead, in every continuation `after`, exactly if no
    rotation of it is in flight at that revoke.
   */
  lemma ReuseKillsFamily(s: State, es: seq<Event>, req: nat, id: nat, between: seq<Event>, after: seq<Event>)
    requires Init(s) && id in Exec(s, es).issued && req !in Exec(s, es).requests
    requires Exchanged(Exec(s, es), id) || (id in Exec(s, es).tokens && Spent(Exec(s, es).tokens[id], Exec(s, es).now))
    requires FamilyRevoke(req) !in between && Die(req) !in between
    ensures var end := Exec(s, es); var f := end.issued[id].familyId;
            var read := Step(end, RefreshRead(req, end.issued[id].tokenHash));
            && (req in read.requests && read.requests[req] == RevokingFamily(f) <==> !WasDeleted(s, es, id))
            && (WasDeleted(s, es, id) ==> read == end)
            && (!WasDeleted(s, es, id) ==>
                  var s1 := Exec(read, between);
                  && Enabled(s1, FamilyRevoke(req))
                  && (Dead(Step(s1, FamilyRevoke(req)), f) <==> Rotations(s1, f) == {})
                  && (Rotations(s1, f) == {} ==> Dead(Exec(Step(s1, FamilyRevoke(req)), after), f)))
  {
    var end := Exec(s, es);
    ReachableInv(s, es);
    RowsAreKept(s, es, id);
    PresentedToken(end, id, req);
    if id in end.tokens {
      if Exchanged(end, id) {
        ExchangedIsRevoked(end, id);
      }
      StoredRow(end, id);
      StepKeepsInv(end, RefreshRead(req, end.issued[id].tokenHash));
      DueRevokeKillsFamily(Step(end, RefreshRead(req, end.issued[id].tokenHash)), req, between, after);
    }
  }

  /** So reuse is seen for certain up to the limits of the row that is presented, its user not being erased. */
  lemma ReuseSeenUpToLimits(s: State, es: seq<Event>, req: nat, id: nat)
    requires Init(s) && id in Exec(s, es).issued && req !in Exec(s, es).requests && Exchanged(Exec(s, es), id)
    requires !Expired(Exec(s, es).issued[id], Exec(s, es).now) && Erase(Exec(s, es).issued[id].userId) !in es
    ensures var end := Exec(s, es); var read := Step(end, RefreshRead(req, end.issued[id].tokenHash));
            req in read.requests && read.requests[req] == RevokingFamily(end.issued[id].familyId)
  {
    RowStaysUntilLimit(s, es, id);
    RowsAreKept(s, es, id);
    ReuseKillsFamily(s, es, req, id, [], []);
  }

  /** The same holds for a refresh that passed its checks and lost the conditional revoke to another request. */
  lemma LostRaceKillsFamily(s: State, es: seq<Event>, req: nat, between: seq<Event>, after: seq<Event>)
    requires Init(s) && Enabled(Exec(s, es), RefreshCas(req))
    requires !Active(Exec(s, es).tokens, Exec(s, es).requests[req].stored.id)
    requires FamilyRevoke(req) !in between && Die(req) !in between
    ensures var f := Exec(s, es).requests[req].stored.familyId;
            var s1 := Exec(Step(Exec(s, es), RefreshCas(req)), between);
            && Enabled(s1, FamilyRevoke(req))
            && (Dead(Step(s1, FamilyRevoke(req)), f) <==> Rotations(s1, f) == {})
            && (Rotations(s1, f) == {} ==> Dead(Exec(Step(s1, FamilyRevoke(req)), after), f))
  {
    var s0 := Exec(s, es);
    ReachableInv(s, es);
    StepKeepsInv(s0, RefreshCas(req));
    DueRevokeKillsFamily(Step(s0, RefreshCas(req)), req, between, after);
  }

  lemma RowsOfUserEnd(s: State, u: nat, f: nat, id: nat)
    requires Inv(s) && f in s.families && s.families[f].userId == u
    requires id in s.tokens && s.tokens[id].familyId == f
    ensures Step(s, RevokeAll(u)).tokens[id].revokedAt.Some?
  {
    StoredRow(s, id);
  }

  /** Revoking all sessions of a user ends a family of the user exactly if no rotation of it is in flight. */
  lemma RevokeAllKillsIff(s: State, es: seq<Event>, u: nat, f: nat)
    requires Init(s) && f in Exec(s, es).families && Exec(s, es).families[f].userId == u
    ensures var s1 := Exec(s, es); Dead(Step(s1, RevokeAll(u)), f) <==> Rotations(s1, f) == {}
  {
    ReachableInv(s, es);
    EndOfUserKillsIff(Exec(s, es), u, f);
  }

  lemma EndOfUserKillsIff(s: State, u: nat, f: nat)
    requires Inv(s) && f in s.families && s.families[f].userId == u
    ensures Dead(Step(s, RevokeAll(u)), f) <==> Rotations(s, f) == {}
  {
    var s' := Step(s, RevokeAll(u));
    assert s'.requests == s.requests && s'.families == s.families && s'.tokens.Keys == s.tokens.Keys;
    forall id | id in s'.tokens && s'.tokens[id].familyId == f
      ensures s'.tokens[id].revokedAt.Some?
    {
      RowsOfUserEnd(s, u, f, id);
    }
    NoRotationIff(s, s', f);
  }

  lemma NoRotationIff(s: State, s': State, f: nat)
    requires s'.requests == s.requests
    ensures (forall r :: r in s'.requests ==> !RotatesIn(s', r, f)) <==> Rotations(s, f) == {}
  {
    forall r
      ensures r in s'.requests && RotatesIn(s', r, f) <==> r in Rotations(s, f)
    {}
    if Rotations(s, f) != {} {
      var r :| r in Rotations(s, f);
      assert r in s'.requests && RotatesIn(s', r, f);
    }
  }

  // ---- Two runs in which reuse does not end the family ----

  function FirstRow(start: int): Token {
    NewToken(0, "a", 7, 5, start, start, start + ABSOLUTE_SESSION_MAX_MS)
  }

  /** One login at `start`, whose token is in the hands of the given requests. */
  function OneFamily(start: int, now: int, row: Token, requests: map<nat, Request>): State {
    State(now, map[0 := row], requests, map[0 := FirstRow(start)],
          map[5 := Family(7, start + ABSOLUTE_SESSION_MAX_MS, start, [0])], map[0 := 0], map[])
  }

  lemma FoundOnly(t: Table, row: Token)
    requires t == map[0 := row]
    ensures FindByHash(t, row.tokenHash) == Some(row)
  {
    assert 0 in t && t[0].tokenHash == row.tokenHash;
  }

  lemma LoginStarts(s: State)
    requires Init(s)
    ensures Step(s, Login(7, 0, "a", 5, s.now, s.now)) == OneFamily(s.now, s.now, FirstRow(s.now), map[])
  {}

  lemma ReadPassesChecks(start: int, now: int)
    requires start <= now <= start + REFRESH_TOKEN_TTL_MS
    ensures var t := FirstRow(start);
            Step(OneFamily(start, now, t, map[]), RefreshRead(1, "a")) == OneFamily(start, now, t, map[1 := Checked(t)])
  {
    FoundOnly(map[0 := FirstRow(start)], FirstRow(start));
  }

  lemma CasWins(start: int, now: int)
    ensures Step(OneFamily(start, now, FirstRow(start), map[1 := Checked(FirstRow(start))]), RefreshCas(1))
         == OneFamily(start, now, Revoked(FirstRow(start), now), map[1 := Rotating(FirstRow(start))])
  {}

  lemma ExecThree(s: State, e: Event, e': Event, e'': Event)
    ensures Exec(s, [e, e', e'']) == Step(Step(Step(s, e), e'), e'')
  {
    assert [e, e', e''][..2] == [e, e'] && [e, e'][..1] == [e] && [e][..0] == [];
    assert Exec(s, [e]) == Step(s, e);
    assert Exec(s, [e, e']) == Step(Exec(s, [e]), e');
  }

  lemma RotationUnderWay(s: State)
    requires Init(s)
    ensures Exec(s, [Login(7, 0, "a", 5, s.now, s.now), RefreshRead(1, "a"), RefreshCas(1)])
         == OneFamily(s.now, s.now, Revoked(FirstRow(s.now), s.now), map[1 := Rotating(FirstRow(s.now))])
  {
    ExecThree(s, Login(7, 0, "a", 5, s.now, s.now), RefreshRead(1, "a"), RefreshCas(1));
    LoginStarts(s);
    ReadPassesChecks(s.now, s.now);
    CasWins(s.now, s.now);
  }

  lemma RevokedTokenPresented(now: int)
    ensures var s := OneFamily(now, now, Revoked(FirstRow(now), now), map[1 := Rotating(FirstRow(now))]);
            && Enabled(s, RefreshRead(2, "a"))
            && FindByHash(s.tokens, "a").value.revokedAt.Some?
            && Step(s, RefreshRead(2, "a"))
               == s.(requests := map[1 := Rotating(FirstRow(now)), 2 := RevokingFamily(5)])
            && Step(Step(s, RefreshRead(2, "a")), FamilyRevoke(2)) == s
  {
    var t := FirstRow(now);
    var s := OneFamily(now, now, Revoked(t, now), map[1 := Rotating(t)]);
    FoundOnly(s.tokens, Revoked(t, now));
    var s' := s.(requests := map[1 := Rotating(t), 2 := RevokingFamily(5)]);
    assert Step(s, RefreshRead(2, "a")) == s';
    assert RevokeFamily(s.tokens, 5, now) == s.tokens;
    assert s'.requests - {2} == s.requests;
  }

  /**
    The condition matters: a revoked token is presented while a rotation of its family is
    between its two steps, the family is revoked, and the row inserted afterwards is usable.
   */
  lemma ReuseDuringRotationSurvives(s: State)
    requires Init(s)
    ensures var s0 := Exec(s, [Login(7, 0, "a", 5, s.now, s.now), RefreshRead(1, "a"), RefreshCas(1)]);
            var s1 := Step(s0, RefreshRead(2, "a"));
            var s2 := Step(s1, FamilyRevoke(2));
            && Enabled(s0, RefreshRead(2, "a"))
            && FindByHash(s0.tokens, "a").value.revokedAt.Some?
            && s1.requests[2] == RevokingFamily(5)
            && Active(Step(s2, RefreshInsert(1, 1, "b", s.now)).tokens, 1)
            && Step(s2, RefreshInsert(1, 1, "b", s.now)).tokens[1].familyId == 5
  {
    RotationUnderWay(s);
    RevokedTokenPresented(s.now);
  }

  const DAY_MS := 24 * 60 * 60 * 1000

  /** The rows of the family after its one rotation, six days after the login. */
  function SecondRow(start: int): Token {
    NewToken(1, "b", 7, 5, start + 6 * DAY_MS, start + 6 * DAY_MS, start + ABSOLUTE_SESSION_MAX_MS)
  }

  function TwoRows(start: int, now: int, tokens: Table): State {
    State(now, tokens, map[], map[0 := FirstRow(start), 1 := SecondRow(start)],
          map[5 := Family(7, start + ABSOLUTE_SESSION_MAX_MS, start, [0, 1])], map[0 := 0, 1 := 1], map[1 := 0])
  }

  lemma ExecSnoc(s: State, es: seq<Event>, e: Event)
    ensures Exec(s, es + [e]) == Step(Exec(s, es), e)
  {
    assert (es + [e])[..|es|] == es;
  }

  /** A login, and six days later a rotation. */
  function LateRotation(start: int): seq<Event> {
    [Login(7, 0, "a", 5, start, start)] + [Tick(6 * DAY_MS)] + [RefreshRead(1, "a")] + [RefreshCas(1)]
    + [RefreshInsert(1, 1, "b", start + 6 * DAY_MS)]
  }

  lemma InsertFollows(start: int, now: int)
    requires now == start + 6 * DAY_MS
    ensures Step(OneFamily(start, now, Revoked(FirstRow(start), now), map[1 := Rotating(FirstRow(start))]), RefreshInsert(1, 1, "b", now))
         == TwoRows(start, now, map[0 := Revoked(FirstRow(start), now), 1 := SecondRow(start)])
  {
    var s := OneFamily(start, now, Revoked(FirstRow(start), now), map[1 := Rotating(FirstRow(start))]);
    assert Enabled(s, RefreshInsert(1, 1, "b", now));
    assert s.requests - {1} == map[];
    assert [0] + [1] == [0, 1];
  }

  lemma TickPasses(start: int, now: int)
    requires now == start + 6 * DAY_MS
    ensures Step(OneFamily(start, start, FirstRow(start), map[]), Tick(6 * DAY_MS)) == OneFamily(start, now, FirstRow(start), map[])
  {}

  lemma ExecFive(s: State, a: Event, b: Event, c: Event, d: Event, e: Event)
    ensures Exec(s, [a] + [b] + [c] + [d] + [e]) == Step(Step(Step(Step(Step(s, a), b), c), d), e)
  {
    assert [a][..0] == [];
    ExecSnoc(s, [a], b);
    ExecSnoc(s, [a] + [b], c);
    ExecSnoc(s, [a] + [b] + [c], d);
    ExecSnoc(s, [a] + [b] + [c] + [d], e);
  }

  lemma LateRotationDone(s: State, now: int)
    requires Init(s) && now == s.now + 6 * DAY_MS
    ensures Exec(s, LateRotation(s.now)) == TwoRows(s.now, now, map[0 := Revoked(FirstRow(s.now), now), 1 := SecondRow(s.now)])
  {
    ExecFive(s, Login(7, 0, "a", 5, s.now, s.now), Tick(6 * DAY_MS), RefreshRead(1, "a"), RefreshCas(1),
             RefreshInsert(1, 1, "b", now));
    LoginStarts(s);
    TickPasses(s.now, now);
    ReadPassesChecks(s.now, now);
    CasWins(s.now, now);
    InsertFollows(s.now, now);
  }

  lemma PurgeTakesFirstRow(start: int, now: int)
    requires now == start + 6 * DAY_MS
    ensures Step(Step(TwoRows(start, now, map[0 := Revoked(FirstRow(start), now), 1 := SecondRow(start)]), Tick(2 * DAY_MS)), Purge)
         == TwoRows(start, start + 8 * DAY_MS, map[1 := SecondRow(start)])
  {}

  /**
    The deletion matters: two days after that rotation the nightly job deletes the row that
    was rotated. Its token is then unknown to `refresh`, which revokes nothing, although the
    family has a usable row and no rotation in flight.
   */
  lemma ReuseOfDeletedRowUnseen(s: State, req: nat)
    requires Init(s)
    ensures var end := Exec(s, LateRotation(s.now) + [Tick(2 * DAY_MS)] + [Purge]);
            && Exchanged(end, 0) && 0 in end.issued && end.issued[0].tokenHash == "a" && req !in end.requests
            && Step(end, RefreshRead(req, "a")) == end
            && Active(end.tokens, 1) && end.tokens[1].familyId == 5 && !Expired(end.tokens[1], end.now)
            && Rotations(end, 5) == {}
  {
    LateRotationDone(s, s.now + 6 * DAY_MS);
    ExecSnoc(s, LateRotation(s.now), Tick(2 * DAY_MS));
    ExecSnoc(s, LateRotation(s.now) + [Tick(2 * DAY_MS)], Purge);
    PurgeTakesFirstRow(s.now, s.now + 6 * DAY_MS);
    var end := TwoRows(s.now, s.now + 8 * DAY_MS, map[1 := SecondRow(s.now)]);
    assert end.parent[1] == 0;
    assert FindByHash(end.tokens, "a").None?;
  }
}
