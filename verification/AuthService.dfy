/**
  The token table with the requests working on it, updated in place. Each method is the
  stretch of a service method between two awaited calls, or one write by the nightly job or
  the erasure of a user; its contract is one step of the machine in RefreshTokens, so every
  theorem there speaks about these methods.
 */
module AuthService {
  import opened Common
  import opened RefreshTokens

  datatype RefreshOutcome = Accepted | Expired | FamilyToRevoke | Unknown

  class AuthService {
    var now: int
    var tokens: Table
    var requests: map<nat, Request>
    ghost var issued: Table
    ghost var families: map<nat, Family>
    ghost var place: map<nat, nat>
    ghost var parent: map<nat, nat>

    ghost function View(): State
      reads this
    {
      State(now, tokens, requests, issued, families, place, parent)
    }

    /** The unique index on the token hash; what is in the table was issued once. */
    ghost predicate Valid()
      reads this
    {
      && (forall i :: i in tokens ==> i in issued && issued[i].tokenHash == tokens[i].tokenHash)
      && forall i, j :: i in tokens && j in tokens && tokens[i].tokenHash == tokens[j].tokenHash ==> i == j
    }

    constructor (now: int)
      ensures Valid() && Init(View()) && this.now == now
    {
      this.now := now;
      tokens, requests := map[], map[];
      issued, families, place, parent := map[], map[], map[], map[];
    }

    method Lookup(tokenHash: string) returns (r: Option<Token>)
      requires Valid()
      ensures r == FindByHash(tokens, tokenHash)
    {
      if id :| id in tokens && tokens[id].tokenHash == tokenHash {
        r := Some(tokens[id]);
      } else {
        r := None;
      }
    }

    /** `issueRefreshToken` for a login: a new family. */
    method IssueForLogin(userId: nat, id: nat, tokenHash: string, familyId: nat, issuedAt: int, startedAt: int)
      requires Valid() && Fresh(View(), id, tokenHash) && familyId !in families && issuedAt <= startedAt <= now
      modifies this
      ensures Valid() && View() == Step(old(View()), Login(userId, id, tokenHash, familyId, issuedAt, startedAt))
      ensures tokens == old(tokens)[id := Token(id, tokenHash, userId, familyId, now,
                                                issuedAt + 604_800_000, startedAt + 2_592_000_000, None)]
    {
      var sessionEnd := startedAt + ABSOLUTE_SESSION_MAX_MS;
      tokens := tokens[id := Token(id, tokenHash, userId, familyId, now, issuedAt + REFRESH_TOKEN_TTL_MS, sessionEnd, None)];
      issued := issued[id := tokens[id]];
      families := families[familyId := Family(userId, sessionEnd, now, [id])];
      place := place[id := 0];
    }

    /** `refresh` up to its first write: look the token up and check it. */
    method CheckForRefresh(req: nat, tokenHash: string) returns (outcome: RefreshOutcome)
      requires Valid() && req !in requests
      modifies this
      ensures Valid() && View() == Step(old(View()), RefreshRead(req, tokenHash))
      ensures tokens == old(tokens)
      ensures outcome.Unknown? <==> forall id :: id in tokens ==> tokens[id].tokenHash != tokenHash
      ensures forall id :: id in tokens && tokens[id].tokenHash == tokenHash ==>
                var t := tokens[id];
                && (outcome.Expired? <==> t.revokedAt.None? && t.expiresAt < now)
                && (outcome.FamilyToRevoke? <==> t.revokedAt.Some? || (t.expiresAt >= now && t.familySessionExpiresAt < now))
                && (outcome.FamilyToRevoke? ==> requests == old(requests)[req := RevokingFamily(t.familyId)])
                && (outcome.Accepted? ==> requests == old(requests)[req := Checked(t)])
      ensures outcome.Unknown? || outcome.Expired? ==> requests == old(requests)
      ensures outcome.Accepted? <==> req in requests && requests[req].Checked?
      ensures outcome.FamilyToRevoke? <==> req in requests && requests[req].RevokingFamily?
    {
      var found := Lookup(tokenHash);
      if found.None? {
        return Unknown;
      }
      var stored := found.value;
      if stored.revokedAt.Some? {
        requests := requests[req := RevokingFamily(stored.familyId)];
        return FamilyToRevoke;
      }
      if stored.expiresAt < now {
        assert requests - {req} == requests;
        return Expired;
      }
      if stored.familySessionExpiresAt < now {
        requests := requests[req := RevokingFamily(stored.familyId)];
        return FamilyToRevoke;
      }
      requests := requests[req := Checked(stored)];
      return Accepted;
    }

    /** `revokeRefreshTokenIfActive` and what `refresh` makes of its answer. */
    method RevokeIfActive(req: nat) returns (stillActive: bool)
      requires Valid() && req in requests && requests[req].Checked?
      modifies this
      ensures Valid() && View() == Step(old(View()), RefreshCas(req))
      ensures var t := old(requests)[req].stored;
              && (stillActive <==> t.id in old(tokens) && old(tokens)[t.id].revokedAt == None)
              && (stillActive ==> tokens == old(tokens)[t.id := old(tokens)[t.id].(revokedAt := Some(now))]
                                  && requests == old(requests)[req := Rotating(t)])
              && (!stillActive ==> tokens == old(tokens) && requests == old(requests)[req := RevokingFamily(t.familyId)])
    {
      var stored := requests[req].stored;
      stillActive := stored.id in tokens && tokens[stored.id].revokedAt.None?;
      if stillActive {
        tokens := tokens[stored.id := tokens[stored.id].(revokedAt := Some(now))];
        requests := requests[req := Rotating(stored)];
      } else {
        requests := requests[req := RevokingFamily(stored.familyId)];
      }
    }

    /** `issueRefreshToken` for a rotation: user, family and absolute limit are handed on. */
    method IssueForRotation(req: nat, id: nat, tokenHash: string, issuedAt: int)
      requires Valid() && req in requests && requests[req].Rotating? && Fresh(View(), id, tokenHash) && issuedAt <= now
      modifies this
      ensures Valid() && View() == Step(old(View()), RefreshInsert(req, id, tokenHash, issuedAt))
      ensures var t := old(requests)[req].stored;
              tokens == old(tokens)[id := Token(id, tokenHash, t.userId, t.familyId, now,
                                                issuedAt + 604_800_000, t.familySessionExpiresAt, None)]
    {
      var stored := requests[req].stored;
      tokens := tokens[id := Token(id, tokenHash, stored.userId, stored.familyId, now,
                                   issuedAt + REFRESH_TOKEN_TTL_MS, stored.familySessionExpiresAt, None)];
      requests := requests - {req};
      issued := issued[id := tokens[id]];
      ghost var fam := if stored.familyId in families then families[stored.familyId] else Family(stored.userId, 0, 0, []);
      families := families[stored.familyId := fam.(line := fam.line + [id])];
      place := place[id := |fam.line|];
      parent := parent[id := stored.id];
    }

    method RevokeRefreshTokenFamily(req: nat)
      requires Valid() && req in requests && requests[req].RevokingFamily?
      modifies this
      ensures Valid() && View() == Step(old(View()), FamilyRevoke(req))
      ensures tokens.Keys == old(tokens).Keys
      ensures forall id :: id in tokens ==>
                var t := old(tokens)[id];
                tokens[id] == if t.familyId == old(requests)[req].familyId && t.revokedAt == None then t.(revokedAt := Some(now)) else t
    {
      var f := requests[req].familyId;
      var revoked := map id | id in tokens ::
        if tokens[id].familyId == f && tokens[id].revokedAt.None? then tokens[id].(revokedAt := Some(now)) else tokens[id];
      assert revoked == RevokeFamily(tokens, f, now);
      tokens := revoked;
      requests := requests - {req};
    }

    /** `logout` up to its write: somebody else's token, or an unknown one, is ignored. */
    method CheckForLogout(req: nat, userId: nat, tokenHash: string)
      requires Valid() && req !in requests
      modifies this
      ensures Valid() && View() == Step(old(View()), LogoutRead(req, userId, tokenHash))
      ensures tokens == old(tokens)
      ensures forall id :: id in tokens && tokens[id].tokenHash == tokenHash ==>
                requests == if tokens[id].userId == userId && tokens[id].revokedAt == None
                            then old(requests)[req := RevokingOne(tokens[id].id)] else old(requests)
      ensures (forall id :: id in tokens ==> tokens[id].tokenHash != tokenHash) ==> requests == old(requests)
    {
      var found := Lookup(tokenHash);
      assert requests - {req} == requests;
      if found.None? || found.value.userId != userId {
        return;
      }
      if found.value.revokedAt.None? {
        requests := requests[req := RevokingOne(found.value.id)];
      }
    }

    /** `revokeSession` up to its write; false is "session not found". */
    method CheckForRevokeSession(req: nat, userId: nat, sessionId: nat) returns (found: bool)
      requires Valid() && req !in requests
      modifies this
      ensures Valid() && View() == Step(old(View()), SessionRead(req, userId, sessionId))
      ensures tokens == old(tokens)
      ensures found <==> sessionId in tokens && tokens[sessionId].userId == userId
      ensures requests == if found && tokens[sessionId].revokedAt == None
                          then old(requests)[req := RevokingOne(tokens[sessionId].id)] else old(requests)
    {
      assert requests - {req} == requests;
      found := sessionId in tokens && tokens[sessionId].userId == userId;
      if found && tokens[sessionId].revokedAt.None? {
        requests := requests[req := RevokingOne(tokens[sessionId].id)];
      }
    }

    method RevokeRefreshToken(req: nat)
      requires Valid() && req in requests && requests[req].RevokingOne?
      modifies this
      ensures Valid() && View() == Step(old(View()), RevokeById(req))
      ensures var id := old(requests)[req].id;
              tokens == if id in old(tokens) then old(tokens)[id := old(tokens)[id].(revokedAt := Some(now))] else old(tokens)
    {
      var id := requests[req].id;
      if id in tokens {
        tokens := tokens[id := tokens[id].(revokedAt := Some(now))];
      }
      requests := requests - {req};
    }

    /** `revokeAllSessions`, and the revocation inside the transaction of `resetPassword`. */
    method RevokeAllRefreshTokensForUser(userId: nat)
      requires Valid()
      modifies this
      ensures Valid() && View() == Step(old(View()), RevokeAll(userId))
      ensures tokens.Keys == old(tokens).Keys
      ensures forall id :: id in tokens ==>
                var t := old(tokens)[id];
                tokens[id] == if t.userId == userId && t.revokedAt == None then t.(revokedAt := Some(now)) else t
    {
      var revoked := map id | id in tokens ::
        if tokens[id].userId == userId && tokens[id].revokedAt.None? then tokens[id].(revokedAt := Some(now)) else tokens[id];
      assert revoked == RevokeUser(tokens, userId, now);
      tokens := revoked;
    }

    /** The nightly job `cleanup-expired-refresh-tokens`. */
    method CleanupExpired()
      requires Valid()
      modifies this
      ensures Valid() && View() == Step(old(View()), Purge)
      ensures forall id :: id in tokens <==>
                id in old(tokens) && old(tokens)[id].expiresAt >= now && old(tokens)[id].familySessionExpiresAt >= now
      ensures forall id :: id in tokens ==> tokens[id] == old(tokens)[id]
    {
      ghost var was := tokens;
      tokens := map id | id in tokens && !(tokens[id].expiresAt < now || tokens[id].familySessionExpiresAt < now) :: tokens[id];
      assert tokens == DeleteExpired(was, now);
    }

    /** `deleteMany` for one user, inside the transaction of `eraseUserData`. */
    method EraseUser(userId: nat)
      requires Valid()
      modifies this
      ensures Valid() && View() == Step(old(View()), Erase(userId))
      ensures forall id :: id in tokens <==> id in old(tokens) && old(tokens)[id].userId != userId
      ensures forall id :: id in tokens ==> tokens[id] == old(tokens)[id]
    {
      ghost var was := tokens;
      tokens := map id | id in tokens && tokens[id].userId != userId :: tokens[id];
      assert tokens == DeleteUser(was, userId);
    }
  }
}
