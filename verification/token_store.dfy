/**
 * The server-side refresh-token records: one record per issued token, holding
 * its owner and whether it has been revoked. Expiry is not modelled.
 */
module TokenStore {

  type Token = string
  type UserId = string

  /** The stored shadow of one issued refresh token. */
  datatype Record = Record(owner: UserId, revoked: bool)

  type Store = map<Token, Record>

  /** `isRefreshTokenValid`: a record is present and not revoked. */
  predicate IsValid(s: Store, t: Token)
  {
    t in s && !s[t].revoked
  }

  /** `storeRefreshToken(owner, t)`: a new, unrevoked record for `owner`; no other record changes. */
  function Put(s: Store, owner: UserId, t: Token): (s': Store)
    ensures IsValid(s', t) && s'[t].owner == owner
    ensures s'.Keys == s.Keys + {t}
    ensures forall k :: k in s && k != t ==> s'[k] == s[k]
  {
    s[t := Record(owner, false)]
  }

  /**
   * `revokeRefreshToken(t)`: the record of `t`, if any, is marked revoked;
   * an unknown token is not an error and changes nothing.
   */
  function Revoke(s: Store, t: Token): (s': Store)
    ensures !IsValid(s', t)
    ensures s'.Keys == s.Keys
    ensures t in s ==> s'[t].owner == s[t].owner
    ensures forall k :: k in s && k != t ==> s'[k] == s[k]
  {
    if t in s then s[t := s[t].(revoked := true)] else s
  }

  /** Revoking twice is revoking once. */
  lemma RevokeIdempotent(s: Store, t: Token)
    ensures Revoke(Revoke(s, t), t) == Revoke(s, t)
  {
  }

  /**
   * The tokens recorded for `uid`: exactly the records bulk revocation
   * invalidates, every other record being left as it was.
   */
  function OwnedBy(s: Store, uid: UserId): (ts: set<Token>)
    ensures forall k :: k in ts <==> k in s && s[k].owner == uid
    ensures forall k :: k in ts ==> !IsValid(RevokeAll(s, uid), k) && RevokeAll(s, uid)[k].owner == s[k].owner
    ensures forall k :: k in s && k !in ts ==> RevokeAll(s, uid)[k] == s[k]
  {
    set k | k in s && s[k].owner == uid
  }

  /**
   * `revokeAllUserTokens(uid)`: every record owned by `uid` is revoked, every
   * other record is left exactly as it was.
   */
  function RevokeAll(s: Store, uid: UserId): (s': Store)
    ensures s'.Keys == s.Keys
    ensures forall k :: k in s ==> s'[k].owner == s[k].owner
    ensures forall k :: k in s && s[k].owner == uid ==> !IsValid(s', k)
    ensures forall k :: k in s && s[k].owner != uid ==> s'[k] == s[k]
  {
    map k | k in s :: if s[k].owner == uid then s[k].(revoked := true) else s[k]
  }

  /**
   * Revoking a user's records one at a time, as a store without batch
   * updates would, ends in the same store as the bulk revocation.
   */
  method RevokeEach(s: Store, uid: UserId) returns (s': Store)
    ensures s' == RevokeAll(s, uid)
  {
    var pending := OwnedBy(s, uid);
    s' := s;
    while pending != {}
      invariant pending <= OwnedBy(s, uid)
      invariant s'.Keys == s.Keys
      invariant forall k :: k in s && k !in pending ==> s'[k] == RevokeAll(s, uid)[k]
      invariant forall k :: k in pending ==> s'[k] == s[k]
      decreases pending
    {
      var k :| k in pending;
      s' := Revoke(s', k);
      pending := pending - {k};
    }
    assert forall k :: k in s ==> s'[k] == RevokeAll(s, uid)[k];
  }

  /** Revoking all of a user's records twice is revoking them once. */
  lemma RevokeAllIdempotent(s: Store, uid: UserId)
    ensures RevokeAll(RevokeAll(s, uid), uid) == RevokeAll(s, uid)
  {
  }
}
