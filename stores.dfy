/**
 * The two external stores the core consults: the refresh-token store, keyed
 * by the access token a refresh token was issued with, and the blacklist of
 * revoked access tokens. Their services are not part of this model; each is
 * a single mutable collection here.
 */
module Stores {

  /** A stored refresh token and the instant (milliseconds) it was recorded to expire at. */
  datatype RefreshRecord = RefreshRecord(refreshToken: string, expiresAt: int)

  /**
   * The store after moving the record kept under `oldAccess` to `newAccess`;
   * a store holding nothing under `oldAccess` is left as it is.
   */
  function Rekey(records: map<string, RefreshRecord>, oldAccess: string, newAccess: string): (r: map<string, RefreshRecord>)
    ensures oldAccess !in records ==> r == records
    ensures oldAccess in records ==>
      && r.Keys == records.Keys - {oldAccess} + {newAccess}
      && r[newAccess] == records[oldAccess]
    ensures forall k :: k in records && k != oldAccess && k != newAccess ==> k in r && r[k] == records[k]
  {
    if oldAccess in records then (records - {oldAccess})[newAccess := records[oldAccess]] else records
  }

  /** The refresh-token store: access token -> the refresh record issued with it. */
  class RefreshStore {
    var records: map<string, RefreshRecord>

    constructor ()
      ensures records == map[]
    {
      records := map[];
    }

    /** Records `refreshToken` against `accessToken`, replacing any record kept under that access token. */
    method Save(accessToken: string, refreshToken: string, expiresAt: int)
      modifies this
      ensures records == old(records)[accessToken := RefreshRecord(refreshToken, expiresAt)]
    {
      records := records[accessToken := RefreshRecord(refreshToken, expiresAt)];
    }

    /** Moves the record of `oldAccess` so that it is found under `newAccess` from now on. */
    method UpdateRefreshToken(oldAccess: string, newAccess: string)
      modifies this
      ensures records == Rekey(old(records), oldAccess, newAccess)
    {
      if oldAccess in records {
        var rec := records[oldAccess];
        records := (records - {oldAccess})[newAccess := rec];
      }
    }
  }

  /** Revoked access tokens (the Redis keys the gatekeeper tests with `hasKey`). */
  class Blacklist {
    var keys: set<string>

    constructor ()
      ensures keys == {}
    {
      keys := {};
    }
  }
}
