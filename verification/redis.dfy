/**
 * The revocation blocklist (src/db/redis.py): a key-value store in which a revoked
 * token's `jti` is set to the sentinel "blocked" with a fixed time to live. The store is
 * a map from key to its value and the instant its time to live runs out; the current
 * instant is passed in explicitly. Expired keys stay in the map and are simply no longer
 * reported, as Redis does for a key whose TTL has elapsed.
 */
module Redis {
  import opened Wrappers

  /** Time to live of a blocklist entry, in seconds. */
  const JTI_EXPIRY := 3600
  /** The value stored under every revoked `jti`. */
  const BLOCKED := "blocked"

  /** One key of the store: its value and the first instant at which it is gone. */
  datatype Entry = Entry(value: string, expiresAt: int)

  /** `GET key` at `now`: the value, or None when the key was never set or has expired. */
  function Get(entries: map<string, Entry>, key: string, now: int): Option<string> {
    if key in entries && now < entries[key].expiresAt then Some(entries[key].value) else None
  }

  /** `token_in_blocklist`: some value is stored under the `jti` at `now`. */
  function InBlocklist(entries: map<string, Entry>, jti: string, now: int): (r: bool)
    ensures r <==> Get(entries, jti, now).Some?
    ensures jti !in entries ==> !r
  {
    Get(entries, jti, now) != None
  }

  /** The store after `add_jti_to_blocklist(jti)` at `now`: `SET jti "blocked" EX JTI_EXPIRY`. */
  function Blocked(entries: map<string, Entry>, jti: string, now: int): (r: map<string, Entry>)
    ensures forall t :: InBlocklist(r, jti, t) <==> t < now + JTI_EXPIRY
    ensures forall t :: t < now + JTI_EXPIRY ==> Get(r, jti, t) == Some(BLOCKED)
    ensures forall j, t :: j != jti ==> Get(r, j, t) == Get(entries, j, t)
  {
    entries[jti := Entry(BLOCKED, now + JTI_EXPIRY)]
  }

  /** Adding a `jti` again only moves its expiry to the later `now + JTI_EXPIRY`. */
  lemma BlockAgainResetsExpiry(entries: map<string, Entry>, jti: string, first: int, second: int)
    ensures Blocked(Blocked(entries, jti, first), jti, second) == Blocked(entries, jti, second)
    ensures first <= second ==>
      forall t :: InBlocklist(Blocked(entries, jti, first), jti, t) ==>
        InBlocklist(Blocked(Blocked(entries, jti, first), jti, second), jti, t)
  {
  }

  /** Every value in a store that only `Blocked` has written is the sentinel. */
  ghost predicate OnlySentinels(entries: map<string, Entry>) {
    forall j :: j in entries ==> entries[j].value == BLOCKED
  }

  lemma BlockedKeepsSentinels(entries: map<string, Entry>, jti: string, now: int)
    requires OnlySentinels(entries)
    ensures OnlySentinels(Blocked(entries, jti, now))
    ensures forall j, t :: Get(Blocked(entries, jti, now), j, t) in {None, Some(BLOCKED)}
  {
  }

  /** The Redis connection `token_blocklist`, reduced to the keys it holds. */
  class TokenBlocklist {
    var entries: map<string, Entry>

    ghost predicate Valid()
      reads this
    {
      OnlySentinels(entries)
    }

    constructor ()
      ensures Valid() && entries == map[]
    {
      entries := map[];
    }

    /** `add_jti_to_blocklist`. */
    method AddJtiToBlocklist(jti: string, now: int)
      requires Valid()
      modifies this
      ensures Valid()
      ensures entries == Blocked(old(entries), jti, now)
    {
      entries := entries[jti := Entry(BLOCKED, now + JTI_EXPIRY)];
    }

    /** `token_in_blocklist`: a point lookup; an absent key reads as not revoked. */
    method TokenInBlocklist(jti: string, now: int) returns (b: bool)
      requires Valid()
      ensures b == InBlocklist(entries, jti, now)
      ensures b ==> jti in entries && Get(entries, jti, now) == Some(BLOCKED)
    {
      var result := Get(entries, jti, now);
      b := result != None;
    }
  }
}
