/** The three checks of app/rate_limiter.py: the key of the request, then one run of the script on it. */
module LimiterChecks {
  import opened Wrappers
  import opened RateLimiter
  import opened RateLimitKeys

  class Limiter {
    const client: Redis
    const keyPrefix: string

    constructor (client: Redis, configuredPrefix: string)
      ensures this.client == client && keyPrefix == KeyPrefix(configuredPrefix)
    {
      this.client := client;
      this.keyPrefix := KeyPrefix(configuredPrefix);
    }

    /** Counts the login attempt of this address and username, and no other. */
    method CheckLogin(ipDigest: string, usernameDigest: string, limit: nat, window: nat, now: Time)
      returns (d: RateLimitDecision)
      requires window > 0 && ':' !in ipDigest
      modifies client
      ensures WindowPromise(old(client.keys), LoginKey(keyPrefix, ipDigest, usernameDigest), window, now, client.keys)
      ensures DecisionPromise(client.keys, LoginKey(keyPrefix, ipDigest, usernameDigest), limit, now, d)
      ensures forall ip: string, name: string :: ':' !in ip && (ip != ipDigest || name != usernameDigest) ==>
                SameEntry(old(client.keys), client.keys, LoginKey(keyPrefix, ip, name))
    {
      d := client.CheckKey(LoginKey(keyPrefix, ipDigest, usernameDigest), limit, window, now);
      forall ip: string, name: string | ':' !in ip && (ip != ipDigest || name != usernameDigest)
        ensures LoginKey(keyPrefix, ip, name) != LoginKey(keyPrefix, ipDigest, usernameDigest)
      {
        LoginKeysIsolated(keyPrefix, ip, name, ipDigest, usernameDigest);
      }
    }

    /** Counts the registration attempt of this address, and no other. */
    method CheckRegistration(ipDigest: string, limit: nat, window: nat, now: Time) returns (d: RateLimitDecision)
      requires window > 0
      modifies client
      ensures WindowPromise(old(client.keys), RegistrationKey(keyPrefix, ipDigest), window, now, client.keys)
      ensures DecisionPromise(client.keys, RegistrationKey(keyPrefix, ipDigest), limit, now, d)
      ensures forall ip: string :: ip != ipDigest ==>
                SameEntry(old(client.keys), client.keys, RegistrationKey(keyPrefix, ip))
    {
      d := client.CheckKey(RegistrationKey(keyPrefix, ipDigest), limit, window, now);
      forall ip: string | ip != ipDigest
        ensures RegistrationKey(keyPrefix, ip) != RegistrationKey(keyPrefix, ipDigest)
      {
        RegistrationKeysIsolated(keyPrefix, ip, ipDigest);
      }
    }

    /** Counts the write of this user in this scope and workspace, and no other. */
    method CheckWrite(user: nat, scope: string, workspace: Option<nat>, limit: nat, window: nat, now: Time)
      returns (d: RateLimitDecision)
      requires window > 0 && ':' !in scope
      modifies client
      ensures WindowPromise(old(client.keys), WriteKey(keyPrefix, user, scope, workspace), window, now, client.keys)
      ensures DecisionPromise(client.keys, WriteKey(keyPrefix, user, scope, workspace), limit, now, d)
      ensures forall u: nat, s: string, w: Option<nat> ::
                ':' !in s && (u != user || s != scope || w != workspace) ==>
                  SameEntry(old(client.keys), client.keys, WriteKey(keyPrefix, u, s, w))
    {
      d := client.CheckKey(WriteKey(keyPrefix, user, scope, workspace), limit, window, now);
      forall u: nat, s: string, w: Option<nat> | ':' !in s && (u != user || s != scope || w != workspace)
        ensures WriteKey(keyPrefix, u, s, w) != WriteKey(keyPrefix, user, scope, workspace)
      {
        WriteKeysIsolated(keyPrefix, u, s, w, user, scope, workspace);
      }
    }
  }

  predicate SameEntry(before: map<string, Entry>, after: map<string, Entry>, key: string) {
    (key in before <==> key in after) && (key in before ==> after[key] == before[key])
  }

  /** The decision, from the counter the script left. */
  predicate DecisionPromise(keys: map<string, Entry>, key: string, limit: nat, now: Time, d: RateLimitDecision) {
    && key in keys && keys[key].expiresAt.Some?
    && d.limit == limit && d.count == keys[key].count
    && (d.allowed <==> keys[key].count <= limit)
    && d.remaining == (if keys[key].count <= limit then limit - keys[key].count else 0)
    && d.retryAfter >= 1 && now + d.retryAfter == keys[key].expiresAt.value
  }
}
