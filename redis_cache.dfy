/** The part of Redis the service uses: `GET` and `SET … EX`. The cache is a
    map from key to value and absolute expiry instant (milliseconds); a key
    is live until the clock passes its expiry, after which `GET` misses. */
module RedisCache {
  import opened Wrappers

  datatype Entry = Entry(value: string, expiresAt: int)

  type Cache = map<string, Entry>

  /** `GET key` at time `now`. */
  function Get(cache: Cache, key: string, now: int): Option<string> {
    if key in cache && now <= cache[key].expiresAt then Some(cache[key].value) else None
  }

  /** `SET key value EX ttl` at time `now`. Redis rejects an expiry below one
      second, so a caller must pass `ttl >= 1`. */
  function SetEx(cache: Cache, key: string, value: string, ttl: int, now: int): Cache
    requires ttl >= 1
  {
    cache[key := Entry(value, now + ttl * 1000)]
  }

  /** After `SET key value EX ttl`, `GET key` gives the value for exactly
      `ttl` seconds, and every other key reads as before. */
  lemma SetExThenGet(cache: Cache, key: string, value: string, ttl: int, now: int, later: int, other: string)
    requires ttl >= 1
    ensures Get(SetEx(cache, key, value, ttl, now), key, later)
         == if later <= now + ttl * 1000 then Some(value) else None
    ensures other != key ==> Get(SetEx(cache, key, value, ttl, now), other, later) == Get(cache, other, later)
  {
  }
}
