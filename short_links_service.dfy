/** `ShortLinksService` as the object it is: the repository's table and the
    Redis cache are its state, and `create`, `resolveShortCode` and `findOne`
    are methods that read and update them step by step. Each method is
    proved to do what the functions of module ShortLinks say, and to keep
    the table well-formed and the cache coherent with it. */
module ShortLinksService {
  import opened Wrappers
  import opened UrlCanonical
  import opened Digest
  import opened Base62
  import opened ShortLinkStore
  import opened RedisCache
  import opened ShortLinks

  class ShortLinksService {
    /** The URL parser, SHA-256 and the base-62 alphabet. */
    const toolkit: Toolkit
    /** The `short-links` table. */
    var rows: seq<ShortLink>
    /** The Redis keyspace. */
    var cache: Cache
    /** How many times `save` has been called. */
    ghost var saves: nat

    ghost predicate Valid()
      reads this
    {
      ValidToolkit(toolkit) && WellFormed(rows) && CacheCoherent(rows, cache)
    }

    /** The service over a repository and a Redis keyspace that already hold
        data: a table the schema allows and a cache coherent with it. */
    constructor (toolkit: Toolkit, rows0: seq<ShortLink>, cache0: Cache)
      requires ValidToolkit(toolkit) && WellFormed(rows0) && CacheCoherent(rows0, cache0)
      ensures Valid()
      ensures this.toolkit == toolkit && rows == rows0 && cache == cache0 && saves == 0
    {
      this.toolkit := toolkit;
      rows := rows0;
      cache := cache0;
      saves := 0;
    }

    /** `shortLinkRepository.save(entity)` */
    method Save(draft: NewShortLink, now: int) returns (r: Result<ShortLink, StoreError>)
      modifies this
      ensures r == Insert(old(rows), draft, now)
      ensures rows == AfterSave(old(rows), r)
      ensures cache == old(cache) && saves == old(saves) + 1
    {
      r := Insert(rows, draft, now);
      rows := AfterSave(rows, r);
      saves := saves + 1;
    }

    /** One attempt of the loop of `create`: hash the canonical URL, salted
        from the second attempt on, encode the hash as a short code, and save. */
    method Attempt(dto: CreateShortLinkDto, user: Option<string>, now: int, canonicalUrl: string, attempt: nat)
      returns (saved: Result<ShortLink, StoreError>)
      requires ValidToolkit(toolkit)
      modifies this
      ensures saved == Insert(old(rows), AttemptDraft(toolkit, dto, user, canonicalUrl, attempt), now)
      ensures saved == StoreSave(old(rows), now)(AttemptDrafts(toolkit, dto, user, canonicalUrl)(attempt))
      ensures rows == AfterSave(old(rows), saved)
      ensures cache == old(cache) && saves == old(saves) + 1
    {
      var saltedInput := SaltedInput(canonicalUrl, attempt);
      var hashCode := HashCanonicalUrl(toolkit.sha256, saltedInput, DefaultHashLength);
      var shortCode := EncodeHexToBase62(toolkit.alphabet, hashCode, DefaultCodeLength);
      saved := Save(Draft(dto, user, canonicalUrl, hashCode, shortCode), now);
      AttemptSave(toolkit, dto, user, canonicalUrl, old(rows), now, attempt);
    }

    /** The loop of `create`: up to five attempts; a duplicate key moves on
        to the next attempt, any other error is passed on. */
    method Retry(dto: CreateShortLinkDto, user: Option<string>, now: int, canonicalUrl: string)
      returns (r: Result<ShortLink, ServiceError>)
      requires ValidToolkit(toolkit)
      modifies this
      ensures var o := RetrySpec(old(rows), StoreSave(old(rows), now), AttemptDrafts(toolkit, dto, user, canonicalUrl), 0);
        r == o.result && rows == o.rows && saves == old(saves) + o.saves
      ensures cache == old(cache)
    {
      ghost var save, draft := StoreSave(rows, now), AttemptDrafts(toolkit, dto, user, canonicalUrl);
      ghost var outcome := RetrySpec(rows, save, draft, 0);
      for attempt := 0 to MaxRetries
        invariant rows == old(rows) && cache == old(cache) && saves == old(saves) + attempt
        invariant var rest := RetrySpec(rows, save, draft, attempt);
          outcome == rest.(saves := rest.saves + attempt)
      {
        var saved := Attempt(dto, user, now, canonicalUrl, attempt);
        if saved.Success? {
          return Success(saved.value);
        }
        if !IsDuplicateKey(saved.error) {
          return Failure(Database(saved.error));
        }
      }
      return Failure(Http(BadRequest(GenerateFailedMessage)));
    }

    /** `create` once the URL is canonical: the alias branch, the lookup by
        the unsalted hash, then the retry loop. */
    method CreateFromCanonical(dto: CreateShortLinkDto, user: Option<string>, now: int, canonicalUrl: string)
      returns (r: Result<ShortLink, ServiceError>)
      requires ValidToolkit(toolkit)
      modifies this
      ensures var o := CreateCanonical(toolkit, old(rows), dto, user, now, canonicalUrl);
        r == o.result && rows == o.rows && saves == old(saves) + o.saves
      ensures cache == old(cache)
    {
      var hash := HashCanonicalUrl(toolkit.sha256, canonicalUrl, DefaultHashLength);
      if HasAlias(dto) {
        var alias := dto.customAlias.value;
        if FindBy(rows, ShortCodeColumn, alias).Some? {
          return Failure(Http(BadRequest(AliasTakenMessage)));
        }
        var saved := Save(Draft(dto, user, canonicalUrl, hash, alias), now);
        return if saved.Success? then Success(saved.value) else Failure(Database(saved.error));
      }
      var existing := FindBy(rows, CanonicalHashColumn, hash);
      if existing.Some? {
        return Success(existing.value);
      }
      r := Retry(dto, user, now, canonicalUrl);
    }

    /** `create(createShortLinkDto, userPayload)` at time `now`. */
    method Create(dto: CreateShortLinkDto, user: Option<string>, now: int) returns (r: Result<ShortLink, ServiceError>)
      requires Valid()
      modifies this
      ensures var o := CreateSpec(toolkit, old(rows), dto, user, now);
        r == o.result && rows == o.rows && saves == old(saves) + o.saves
      ensures cache == old(cache)
      ensures Valid()
    {
      CreateTable(toolkit, rows, dto, user, now);
      CreateKeepsCoherent(toolkit, rows, cache, dto, user, now);
      var canonical := CanonicalizeUrl(dto.originalUrl, toolkit.parse);
      if canonical.Failure? {
        return Failure(Http(canonical.error));
      }
      r := CreateFromCanonical(dto, user, now, canonical.value);
    }

    /** `resolveShortCode(shortCode)` at time `now`. */
    method ResolveShortCode(shortCode: string, now: int) returns (r: Result<string, HttpException>)
      requires Valid()
      modifies this
      ensures var o := ResolveSpec(old(rows), old(cache), shortCode, now);
        r == o.result && cache == o.cache
      ensures rows == old(rows) && saves == old(saves)
      ensures Valid()
    {
      ResolveKeepsCoherent(rows, cache, shortCode, now);
      var cacheKey := CacheKey(shortCode);
      var cachedUrl := Get(cache, cacheKey, now);
      if cachedUrl.Some? && cachedUrl.value != "" {
        return Success(cachedUrl.value);
      }
      var found := FindBy(rows, ShortCodeColumn, shortCode);
      if found.None? {
        return Failure(NotFound(CodeNotFoundMessage(shortCode)));
      }
      var link := found.value;
      if link.expiredAt.Some? && now > link.expiredAt.value {
        return Failure(NotFound(ExpiredMessage));
      }
      var ttl: nat := DefaultTtl;
      if link.expiredAt.Some? {
        var remainingSeconds := (link.expiredAt.value - now) / 1000;
        if remainingSeconds < 0 {
          remainingSeconds := 0;
        }
        if remainingSeconds < DefaultTtl {
          ttl := remainingSeconds;
        }
        if ttl == 0 {
          return Success(link.originalUrl);
        }
      }
      cache := SetEx(cache, cacheKey, link.originalUrl, ttl, now);
      return Success(link.originalUrl);
    }

    /** `findOne(id)` */
    method FindOne(id: nat) returns (r: Result<ShortLink, HttpException>)
      ensures r == FindOneSpec(rows, id)
    {
      var shortLink := FindById(rows, id);
      if shortLink.None? {
        return Failure(NotFound(IdNotFoundMessage(id)));
      }
      return Success(shortLink.value);
    }
  }
}
