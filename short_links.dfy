/** What `ShortLinksService.create`, `resolveShortCode` and `findOne` compute,
    as functions of the table, the cache, the request and the clock, with the
    properties the service promises. The class that runs them step by step
    is in module ShortLinksService. */
module ShortLinks {
  import opened Wrappers
  import opened Text
  import opened UrlCanonical
  import opened Digest
  import opened Base62
  import opened ShortLinkStore
  import opened RedisCache

  /** The service's foreign collaborators: the URL parser, SHA-256 and the
      base-62 alphabet constant. */
  datatype Toolkit = Toolkit(parse: UrlParser, sha256: Sha256, alphabet: seq<char>)

  predicate ValidToolkit(t: Toolkit) {
    IsAlphabet(t.alphabet)
  }

  /** `CreateShortLinkDto`, with `expiredAt` already read as a millisecond instant. */
  datatype CreateShortLinkDto = CreateShortLinkDto(
    originalUrl: string,
    customAlias: Option<string>,
    expiredAt: Option<int>)

  datatype ServiceError = Http(exception: HttpException) | Database(error: StoreError)

  const MaxRetries: nat := 5
  /** 24 hours, in seconds. */
  const DefaultTtl: nat := 86400
  const AliasTakenMessage := "Custom alias is already taken."
  const GenerateFailedMessage := "Unable to generate short link. Please try again."
  const ExpiredMessage := "Short link has expired"
  const CacheKeyPrefix := "short_link:"

  function CodeNotFoundMessage(code: string): string {
    "Short link with code " + code + " not found"
  }

  function IdNotFoundMessage(id: nat): string {
    "Short link with ID " + DecimalText(id) + " not found"
  }

  /** The cache key of a short code. */
  function CacheKey(code: string): string {
    CacheKeyPrefix + code
  }

  /** Distinct short codes have distinct cache keys. */
  lemma CacheKeyInjective(a: string, b: string)
    ensures CacheKey(a) == CacheKey(b) <==> a == b
  {
    if CacheKey(a) == CacheKey(b) {
      assert a == CacheKey(a)[|CacheKeyPrefix|..];
      assert b == CacheKey(b)[|CacheKeyPrefix|..];
    }
  }

  /** A custom alias is used when it is given and not empty (a truthy string). */
  predicate HasAlias(dto: CreateShortLinkDto) {
    dto.customAlias.Some? && dto.customAlias.value != ""
  }

  // ---------------------------------------------------------------------
  // Creating a short link

  /** The text hashed on retry `attempt`: the canonical URL, salted with
      `#attempt` from the second attempt on. */
  function SaltedInput(canonicalUrl: string, attempt: nat): string {
    if attempt == 0 then canonicalUrl else canonicalUrl + "#" + DecimalText(attempt)
  }

  function AttemptHash(t: Toolkit, canonicalUrl: string, attempt: nat): (h: string)
    ensures |h| == 16 && IsHexString(h)
  {
    HashCanonicalUrl(t.sha256, SaltedInput(canonicalUrl, attempt), DefaultHashLength)
  }

  function AttemptCode(t: Toolkit, canonicalUrl: string, attempt: nat): string
    requires ValidToolkit(t)
  {
    EncodeHex(t.alphabet, AttemptHash(t, canonicalUrl, attempt), DefaultCodeLength)
  }

  /** The entity handed to `save`. */
  function Draft(dto: CreateShortLinkDto, user: Option<string>, canonicalUrl: string, hash: string, code: string): NewShortLink {
    NewShortLink(dto.originalUrl, code, canonicalUrl, hash, user, dto.expiredAt)
  }

  function AttemptDraft(t: Toolkit, dto: CreateShortLinkDto, user: Option<string>, canonicalUrl: string, attempt: nat): NewShortLink
    requires ValidToolkit(t)
  {
    Draft(dto, user, canonicalUrl, AttemptHash(t, canonicalUrl, attempt), AttemptCode(t, canonicalUrl, attempt))
  }

  /** What a call of `create` leaves: its result, the table, and how many
      times it called `save`. */
  datatype Created = Created(result: Result<ShortLink, ServiceError>, rows: seq<ShortLink>, saves: nat)

  /** `repository.save` on a given table at a given time. */
  type Save = NewShortLink -> Result<ShortLink, StoreError>

  /** One `save` whose error, if any, is not caught. */
  function SaveOnce(rows: seq<ShortLink>, r: Result<ShortLink, StoreError>): Created {
    Created(if r.Success? then Success(r.value) else Failure(Database(r.error)), AfterSave(rows, r), 1)
  }

  /** `save` into `rows` at time `now`. */
  function StoreSave(rows: seq<ShortLink>, now: int): Save {
    d => Insert(rows, d, now)
  }

  /** The entity attempt k saves. */
  type Drafts = nat -> NewShortLink

  /** The entities the retry loop of `create` saves, attempt by attempt. */
  function AttemptDrafts(t: Toolkit, dto: CreateShortLinkDto, user: Option<string>, canonicalUrl: string): Drafts
    requires ValidToolkit(t)
  {
    (k: nat) => AttemptDraft(t, dto, user, canonicalUrl, k)
  }

  /** The retry loop from `attempt` on: save the attempt's entity; go on to
      the next attempt only on a duplicate key; give up after five. */
  function RetrySpec(rows: seq<ShortLink>, save: Save, draft: Drafts, attempt: nat): Created
    requires attempt <= MaxRetries
    decreases MaxRetries - attempt
  {
    if attempt == MaxRetries then Created(Failure(Http(BadRequest(GenerateFailedMessage))), rows, 0)
    else
      var r := save(draft(attempt));
      if r.Failure? && IsDuplicateKey(r.error) then
        var next := RetrySpec(rows, save, draft, attempt + 1);
        next.(saves := next.saves + 1)
      else SaveOnce(rows, r)
  }

  /** Attempt k of the retry loop saves the entity `AttemptDraft` builds. */
  lemma AttemptSave(t: Toolkit, dto: CreateShortLinkDto, user: Option<string>, canonicalUrl: string, rows: seq<ShortLink>, now: int, k: nat)
    requires ValidToolkit(t)
    ensures StoreSave(rows, now)(AttemptDrafts(t, dto, user, canonicalUrl)(k))
         == Insert(rows, AttemptDraft(t, dto, user, canonicalUrl, k), now)
  {
  }

  /** `create(dto, user)` at time `now`. */
  function CreateSpec(t: Toolkit, rows: seq<ShortLink>, dto: CreateShortLinkDto, user: Option<string>, now: int): Created
    requires ValidToolkit(t)
  {
    match Canonicalize(dto.originalUrl, t.parse)
    case Failure(e) => Created(Failure(Http(e)), rows, 0)
    case Success(canonicalUrl) => CreateCanonical(t, rows, dto, user, now, canonicalUrl)
  }

  /** The rest of `create` once the URL is canonicalized: the alias branch,
      the lookup by unsalted hash, and the retry loop. */
  function CreateCanonical(t: Toolkit, rows: seq<ShortLink>, dto: CreateShortLinkDto, user: Option<string>, now: int, canonicalUrl: string): Created
    requires ValidToolkit(t)
  {
    var hash := HashCanonicalUrl(t.sha256, canonicalUrl, DefaultHashLength);
    if HasAlias(dto) then
      if FindBy(rows, ShortCodeColumn, dto.customAlias.value).Some? then
        Created(Failure(Http(BadRequest(AliasTakenMessage))), rows, 0)
      else SaveOnce(rows, Insert(rows, Draft(dto, user, canonicalUrl, hash, dto.customAlias.value), now))
    else
      match FindBy(rows, CanonicalHashColumn, hash)
      case Some(existing) => Created(Success(existing), rows, 0)
      case None => RetrySpec(rows, StoreSave(rows, now), AttemptDrafts(t, dto, user, canonicalUrl), 0)
  }

  /** A `save` that failed on a duplicate key. */
  predicate DuplicateKey(r: Result<ShortLink, StoreError>) {
    r.Failure? && IsDuplicateKey(r.error)
  }

  /** Attempt k hits a duplicate key. */
  predicate Collides(save: Save, draft: Drafts, k: nat) {
    DuplicateKey(save(draft(k)))
  }

  /** Attempts `from` up to (not including) `to` all hit a duplicate key. */
  predicate AllCollide(save: Save, draft: Drafts, from: nat, to: nat) {
    forall k :: from <= k < to ==> Collides(save, draft, k)
  }
  /** The loop saves at most once per remaining attempt; a success appends
      the saved row, a failure leaves the table as it was. */
  lemma {:induction false} RetrySpecSaves(rows: seq<ShortLink>, save: Save, draft: Drafts, attempt: nat)
    requires attempt <= MaxRetries
    ensures var o := RetrySpec(rows, save, draft, attempt);
      && o.saves <= MaxRetries - attempt
      && o.rows == (if o.result.Success? then rows + [o.result.value] else rows)
    decreases MaxRetries - attempt
  {
    if attempt < MaxRetries {
      RetrySpecSaves(rows, save, draft, attempt + 1);
    }
  }

  /** A success is the row saved by some attempt j, all attempts before j
      having collided, after j - attempt + 1 saves. */
  lemma {:induction false} RetrySpecSucceeds(rows: seq<ShortLink>, save: Save, draft: Drafts, attempt: nat)
    requires attempt <= MaxRetries
    ensures var o := RetrySpec(rows, save, draft, attempt);
      o.result.Success? ==>
        exists j :: attempt <= j < MaxRetries
          && AllCollide(save, draft, attempt, j)
          && save(draft(j)) == Success(o.result.value)
          && o.saves == j - attempt + 1
    decreases MaxRetries - attempt
  {
    var o := RetrySpec(rows, save, draft, attempt);
    if attempt < MaxRetries && o.result.Success? {
      var r := save(draft(attempt));
      if r.Failure? && IsDuplicateKey(r.error) {
        RetrySpecSucceeds(rows, save, draft, attempt + 1);
        var j :| attempt + 1 <= j < MaxRetries
          && AllCollide(save, draft, attempt + 1, j)
          && save(draft(j)) == Success(o.result.value)
          && o.saves == j - attempt + 1;
        assert AllCollide(save, draft, attempt, j);
      } else {
        assert AllCollide(save, draft, attempt, attempt);
      }
    }
  }

  /** A database error reaches the caller only when it is not a duplicate
      key: it is the error of some attempt j, all attempts before j having
      collided, and no attempt after j is made. */
  lemma {:induction false} RetrySpecRethrows(rows: seq<ShortLink>, save: Save, draft: Drafts, attempt: nat)
    requires attempt <= MaxRetries
    ensures var o := RetrySpec(rows, save, draft, attempt);
      o.result.Failure? && o.result.error.Database? ==>
        && !IsDuplicateKey(o.result.error.error)
        && exists j :: attempt <= j < MaxRetries
             && AllCollide(save, draft, attempt, j)
             && save(draft(j)) == Failure(o.result.error.error)
             && o.saves == j - attempt + 1
    decreases MaxRetries - attempt
  {
    var o := RetrySpec(rows, save, draft, attempt);
    if attempt < MaxRetries && o.result.Failure? && o.result.error.Database? {
      var r := save(draft(attempt));
      if r.Failure? && IsDuplicateKey(r.error) {
        RetrySpecRethrows(rows, save, draft, attempt + 1);
        var j :| attempt + 1 <= j < MaxRetries
          && AllCollide(save, draft, attempt + 1, j)
          && save(draft(j)) == Failure(o.result.error.error)
          && o.saves == j - attempt + 1;
        assert AllCollide(save, draft, attempt, j);
      } else {
        assert AllCollide(save, draft, attempt, attempt);
      }
    }
  }

  /** The loop gives up exactly when every remaining attempt collides, and
      then it has saved once per attempt. */
  lemma {:induction false} RetrySpecGivesUp(rows: seq<ShortLink>, save: Save, draft: Drafts, attempt: nat)
    requires attempt <= MaxRetries
    ensures var o := RetrySpec(rows, save, draft, attempt);
      && ((o.result == Failure(Http(BadRequest(GenerateFailedMessage))))
            <==> AllCollide(save, draft, attempt, MaxRetries))
      && (o.result == Failure(Http(BadRequest(GenerateFailedMessage))) ==> o.saves == MaxRetries - attempt)
    decreases MaxRetries - attempt
  {
    if attempt < MaxRetries {
      RetrySpecGivesUp(rows, save, draft, attempt + 1);
      if !Collides(save, draft, attempt) {
        assert !AllCollide(save, draft, attempt, MaxRetries);
      }
    }
  }

  // ---------------------------------------------------------------------
  // What `create` does, case by case

  /** An URL the parser rejects is refused before anything is saved. */
  lemma CreateInvalidUrl(t: Toolkit, rows: seq<ShortLink>, dto: CreateShortLinkDto, user: Option<string>, now: int)
    requires ValidToolkit(t) && Canonicalize(dto.originalUrl, t.parse).Failure?
    ensures CreateSpec(t, rows, dto, user, now) == Created(Failure(Http(BadRequest(InvalidUrlMessage))), rows, 0)
  {
  }

  /** With a custom alias: a taken alias is refused without saving; a free
      one is saved once, as the short code, next to the unsalted hash of the
      canonical URL, and whatever `save` reports is passed on uncaught. */
  lemma CreateWithAlias(t: Toolkit, rows: seq<ShortLink>, dto: CreateShortLinkDto, user: Option<string>, now: int, canonicalUrl: string)
    requires ValidToolkit(t) && HasAlias(dto)
    ensures var o := CreateCanonical(t, rows, dto, user, now, canonicalUrl);
      var alias, hash := dto.customAlias.value, HashCanonicalUrl(t.sha256, canonicalUrl, DefaultHashLength);
      && (FindBy(rows, ShortCodeColumn, alias).Some? ==>
            o == Created(Failure(Http(BadRequest(AliasTakenMessage))), rows, 0))
      && (FindBy(rows, ShortCodeColumn, alias).None? ==>
            && o.saves == 1
            && (o.result.Failure? ==> o.result.error.Database? && o.rows == rows)
            && (o.result.Success? ==>
                  && o.rows == rows + [o.result.value]
                  && o.result.value.shortCode == alias
                  && o.result.value.canonicalHash == hash
                  && o.result.value.canonicalUrl == canonicalUrl
                  && o.result.value.originalUrl == dto.originalUrl
                  && o.result.value.expiredAt == dto.expiredAt
                  && Some(o.result.value.createdBy) == user))
  {
    var hash := HashCanonicalUrl(t.sha256, canonicalUrl, DefaultHashLength);
    InsertSpec(rows, Draft(dto, user, canonicalUrl, hash, dto.customAlias.value), now);
  }

  /** A free alias for an URL whose unsalted canonical hash is already in
      the table is not saved: the unique canonical hash makes `save` fail
      with a duplicate key, which the alias branch does not catch. */
  lemma CreateAliasForKnownUrl(t: Toolkit, rows: seq<ShortLink>, dto: CreateShortLinkDto, user: Option<string>, now: int, canonicalUrl: string)
    requires ValidToolkit(t) && HasAlias(dto) && |dto.customAlias.value| <= VarcharLength
    requires user.Some? && |user.value| <= VarcharLength
    requires FindBy(rows, ShortCodeColumn, dto.customAlias.value).None?
    requires FindBy(rows, CanonicalHashColumn, HashCanonicalUrl(t.sha256, canonicalUrl, DefaultHashLength)).Some?
    ensures CreateCanonical(t, rows, dto, user, now, canonicalUrl)
         == Created(Failure(Database(UniqueViolation(CanonicalHashColumn))), rows, 1)
  {
  }

  /** Without an alias, an URL whose unsalted hash is already stored gets the
      stored link back, and nothing is saved. */
  lemma CreateDeduplicates(t: Toolkit, rows: seq<ShortLink>, dto: CreateShortLinkDto, user: Option<string>, now: int, canonicalUrl: string)
    requires ValidToolkit(t) && !HasAlias(dto)
    ensures var existing := FindBy(rows, CanonicalHashColumn, HashCanonicalUrl(t.sha256, canonicalUrl, DefaultHashLength));
      existing.Some? ==> CreateCanonical(t, rows, dto, user, now, canonicalUrl) == Created(Success(existing.value), rows, 0)
  {
  }

  /** The retry loop over the table: a success appends the row that
      attempt j inserted, after j failed attempts. */
  lemma RetryStoreSucceeds(rows: seq<ShortLink>, now: int, draft: Drafts)
    ensures var o := RetrySpec(rows, StoreSave(rows, now), draft, 0);
      o.result.Success? ==>
        exists j :: 0 <= j < MaxRetries
          && o.saves == j + 1
          && o.rows == rows + [o.result.value]
          && (forall k :: 0 <= k < j ==> DuplicateKey(Insert(rows, draft(k), now)))
          && Insert(rows, draft(j), now) == Success(o.result.value)
  {
    var save := StoreSave(rows, now);
    var o := RetrySpec(rows, save, draft, 0);
    RetrySpecSaves(rows, save, draft, 0);
    RetrySpecSucceeds(rows, save, draft, 0);
    if o.result.Success? {
      var j :| 0 <= j < MaxRetries && AllCollide(save, draft, 0, j)
        && save(draft(j)) == Success(o.result.value) && o.saves == j + 1;
      forall k | 0 <= k < j
        ensures DuplicateKey(Insert(rows, draft(k), now))
      {
        assert Collides(save, draft, k);
      }
    }
  }

  /** Without an alias and without a stored hash, the link is the one saved
      by some attempt j below five: its code and hash are those of attempt j,
      every earlier attempt failed, and j + 1 saves were made. */
  lemma CreateGenerated(t: Toolkit, rows: seq<ShortLink>, dto: CreateShortLinkDto, user: Option<string>, now: int, canonicalUrl: string)
    requires ValidToolkit(t) && !HasAlias(dto)
    requires FindBy(rows, CanonicalHashColumn, HashCanonicalUrl(t.sha256, canonicalUrl, DefaultHashLength)).None?
    ensures var o := CreateCanonical(t, rows, dto, user, now, canonicalUrl);
      o.result.Success? ==>
        exists j :: 0 <= j < MaxRetries
          && o.saves == j + 1
          && o.rows == rows + [o.result.value]
          && (forall k :: 0 <= k < j ==> DuplicateKey(Insert(rows, AttemptDraft(t, dto, user, canonicalUrl, k), now)))
          && o.result.value.shortCode == AttemptCode(t, canonicalUrl, j)
          && o.result.value.canonicalHash == AttemptHash(t, canonicalUrl, j)
          && o.result.value.canonicalUrl == canonicalUrl
          && o.result.value.originalUrl == dto.originalUrl
          && o.result.value.expiredAt == dto.expiredAt
          && Some(o.result.value.createdBy) == user
  {
    var draft := AttemptDrafts(t, dto, user, canonicalUrl);
    var o := RetrySpec(rows, StoreSave(rows, now), draft, 0);
    RetryStoreSucceeds(rows, now, draft);
    if o.result.Success? {
      var j :| 0 <= j < MaxRetries && o.saves == j + 1 && o.rows == rows + [o.result.value]
        && (forall k :: 0 <= k < j ==> DuplicateKey(Insert(rows, draft(k), now)))
        && Insert(rows, draft(j), now) == Success(o.result.value);
      var d := AttemptDraft(t, dto, user, canonicalUrl, j);
      assert draft(j) == d;
      InsertSpec(rows, d, now);
      forall k | 0 <= k < j
        ensures DuplicateKey(Insert(rows, AttemptDraft(t, dto, user, canonicalUrl, k), now))
      {
        assert draft(k) == AttemptDraft(t, dto, user, canonicalUrl, k);
      }
    }
  }

  /** The retry loop over the table: a failure leaves the table as it was,
      and a database error that reaches the caller is never a duplicate key. */
  lemma RetryStoreFails(rows: seq<ShortLink>, now: int, draft: Drafts)
    ensures var o := RetrySpec(rows, StoreSave(rows, now), draft, 0);
      && (o.result.Failure? ==> o.rows == rows)
      && (o.result.Failure? && o.result.error.Database? ==> !IsDuplicateKey(o.result.error.error))
  {
    var save := StoreSave(rows, now);
    RetrySpecSaves(rows, save, draft, 0);
    RetrySpecRethrows(rows, save, draft, 0);
  }

  /** The retry loop over the table gives up exactly when all five attempts
      hit a duplicate key, and then it has saved five times. */
  lemma RetryStoreGivesUp(rows: seq<ShortLink>, now: int, draft: Drafts)
    ensures var o := RetrySpec(rows, StoreSave(rows, now), draft, 0);
      && ((o.result == Failure(Http(BadRequest(GenerateFailedMessage)))) <==>
            forall k :: 0 <= k < MaxRetries ==>
              Insert(rows, draft(k), now).Failure? && IsDuplicateKey(Insert(rows, draft(k), now).error))
      && (o.result == Failure(Http(BadRequest(GenerateFailedMessage))) ==> o.saves == MaxRetries)
  {
    var save := StoreSave(rows, now);
    RetrySpecGivesUp(rows, save, draft, 0);
    forall k: nat
      ensures Collides(save, draft, k) <==> Insert(rows, draft(k), now).Failure? && IsDuplicateKey(Insert(rows, draft(k), now).error)
    {
      assert save(draft(k)) == Insert(rows, draft(k), now);
    }
  }

  /** Without an alias and without a stored hash, a database error other than
      a duplicate key reaches the caller at once, and five duplicate keys in a
      row end in the "unable to generate" error after five saves. */
  lemma CreateGeneratedFails(t: Toolkit, rows: seq<ShortLink>, dto: CreateShortLinkDto, user: Option<string>, now: int, canonicalUrl: string)
    requires ValidToolkit(t) && !HasAlias(dto)
    requires FindBy(rows, CanonicalHashColumn, HashCanonicalUrl(t.sha256, canonicalUrl, DefaultHashLength)).None?
    ensures var o := CreateCanonical(t, rows, dto, user, now, canonicalUrl);
      && (o.result.Failure? ==> o.rows == rows)
      && (o.result.Failure? && o.result.error.Database? ==> !IsDuplicateKey(o.result.error.error))
      && ((o.result == Failure(Http(BadRequest(GenerateFailedMessage)))) <==>
            forall k :: 0 <= k < MaxRetries ==>
              var r := Insert(rows, AttemptDraft(t, dto, user, canonicalUrl, k), now);
              r.Failure? && IsDuplicateKey(r.error))
      && (o.result == Failure(Http(BadRequest(GenerateFailedMessage))) ==> o.saves == MaxRetries)
  {
    var draft := AttemptDrafts(t, dto, user, canonicalUrl);
    RetryStoreFails(rows, now, draft);
    RetryStoreGivesUp(rows, now, draft);
    assert forall k: nat :: draft(k) == AttemptDraft(t, dto, user, canonicalUrl, k);
  }

  // ---------------------------------------------------------------------
  // What `create` leaves in the table

  /** Once the URL is canonical, `create` saves at most five times and adds
      at most the one row it returns. */
  lemma CreateCanonicalRows(t: Toolkit, rows: seq<ShortLink>, dto: CreateShortLinkDto, user: Option<string>, now: int, canonicalUrl: string)
    requires ValidToolkit(t)
    ensures var o := CreateCanonical(t, rows, dto, user, now, canonicalUrl);
      && o.saves <= MaxRetries
      && (o.rows == rows || (o.result.Success? && o.rows == rows + [o.result.value]))
  {
    var hash := HashCanonicalUrl(t.sha256, canonicalUrl, DefaultHashLength);
    if !HasAlias(dto) && FindBy(rows, CanonicalHashColumn, hash).None? {
      RetrySpecSaves(rows, StoreSave(rows, now), AttemptDrafts(t, dto, user, canonicalUrl), 0);
    }
  }

  /** Once the URL is canonical, `create` keeps the table well-formed. */
  lemma CreateCanonicalWellFormed(t: Toolkit, rows: seq<ShortLink>, dto: CreateShortLinkDto, user: Option<string>, now: int, canonicalUrl: string)
    requires ValidToolkit(t) && WellFormed(rows)
    ensures WellFormed(CreateCanonical(t, rows, dto, user, now, canonicalUrl).rows)
  {
    var hash := HashCanonicalUrl(t.sha256, canonicalUrl, DefaultHashLength);
    if HasAlias(dto) {
      InsertPreservesWellFormed(rows, Draft(dto, user, canonicalUrl, hash, dto.customAlias.value), now);
    } else if FindBy(rows, CanonicalHashColumn, hash).None? {
      var draft := AttemptDrafts(t, dto, user, canonicalUrl);
      var o := RetrySpec(rows, StoreSave(rows, now), draft, 0);
      RetryStoreSucceeds(rows, now, draft);
      RetryStoreFails(rows, now, draft);
      if o.result.Success? {
        var j :| 0 <= j < MaxRetries && o.saves == j + 1 && o.rows == rows + [o.result.value]
          && (forall k :: 0 <= k < j ==> DuplicateKey(Insert(rows, draft(k), now)))
          && Insert(rows, draft(j), now) == Success(o.result.value);
        InsertPreservesWellFormed(rows, draft(j), now);
      }
    }
  }

  /** `create` saves at most five times, adds at most the one row it
      returns, and keeps the table well-formed. */
  lemma CreateTable(t: Toolkit, rows: seq<ShortLink>, dto: CreateShortLinkDto, user: Option<string>, now: int)
    requires ValidToolkit(t)
    ensures var o := CreateSpec(t, rows, dto, user, now);
      && o.saves <= MaxRetries
      && (o.rows == rows || (o.result.Success? && o.rows == rows + [o.result.value]))
      && (WellFormed(rows) ==> WellFormed(o.rows))
  {
    var c := Canonicalize(dto.originalUrl, t.parse);
    if c.Success? {
      CreateCanonicalRows(t, rows, dto, user, now, c.value);
      if WellFormed(rows) {
        CreateCanonicalWellFormed(t, rows, dto, user, now, c.value);
      }
    }
  }

  /** A link `create` returns is a row of the table it leaves. */
  lemma CreateReturnsStoredRow(t: Toolkit, rows: seq<ShortLink>, dto: CreateShortLinkDto, user: Option<string>, now: int, canonicalUrl: string)
    requires ValidToolkit(t)
    ensures var o := CreateCanonical(t, rows, dto, user, now, canonicalUrl);
      o.result.Success? ==> o.result.value in o.rows
  {
    var hash := HashCanonicalUrl(t.sha256, canonicalUrl, DefaultHashLength);
    if HasAlias(dto) {
      var r := Insert(rows, Draft(dto, user, canonicalUrl, hash, dto.customAlias.value), now);
      if r.Success? {
        assert (rows + [r.value])[|rows|] == r.value;
      }
    } else if FindBy(rows, CanonicalHashColumn, hash).None? {
      var o := RetrySpec(rows, StoreSave(rows, now), AttemptDrafts(t, dto, user, canonicalUrl), 0);
      RetrySpecSaves(rows, StoreSave(rows, now), AttemptDrafts(t, dto, user, canonicalUrl), 0);
      if o.result.Success? {
        assert o.rows[|rows|] == o.result.value;
      }
    }
  }

  /** Without an alias, `create` is idempotent for a URL whose link carries
      the unsalted hash: creating it again, from any request that
      canonicalizes the same way, returns the same link and saves nothing. */
  lemma CreateAgain(t: Toolkit, rows: seq<ShortLink>, dto: CreateShortLinkDto, user: Option<string>, now: int,
                    dto': CreateShortLinkDto, user': Option<string>, now': int, canonicalUrl: string)
    requires ValidToolkit(t) && WellFormed(rows) && !HasAlias(dto) && !HasAlias(dto')
    requires var o := CreateCanonical(t, rows, dto, user, now, canonicalUrl);
      o.result.Success? && o.result.value.canonicalHash == HashCanonicalUrl(t.sha256, canonicalUrl, DefaultHashLength)
    ensures var o := CreateCanonical(t, rows, dto, user, now, canonicalUrl);
      CreateCanonical(t, o.rows, dto', user', now', canonicalUrl) == Created(Success(o.result.value), o.rows, 0)
  {
    var o := CreateCanonical(t, rows, dto, user, now, canonicalUrl);
    var hash := HashCanonicalUrl(t.sha256, canonicalUrl, DefaultHashLength);
    CreateCanonicalWellFormed(t, rows, dto, user, now, canonicalUrl);
    CreateReturnsStoredRow(t, rows, dto, user, now, canonicalUrl);
    var found := FindBy(o.rows, CanonicalHashColumn, hash);
    assert found.Some?;
    UniqueKeys(o.rows, found.value, o.result.value);
  }

  /** The same for whole requests: a second `create`, without an alias, of
      any URL that canonicalizes like the first returns the first's link. */
  lemma CreateIdempotent(t: Toolkit, rows: seq<ShortLink>, dto: CreateShortLinkDto, user: Option<string>, now: int,
                         dto': CreateShortLinkDto, user': Option<string>, now': int)
    requires ValidToolkit(t) && WellFormed(rows) && !HasAlias(dto) && !HasAlias(dto')
    requires Canonicalize(dto'.originalUrl, t.parse) == Canonicalize(dto.originalUrl, t.parse)
    requires var o := CreateSpec(t, rows, dto, user, now);
      && Canonicalize(dto.originalUrl, t.parse).Success?
      && o.result.Success?
      && o.result.value.canonicalHash
         == HashCanonicalUrl(t.sha256, Canonicalize(dto.originalUrl, t.parse).value, DefaultHashLength)
    ensures var o := CreateSpec(t, rows, dto, user, now);
      CreateSpec(t, o.rows, dto', user', now') == Created(Success(o.result.value), o.rows, 0)
  {
    CreateAgain(t, rows, dto, user, now, dto', user', now', Canonicalize(dto.originalUrl, t.parse).value);
  }

  /** The other side of `CreateAgain`: the lookup by the unsalted hash does
      not see a link that a salted attempt saved, so creating the same
      canonical URL again never returns that link, and saves again. */
  lemma CreateMissesSaltedLink(t: Toolkit, rows: seq<ShortLink>, dto: CreateShortLinkDto, user: Option<string>, now: int,
                               dto': CreateShortLinkDto, user': Option<string>, now': int, canonicalUrl: string)
    requires ValidToolkit(t) && !HasAlias(dto) && !HasAlias(dto')
    requires var o := CreateCanonical(t, rows, dto, user, now, canonicalUrl);
      o.result.Success? && o.result.value.canonicalHash != HashCanonicalUrl(t.sha256, canonicalUrl, DefaultHashLength)
    ensures var o := CreateCanonical(t, rows, dto, user, now, canonicalUrl);
      var again := CreateCanonical(t, o.rows, dto', user', now', canonicalUrl);
      again.result != Success(o.result.value) && again.saves >= 1
  {
    var hash := HashCanonicalUrl(t.sha256, canonicalUrl, DefaultHashLength);
    var o := CreateCanonical(t, rows, dto, user, now, canonicalUrl);
    var v := o.result.value;
    assert FindBy(rows, CanonicalHashColumn, hash).None?;
    CreateGenerated(t, rows, dto, user, now, canonicalUrl);
    assert o.rows == rows + [v];
    FindByAppend(rows, v, CanonicalHashColumn, hash);
    var draft := AttemptDrafts(t, dto', user', canonicalUrl);
    var again := CreateCanonical(t, o.rows, dto', user', now', canonicalUrl);
    assert again == RetrySpec(o.rows, StoreSave(o.rows, now'), draft, 0);
    RetryStoreSucceeds(o.rows, now', draft);
    if again.result.Success? {
      var j :| 0 <= j < MaxRetries && Insert(o.rows, draft(j), now') == Success(again.result.value);
      InsertSpec(o.rows, draft(j), now');
      assert v in o.rows;
      assert again.result.value.shortCode != v.shortCode;
    }
  }

  // ---------------------------------------------------------------------
  // Resolving a short code

  /** A link with an expiry instant has expired once the clock is past it;
      at the instant itself it still resolves. */
  predicate Expired(link: ShortLink, now: int) {
    link.expiredAt.Some? && now > link.expiredAt.value
  }

  /** The cache lifetime, in seconds, of a link resolved at `now`: a day, or
      the whole seconds left before its expiry when that is less (never
      negative). Dafny's `/` by a positive divisor rounds down, as
      `Math.floor` does. */
  function Ttl(expiredAt: Option<int>, now: int): nat {
    match expiredAt
    case None => DefaultTtl
    case Some(e) =>
      var remaining: nat := if (e - now) / 1000 > 0 then (e - now) / 1000 else 0;
      if remaining < DefaultTtl then remaining else DefaultTtl
  }

  /** The lifetime is at most a day; without an expiry it is a day; with one
      it is the whole seconds left, capped at a day, so a cache entry never
      outlives the link, and it is zero exactly when less than a second is
      left. */
  lemma TtlBounds(expiredAt: Option<int>, now: int)
    ensures Ttl(expiredAt, now) <= DefaultTtl
    ensures expiredAt.None? ==> Ttl(expiredAt, now) == DefaultTtl
    ensures expiredAt.Some? && now <= expiredAt.value ==>
      && Ttl(expiredAt, now) * 1000 <= expiredAt.value - now
      && (Ttl(expiredAt, now) == DefaultTtl || expiredAt.value - now < (Ttl(expiredAt, now) + 1) * 1000)
    ensures expiredAt.Some? ==> (Ttl(expiredAt, now) == 0 <==> expiredAt.value - now < 1000)
  {
  }

  /** What `resolveShortCode` leaves: the original URL or the error, and the cache. */
  datatype Resolved = Resolved(result: Result<string, HttpException>, cache: Cache)

  /** `resolveShortCode(shortCode)` at time `now`: a non-empty cached URL is
      returned as it is; otherwise the table decides. */
  function ResolveSpec(rows: seq<ShortLink>, cache: Cache, shortCode: string, now: int): Resolved {
    var cached := Get(cache, CacheKey(shortCode), now);
    if cached.Some? && cached.value != "" then Resolved(Success(cached.value), cache)
    else ResolveFromStore(rows, cache, shortCode, now)
  }

  /** The table lookup of `resolveShortCode`: an unknown code and an expired
      link are not found; a live link is cached for `Ttl` seconds, except that
      a link with an expiry less than a second away is not cached at all. */
  function ResolveFromStore(rows: seq<ShortLink>, cache: Cache, shortCode: string, now: int): Resolved {
    match FindBy(rows, ShortCodeColumn, shortCode)
    case None => Resolved(Failure(NotFound(CodeNotFoundMessage(shortCode))), cache)
    case Some(link) =>
      if Expired(link, now) then Resolved(Failure(NotFound(ExpiredMessage)), cache)
      else
        var ttl := Ttl(link.expiredAt, now);
        if link.expiredAt.Some? && ttl == 0 then Resolved(Success(link.originalUrl), cache)
        else Resolved(Success(link.originalUrl), SetEx(cache, CacheKey(shortCode), link.originalUrl, ttl, now))
  }

  /** Without the cache, a code resolves to the original URL of its link
      exactly when the link exists and has not expired; an unknown code and
      an expired link each give their own not-found error. */
  lemma ResolveFromStoreResult(rows: seq<ShortLink>, cache: Cache, shortCode: string, now: int)
    ensures var o, found := ResolveFromStore(rows, cache, shortCode, now), FindBy(rows, ShortCodeColumn, shortCode);
      && (o.result.Success? <==> found.Some? && !Expired(found.value, now))
      && (o.result.Success? ==> o.result.value == found.value.originalUrl)
      && (found.None? ==> o.result == Failure(NotFound(CodeNotFoundMessage(shortCode))))
      && (found.Some? && Expired(found.value, now) ==> o.result == Failure(NotFound(ExpiredMessage)))
  {
  }

  /** A non-empty cached URL is the answer: the table is not consulted, so
      any table gives the same outcome, and nothing is written. */
  lemma ResolveCacheHit(rows: seq<ShortLink>, rows': seq<ShortLink>, cache: Cache, shortCode: string, now: int)
    requires Get(cache, CacheKey(shortCode), now).Some? && Get(cache, CacheKey(shortCode), now).value != ""
    ensures ResolveSpec(rows, cache, shortCode, now) == ResolveSpec(rows', cache, shortCode, now)
    ensures ResolveSpec(rows, cache, shortCode, now) == Resolved(Success(Get(cache, CacheKey(shortCode), now).value), cache)
  {
  }

  /** On a cache miss, a live link is written under the code's key for `Ttl`
      seconds: a day without an expiry, otherwise one second at least and
      never past the link's expiry. Nothing is written on a hit, for an
      unknown code, for an expired link, or for a link less than a second
      from its expiry. */
  lemma ResolveCacheWrite(rows: seq<ShortLink>, cache: Cache, shortCode: string, now: int)
    ensures var o, cached, found := ResolveSpec(rows, cache, shortCode, now), Get(cache, CacheKey(shortCode), now), FindBy(rows, ShortCodeColumn, shortCode);
      var hit := cached.Some? && cached.value != "";
      && (hit || found.None? || Expired(found.value, now) || Ttl(found.value.expiredAt, now) == 0 ==> o.cache == cache)
      && (!hit && found.Some? && !Expired(found.value, now) && Ttl(found.value.expiredAt, now) > 0 ==>
            && o.cache == SetEx(cache, CacheKey(shortCode), found.value.originalUrl, Ttl(found.value.expiredAt, now), now)
            && o.cache[CacheKey(shortCode)].value == found.value.originalUrl
            && now + 1000 <= o.cache[CacheKey(shortCode)].expiresAt <= now + DefaultTtl * 1000
            && (found.value.expiredAt.None? ==> o.cache[CacheKey(shortCode)].expiresAt == now + DefaultTtl * 1000)
            && (found.value.expiredAt.Some? ==> o.cache[CacheKey(shortCode)].expiresAt <= found.value.expiredAt.value))
  {
    var found := FindBy(rows, ShortCodeColumn, shortCode);
    if found.Some? {
      TtlBounds(found.value.expiredAt, now);
    }
  }

  /** Every cached URL is the original URL of the link its key names, and it
      is cached no longer than the link lives. */
  ghost predicate CacheCoherent(rows: seq<ShortLink>, cache: Cache) {
    forall code {:trigger CacheKey(code)} :: CacheKey(code) in cache ==>
      && FindBy(rows, ShortCodeColumn, code).Some?
      && cache[CacheKey(code)].value == FindBy(rows, ShortCodeColumn, code).value.originalUrl
      && (FindBy(rows, ShortCodeColumn, code).value.expiredAt.Some? ==>
            cache[CacheKey(code)].expiresAt <= FindBy(rows, ShortCodeColumn, code).value.expiredAt.value)
  }

  /** With a coherent cache, the cache never changes what a code resolves
      to: the answer is the one the table alone gives. */
  lemma CoherentCacheIsTransparent(rows: seq<ShortLink>, cache: Cache, shortCode: string, now: int)
    requires CacheCoherent(rows, cache)
    ensures ResolveSpec(rows, cache, shortCode, now).result == ResolveSpec(rows, map[], shortCode, now).result
  {
    var cached := Get(cache, CacheKey(shortCode), now);
    if cached.Some? && cached.value != "" {
      var link := FindBy(rows, ShortCodeColumn, shortCode).value;
      assert !Expired(link, now);
    }
  }

  /** Resolving keeps the cache coherent. */
  lemma ResolveKeepsCoherent(rows: seq<ShortLink>, cache: Cache, shortCode: string, now: int)
    requires CacheCoherent(rows, cache)
    ensures CacheCoherent(rows, ResolveSpec(rows, cache, shortCode, now).cache)
  {
    var o := ResolveSpec(rows, cache, shortCode, now);
    ResolveCacheWrite(rows, cache, shortCode, now);
    forall code | CacheKey(code) in o.cache
      ensures FindBy(rows, ShortCodeColumn, code).Some?
      ensures o.cache[CacheKey(code)].value == FindBy(rows, ShortCodeColumn, code).value.originalUrl
      ensures FindBy(rows, ShortCodeColumn, code).value.expiredAt.Some? ==>
        o.cache[CacheKey(code)].expiresAt <= FindBy(rows, ShortCodeColumn, code).value.expiredAt.value
    {
      CacheKeyInjective(code, shortCode);
    }
  }

  /** A row appended to the table keeps the cache coherent. */
  lemma AppendKeepsCoherent(rows: seq<ShortLink>, row: ShortLink, cache: Cache)
    requires CacheCoherent(rows, cache)
    ensures CacheCoherent(rows + [row], cache)
  {
    forall code | CacheKey(code) in cache
      ensures FindBy(rows + [row], ShortCodeColumn, code) == FindBy(rows, ShortCodeColumn, code)
    {
      FindByAppend(rows, row, ShortCodeColumn, code);
    }
  }

  /** Creating a link keeps the cache coherent. */
  lemma CreateKeepsCoherent(t: Toolkit, rows: seq<ShortLink>, cache: Cache, dto: CreateShortLinkDto, user: Option<string>, now: int)
    requires ValidToolkit(t) && CacheCoherent(rows, cache)
    ensures CacheCoherent(CreateSpec(t, rows, dto, user, now).rows, cache)
  {
    var o := CreateSpec(t, rows, dto, user, now);
    CreateTable(t, rows, dto, user, now);
    if o.rows != rows {
      AppendKeepsCoherent(rows, o.result.value, cache);
    }
  }

  // ---------------------------------------------------------------------
  // Finding a link by id

  /** `findOne(id)` */
  function FindOneSpec(rows: seq<ShortLink>, id: nat): (r: Result<ShortLink, HttpException>)
    ensures r.Success? ==> r.value in rows && r.value.id == id
    ensures r.Failure? ==> r.error == NotFound(IdNotFoundMessage(id)) && forall row :: row in rows ==> row.id != id
  {
    match FindById(rows, id)
    case None => Failure(NotFound(IdNotFoundMessage(id)))
    case Some(link) => Success(link)
  }

  /** In a well-formed table, every row is found by its id. */
  lemma FindOneStored(rows: seq<ShortLink>, link: ShortLink)
    requires WellFormed(rows) && link in rows
    ensures FindOneSpec(rows, link.id) == Success(link)
    ensures FindBy(rows, ShortCodeColumn, link.shortCode) == Some(link)
  {
    var i :| 0 <= i < |rows| && rows[i] == link;
    FindByUnique(rows, i);
  }

  // ---------------------------------------------------------------------
  // Create, then read back

  /** A row of a well-formed table is found by its id and, with a coherent
      cache, its short code resolves to its original URL until it expires. */
  lemma StoredLinkResolves(rows: seq<ShortLink>, cache: Cache, link: ShortLink, later: int)
    requires WellFormed(rows) && CacheCoherent(rows, cache) && link in rows
    ensures FindOneSpec(rows, link.id) == Success(link)
    ensures ResolveSpec(rows, cache, link.shortCode, later).result
         == (if Expired(link, later) then Failure(NotFound(ExpiredMessage)) else Success(link.originalUrl))
  {
    FindOneStored(rows, link);
    CoherentCacheIsTransparent(rows, cache, link.shortCode, later);
  }

  /** A link `create` returns can then be found by its id and, while it has
      not expired and the cache is coherent, its short code resolves to its
      original URL. */
  lemma CreateThenResolve(t: Toolkit, rows: seq<ShortLink>, cache: Cache, dto: CreateShortLinkDto, user: Option<string>, now: int, later: int)
    requires ValidToolkit(t) && WellFormed(rows) && CacheCoherent(rows, cache)
    requires CreateSpec(t, rows, dto, user, now).result.Success?
    ensures var o := CreateSpec(t, rows, dto, user, now);
      && FindOneSpec(o.rows, o.result.value.id) == Success(o.result.value)
      && ResolveSpec(o.rows, cache, o.result.value.shortCode, later).result
         == (if Expired(o.result.value, later) then Failure(NotFound(ExpiredMessage))
             else Success(o.result.value.originalUrl))
  {
    var o := CreateSpec(t, rows, dto, user, now);
    var c := Canonicalize(dto.originalUrl, t.parse);
    assert c.Success?;
    CreateTable(t, rows, dto, user, now);
    CreateReturnsStoredRow(t, rows, dto, user, now, c.value);
    assert o.result.value in o.rows;
    CreateKeepsCoherent(t, rows, cache, dto, user, now);
    StoredLinkResolves(o.rows, cache, o.result.value, later);
  }
}
