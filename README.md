# Short links: canonicalisation, code generation and cache-aside resolution

This project models the core of a URL shortener written as a NestJS service.
It covers two parts.

- **Creating a link.** The input URL is brought into one canonical form. Its
  SHA-256 digest is cut to 16 hex digits and encoded in base 62. The code, of
  at most 8 characters, is saved in the `short-links` table. There are five
  attempts in all: the first hashes the canonical URL itself, and each later
  one hashes it salted with `#1` to `#4`. The next attempt follows only when
  the table refuses the save with a duplicate key, on the code or on the
  hash. A custom alias bypasses the generator. A URL whose unsalted
  canonical hash is already stored is deduplicated.
- **Resolving a code.** The service reads through Redis. It falls back to the
  table, refuses expired links, and caches the URL for a lifetime derived
  from the link's expiry.

The model has these modules.

- **`Text`**: JavaScript `trim`, ASCII lower-casing, hex digits and decimal text.
- **`QueryParams`**: the tracking-parameter filter, the stable sort by key and
  the reserialisation of a query, proved a sorted, stable permutation of the
  kept pairs.
- **`UrlCanonical`**:
  - `NormalizePath`, scheme defaulting, and the canonical form of a parsed URL.
  - A `Url` class whose fields `canonicalizeUrl` reassigns one after another.
  - The method `CanonicalizeUrl`, proved equal to the function `Canonicalize`.
- **`Digest`**: `hashCanonicalUrl`. SHA-256 is a parameter that yields 64
  lower-case hex digits.
- **`Base62`**: the value of a hex string, its base-62 digits and the
  imperative encoder `EncodeHexToBase62`. The encoder is proved equal to the
  function `EncodeHex`, whose round trip, prefix and value properties are
  proved.
- **`ShortLinkStore`**: the `ShortLink` entity and the table as a sequence of
  rows.
  - `findOneBy` and `save`, with the schema's constraints: `varchar(255)`,
    NOT NULL `createdBy`, and unique `shortCode` and `canonicalHash`.
  - The invariant those constraints keep.
- **`RedisCache`**: `GET` and `SET … EX` over a map from key to value and
  expiry instant.
- **`ShortLinks`**: `create`, `resolveShortCode` and `findOne` as functions of
  the table, the cache and the clock. The properties the service promises are
  proved about these functions:
  - the retry loop's outcomes;
  - deduplication and idempotence;
  - the TTL bounds;
  - a coherent cache never changes an answer;
  - a created link can be found and resolved.
- **`ShortLinksService`**: the service as a class whose fields are the table,
  the Redis keyspace and a ghost count of `save` calls. Its methods run the
  source's steps, including the `for` loop of salted attempts. Each is proved
  to equal the matching function. Each keeps the table well-formed and the
  cache coherent.

The foreign collaborators are parameters:

- the WHATWG URL parser, as a function from text to an optional parsed record;
- SHA-256;
- the base-62 alphabet constant, as any 62 distinct characters;
- the clock, passed as `now` in milliseconds;
- the user payload's e-mail, as `Option<string>`.

Behaviours of the code worth knowing, each proved:

- **Custom alias for a known URL.** A custom alias cannot be created for a URL
  whose unsalted canonical hash is already stored. The alias branch saves that
  unsalted hash, which must be unique, so the save fails with a duplicate key.
  The alias branch does not catch that error. See `CreateAliasForKnownUrl`.
  A URL stored only by a salted attempt can still get an alias.
- **Repeated create.** Creating the same URL twice returns the same link only
  when the first link was saved on the unsalted first attempt. See
  `CreateIdempotent`. A link saved on a salted attempt is stored under the
  salted hash, and the dedup lookup does not see it. A second create then
  never returns it and saves again. See `CreateMissesSaltedLink`.
- **Port 80.** Step 3 tests `http:` with port 80 after step 1 has set the
  protocol to `https:`, so that test can never succeed. Only 443 is removed by
  the canonicaliser itself. See `EffectivePort` and `Url.RewriteCanonical`.
- **Paths ending in `//`.** A path ending in `//` loses one slash on each pass,
  so canonicalisation is not idempotent on such paths. See
  `CanonicalFormIdempotent`.

## Model

| member | source | states |
|---|---|---|
| Text.Trim | src/shared/utils/utils.service.ts:55 | the result has no whitespace at either end. It is an infix of the input, after exactly the leading whitespace and followed only by whitespace. It is empty only when the input is all whitespace. |
| Text.ToLower | src/shared/utils/utils.service.ts:66 | lower-casing keeps the length and leaves no ASCII upper-case letter. Each capital A–Z becomes its small letter, 32 code points up, and every other character is kept. |
| Text.ToLowerIdempotent | src/shared/utils/utils.service.ts:25 | lower-casing twice is lower-casing once |
| Text.DecimalText | src/modules/short-links/short-links.service.ts:66 | the decimal text of an attempt number is non-empty and all digits, and those digits denote the number. It has no leading zero, and zero is written `0`. |
| QueryParams.TrackingParamIgnoresCase | src/shared/utils/utils.service.ts:14-26 | a key is a tracking parameter exactly when its lower-cased form is |
| QueryParams.DropTrackingMembers | src/shared/utils/utils.service.ts:30 | every pair the filter keeps is an input pair and not a tracking pair |
| QueryParams.DropTrackingEmpty | src/shared/utils/utils.service.ts:30-36 | the filter leaves nothing exactly when every pair is a tracking pair |
| QueryParams.DropTrackingKeepsClean | src/shared/utils/utils.service.ts:30 | pairs none of which is a tracking pair pass the filter unchanged |
| QueryParams.WithKeyDropTracking | src/shared/utils/utils.service.ts:30 | the filter removes all pairs of a tracking key and keeps each other key's pairs in order |
| QueryParams.SortByKeyPermutes | src/shared/utils/utils.service.ts:32 | the sort is a permutation of its input (multisets equal) |
| QueryParams.SortByKeySorted | src/shared/utils/utils.service.ts:32 | the sort's output is ordered by key |
| QueryParams.SortByKeyStable | src/shared/utils/utils.service.ts:32 | the sort is stable: each key's pairs keep their input order |
| QueryParams.SortedUnique | src/shared/utils/utils.service.ts:32 | two key-sorted sequences with the same pairs per key, in the same order, are equal |
| QueryParams.KeptParamsSpec | src/shared/utils/utils.service.ts:28-32 | the kept pairs are sorted and are a permutation of the non-tracking pairs. No tracking pair survives, and each other key's pairs keep their order. |
| QueryParams.KeptParamsIgnoresOrder | src/shared/utils/utils.service.ts:28-32 | inputs that agree on each key's pairs in order give the same kept pairs |
| QueryParams.KeptParamsSwap | src/shared/utils/utils.service.ts:28-32 | swapping neighbouring pairs with different keys changes nothing |
| QueryParams.KeptParamsIgnoresTracking | src/shared/utils/utils.service.ts:28-32 | inserting a tracking pair anywhere changes nothing |
| QueryParams.KeptParamsIdempotent | src/shared/utils/utils.service.ts:28-32 | filtering and sorting twice is filtering and sorting once |
| QueryParams.QueryString | src/shared/utils/utils.service.ts:34-43 | the search text is empty exactly when no pair is left, and otherwise starts with `?` |
| QueryParams.NormalizeQueryParams | src/shared/utils/utils.service.ts:27-44 | the loop builds `?` plus the kept pairs joined by `&`. The result is empty exactly when every input pair is a tracking pair. |
| UrlCanonical.NormalizePath | src/shared/utils/utils.service.ts:45-52 | the result is never empty. It is `/` for an empty or root path. For any other path it is the path minus its last character when that is `/`, and the path itself otherwise. |
| UrlCanonical.NormalizePathIdempotent | src/shared/utils/utils.service.ts:45-52 | normalising twice equals normalising once exactly when the path does not end in `//` |
| UrlCanonical.WithProtocol | src/shared/utils/utils.service.ts:55-60 | the result always has an http(s) scheme in any letter case. It is the trimmed input when that already has one, and otherwise the trimmed input after `https://`. |
| UrlCanonical.Url.constructor | src/shared/utils/utils.service.ts:61 | the URL object holds the parsed scheme, host, port, path, query and fragment |
| UrlCanonical.Url.RewriteCanonical | src/shared/utils/utils.service.ts:62-83 | after the six setters the protocol is `https:`. The host is lower-cased, a 443 port is removed, and the path is normalised. The search is the kept query, the live `searchParams` holds the kept pairs, and the fragment is gone. |
| UrlCanonical.CanonicalForm | src/shared/utils/utils.service.ts:62-83 | the canonical record has scheme `https:`, no upper-case host letter, never port 443, and a port only when the input had one other than 443. It has a non-empty path, no fragment, and a sorted query of non-tracking input pairs. |
| UrlCanonical.Canonicalize | src/shared/utils/utils.service.ts:53-88 | fails exactly when the parser rejects the scheme-defaulted input, and then with BadRequest('Invalid URL') |
| UrlCanonical.CanonicalizeParsed | src/shared/utils/utils.service.ts:61-85 | for a parsed input the result is the href of the canonical parts |
| UrlCanonical.CanonicalizeUrl | src/shared/utils/utils.service.ts:53-88 | running the steps on the URL object gives exactly `Canonicalize` |
| UrlCanonical.CanonicalFormIdempotent | src/shared/utils/utils.service.ts:53-88 | canonicalising a canonical form changes it exactly when its path ends in `//` |
| UrlCanonical.CanonicalFormEquivalence | src/shared/utils/utils.service.ts:53-88 | two URLs canonicalise alike exactly when they agree on the host up to case and on the port with 443 counted as absent. They must also agree on the normalised path and on every non-tracking key's values in order. |
| Digest.HashCanonicalUrl | src/shared/utils/utils.service.ts:91-95 | the hash is the first `min(length, 64)` characters of the digest, all lower-case hex |
| Digest.HashPrefixes | src/shared/utils/utils.service.ts:91-95 | a shorter hash is a prefix of a longer one, and equal long hashes give equal short ones |
| Base62.HexValue | src/shared/utils/utils.service.ts:98 | the value of k hex digits is below 16^k |
| Base62.Digits | src/shared/utils/utils.service.ts:105-110 | the digit string is never empty |
| Base62.DigitsDecode | src/shared/utils/utils.service.ts:105-110 | every digit is in the alphabet, and decoding the digits gives the number back |
| Base62.DigitsNoLeadingZero | src/shared/utils/utils.service.ts:105-110 | a non-zero number's first digit is not the zero digit |
| Base62.DigitsInjective | src/shared/utils/utils.service.ts:105-110 | distinct numbers have distinct digit strings, and conversely |
| Base62.DigitsLength | src/shared/utils/utils.service.ts:105-110 | the digit count k satisfies n < 62^k, and from n ≥ 62 on also 62^(k-1) ≤ n. So the loop writes the fewest digits that hold n, and one digit for any n below 62. |
| Base62.DigitsAtMost | src/shared/utils/utils.service.ts:105-110 | a number below 62^k has at most k digits |
| Base62.DigitsPrefixValue | src/shared/utils/utils.service.ts:105-112 | dropping the last j digits leaves the number divided by 62^j, rounded down |
| Base62.EncodeHexZero | src/shared/utils/utils.service.ts:101-103 | a zero value encodes as the zero digit alone, whatever the length |
| Base62.EncodeHexInAlphabet | src/shared/utils/utils.service.ts:97-113 | every character of a code is in the alphabet |
| Base62.EncodeHexPrefix | src/shared/utils/utils.service.ts:105-112 | for a non-zero value the code is the first `length` digits, or all of them when there are fewer, and does not start with the zero digit |
| Base62.EncodeHexValue | src/shared/utils/utils.service.ts:105-112 | for a non-zero value the code decodes to the value with the dropped low digits divided away |
| Base62.SixteenHexDigits | src/shared/utils/utils.service.ts:91-113 | a 16-digit hash has at most 11 base-62 digits |
| Base62.EncodeHexToBase62 | src/shared/utils/utils.service.ts:97-113 | the division loop returns exactly `EncodeHex` |
| ShortLinkStore.FindBy | src/modules/short-links/short-links.service.ts:55-57 | a found row is in the table and holds the key. When nothing is found, no row holds the key. |
| ShortLinkStore.FindById | src/modules/short-links/short-links.service.ts:101 | a found row is in the table with that id, and when nothing is found no row has it |
| ShortLinkStore.InsertSpec | src/modules/short-links/entities/short-link.entity.ts:10-41 | `save` succeeds exactly when codes, hashes and creators fit `varchar(255)`, the creator is present, and code and hash are new. The new row holds the draft's values with the next id and both timestamps set to now. |
| ShortLinkStore.InsertPreservesWellFormed | src/modules/short-links/entities/short-link.entity.ts:21-28 | saving keeps ids positional and codes and hashes unique |
| ShortLinkStore.FindByAppend | src/modules/short-links/short-links.service.ts:55-57 | appending a row never changes what a lookup already finds |
| ShortLinkStore.FindByKey | src/modules/short-links/short-links.service.ts:55-57 | a lookup by a key no earlier row holds finds the row holding it |
| ShortLinkStore.FindByUnique | src/modules/short-links/entities/short-link.entity.ts:11-28 | in a well-formed table each row is found by its code, its hash and its id |
| ShortLinkStore.FindByIdShifted | src/modules/short-links/entities/short-link.entity.ts:11-12 | with ids numbered from an offset, the lookup by id finds the row at that position |
| ShortLinkStore.UniqueKeys | src/modules/short-links/entities/short-link.entity.ts:21-28 | in a well-formed table a code or a hash picks out at most one row |
| RedisCache.SetExThenGet | src/modules/short-links/short-links.service.ts:153 | after `SET … EX ttl`, `GET` yields the value for exactly ttl seconds, and every other key reads as before |
| ShortLinks.CacheKeyInjective | src/modules/short-links/short-links.service.ts:109 | distinct codes have distinct cache keys |
| ShortLinks.AttemptHash | src/modules/short-links/short-links.service.ts:65-68 | each attempt's hash has 16 hex digits |
| ShortLinks.AttemptSave | src/modules/short-links/short-links.service.ts:64-79 | attempt k saves the entity built from the salted hash of attempt k and its code |
| ShortLinks.RetrySpecSaves | src/modules/short-links/short-links.service.ts:62-93 | the loop saves at most once per remaining attempt. A success appends the saved row, and a failure leaves the table alone. |
| ShortLinks.RetrySpecSucceeds | src/modules/short-links/short-links.service.ts:62-93 | a success is attempt j's saved row, after every earlier attempt hit a duplicate key, with j + 1 saves |
| ShortLinks.RetrySpecRethrows | src/modules/short-links/short-links.service.ts:80-88 | a database error that escapes is never a duplicate key. It is attempt j's own error, after every earlier attempt collided. |
| ShortLinks.RetrySpecGivesUp | src/modules/short-links/short-links.service.ts:62-93 | the loop ends in 'Unable to generate…' exactly when every remaining attempt collides, and then after one save per attempt |
| ShortLinks.CreateInvalidUrl | src/modules/short-links/short-links.service.ts:26-33 | a URL the parser rejects gives BadRequest('Invalid URL') without any save |
| ShortLinks.CreateWithAlias | src/modules/short-links/short-links.service.ts:35-52 | a taken alias is refused without saving. A free alias is saved once, as the code, with the unsalted hash and the request's values, and a save error is passed on uncaught. |
| ShortLinks.CreateAliasForKnownUrl | src/modules/short-links/short-links.service.ts:44-51 | a free alias for a URL whose unsalted canonical hash is already stored fails with a duplicate key on the canonical hash, after one save |
| ShortLinks.CreateDeduplicates | src/modules/short-links/short-links.service.ts:54-60 | without an alias, a stored unsalted hash returns the stored link and saves nothing |
| ShortLinks.RetryStoreSucceeds | src/modules/short-links/short-links.service.ts:62-89 | over the table, a success appends the row attempt j inserted, after j attempts that each hit a duplicate key |
| ShortLinks.RetryStoreFails | src/modules/short-links/short-links.service.ts:80-88 | over the table, a failure leaves it unchanged and an escaping error is never a duplicate key |
| ShortLinks.RetryStoreGivesUp | src/modules/short-links/short-links.service.ts:62-93 | over the table, the loop gives up exactly when all five inserts hit duplicate keys, and then after five saves |
| ShortLinks.CreateGenerated | src/modules/short-links/short-links.service.ts:62-89 | a generated link carries attempt j's code and hash with the request's values. Every earlier attempt hit a duplicate key, and j + 1 saves were made. |
| ShortLinks.CreateGeneratedFails | src/modules/short-links/short-links.service.ts:62-93 | a failed generation leaves the table alone and never reports a duplicate key. It gives up exactly when all five attempts collide, after five saves. |
| ShortLinks.CreateCanonicalRows | src/modules/short-links/short-links.service.ts:35-93 | `create` saves at most five times and adds at most the row it returns |
| ShortLinks.CreateCanonicalWellFormed | src/modules/short-links/short-links.service.ts:35-93 | `create` keeps ids positional and codes and hashes unique |
| ShortLinks.CreateTable | src/modules/short-links/short-links.service.ts:26-94 | the same for a whole request: at most five saves, at most one new row (the returned one), and a well-formed table kept well-formed |
| ShortLinks.CreateReturnsStoredRow | src/modules/short-links/short-links.service.ts:26-94 | a returned link is a row of the resulting table |
| ShortLinks.CreateAgain | src/modules/short-links/short-links.service.ts:54-60 | after a create whose link carries the unsalted hash, creating the same canonical URL again returns that link and saves nothing |
| ShortLinks.CreateIdempotent | src/modules/short-links/short-links.service.ts:26-60 | the same for any second request that canonicalises like the first |
| ShortLinks.CreateMissesSaltedLink | src/modules/short-links/short-links.service.ts:54-79 | after a create whose link carries a salted hash, creating the same canonical URL again never returns that link, and saves at least once |
| ShortLinks.TtlBounds | src/modules/short-links/short-links.service.ts:132-151 | the TTL is at most a day, and exactly a day without an expiry. Otherwise it is the whole seconds left capped at a day, so an entry never outlives its link, and it is zero exactly when under a second is left. |
| ShortLinks.ResolveFromStoreResult | src/modules/short-links/short-links.service.ts:117-129 | the table path returns the link's URL exactly when the link exists and `now` is not past its expiry. Otherwise it gives the code-not-found or the expired error. |
| ShortLinks.ResolveCacheHit | src/modules/short-links/short-links.service.ts:111-115 | a non-empty cached URL is returned as it is. No table is consulted, since any table gives the same outcome, and nothing is written. |
| ShortLinks.ResolveCacheWrite | src/modules/short-links/short-links.service.ts:126-153 | on a miss, a live link is written with `SET … EX` under the code's key, with its URL, for `Ttl` seconds. That is exactly a day without an expiry, and otherwise at least a second and never past the link's expiry. Nothing is written on a hit, for an unknown code, for an expired link or for a link under a second from expiry. |
| ShortLinks.CoherentCacheIsTransparent | src/modules/short-links/short-links.service.ts:111-129 | with a coherent cache, a code resolves exactly as it would with an empty cache |
| ShortLinks.ResolveKeepsCoherent | src/modules/short-links/short-links.service.ts:108-156 | resolution keeps the cache coherent with the table |
| ShortLinks.AppendKeepsCoherent | src/modules/short-links/short-links.service.ts:72-79 | a saved row keeps the cache coherent |
| ShortLinks.CreateKeepsCoherent | src/modules/short-links/short-links.service.ts:26-94 | `create` keeps the cache coherent |
| ShortLinks.FindOneSpec | src/modules/short-links/short-links.service.ts:100-106 | a found link is in the table with that id. Otherwise the result is NotFound('Short link with ID … not found') and no row has the id. |
| ShortLinks.FindOneStored | src/modules/short-links/short-links.service.ts:100-106 | in a well-formed table every row is found by its id and by its code |
| ShortLinks.StoredLinkResolves | src/modules/short-links/short-links.service.ts:108-156 | with a coherent cache, a stored link's code resolves to its URL until it expires, and then to 'Short link has expired' |
| ShortLinks.CreateThenResolve | src/modules/short-links/short-links.service.ts:26-156 | a created link is found by its id, and its code resolves to its original URL until it expires |
| ShortLinksService.ShortLinksService.constructor | src/modules/short-links/short-links.service.ts:19-24 | the service takes over the repository's table and the Redis keyspace as they are, with no save counted yet, and is valid |
| ShortLinksService.ShortLinksService.Save | src/modules/short-links/short-links.service.ts:72-79 | `save` returns the insert's outcome, appends the row only on success, and counts one save |
| ShortLinksService.ShortLinksService.Attempt | src/modules/short-links/short-links.service.ts:64-79 | one attempt saves the entity with the salted hash and its base-62 code |
| ShortLinksService.ShortLinksService.Retry | src/modules/short-links/short-links.service.ts:62-93 | the `for` loop returns, stores and counts saves exactly as `RetrySpec` |
| ShortLinksService.ShortLinksService.CreateFromCanonical | src/modules/short-links/short-links.service.ts:32-93 | the alias branch, the dedup lookup and the loop behave exactly as `CreateCanonical` |
| ShortLinksService.ShortLinksService.Create | src/modules/short-links/short-links.service.ts:26-94 | `create` returns and stores exactly what `CreateSpec` says, leaves the cache alone and keeps the service valid |
| ShortLinksService.ShortLinksService.ResolveShortCode | src/modules/short-links/short-links.service.ts:108-156 | resolution returns and caches exactly what `ResolveSpec` says, leaves the table alone and keeps the cache coherent |
| ShortLinksService.ShortLinksService.FindOne | src/modules/short-links/short-links.service.ts:100-106 | `findOne` returns exactly `FindOneSpec` |

## Left out

- URL parsing (WHATWG `new URL`) is not modelled. The parser is a parameter. Whatever it does is the parser's business, including its own dropping of a scheme's default port, its host validation and its punycode handling.
- UrlCanonical.Serialize: `toString` is modelled as scheme, `//`, host, port, path, search and fragment. A URL's username and password are not part of `ParsedUrl`, so credentials, which `canonicalizeUrl` keeps, are dropped from the canonical text. Opaque-path and IPv6 serialisation details are not modelled either.
- Percent-encoding by `URLSearchParams` is not modelled. A pair is serialised as `key=value`.
- `localeCompare` is modelled as code-point order. Locale collation is data outside the program.
- `toLowerCase` is modelled on ASCII letters only. Full Unicode case mapping is not modelled.
- SHA-256 internals are not modelled. The hash is a parameter returning 64 lower-case hex digits.
- The `BASE62_ALPHABET` constant lives in a file that is not part of this model. It is a parameter: any 62 distinct characters.
- Base62.EncodeHex: requires a non-empty hex string. `BigInt('0x')` throws, and the service only passes 16-digit hashes.
- Dates are modelled as millisecond integers. Parsing the `expiredAt` date string of the request DTO is not modelled. Its `@MaxLength`/`@IsDateString` validation runs in the controller pipeline and is not part of this model.
- The two `new Date()` calls of `resolveShortCode` read one clock value, `now`.
- The generated uuid primary key is modelled as the row's position in the table.
- ShortLinks.FindOneSpec: `findOne` takes any route string as its id. An id that is not a uuid makes PostgreSQL refuse the query on the uuid column, which surfaces as a database error rather than NotFound. With ids modelled as positions, that error path is not modelled.
- Asynchrony, concurrent requests and races between the dedup lookup and `save` are not modelled. Each operation runs alone on the table and the cache.
- The error test `message.includes('duplicate key value violates unique constraint')` is modelled as the error's kind: a unique violation.
- Redis is modelled as a map with absolute expiry instants. An entry is live until the clock passes its expiry. Eviction under memory pressure and connection failures are not modelled.
- `findAll`, `update` and `remove` return fixed strings and are not modelled.
- `formatPagination`, the controller, the auth and users modules and dependency injection are not part of this model.
- ShortLinksService.ShortLinksService.constructor: the class starts from a well-formed table and a cache coherent with it, and so covers only such states. A Redis holding foreign or stale `short_link:` keys is covered only by the functions of `ShortLinks`, which accept any cache.
- ShortLinksService.ShortLinksService: the repository and the Redis client are fields of the service (`rows`, `cache`) rather than separate objects. Aliasing between services sharing one table is not modelled.
