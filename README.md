# Multi-domain URL shortener: a Dafny model of its tables and request rules

This project models the core of a Django URL shortener that serves short links on many
domains and manages those domains for on-demand TLS certificates. It covers:

- the `short_urls` table: short-code generation, the allocation loop of `ShortURL.save()`
  (ten checked 6-character candidates, then one unchecked 8-character code), the
  (domain, short_code) uniqueness constraint, the click counter, expiry and the public
  short URL;
- the `domain_configurations` table: its rows, the SSL transitions `mark_ssl_active` and
  `mark_ssl_failed`, and the internal API that configures, looks up, removes, lists and
  reports SSL status for domains behind a shared-key gate;
- the create serializer's input rules: URL prefix, field limits, domain precedence and
  dropping an empty short code; the response's expiry flag; the bulk size rule;
- the reverse proxy's certificate allow-check;
- the middleware that stamps each request with its host, port removed.

Files, one module each: `wrappers.dfy` (Option), `text.dfy` (lower-casing, prefixes,
`split(sep)[0]`, truthiness), `short_codes.dfy`, `short_urls.dfy`, `domains.dfy`,
`internal_api.dfy`, `serializers.dfy`, `middleware.dfy`, `caddy.dfy`, and `scenarios.dfy`
(two end-to-end flows checked from the contracts alone).

Modelling choices:

- The random source is an oracle `stream: nat -> AlphabetIndex`, the i-th draw of
  `secrets.choice`. Pass k of the loop draws positions 6k to 6k+5. The 8-character fallback
  draws positions 60 to 67.
- Time is an integer number of seconds, passed in as `now`. The date parsers are a
  parameter `parse: string -> Option<int>`, where `None` is a string the parser rejects.
- Each table is a class whose methods reassign its `rows` field. For `short_urls` that is a
  map from primary key to row. For `domain_configurations` it is a sequence of rows, so
  that the listing order can be stated. Each class keeps its uniqueness constraint as its
  `Valid()` invariant.
- Uniqueness of (domain, short_code) follows SQL: NULL never equals NULL, so a row with no
  domain clashes with no other row. The allocator's pre-check filters with `domain=None`,
  which Django turns into `IS NULL`, so the pre-check does see rows without a domain.
  `ConstraintMatchesPreCheck` shows that the two agree for rows that have a domain.
- Python truthiness is modelled exactly where the code uses it: `if not self.short_code`,
  `if not validated_data.get('domain')`, `if ssl_status:`, `if self.expires_at:`. An
  empty string counts as absent.
- `full_short_url` formats a missing domain as Python does, as `None`.
- `ssl_status` is a string. The SSL report endpoint stores any non-empty value without
  checking it against the four choices.

Behaviour of the code worth knowing:

- Configuring a domain matches the name exactly as the validated request gives it. The
  other endpoints and the proxy check lower-case it first. In this model, where the
  configure input is taken as already validated and names are compared exactly, a domain
  configured with upper-case letters is never allowed (`ValidateDomain` only ever allows
  lower-case names). Whether the request serializer lower-cases the name, and whether the
  database compares names case-insensitively, is not part of this model.
- The model compares strings exactly, as a case-sensitive database collation does. This
  holds for domain names and equally for short codes: the (domain, short_code) constraint
  (`Clash`) and the allocator's pre-check (`CodeTaken`) treat `abc123` and `ABC123` as
  different codes, while on a case-insensitive collation they clash.
- A collision of the 8-character fallback is not retried; it surfaces as the insert's
  `IntegrityError`.
- `is_expired()` itself raises on a malformed expiry string. Only the response serializer's
  `get_is_expired` reads that as "not expired".
- A `title` sent as null is refused, because its model field does not allow null; a
  left-out title becomes "".

## Model

| member | source | states |
|---|---|---|
| `Text.Lower` | url_shortener/internal_views.py:213 | lower-casing keeps the length, turns each ASCII upper-case letter into its lower-case letter (code point + 32) and keeps every other character, so no upper-case letter remains |
| `Text.LowerEqualIffEqualIgnoringCase` | config/urls.py:27 | two names lower-case to the same string exactly when they are equal ignoring ASCII case |
| `Text.BeforeFirst` | url_shortener/middleware.py:19 | `s.split(sep)[0]` is the longest prefix of `s` without `sep`; the character after it is `sep`; a string without `sep` is returned whole |
| `ShortCodes.GenerateShortCode` | url_shortener/models.py:11-14 | the code has exactly `length` characters, the i-th being the alphabet character chosen by the i-th draw, all ASCII letters or digits |
| `ShortCodes.AlphabetIsAlphanumerics` | url_shortener/models.py:13 | the alphabet has 62 characters and contains exactly the ASCII letters and digits |
| `ShortCodes.AlphabetSpelledOut` | url_shortener/models.py:13 | the alphabet is `ascii_letters + digits`, lower case first, then upper case, then digits |
| `ShortCodes.EveryCodeCanBeDrawn` | url_shortener/models.py:14 | every alphanumeric string is generated by some random stream, so the oracle rules out no code |
| `ShortUrls.CodeTaken` | url_shortener/models.py:97 | the pre-check finds a row exactly when the code is among the codes already stored under that domain (`domain=None` matching the rows without a domain) |
| `ShortUrls.NewShortUrl` | url_shortener/models.py:44-70 | a new row starts with 0 clicks, active, title "" unless given, and the given expiry instant or NULL when none is given |
| `ShortUrls.AllocateFrom` | url_shortener/models.py:95-103 | from pass k on, the loop yields a 6-character code unused in the domain, or the 8-character fallback when every remaining candidate was taken |
| `ShortUrls.AllocatedCode` | url_shortener/models.py:92-103 | the code `save()` assigns is a 6-character code unused in the domain, or the 8-character fallback after all ten candidates were taken |
| `ShortUrls.AllocateFromOutcome` | url_shortener/models.py:94-103 | from pass k on, the loop yields the first free 6-character candidate (all earlier ones taken) or the 8-character code after every remaining candidate collided |
| `ShortUrls.AllocationOutcome` | url_shortener/models.py:92-103 | the allocated code is non-empty, alphanumeric and at most 10 characters long; a 6-character code is free in its domain and is the first free candidate; an 8-character code is used only after all 10 candidates were taken |
| `ShortUrls.Prepared` | url_shortener/models.py:90-105 | the row written keeps a non-empty code, gets the allocated code otherwise, always has a code, and differs from the input only in code and timestamps |
| `ShortUrls.FreshShortCodeNeverConflicts` | url_shortener/models.py:95-99 | a freshly allocated 6-character code never violates the unique constraint |
| `ShortUrls.ConstraintMatchesPreCheck` | url_shortener/models.py:80-85 | for a new row with a domain, the constraint fails exactly when the pre-check finds the code taken in that domain |
| `ShortUrls.WriteKeepsPairsUnique` | url_shortener/models.py:80-85 | writing a row that clashes with no other row keeps all (domain, short_code) pairs unique |
| `ShortUrls.IsExpired` | url_shortener/models.py:112-121 | no expiry means not expired; a malformed non-empty expiry string raises; otherwise expired exactly when now is strictly after the expiry instant |
| `ShortUrls.ExpiryBoundary` | url_shortener/models.py:119-120 | at the expiry instant a row is not expired, one second later it is |
| `ShortUrls.ExpiryIsPermanent` | url_shortener/models.py:112-121 | once expired, a row stays expired at every later time |
| `ShortUrls.FullShortUrl` | url_shortener/models.py:107-110 | the short URL starts with `https://` and is as long as the domain, the code and the 9 fixed characters |
| `ShortUrls.FullShortUrlRoundTrip` | url_shortener/models.py:110 | splitting the short URL at its first `/` after the scheme gives back the domain and the code |
| `ShortUrls.Clicked` | url_shortener/models.py:123-125 | the click update raises that row's count by exactly 1, changes no other field or row, and changes nothing when the key is absent |
| `ShortUrls.ClickedKeepsPairsUnique` | url_shortener/models.py:123-125 | counting a click keeps all pairs unique |
| `ShortUrls.ShortUrlTable.AllocateCode` | url_shortener/models.py:92-103 | the loop returns exactly the code the allocation function describes |
| `ShortUrls.ShortUrlTable.Save` | url_shortener/models.py:90-105 | save fails with IntegrityError, leaving the table unchanged, exactly when the prepared row would duplicate a pair; otherwise it writes that row at its key, with `created_at` stamped whenever the key was not in the table (an UPDATE matching no row falls back to INSERT); uniqueness is kept |
| `ShortUrls.ShortUrlTable.IncrementClicks` | url_shortener/models.py:123-125 | the table afterwards is the click update of the old table; uniqueness is kept |
| `Domains.MarkedSslActive` | url_shortener/models.py:256-261 | status "active", verified, issued now; only those columns and `updated_at` change |
| `Domains.MarkedSslFailed` | url_shortener/models.py:263-266 | status "failed"; only status and `updated_at` change, so verification and dates stay |
| `Domains.FindDomain` | url_shortener/internal_views.py:111 | the index found holds the domain; none is found exactly when no row holds it |
| `Domains.FoundIsOnly` | url_shortener/models.py:181-186 | with unique domains, the row found is the only row of that domain |
| `Domains.DomainTable.MarkSslActive` | url_shortener/models.py:256-261 | the row of the domain becomes its SSL-active version; a vanished row fails the save and nothing changes |
| `Domains.DomainTable.MarkSslFailed` | url_shortener/models.py:263-266 | the row of the domain becomes its SSL-failed version; a vanished row fails the save and nothing changes |
| `InternalApi.RequireInternalApiKey` | url_shortener/internal_views.py:31-56 | no configured key gives 500, then a missing header 401, then a different header 403; only a header equal to the configured key passes |
| `InternalApi.NewConfiguration` | url_shortener/internal_views.py:145-155 | a new domain is active, unverified, pending, of type "forms", using Caddy and with empty notes unless the request says otherwise |
| `InternalApi.ReactivatedConfig` | url_shortener/internal_views.py:122-130 | reactivation sets active and pending and overwrites owner, type, Caddy flag and notes; verification and SSL dates stay |
| `InternalApi.ConfigureDomain` | url_shortener/internal_views.py:105-168 | an unknown domain is appended (201), an inactive one reactivated in place (200), an active one refused with 409 and no change |
| `InternalApi.GetDomainStatus` | url_shortener/internal_views.py:212-232 | the row of the lower-cased domain is returned exactly when one exists, otherwise 404 |
| `InternalApi.DeactivatedConfig` | url_shortener/internal_views.py:262-264 | the soft delete changes only `is_active` to false and `updated_at` |
| `InternalApi.DeleteKeepsUnique` | url_shortener/internal_views.py:258-259 | deleting a row keeps the remaining domains unique |
| `InternalApi.FlagSet` | url_shortener/internal_views.py:256 | a flag is set exactly when the parameter is present and equals "true" ignoring ASCII case; a missing one defaults to "false" |
| `InternalApi.RemoveDomain` | url_shortener/internal_views.py:253-285 | `hard_delete` "true" in any case deletes the row, any other value deactivates it, an unknown domain is 404 with no change |
| `InternalApi.Select` | url_shortener/internal_views.py:313-315 | the rows kept are exactly the account's rows (active ones only when asked), each as often as in the table |
| `InternalApi.InsertNewestFirst` | url_shortener/internal_views.py:317 | inserting into a newest-first list keeps it newest first and adds exactly that row |
| `InternalApi.SortNewestFirst` | url_shortener/internal_views.py:317 | the ordering is newest first and a permutation of its input |
| `InternalApi.ListAccountDomains` | url_shortener/internal_views.py:310-328 | the listing holds exactly the selected rows, newest first, and its count is its length |
| `InternalApi.SslUpdatedConfig` | url_shortener/internal_views.py:360-377 | only non-empty report fields are written, through the parser; "active" verifies; verification is never withdrawn; nothing else changes |
| `InternalApi.ApplySslReport` | url_shortener/internal_views.py:360-377 | the field-by-field assignments produce exactly the updated row the report describes |
| `InternalApi.UpdateDomainSslStatus` | url_shortener/internal_views.py:357-399 | the row of the lower-cased domain becomes its updated version; an unknown domain is 404 with no change |
| `Middleware.StripPort` | url_shortener/middleware.py:19 | the stored host is the prefix of the host before the first ':', never contains ':', and a host without ':' is kept whole |
| `Middleware.StripPortIdempotent` | url_shortener/middleware.py:19 | stripping the port twice is stripping it once |
| `Middleware.MultiDomainMiddleware` | url_shortener/middleware.py:17-28 | both request attributes get the port-less host, and the response the rest of the chain gives for the stamped attributes is returned unchanged |
| `Serializers.ValidateOriginalUrl` | url_shortener/serializers.py:32-36 | a URL is accepted, unchanged, exactly when it starts with `http://` or `https://`; otherwise the prefix error |
| `Serializers.AcceptedUrlsAreHttp` | url_shortener/serializers.py:34 | the accepted values are exactly those of the form `http://rest` or `https://rest` |
| `Serializers.FieldErrors` | url_shortener/serializers.py:19-36 | a field is in error exactly when it breaks its limit (URL 2048, title 255, domain 255, short code 10), for the URL the prefix rule, and for the title when it is null |
| `Serializers.ResolveDomain` | url_shortener/serializers.py:46-53 | a non-empty explicit domain wins, then the middleware's host, then the request host without port, then "localhost" |
| `Serializers.ResolvedDomainHasNoPort` | url_shortener/serializers.py:48-51 | with or without the middleware, a domain taken from the request is its host without port |
| `Serializers.PrepareCreate` | url_shortener/serializers.py:46-57 | the data gets a domain, a null or empty short code is dropped, nothing else changes |
| `Serializers.Instance` | url_shortener/serializers.py:59 | the instance saved carries the URL, domain and code as prepared, the given expiry instant or NULL when none is given, the title or "" when left out, 0 clicks and the active flag |
| `Serializers.Create` | url_shortener/serializers.py:38-59 | on validated data, the stored row has a domain, a code and 0 clicks; without a code a successful 6-character allocation always saves; an explicit code fails exactly when its pair exists |
| `Serializers.GetIsExpired` | url_shortener/serializers.py:88-94 | the flag is true exactly when `is_expired()` returns true; a raising expiry gives false |
| `Serializers.BulkSizeValid` | url_shortener/serializers.py:131-135 | a bulk request carries between 1 and 100 URLs |
| `Caddy.FindActive` | config/urls.py:36-39 | the index found holds the domain and is active; none exactly when no such row exists |
| `Caddy.ValidateDomain` | config/urls.py:17-54 | an empty name is 400; 200 with the owner exactly when an active row holds the lower-cased name; otherwise 403; an allowed name is lower case |
| `Caddy.DecisionIgnoresVerificationAndSsl` | config/urls.py:36-39 | tables that agree on domain, activity and owner get the same decision |
| `Caddy.SslReportKeepsDecision` | config/urls.py:36-39 | an SSL status report never changes the allow decision |
| `Caddy.SslMarksKeepDecision` | config/urls.py:36-39 | neither `mark_ssl_active` nor `mark_ssl_failed` changes the allow decision |
| `Caddy.ConfiguredDomainIsAllowed` | config/urls.py:35-46 | a newly configured lower-case domain is allowed at once, for the configuring account |
| `Caddy.ReactivatedDomainIsAllowed` | config/urls.py:35-46 | a reactivated lower-case domain is allowed, for its new owner |
| `Caddy.RemovedDomainIsDenied` | config/urls.py:48-54 | after a soft or a hard removal the domain is denied with 403 |

## Left out

- Uniform distribution and cryptographic strength of `secrets.choice`: the random source is an arbitrary stream of draws.
- Concurrency: the race between the pre-check and the insert, and the atomic `F('clicks') + 1` update, are modelled as sequential steps.
- `views.py` (redirect, click recording, statistics, list, update, delete) and the `ClickAnalytics` model: the views are not part of this model.
- `DomainConfigureRequestSerializer`, `DomainConfigurationSerializer` and `DomainStatusSerializer` are not part of this model. The configure input is an already-validated record, and responses carry the whole row.
- `Serializers.FieldErrors`: does not model the URL syntax check of the `URLField` behind `original_url`, so a value such as `http://` passes the model while the serializer refuses it; the framework's validator is not part of this model.
- Other framework field checks that are not written in the repository: whitespace trimming of `CharField`, JSON type coercion, and error messages other than the URL prefix one.
- Logging, the generic `except Exception` paths that answer 500, and the `IntegrityError` branch of `configure_domain`, which cannot be reached when requests run one at a time.
- Response envelopes: each outcome keeps its status code and the data the contracts speak about.
- Admin UI, migrations, routing tables, `health_check`, `api_info` and the API documentation setup: these hold no logic of the core.
- The primary-key sequence is modelled as always moving past every key written.
- `ShortUrls.IsExpired`: does not model the `TypeError` raised when an aware `now` is compared with a naive parsed datetime, because time zones are not part of the model; only a parse failure raises.
- `InternalApi.UpdateDomainSslStatus`: does not model the `ValueError` that `parse_datetime` raises on a well-formed but impossible date, because the parser is a parameter returning a value or `None`.
- `Text.Lower`: lower-cases only the ASCII letters, while Python's `str.lower()` also lowers other scripts.
- `ShortUrls.ShortUrlTable.Save`: when an insert fails, the Python object keeps the code it was assigned. The model does not capture this because it does not represent the in-memory instance.
- `ShortUrls.Clicked`: counts on an unbounded integer. `clicks` is a 32-bit `IntegerField`, so on PostgreSQL or MySQL the update at 2147483647 fails; the model adds 1 regardless.
- `InternalApi.NewConfiguration`: `account_id` is an unbounded integer, while the column is a 32-bit `IntegerField` that refuses larger owners.
- `InternalApi.SslUpdatedConfig`: stores any non-empty `ssl_status`, while the column has `max_length=20`, so a database that enforces the length refuses a longer status with an error the model does not have.
- `Middleware.MultiDomainMiddleware`: always stamps the request. `request.get_host()` raises `DisallowedHost` for a host outside `ALLOWED_HOSTS`, and the settings are not part of this model.
- `Serializers.GetIsExpired`: reads every parser failure as "not expired", while `get_is_expired` catches only `TypeError` and `ValueError`; the `OverflowError` that `dateutil`'s parser raises for a date beyond the largest C integer propagates in the source. The parser is a parameter returning a value or `None`, so the model has no third outcome.
