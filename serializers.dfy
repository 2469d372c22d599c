/**
 * The create and response serializers (url_shortener/serializers.py): the input rules for a
 * new short URL, the choice of its domain, dropping an empty short code so that the model
 * allocates one, the expiry flag of a response, and the size rule of a bulk request.
 */
module Serializers {
  import opened Wrappers
  import opened Text
  import opened ShortCodes
  import opened ShortUrls
  import opened Middleware

  const UrlPrefixMessage: string := "URL must start with http:// or https://"

  datatype UrlCheck = Accepted(url: string) | Rejected(message: string)

  /** `validate_original_url` */
  function ValidateOriginalUrl(value: string): (r: UrlCheck)
    ensures r.Accepted? <==> StartsWith(value, "http://") || StartsWith(value, "https://")
    ensures r.Accepted? ==> r.url == value
    ensures r.Rejected? ==> r.message == UrlPrefixMessage
  {
    if StartsWith(value, "http://") || StartsWith(value, "https://") then Accepted(value)
    else Rejected(UrlPrefixMessage)
  }

  /** `value` is `scheme://rest` */
  predicate SchemeAndRest(value: string, scheme: string, rest: string) {
    value == scheme + "://" + rest
  }

  /** The URLs accepted are exactly the http and https URLs, whatever follows the scheme. */
  lemma AcceptedUrlsAreHttp(value: string)
    ensures ValidateOriginalUrl(value).Accepted?
      <==> exists scheme, rest :: (scheme == "http" || scheme == "https") && SchemeAndRest(value, scheme, rest)
  {
    if StartsWith(value, "http://") {
      assert SchemeAndRest(value, "http", value[7..]);
    } else if StartsWith(value, "https://") {
      assert SchemeAndRest(value, "https", value[8..]);
    }
    if scheme, rest :| (scheme == "http" || scheme == "https") && SchemeAndRest(value, scheme, rest) {
      assert value[..|scheme| + 3] == scheme + "://";
    }
  }

  /** A request field that is left out, sent as null, or sent with a value. */
  datatype Input<T> = Absent | Null | Given(value: T)

  /**
   * The input of the create endpoint. `title` keeps null apart from absent, because its model
   * field does not allow null; the other optional fields allow null, and the serializer
   * treats null and absent alike for them, so they are `None` in both cases.
   */
  datatype CreateRequest = CreateRequest(
    originalUrl: string,
    title: Input<string>,
    expiresAt: Option<int>,
    domain: Option<string>,
    shortCode: Option<string>)

  const MaxUrlLength: nat := 2048
  const MaxTitleLength: nat := 255
  const MaxDomainLength: nat := 255
  const MaxShortCodeLength: nat := 10

  datatype FieldName = OriginalUrlField | TitleField | DomainField | ShortCodeField

  /** `value` is null or a string of at most `limit` characters. */
  predicate WithinLimit(value: Option<string>, limit: nat) {
    value.None? || |value.value| <= limit
  }

  /** The title is left out, or a string of at most `MaxTitleLength` characters; null is refused. */
  predicate TitleValid(title: Input<string>) {
    match title
    case Absent => true
    case Null => false
    case Given(t) => |t| <= MaxTitleLength
  }

  /** The fields of a create request that are null where null is refused, or fail their length limit or the URL prefix rule. */
  function FieldErrors(req: CreateRequest): (errors: set<FieldName>)
    ensures (OriginalUrlField in errors) <==> (|req.originalUrl| > MaxUrlLength || ValidateOriginalUrl(req.originalUrl).Rejected?)
    ensures TitleField in errors <==> req.title.Null? || (req.title.Given? && |req.title.value| > MaxTitleLength)
    ensures DomainField in errors <==> !WithinLimit(req.domain, MaxDomainLength)
    ensures ShortCodeField in errors <==> !WithinLimit(req.shortCode, MaxShortCodeLength)
  {
    (if |req.originalUrl| > MaxUrlLength || ValidateOriginalUrl(req.originalUrl).Rejected? then {OriginalUrlField} else {})
    + (if !TitleValid(req.title) then {TitleField} else {})
    + (if !WithinLimit(req.domain, MaxDomainLength) then {DomainField} else {})
    + (if !WithinLimit(req.shortCode, MaxShortCodeLength) then {ShortCodeField} else {})
  }

  /**
   * The domain `create` stores: a non-empty explicit domain as given; otherwise the host the
   * middleware recorded, else the request's host without its port, else "localhost".
   */
  function ResolveDomain(given: Option<string>, request: HttpRequest?): (d: string)
    reads request
    ensures Truthy(given) ==> d == given.value
    ensures !Truthy(given) && request != null && request.originalHost.Some? ==> d == request.originalHost.value
    ensures !Truthy(given) && request != null && request.originalHost.None? ==> d == StripPort(request.host)
    ensures !Truthy(given) && request == null ==> d == "localhost"
  {
    if Truthy(given) then given.value
    else if request != null && request.originalHost.Some? then request.originalHost.value
    else if request != null then StripPort(request.host)
    else "localhost"
  }

  /**
   * Both request branches agree once the middleware has run (or never ran): the chosen
   * domain is the request's host without its port, so it never carries a port.
   */
  lemma ResolvedDomainHasNoPort(given: Option<string>, request: HttpRequest)
    requires !Truthy(given)
    requires request.originalHost.None? || request.originalHost == Some(StripPort(request.host))
    ensures ResolveDomain(given, request) == StripPort(request.host)
    ensures ':' !in ResolveDomain(given, request)
  {
  }

  /** `create`'s edits of `validated_data`: the domain filled in, a null or empty short code popped. */
  function PrepareCreate(data: CreateRequest, request: HttpRequest?): (prepared: CreateRequest)
    reads request
    ensures prepared.domain == Some(ResolveDomain(data.domain, request))
    ensures Truthy(data.shortCode) ==> prepared.shortCode == data.shortCode
    ensures !Truthy(data.shortCode) ==> prepared.shortCode.None?
    ensures prepared.(domain := data.domain, shortCode := data.shortCode) == data
  {
    var domain := if Truthy(data.domain) then data.domain else Some(ResolveDomain(data.domain, request));
    data.(domain := domain, shortCode := if Truthy(data.shortCode) then data.shortCode else None)
  }

  /**
   * The new model instance `super().create(validated_data)` saves: the fields as given, a left-out
   * title as the model's default "", and the model's defaults for the counter and the flag.
   */
  function Instance(data: CreateRequest): (u: ShortUrl)
    requires !data.title.Null?
    ensures u.originalUrl == data.originalUrl && u.domain == data.domain && u.shortCode == data.shortCode
    ensures u.title == if data.title.Given? then data.title.value else ""
    ensures u.expiresAt == if data.expiresAt.Some? then Some(Moment(data.expiresAt.value)) else None
    ensures u.clicks == 0 && u.isActive
  {
    NewShortUrl(data.originalUrl, data.domain, data.shortCode,
                if data.title.Given? then Some(data.title.value) else None, data.expiresAt)
  }

  /**
   * `ShortURLCreateSerializer.create` on validated data: fill in the domain, drop an empty code, insert. The
   * row always has a domain and a code; a request without a code whose 6-character
   * allocation succeeded is always stored; a request with a code fails exactly when that
   * (domain, code) pair is already in the table.
   */
  method Create(table: ShortUrlTable, data: CreateRequest, request: HttpRequest?, stream: RandomStream, now: int)
    returns (outcome: SaveOutcome)
    requires FieldErrors(data) == {}
    requires table.Valid()
    modifies table
    ensures table.Valid()
    ensures var u := Instance(PrepareCreate(data, request));
            var row := Prepared(old(table.rows), u, stream, now, true);
            && (outcome.IntegrityError? <==> ConflictsAt(old(table.rows), old(table.nextId), row))
            && (outcome.Saved? ==> outcome == Saved(old(table.nextId), row)
                                   && table.rows == old(table.rows)[old(table.nextId) := row])
            && (outcome.IntegrityError? ==> table.rows == old(table.rows))
    ensures outcome.Saved? ==> HasCode(outcome.row) && outcome.row.domain.Some? && outcome.row.clicks == 0
    ensures var domain := ResolveDomain(data.domain, request);
            && (!Truthy(data.shortCode) && |AllocatedCode(old(table.rows), Some(domain), stream)| == ShortLength ==>
                  outcome.Saved?)
            && (Truthy(data.shortCode) ==>
                  (outcome.IntegrityError? <==> CodeTaken(old(table.rows), Some(domain), data.shortCode.value)))
  {
    var validated := data;
    if !Truthy(validated.domain) {
      validated := validated.(domain := Some(ResolveDomain(data.domain, request)));
    }
    if !Truthy(validated.shortCode) {
      validated := validated.(shortCode := None);
    }
    assert validated == PrepareCreate(data, request);
    var u := Instance(validated);
    ghost var row := Prepared(table.rows, u, stream, now, true);
    if !Truthy(data.shortCode) {
      if |AllocatedCode(table.rows, u.domain, stream)| == ShortLength {
        FreshShortCodeNeverConflicts(table.rows, table.nextId, u, stream, now, true);
      }
    } else {
      ConstraintMatchesPreCheck(table.rows, table.nextId, row);
    }
    outcome := table.Save(None, u, stream, now);
  }

  /** `get_is_expired`: `is_expired()`, with a malformed expiry read as not expired. */
  function GetIsExpired(u: ShortUrl, now: int, parse: string -> Option<int>): (r: bool)
    ensures r <==> IsExpired(u, now, parse) == Some(true)
    ensures IsExpired(u, now, parse).None? ==> !r
  {
    match IsExpired(u, now, parse)
    case None => false
    case Some(b) => b
  }

  const MinBulkUrls: nat := 1
  const MaxBulkUrls: nat := 100

  /** `BulkShortURLSerializer.urls`: between 1 and 100 URLs. */
  function BulkSizeValid(urls: seq<string>): (ok: bool)
    ensures ok <==> urls != [] && |urls| <= 100
  {
    MinBulkUrls <= |urls| <= MaxBulkUrls
  }
}
