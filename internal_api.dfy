/**
 * The internal domain-management API (url_shortener/internal_views.py): the API-key
 * gate in front of every endpoint, and the endpoints that configure, look up, remove,
 * list and report SSL status for domains in the `domain_configurations` table.
 *
 * Each endpoint method below is the body that runs once the gate has admitted the
 * request; the gate's decision is `RequireInternalApiKey`.
 */
module InternalApi {
  import opened Wrappers
  import opened Text
  import opened Domains

  /** What `require_internal_api_key` decides, checked in this order. */
  datatype GateDecision = KeyNotConfigured | MissingKey | WrongKey | Admitted {
    /** The response status; an admitted request gets the handler's own status instead. */
    function HttpStatus(): int {
      match this
      case KeyNotConfigured => 500
      case MissingKey => 401
      case WrongKey => 403
      case Admitted => 200
    }
  }

  /**
   * `require_internal_api_key`: `expected` is the `INTERNAL_API_KEY` setting and `header`
   * the `X-Internal-API-Key` request header, either of which may be absent.
   */
  function RequireInternalApiKey(expected: Option<string>, header: Option<string>): (r: GateDecision)
    ensures r == Admitted <==> Truthy(expected) && header == expected
    ensures r == KeyNotConfigured <==> !Truthy(expected)
    ensures r == MissingKey <==> Truthy(expected) && !Truthy(header)
    ensures r == WrongKey <==> Truthy(expected) && Truthy(header) && header != expected
  {
    if !Truthy(expected) then KeyNotConfigured
    else if !Truthy(header) then MissingKey
    else if header != expected then WrongKey
    else Admitted
  }

  /** The validated body of a configure request; optional fields are `None` when absent. */
  datatype ConfigureRequest = ConfigureRequest(
    domain: string,
    accountId: int,
    domainType: Option<DomainType>,
    useCaddy: Option<bool>,
    notes: Option<string>)

  datatype ConfigureOutcome = Created(config: DomainConfig) | Reactivated(config: DomainConfig) | AlreadyConfigured {
    function HttpStatus(): int {
      match this
      case Created(_) => 201
      case Reactivated(_) => 200
      case AlreadyConfigured => 409
    }
  }

  /** The row `DomainConfiguration.objects.create(...)` inserts for a new domain. */
  function NewConfiguration(req: ConfigureRequest, now: int): (c: DomainConfig)
    ensures c.domain == req.domain && c.accountId == req.accountId
    ensures c.isActive && !c.isVerified && c.sslStatus == SslPending
    ensures c.domainType == req.domainType.GetOr(Forms)
    ensures c.useCaddy == req.useCaddy.GetOr(true)
    ensures c.notes == req.notes.GetOr("")
    ensures c.configuredAt == now && c.updatedAt == now
    ensures c.sslIssuedAt.None? && c.sslExpiresAt.None?
  {
    DomainConfig(req.domain, req.accountId, req.domainType.GetOr(Forms), false, true, SslPending,
                 now, now, None, None, req.useCaddy.GetOr(true), req.notes.GetOr(""))
  }

  /** Re-configuring an inactive row: it is active again, pending, and owned as the request says. */
  function ReactivatedConfig(c: DomainConfig, req: ConfigureRequest, now: int): (r: DomainConfig)
    ensures ChangedOnly(c, r, {IsActive, AccountId, DomainTypeField, UseCaddy, Notes, SslStatus, UpdatedAt})
    ensures r.isActive && r.sslStatus == SslPending && r.accountId == req.accountId
    ensures r.domainType == req.domainType.GetOr(Forms)
    ensures r.useCaddy == req.useCaddy.GetOr(true)
    ensures r.notes == req.notes.GetOr("")
    ensures r.updatedAt == now
  {
    c.(isActive := true, accountId := req.accountId, domainType := req.domainType.GetOr(Forms),
       useCaddy := req.useCaddy.GetOr(true), notes := req.notes.GetOr(""), sslStatus := SslPending,
       updatedAt := now)
  }

  /**
   * `configure_domain`: an unknown domain is inserted (201), an inactive one reactivated (200),
   * an active one refused with 409 and left alone. The domain is matched exactly as given.
   */
  method ConfigureDomain(table: DomainTable, req: ConfigureRequest, now: int) returns (outcome: ConfigureOutcome)
    requires table.Valid()
    modifies table
    ensures table.Valid()
    ensures match FindDomain(old(table.rows), req.domain)
      case None =>
        outcome == Created(NewConfiguration(req, now)) && table.rows == old(table.rows) + [NewConfiguration(req, now)]
      case Some(i) =>
        if old(table.rows)[i].isActive then
          outcome == AlreadyConfigured && table.rows == old(table.rows)
        else
          var r := ReactivatedConfig(old(table.rows)[i], req, now);
          outcome == Reactivated(r) && table.rows == old(table.rows)[i := r]
  {
    var existing := FindDomain(table.rows, req.domain);
    if existing.Some? {
      var i := existing.value;
      if table.rows[i].isActive {
        return AlreadyConfigured;
      }
      var r := ReactivatedConfig(table.rows[i], req, now);
      SameDomainKeepsUnique(table.rows, i, r);
      table.rows := table.rows[i := r];
      return Reactivated(r);
    }
    var c := NewConfiguration(req, now);
    table.rows := table.rows + [c];
    outcome := Created(c);
  }

  datatype StatusOutcome = Status(config: DomainConfig) | StatusNotFound(domain: string) {
    function HttpStatus(): int {
      if Status? then 200 else 404
    }
  }

  /** `get_domain_status`: the row of the lower-cased domain, or 404. */
  function GetDomainStatus(rows: seq<DomainConfig>, domain: string): (r: StatusOutcome)
    ensures r.Status? <==> exists i :: 0 <= i < |rows| && rows[i].domain == Lower(domain)
    ensures r.Status? ==> r.config in rows && r.config.domain == Lower(domain)
    ensures r.StatusNotFound? ==> r.domain == domain
  {
    match FindDomain(rows, Lower(domain))
    case None => StatusNotFound(domain)
    case Some(i) => Status(rows[i])
  }

  /** `value.lower() == 'true'` for a query parameter that defaults to `'false'`. */
  function FlagSet(param: Option<string>): (flag: bool)
    ensures flag <==> param.Some? && EqualIgnoringCase(param.value, "true")
  {
    LowerEqualIffEqualIgnoringCase(param.GetOr("false"), "true");
    LowerKeepsLowercase("true");
    Lower(param.GetOr("false")) == "true"
  }

  datatype RemoveOutcome = Deleted | Deactivated | RemoveNotFound(domain: string) {
    function HttpStatus(): int {
      if RemoveNotFound? then 404 else 200
    }
  }

  /** The soft delete: only `is_active` (and `updated_at`) change. */
  function DeactivatedConfig(c: DomainConfig, now: int): (r: DomainConfig)
    ensures ChangedOnly(c, r, {IsActive, UpdatedAt})
    ensures !r.isActive && r.updatedAt == now
  {
    c.(isActive := false, updatedAt := now)
  }

  /** Deleting a row keeps the remaining domains unique. */
  lemma DeleteKeepsUnique(rows: seq<DomainConfig>, i: nat)
    requires DomainsUnique(rows) && i < |rows|
    ensures DomainsUnique(rows[..i] + rows[i + 1..])
  {
    var r := rows[..i] + rows[i + 1..];
    forall a, b | 0 <= a < b < |r|
      ensures r[a].domain != r[b].domain
    {
      var a' := if a < i then a else a + 1;
      var b' := if b < i then b else b + 1;
      assert r[a] == rows[a'] && r[b] == rows[b'];
    }
  }

  /**
   * `remove_domain`: with `hard_delete` equal to "true" in any case the row is deleted,
   * otherwise it is only deactivated; an unknown (lower-cased) domain is a 404 with no change.
   */
  method RemoveDomain(table: DomainTable, domain: string, hardDelete: Option<string>, now: int)
    returns (outcome: RemoveOutcome)
    requires table.Valid()
    modifies table
    ensures table.Valid()
    ensures match FindDomain(old(table.rows), Lower(domain))
      case None =>
        outcome == RemoveNotFound(domain) && table.rows == old(table.rows)
      case Some(i) =>
        if FlagSet(hardDelete) then
          outcome == Deleted && table.rows == old(table.rows)[..i] + old(table.rows)[i + 1..]
        else
          outcome == Deactivated && table.rows == old(table.rows)[i := DeactivatedConfig(old(table.rows)[i], now)]
  {
    var found := FindDomain(table.rows, Lower(domain));
    if found.None? {
      return RemoveNotFound(domain);
    }
    var i := found.value;
    if FlagSet(hardDelete) {
      DeleteKeepsUnique(table.rows, i);
      table.rows := table.rows[..i] + table.rows[i + 1..];
      outcome := Deleted;
    } else {
      var r := DeactivatedConfig(table.rows[i], now);
      SameDomainKeepsUnique(table.rows, i, r);
      table.rows := table.rows[i := r];
      outcome := Deactivated;
    }
  }

  /** The rows `list_account_domains` keeps. */
  predicate Listed(c: DomainConfig, accountId: int, activeOnly: bool) {
    c.accountId == accountId && (!activeOnly || c.isActive)
  }

  /** `filter(account_id=...)`, then `filter(is_active=True)` when asked. */
  function Select(rows: seq<DomainConfig>, accountId: int, activeOnly: bool): (r: seq<DomainConfig>)
    ensures forall c :: multiset(r)[c] == if Listed(c, accountId, activeOnly) then multiset(rows)[c] else 0
  {
    if rows == [] then []
    else
      assert rows == [rows[0]] + rows[1..];
      (if Listed(rows[0], accountId, activeOnly) then [rows[0]] else []) + Select(rows[1..], accountId, activeOnly)
  }

  /** `order_by('-configured_at')`: newest first. */
  predicate NewestFirst(s: seq<DomainConfig>) {
    forall i, j :: 0 <= i < j < |s| ==> s[i].configuredAt >= s[j].configuredAt
  }

  function InsertNewestFirst(c: DomainConfig, s: seq<DomainConfig>): (r: seq<DomainConfig>)
    requires NewestFirst(s)
    ensures NewestFirst(r)
    ensures multiset(r) == multiset(s) + multiset{c}
    ensures forall x :: x in r ==> x == c || x in s
  {
    if s == [] then [c]
    else if c.configuredAt >= s[0].configuredAt then
      assert NewestFirst([c] + s) by {
        HeadIsNewest(s);
        NewestFirstCons(c, s);
      }
      [c] + s
    else
      TailNewestFirst(s);
      var rest := InsertNewestFirst(c, s[1..]);
      assert NewestFirst([s[0]] + rest) by {
        HeadIsNewest(s);
        assert forall x :: x in s[1..] ==> x in s;
        NewestFirstCons(s[0], rest);
      }
      assert multiset([s[0]] + rest) == multiset(s) + multiset{c} by {
        assert s == [s[0]] + s[1..];
      }
      [s[0]] + rest
  }

  lemma TailNewestFirst(s: seq<DomainConfig>)
    requires NewestFirst(s) && s != []
    ensures NewestFirst(s[1..])
  {
    forall i, j | 0 <= i < j < |s| - 1
      ensures s[1..][i].configuredAt >= s[1..][j].configuredAt
    {
      assert s[1..][i] == s[i + 1] && s[1..][j] == s[j + 1];
    }
  }

  /** The head of a newest-first sequence is no older than any of its elements. */
  lemma HeadIsNewest(s: seq<DomainConfig>)
    requires NewestFirst(s) && s != []
    ensures forall x :: x in s ==> x.configuredAt <= s[0].configuredAt
  {
    forall x | x in s
      ensures x.configuredAt <= s[0].configuredAt
    {
      var k :| 0 <= k < |s| && s[k] == x;
      if k > 0 {
        assert s[0].configuredAt >= s[k].configuredAt;
      }
    }
  }

  /** A newest-first sequence stays so behind an element no older than any of it. */
  lemma NewestFirstCons(c: DomainConfig, s: seq<DomainConfig>)
    requires NewestFirst(s)
    requires forall x :: x in s ==> x.configuredAt <= c.configuredAt
    ensures NewestFirst([c] + s)
  {
    var r := [c] + s;
    forall i, j | 0 <= i < j < |r|
      ensures r[i].configuredAt >= r[j].configuredAt
    {
      assert r[j] == s[j - 1];
      if i > 0 {
        assert r[i] == s[i - 1];
      }
    }
  }

  function SortNewestFirst(s: seq<DomainConfig>): (r: seq<DomainConfig>)
    ensures NewestFirst(r)
    ensures multiset(r) == multiset(s)
  {
    if s == [] then []
    else
      assert s == [s[0]] + s[1..];
      InsertNewestFirst(s[0], SortNewestFirst(s[1..]))
  }

  datatype AccountDomains = AccountDomains(accountId: int, count: nat, domains: seq<DomainConfig>)

  /**
   * `list_account_domains`: the rows of the account (only the active ones when `active_only`
   * is "true" in any case), newest first, each as often as it is in the table, and their count.
   */
  function ListAccountDomains(rows: seq<DomainConfig>, accountId: int, activeOnly: Option<string>): (r: AccountDomains)
    ensures r.accountId == accountId && r.count == |r.domains|
    ensures NewestFirst(r.domains)
    ensures forall c :: multiset(r.domains)[c] == if Listed(c, accountId, FlagSet(activeOnly)) then multiset(rows)[c] else 0
  {
    var listed := SortNewestFirst(Select(rows, accountId, FlagSet(activeOnly)));
    AccountDomains(accountId, |listed|, listed)
  }

  /** The body of an SSL status report; each field may be absent, null or empty. */
  datatype SslReport = SslReport(sslStatus: Option<string>, sslIssuedAt: Option<string>, sslExpiresAt: Option<string>)

  /**
   * The row after a status report: each non-empty field is written (a date through `parse`,
   * whose `None` is the `None` that `parse_datetime` returns on a malformed string), and
   * "active" marks the domain verified. Verification is never withdrawn.
   */
  function SslUpdatedConfig(c: DomainConfig, report: SslReport, parse: string -> Option<int>, now: int): (r: DomainConfig)
    ensures ChangedOnly(c, r, {SslStatus, SslIssuedAt, SslExpiresAt, IsVerified, UpdatedAt})
    ensures r.sslStatus == if Truthy(report.sslStatus) then report.sslStatus.value else c.sslStatus
    ensures r.sslIssuedAt == if Truthy(report.sslIssuedAt) then parse(report.sslIssuedAt.value) else c.sslIssuedAt
    ensures r.sslExpiresAt == if Truthy(report.sslExpiresAt) then parse(report.sslExpiresAt.value) else c.sslExpiresAt
    ensures r.isVerified <==> c.isVerified || report.sslStatus == Some(SslActive)
    ensures r.updatedAt == now
  {
    var status := if Truthy(report.sslStatus) then report.sslStatus.value else c.sslStatus;
    var issued := if Truthy(report.sslIssuedAt) then parse(report.sslIssuedAt.value) else c.sslIssuedAt;
    var expires := if Truthy(report.sslExpiresAt) then parse(report.sslExpiresAt.value) else c.sslExpiresAt;
    var verified := if report.sslStatus == Some(SslActive) then true else c.isVerified;
    c.(sslStatus := status, sslIssuedAt := issued, sslExpiresAt := expires, isVerified := verified, updatedAt := now)
  }

  /** The field-by-field assignments of `update_domain_ssl_status`, then the save's `updated_at`. */
  method ApplySslReport(config: DomainConfig, report: SslReport, parse: string -> Option<int>, now: int)
    returns (c: DomainConfig)
    ensures c == SslUpdatedConfig(config, report, parse, now)
  {
    c := config;
    if Truthy(report.sslStatus) {
      c := c.(sslStatus := report.sslStatus.value);
    }
    if Truthy(report.sslIssuedAt) {
      c := c.(sslIssuedAt := parse(report.sslIssuedAt.value));
    }
    if Truthy(report.sslExpiresAt) {
      c := c.(sslExpiresAt := parse(report.sslExpiresAt.value));
    }
    if report.sslStatus == Some(SslActive) {
      c := c.(isVerified := true);
    }
    c := c.(updatedAt := now);
  }

  datatype SslOutcome = SslUpdated(config: DomainConfig) | SslNotFound(domain: string) {
    function HttpStatus(): int {
      if SslUpdated? then 200 else 404
    }
  }

  /** `update_domain_ssl_status` on the row of the lower-cased domain; 404 and no change when there is none. */
  method UpdateDomainSslStatus(table: DomainTable, domain: string, report: SslReport,
                               parse: string -> Option<int>, now: int) returns (outcome: SslOutcome)
    requires table.Valid()
    modifies table
    ensures table.Valid()
    ensures match FindDomain(old(table.rows), Lower(domain))
      case None =>
        outcome == SslNotFound(domain) && table.rows == old(table.rows)
      case Some(i) =>
        var r := SslUpdatedConfig(old(table.rows)[i], report, parse, now);
        outcome == SslUpdated(r) && table.rows == old(table.rows)[i := r]
  {
    var found := FindDomain(table.rows, Lower(domain));
    if found.None? {
      return SslNotFound(domain);
    }
    var i := found.value;
    var c := ApplySslReport(table.rows[i], report, parse, now);
    SameDomainKeepsUnique(table.rows, i, c);
    table.rows := table.rows[i := c];
    outcome := SslUpdated(c);
  }
}
