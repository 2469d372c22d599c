/**
 * The `DomainConfiguration` model (url_shortener/models.py): one row per configured
 * domain, the `domain_configurations` table that keeps domain names unique, and the two
 * SSL transitions `mark_ssl_active` and `mark_ssl_failed`.
 */
module Domains {
  import opened Wrappers

  datatype DomainType = Forms | Payment | Other

  /** The choices of `ssl_status`. The field itself is a string: the status report endpoint stores any non-empty string. */
  const SslPending: string := "pending"
  const SslActive: string := "active"
  const SslFailed: string := "failed"
  const SslExpired: string := "expired"

  datatype DomainConfig = DomainConfig(
    domain: string,
    accountId: int,
    domainType: DomainType,
    isVerified: bool,
    isActive: bool,
    sslStatus: string,
    configuredAt: int,
    updatedAt: int,
    sslIssuedAt: Option<int>,
    sslExpiresAt: Option<int>,
    useCaddy: bool,
    notes: string)

  /** The columns of the table, to say which of them an operation writes. */
  datatype Field =
    | Domain | AccountId | DomainTypeField | IsVerified | IsActive | SslStatus
    | ConfiguredAt | UpdatedAt | SslIssuedAt | SslExpiresAt | UseCaddy | Notes

  /** Rows `a` and `b` hold the same value in column `f`. */
  predicate Agree(a: DomainConfig, b: DomainConfig, f: Field) {
    match f
    case Domain => a.domain == b.domain
    case AccountId => a.accountId == b.accountId
    case DomainTypeField => a.domainType == b.domainType
    case IsVerified => a.isVerified == b.isVerified
    case IsActive => a.isActive == b.isActive
    case SslStatus => a.sslStatus == b.sslStatus
    case ConfiguredAt => a.configuredAt == b.configuredAt
    case UpdatedAt => a.updatedAt == b.updatedAt
    case SslIssuedAt => a.sslIssuedAt == b.sslIssuedAt
    case SslExpiresAt => a.sslExpiresAt == b.sslExpiresAt
    case UseCaddy => a.useCaddy == b.useCaddy
    case Notes => a.notes == b.notes
  }

  /** `b` differs from `a` at most in the columns `fields`. */
  predicate ChangedOnly(a: DomainConfig, b: DomainConfig, fields: set<Field>) {
    forall f: Field :: f !in fields ==> Agree(a, b, f)
  }

  /** `mark_ssl_active()`: status "active", verified, issued now; `save(update_fields=...)` writes nothing else. */
  function MarkedSslActive(c: DomainConfig, now: int): (r: DomainConfig)
    ensures ChangedOnly(c, r, {SslStatus, SslIssuedAt, IsVerified, UpdatedAt})
    ensures r.sslStatus == SslActive && r.isVerified && r.sslIssuedAt == Some(now) && r.updatedAt == now
  {
    c.(sslStatus := SslActive, sslIssuedAt := Some(now), isVerified := true, updatedAt := now)
  }

  /** `mark_ssl_failed()`: only the status (and `updated_at`) change; verification and dates stay. */
  function MarkedSslFailed(c: DomainConfig, now: int): (r: DomainConfig)
    ensures ChangedOnly(c, r, {SslStatus, UpdatedAt})
    ensures r.sslStatus == SslFailed && r.updatedAt == now
  {
    c.(sslStatus := SslFailed, updatedAt := now)
  }

  /** `unique=True` on `domain`. */
  predicate DomainsUnique(rows: seq<DomainConfig>) {
    forall i, j :: 0 <= i < j < |rows| ==> rows[i].domain != rows[j].domain
  }

  /** `DomainConfiguration.objects.filter(domain=domain).first()`, as a row index. */
  function FindDomain(rows: seq<DomainConfig>, domain: string): (r: Option<nat>)
    ensures r.Some? ==> r.value < |rows| && rows[r.value].domain == domain
    ensures r.None? <==> forall i :: 0 <= i < |rows| ==> rows[i].domain != domain
  {
    if rows == [] then None
    else if rows[0].domain == domain then Some(0)
    else match FindDomain(rows[1..], domain)
      case None => None
      case Some(i) => Some(i + 1)
  }

  /** With unique domains, the row found is the only row of that domain. */
  lemma FoundIsOnly(rows: seq<DomainConfig>, domain: string, i: nat)
    requires DomainsUnique(rows)
    requires i < |rows| && rows[i].domain == domain
    ensures FindDomain(rows, domain) == Some(i)
  {
    var k := FindDomain(rows, domain).value;
    assert rows[k].domain == rows[i].domain;
  }

  /** Replacing a row by one with the same domain keeps the domains unique. */
  lemma SameDomainKeepsUnique(rows: seq<DomainConfig>, i: nat, c: DomainConfig)
    requires DomainsUnique(rows) && i < |rows| && c.domain == rows[i].domain
    ensures DomainsUnique(rows[i := c])
  {
  }

  /** The `domain_configurations` table. */
  class DomainTable {
    var rows: seq<DomainConfig>

    ghost predicate Valid()
      reads this
    {
      DomainsUnique(rows)
    }

    constructor ()
      ensures Valid() && rows == []
    {
      rows := [];
    }

    /**
     * `mark_ssl_active()` on the row of `domain`. The save with `update_fields` fails
     * (`saved` false, nothing written) when the row is no longer in the table.
     */
    method MarkSslActive(domain: string, now: int) returns (saved: bool)
      requires Valid()
      modifies this
      ensures Valid()
      ensures saved <==> FindDomain(old(rows), domain).Some?
      ensures saved ==> var i := FindDomain(old(rows), domain).value;
                        rows == old(rows)[i := MarkedSslActive(old(rows)[i], now)]
      ensures !saved ==> rows == old(rows)
    {
      var found := FindDomain(rows, domain);
      saved := found.Some?;
      if saved {
        var i := found.value;
        rows := rows[i := MarkedSslActive(rows[i], now)];
      }
    }

    /** `mark_ssl_failed()` on the row of `domain`, failing like `MarkSslActive` when the row is gone. */
    method MarkSslFailed(domain: string, now: int) returns (saved: bool)
      requires Valid()
      modifies this
      ensures Valid()
      ensures saved <==> FindDomain(old(rows), domain).Some?
      ensures saved ==> var i := FindDomain(old(rows), domain).value;
                        rows == old(rows)[i := MarkedSslFailed(old(rows)[i], now)]
      ensures !saved ==> rows == old(rows)
    {
      var found := FindDomain(rows, domain);
      saved := found.Some?;
      if saved {
        var i := found.value;
        rows := rows[i := MarkedSslFailed(rows[i], now)];
      }
    }
  }
}
