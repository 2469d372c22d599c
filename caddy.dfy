/**
 * `caddy_validate_domain` (config/urls.py): the reverse proxy asks, before issuing a
 * certificate on demand, whether a host name belongs to a configured, active domain.
 * The decision reads the domain table and changes nothing.
 */
module Caddy {
  import opened Wrappers
  import opened Text
  import opened Domains
  import opened InternalApi

  datatype CaddyResponse = DomainRequired | Allow(domain: string, accountId: int) | Deny(domain: string) {
    function HttpStatus(): int {
      match this
      case DomainRequired => 400
      case Allow(_, _) => 200
      case Deny(_) => 403
    }
  }

  /** `DomainConfiguration.objects.get(domain=domain, is_active=True)`, as a row index. */
  function FindActive(rows: seq<DomainConfig>, domain: string): (r: Option<nat>)
    ensures r.Some? ==> r.value < |rows| && rows[r.value].domain == domain && rows[r.value].isActive
    ensures r.None? <==> forall i :: 0 <= i < |rows| ==> !(rows[i].domain == domain && rows[i].isActive)
  {
    if rows == [] then None
    else if rows[0].domain == domain && rows[0].isActive then Some(0)
    else match FindActive(rows[1..], domain)
      case None => None
      case Some(i) => Some(i + 1)
  }

  /**
   * `caddy_validate_domain` for the query parameter `domain` (absent is the empty string):
   * 400 for an empty name, 200 with the owner for an active configured domain, else 403.
   */
  function ValidateDomain(rows: seq<DomainConfig>, query: Option<string>): (r: CaddyResponse)
    ensures r == DomainRequired <==> !Truthy(query)
    ensures r.Allow? <==> Truthy(query) && exists i :: 0 <= i < |rows| && rows[i].domain == Lower(query.value) && rows[i].isActive
    ensures r.Allow? ==> r.domain == Lower(query.value) && IsLowercase(r.domain)
                         && exists i :: 0 <= i < |rows| && rows[i].domain == r.domain && rows[i].isActive
                                        && rows[i].accountId == r.accountId
    ensures r.Deny? ==> r.domain == Lower(query.value)
  {
    var domain := Lower(query.GetOr(""));
    LowerEmpty(query.GetOr(""));
    if domain == "" then DomainRequired
    else match FindActive(rows, domain)
      case None => Deny(domain)
      case Some(i) => Allow(domain, rows[i].accountId)
  }

  /** Two tables that agree, row by row, on domain, activity and owner. */
  predicate SameGateColumns(rows: seq<DomainConfig>, rows': seq<DomainConfig>) {
    |rows| == |rows'|
    && forall i :: 0 <= i < |rows| ==>
         rows[i].domain == rows'[i].domain && rows[i].isActive == rows'[i].isActive && rows[i].accountId == rows'[i].accountId
  }

  lemma {:induction false} FindActiveOnGateColumns(rows: seq<DomainConfig>, rows': seq<DomainConfig>, domain: string)
    requires SameGateColumns(rows, rows')
    ensures FindActive(rows, domain) == FindActive(rows', domain)
  {
    if rows != [] {
      assert SameGateColumns(rows[1..], rows'[1..]);
      FindActiveOnGateColumns(rows[1..], rows'[1..], domain);
    }
  }

  /** Verification, SSL status and dates, type, notes and timestamps play no part in the decision. */
  lemma DecisionIgnoresVerificationAndSsl(rows: seq<DomainConfig>, rows': seq<DomainConfig>, query: Option<string>)
    requires SameGateColumns(rows, rows')
    ensures ValidateDomain(rows, query) == ValidateDomain(rows', query)
  {
    FindActiveOnGateColumns(rows, rows', Lower(query.GetOr("")));
  }

  /** An SSL status report never changes what the proxy is told. */
  lemma SslReportKeepsDecision(rows: seq<DomainConfig>, i: nat, report: SslReport,
                               parse: string -> Option<int>, now: int, query: Option<string>)
    requires i < |rows|
    ensures ValidateDomain(rows[i := SslUpdatedConfig(rows[i], report, parse, now)], query) == ValidateDomain(rows, query)
  {
    var c := rows[i];
    var c' := SslUpdatedConfig(c, report, parse, now);
    assert Agree(c, c', Domain) && Agree(c, c', IsActive) && Agree(c, c', AccountId);
    DecisionIgnoresVerificationAndSsl(rows[i := c'], rows, query);
  }

  /** Neither does `mark_ssl_active` or `mark_ssl_failed`. */
  lemma SslMarksKeepDecision(rows: seq<DomainConfig>, i: nat, now: int, query: Option<string>)
    requires i < |rows|
    ensures ValidateDomain(rows[i := MarkedSslActive(rows[i], now)], query) == ValidateDomain(rows, query)
    ensures ValidateDomain(rows[i := MarkedSslFailed(rows[i], now)], query) == ValidateDomain(rows, query)
  {
    var c := rows[i];
    var a, f := MarkedSslActive(c, now), MarkedSslFailed(c, now);
    assert Agree(c, a, Domain) && Agree(c, a, IsActive) && Agree(c, a, AccountId);
    assert Agree(c, f, Domain) && Agree(c, f, IsActive) && Agree(c, f, AccountId);
    DecisionIgnoresVerificationAndSsl(rows[i := a], rows, query);
    DecisionIgnoresVerificationAndSsl(rows[i := f], rows, query);
  }

  /** A newly configured (lower-case) domain is allowed at once, for the account that configured it. */
  lemma ConfiguredDomainIsAllowed(rows: seq<DomainConfig>, req: ConfigureRequest, now: int)
    requires FindDomain(rows, req.domain).None?
    requires req.domain != "" && IsLowercase(req.domain)
    ensures ValidateDomain(rows + [NewConfiguration(req, now)], Some(req.domain)) == Allow(req.domain, req.accountId)
  {
    var rows' := rows + [NewConfiguration(req, now)];
    LowerKeepsLowercase(req.domain);
    assert rows'[|rows|].domain == req.domain && rows'[|rows|].isActive;
    var k := FindActive(rows', req.domain).value;
    assert k == |rows|;
  }

  /** So is a reactivated one, for its new owner. */
  lemma ReactivatedDomainIsAllowed(rows: seq<DomainConfig>, i: nat, req: ConfigureRequest, now: int)
    requires DomainsUnique(rows)
    requires i < |rows| && rows[i].domain == req.domain
    requires req.domain != "" && IsLowercase(req.domain)
    ensures ValidateDomain(rows[i := ReactivatedConfig(rows[i], req, now)], Some(req.domain)) == Allow(req.domain, req.accountId)
  {
    var c := ReactivatedConfig(rows[i], req, now);
    assert Agree(rows[i], c, Domain);
    var rows' := rows[i := c];
    LowerKeepsLowercase(req.domain);
    assert rows'[i].domain == req.domain && rows'[i].isActive;
    var k := FindActive(rows', req.domain).value;
    assert rows'[k].domain == rows'[i].domain;
  }

  /** After a soft or a hard removal the domain is denied. */
  lemma RemovedDomainIsDenied(rows: seq<DomainConfig>, i: nat, now: int)
    requires DomainsUnique(rows)
    requires i < |rows| && rows[i].domain != "" && IsLowercase(rows[i].domain)
    ensures ValidateDomain(rows[i := DeactivatedConfig(rows[i], now)], Some(rows[i].domain)) == Deny(rows[i].domain)
    ensures ValidateDomain(rows[..i] + rows[i + 1..], Some(rows[i].domain)) == Deny(rows[i].domain)
  {
    var d := rows[i].domain;
    var c := DeactivatedConfig(rows[i], now);
    assert Agree(rows[i], c, Domain);
    LowerKeepsLowercase(d);
    var soft := rows[i := c];
    assert forall j :: 0 <= j < |soft| && soft[j].domain == d ==> !soft[j].isActive;
    var hard := rows[..i] + rows[i + 1..];
    forall j | 0 <= j < |hard|
      ensures hard[j].domain != d
    {
      var j' := if j < i then j else j + 1;
      assert hard[j] == rows[j'];
    }
  }
}
