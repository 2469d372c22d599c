/**
 * Two end-to-end flows, checked from the contracts alone: onboarding a customer domain,
 * and the life of one short URL with an explicit code.
 */
module Scenarios {
  import opened Wrappers
  import opened Text
  import opened ShortCodes
  import opened ShortUrls
  import opened Domains
  import opened InternalApi
  import opened Serializers
  import opened Caddy

  /** configure(pay.co, 42), then an "active" SSL report, then the proxy's allow check. */
  method DomainOnboarding(parse: string -> Option<int>)
  {
    var table := new DomainTable();
    var name := "pay.co";
    var configured := ConfigureDomain(table, ConfigureRequest(name, 42, None, None, None), 100);
    assert configured.Created? && configured.HttpStatus() == 201;
    assert configured.config.sslStatus == SslPending && !configured.config.isVerified;

    assert IsLowercase(name);
    LowerKeepsLowercase(name);
    var reported := UpdateDomainSslStatus(table, name, SslReport(Some(SslActive), None, None), parse, 200);
    assert reported.SslUpdated? && reported.config.isVerified && reported.config.sslStatus == SslActive;

    var decision := ValidateDomain(table.rows, Some(name));
    assert decision == Allow(name, 42) && decision.HttpStatus() == 200;

    var again := ConfigureDomain(table, ConfigureRequest(name, 7, None, None, None), 300);
    assert again == AlreadyConfigured && again.HttpStatus() == 409;
  }

  /** Create go.example/promo1, count a click, and fail to create the same pair again. */
  method ShortUrlLifecycle(stream: RandomStream)
  {
    var table := new ShortUrlTable();
    var data := CreateRequest("https://example.com/page", Absent, None, Some("go.example"), Some("promo1"));
    var first := Create(table, data, null, stream, 10);
    assert first.Saved?;
    assert first.row.domain == Some("go.example") && first.row.shortCode == Some("promo1") && first.row.clicks == 0;

    table.IncrementClicks(first.id);
    assert table.rows[first.id].clicks == 1;

    var second := Create(table, data, null, stream, 11);
    assert CodeTaken(table.rows, Some("go.example"), "promo1");
    assert second.IntegrityError?;
  }
}
