/**
 * The `ShortURL` model (url_shortener/models.py): the `short_urls` table, the
 * short-code allocation done by `save()`, the click counter, expiry and the
 * public URL of a row.
 *
 * Uniqueness of (domain, short_code) is the database constraint as SQL enforces
 * it: NULL never equals NULL, so a row without a domain clashes with no other row.
 * The allocator's pre-check, by contrast, filters with `domain=None`, which Django
 * turns into `IS NULL`, so it does see rows without a domain.
 */
module ShortUrls {
  import opened Wrappers
  import opened Text
  import opened ShortCodes

  type Id = nat

  /** `expires_at` as stored: a datetime, or a string that the date parser may or may not accept. */
  datatype Expiry = Moment(at: int) | Unparsed(text: string)

  datatype ShortUrl = ShortUrl(
    shortCode: Option<string>,
    originalUrl: string,
    domain: Option<string>,
    title: string,
    clicks: int,
    createdAt: int,
    updatedAt: int,
    expiresAt: Option<Expiry>,
    isActive: bool)

  /** A row as a new `ShortURL(...)` starts out: the field defaults of the model. */
  function NewShortUrl(originalUrl: string, domain: Option<string>, shortCode: Option<string>,
                       title: Option<string>, expiresAt: Option<int>): (u: ShortUrl)
    ensures u.clicks == 0 && u.isActive
    ensures u.title == title.GetOr("")
    ensures u.originalUrl == originalUrl && u.domain == domain && u.shortCode == shortCode
    ensures u.expiresAt == if expiresAt.Some? then Some(Moment(expiresAt.value)) else None
  {
    ShortUrl(shortCode, originalUrl, domain, title.GetOr(""), 0, 0, 0,
             if expiresAt.Some? then Some(Moment(expiresAt.value)) else None, true)
  }

  const MaxAttempts: nat := 10
  const ShortLength: nat := DefaultLength
  const LongLength: nat := 8

  /** `if not self.short_code` is false: the row carries a non-empty code. */
  predicate HasCode(u: ShortUrl) {
    Truthy(u.shortCode)
  }

  /** `ShortURL.objects.filter(short_code=code, domain=domain).exists()` */
  function CodeTaken(rows: map<Id, ShortUrl>, domain: Option<string>, code: string): (taken: bool)
    ensures taken <==> code in CodesIn(rows, domain)
  {
    exists id :: id in rows && rows[id].domain == domain && rows[id].shortCode == Some(code)
  }

  /** The codes the rows whose domain is `domain` carry. */
  function CodesIn(rows: map<Id, ShortUrl>, domain: Option<string>): set<string> {
    set id | id in rows && rows[id].domain == domain && rows[id].shortCode.Some? :: rows[id].shortCode.value
  }

  /** Two rows violate `short_urls_domain_short_code_unique` (NULLs are distinct in SQL). */
  predicate Clash(a: ShortUrl, b: ShortUrl) {
    a.domain.Some? && a.shortCode.Some? && a.domain == b.domain && a.shortCode == b.shortCode
  }

  predicate UniquePairs(rows: map<Id, ShortUrl>) {
    forall i, j :: i in rows && j in rows && i != j ==> !Clash(rows[i], rows[j])
  }

  /** Writing `u` at `id` would violate the constraint against some other row. */
  predicate ConflictsAt(rows: map<Id, ShortUrl>, id: Id, u: ShortUrl) {
    exists j :: j in rows && j != id && Clash(u, rows[j])
  }

  /** The code of the `attempt`-th pass of the loop. */
  function Candidate(stream: RandomStream, attempt: nat): string {
    GenerateShortCode(ShortLength, stream, attempt * ShortLength)
  }

  /** The code of the `else` branch, drawn after the ten loop passes. */
  function LongCandidate(stream: RandomStream): string {
    GenerateShortCode(LongLength, stream, MaxAttempts * ShortLength)
  }

  /** The allocation loop from pass `attempt` on. */
  function AllocateFrom(rows: map<Id, ShortUrl>, domain: Option<string>, stream: RandomStream, attempt: nat): (code: string)
    requires attempt <= MaxAttempts
    ensures || (|code| == ShortLength && !CodeTaken(rows, domain, code))
            || (code == LongCandidate(stream) && AllTaken(rows, domain, stream, attempt, MaxAttempts))
    decreases MaxAttempts - attempt
  {
    if attempt == MaxAttempts then LongCandidate(stream)
    else if !CodeTaken(rows, domain, Candidate(stream, attempt)) then Candidate(stream, attempt)
    else AllocateFrom(rows, domain, stream, attempt + 1)
  }

  /** The code `save()` assigns to a row that has none. */
  function AllocatedCode(rows: map<Id, ShortUrl>, domain: Option<string>, stream: RandomStream): (code: string)
    ensures || (|code| == ShortLength && !CodeTaken(rows, domain, code))
            || (code == LongCandidate(stream) && AllTaken(rows, domain, stream, 0, MaxAttempts))
  {
    AllocateFrom(rows, domain, stream, 0)
  }

  /** Every candidate of the passes `lo` to `hi - 1` is already used in the domain. */
  predicate AllTaken(rows: map<Id, ShortUrl>, domain: Option<string>, stream: RandomStream, lo: nat, hi: nat) {
    forall j :: lo <= j < hi ==> CodeTaken(rows, domain, Candidate(stream, j))
  }

  /** Pass `k` is the first pass from `lo` on whose candidate is free. */
  predicate FirstFreeFrom(rows: map<Id, ShortUrl>, domain: Option<string>, stream: RandomStream, lo: nat, k: nat) {
    && lo <= k < MaxAttempts
    && !CodeTaken(rows, domain, Candidate(stream, k))
    && AllTaken(rows, domain, stream, lo, k)
  }

  /** What the loop yields from pass `attempt` on: the first free short candidate, or the long one after all collided. */
  lemma {:induction false} AllocateFromOutcome(rows: map<Id, ShortUrl>, domain: Option<string>, stream: RandomStream, attempt: nat)
    requires attempt <= MaxAttempts
    ensures var code := AllocateFrom(rows, domain, stream, attempt);
      || (exists k :: FirstFreeFrom(rows, domain, stream, attempt, k) && code == Candidate(stream, k))
      || (code == LongCandidate(stream) && AllTaken(rows, domain, stream, attempt, MaxAttempts))
    decreases MaxAttempts - attempt
  {
    var code := AllocateFrom(rows, domain, stream, attempt);
    if attempt == MaxAttempts {
      assert code == LongCandidate(stream);
    } else if !CodeTaken(rows, domain, Candidate(stream, attempt)) {
      assert FirstFreeFrom(rows, domain, stream, attempt, attempt);
    } else {
      AllocateFromOutcome(rows, domain, stream, attempt + 1);
      assert code == AllocateFrom(rows, domain, stream, attempt + 1);
      if k :| FirstFreeFrom(rows, domain, stream, attempt + 1, k) && code == Candidate(stream, k) {
        assert FirstFreeFrom(rows, domain, stream, attempt, k);
      } else {
        assert AllTaken(rows, domain, stream, attempt, MaxAttempts);
      }
    }
  }

  /**
   * The allocated code is a non-empty alphanumeric code of at most 10 characters; it is either
   * a 6-character code no row of the same domain uses, the first free one of the ten candidates,
   * or the 8-character fallback, which is drawn only when all ten candidates were taken.
   */
  lemma AllocationOutcome(rows: map<Id, ShortUrl>, domain: Option<string>, stream: RandomStream)
    ensures var code := AllocatedCode(rows, domain, stream);
      && code != "" && |code| <= 10 && AllAlphanumeric(code)
      && (|code| == ShortLength || |code| == LongLength)
      && (|code| == ShortLength ==>
            && !CodeTaken(rows, domain, code)
            && exists k :: FirstFreeFrom(rows, domain, stream, 0, k) && code == Candidate(stream, k))
      && (|code| == LongLength ==>
            && code == LongCandidate(stream)
            && AllTaken(rows, domain, stream, 0, MaxAttempts))
  {
    AllocateFromOutcome(rows, domain, stream, 0);
  }

  /**
   * The row `save()` writes: the code allocated when it had none, `updated_at` stamped, and
   * `created_at` stamped on an insert (`auto_now`, `auto_now_add`).
   */
  function Prepared(rows: map<Id, ShortUrl>, u: ShortUrl, stream: RandomStream, now: int, inserting: bool): (row: ShortUrl)
    ensures HasCode(u) ==> row.shortCode == u.shortCode
    ensures !HasCode(u) ==> row.shortCode == Some(AllocatedCode(rows, u.domain, stream))
    ensures HasCode(row)
    ensures row == u.(shortCode := row.shortCode, updatedAt := now, createdAt := row.createdAt)
    ensures row.createdAt == if inserting then now else u.createdAt
  {
    AllocationOutcome(rows, u.domain, stream);
    var code := if HasCode(u) then u.shortCode else Some(AllocatedCode(rows, u.domain, stream));
    u.(shortCode := code, updatedAt := now, createdAt := if inserting then now else u.createdAt)
  }

  /** A code freshly allocated with 6 characters cannot violate the constraint, wherever the row is written. */
  lemma FreshShortCodeNeverConflicts(rows: map<Id, ShortUrl>, id: Id, u: ShortUrl, stream: RandomStream, now: int, inserting: bool)
    requires !HasCode(u)
    requires |AllocatedCode(rows, u.domain, stream)| == ShortLength
    ensures !ConflictsAt(rows, id, Prepared(rows, u, stream, now, inserting))
  {
    AllocationOutcome(rows, u.domain, stream);
  }

  /**
   * For a row with a domain, written under a key no row has yet, the database constraint
   * fails exactly when the allocator's pre-check would report its code as taken.
   */
  lemma ConstraintMatchesPreCheck(rows: map<Id, ShortUrl>, id: Id, row: ShortUrl)
    requires id !in rows
    requires row.domain.Some? && row.shortCode.Some?
    ensures ConflictsAt(rows, id, row) <==> CodeTaken(rows, row.domain, row.shortCode.value)
  {
    if CodeTaken(rows, row.domain, row.shortCode.value) {
      var j :| j in rows && rows[j].domain == row.domain && rows[j].shortCode == row.shortCode;
      assert Clash(row, rows[j]);
    }
  }

  /** Writing a row that conflicts with no other row keeps every (domain, short_code) pair unique. */
  lemma WriteKeepsPairsUnique(rows: map<Id, ShortUrl>, id: Id, row: ShortUrl)
    requires UniquePairs(rows)
    requires !ConflictsAt(rows, id, row)
    ensures UniquePairs(rows[id := row])
  {
    var r := rows[id := row];
    forall i, j | i in r && j in r && i != j
      ensures !Clash(r[i], r[j])
    {
      if i == id {
        assert !Clash(row, rows[j]);
      } else if j == id {
        assert !Clash(row, rows[i]);
      }
    }
  }

  /** `is_expired()`; `None` stands for the exception the date parser raises on a malformed string. */
  function IsExpired(u: ShortUrl, now: int, parse: string -> Option<int>): (r: Option<bool>)
    ensures u.expiresAt.None? ==> r == Some(false)
    ensures r.None? <==> u.expiresAt.Some? && u.expiresAt.value.Unparsed? && u.expiresAt.value.text != ""
                         && parse(u.expiresAt.value.text).None?
    ensures r == Some(true) <==> exists t :: ExpiresAt(u, parse, t) && now > t
  {
    match u.expiresAt
    case None => Some(false)
    case Some(Moment(t)) =>
      assert ExpiresAt(u, parse, t);
      Some(now > t)
    case Some(Unparsed(s)) =>
      if s == "" then Some(false)
      else match parse(s)
        case None => None
        case Some(t) =>
          assert ExpiresAt(u, parse, t);
          Some(now > t)
  }

  /** The row expires at instant `t`: a datetime `t`, or a non-empty string that parses to `t`. */
  predicate ExpiresAt(u: ShortUrl, parse: string -> Option<int>, t: int) {
    match u.expiresAt
    case None => false
    case Some(Moment(at)) => at == t
    case Some(Unparsed(s)) => s != "" && parse(s) == Some(t)
  }

  /** Expiry is strict: at the expiry instant itself the row is still live, one second later it has expired. */
  lemma ExpiryBoundary(u: ShortUrl, parse: string -> Option<int>, t: int)
    requires ExpiresAt(u, parse, t)
    ensures IsExpired(u, t, parse) == Some(false)
    ensures IsExpired(u, t + 1, parse) == Some(true)
  {
  }

  /** Once expired, a row stays expired as the clock moves on. */
  lemma ExpiryIsPermanent(u: ShortUrl, parse: string -> Option<int>, now: int, later: int)
    requires now <= later
    requires IsExpired(u, now, parse) == Some(true)
    ensures IsExpired(u, later, parse) == Some(true)
  {
  }

  /** Python's `str()` of an optional string inside an f-string. */
  function PyStr(s: Option<string>): string {
    if s.Some? then s.value else "None"
  }

  /** `full_short_url`: `https://{domain}/{short_code}`. */
  function FullShortUrl(u: ShortUrl): (url: string)
    ensures StartsWith(url, "https://")
    ensures |url| == 9 + |PyStr(u.domain)| + |PyStr(u.shortCode)|
  {
    "https://" + PyStr(u.domain) + "/" + PyStr(u.shortCode)
  }

  /** Splits `https://host/path` into host and path; the inverse of `FullShortUrl`. */
  function SplitShortUrl(url: string): Option<(string, string)> {
    if !StartsWith(url, "https://") then None
    else
      var rest := url[8..];
      var host := BeforeFirst(rest, '/');
      if |host| < |rest| then Some((host, rest[|host| + 1..])) else None
  }

  /** The public URL names the row's domain and code: both come back out of it. */
  lemma FullShortUrlRoundTrip(u: ShortUrl)
    requires '/' !in PyStr(u.domain)
    ensures SplitShortUrl(FullShortUrl(u)) == Some((PyStr(u.domain), PyStr(u.shortCode)))
  {
    var d, c := PyStr(u.domain), PyStr(u.shortCode);
    var url := FullShortUrl(u);
    assert url[8..] == d + ['/'] + c;
    BeforeFirstOfJoin(d, '/', c);
    assert url[8..][|d| + 1..] == c;
  }

  /** The table after `increment_clicks()` on row `id`: an update that matches no row changes nothing. */
  function Clicked(rows: map<Id, ShortUrl>, id: Id): (r: map<Id, ShortUrl>)
    ensures r.Keys == rows.Keys
    ensures forall j :: j in rows && j != id ==> r[j] == rows[j]
    ensures id in rows ==> r[id].clicks == rows[id].clicks + 1 && r[id].(clicks := rows[id].clicks) == rows[id]
  {
    if id in rows then rows[id := rows[id].(clicks := rows[id].clicks + 1)] else rows
  }

  /** The click counter never touches a code or a domain, so it keeps every pair unique. */
  lemma ClickedKeepsPairsUnique(rows: map<Id, ShortUrl>, id: Id)
    requires UniquePairs(rows)
    ensures UniquePairs(Clicked(rows, id))
  {
    var r := Clicked(rows, id);
    forall i, j | i in r && j in r && i != j
      ensures !Clash(r[i], r[j])
    {
      assert !Clash(rows[i], rows[j]);
    }
  }

  datatype SaveOutcome = Saved(id: Id, row: ShortUrl) | IntegrityError

  /** The `short_urls` table. */
  class ShortUrlTable {
    var rows: map<Id, ShortUrl>
    /** The next value of the primary-key sequence. */
    var nextId: Id

    /** Every stored row has a code, pairs are unique, and the sequence is past every key. */
    ghost predicate Valid()
      reads this
    {
      && UniquePairs(rows)
      && (forall id :: id in rows ==> HasCode(rows[id]) && id < nextId)
    }

    constructor ()
      ensures Valid() && rows == map[] && nextId == 0
    {
      rows := map[];
      nextId := 0;
    }

    /** The loop of `save()`: up to ten 6-character candidates, each checked, then one unchecked 8-character code. */
    method AllocateCode(domain: Option<string>, stream: RandomStream) returns (code: string)
      ensures code == AllocatedCode(rows, domain, stream)
    {
      var attempt := 0;
      while true
        invariant 0 <= attempt <= MaxAttempts
        invariant AllocateFrom(rows, domain, stream, attempt) == AllocatedCode(rows, domain, stream)
        decreases MaxAttempts - attempt
      {
        if attempt == MaxAttempts {
          code := LongCandidate(stream);
          break;
        }
        code := Candidate(stream, attempt);
        if !CodeTaken(rows, domain, code) {
          break;
        }
        attempt := attempt + 1;
      }
    }

    /**
     * `save()`: allocate a code if the row has none, then INSERT (no primary key yet) or
     * UPDATE row `pk`; an UPDATE that matches no row becomes an INSERT, so `created_at` is
     * stamped whenever the key is not in the table. A write that would duplicate a
     * (domain, short_code) pair raises `IntegrityError` and leaves the table as it was.
     */
    method Save(pk: Option<Id>, u: ShortUrl, stream: RandomStream, now: int) returns (outcome: SaveOutcome)
      requires Valid()
      modifies this
      ensures Valid()
      ensures var target := if pk.Some? then pk.value else old(nextId);
              var row := Prepared(old(rows), u, stream, now, target !in old(rows));
              && (outcome.IntegrityError? <==> ConflictsAt(old(rows), target, row))
              && (outcome.Saved? ==> outcome == Saved(target, row) && rows == old(rows)[target := row])
              && (outcome.IntegrityError? ==> rows == old(rows))
    {
      var code := u.shortCode;
      if !HasCode(u) {
        var generated := AllocateCode(u.domain, stream);
        code := Some(generated);
      }
      var target := if pk.Some? then pk.value else nextId;
      var inserting := target !in rows;
      var row := u.(shortCode := code, updatedAt := now, createdAt := if inserting then now else u.createdAt);
      assert row == Prepared(rows, u, stream, now, inserting);
      var clash := exists j :: j in rows && j != target && Clash(row, rows[j]);
      if clash {
        return IntegrityError;
      }
      WriteKeepsPairsUnique(rows, target, row);
      rows := rows[target := row];
      if nextId <= target {
        nextId := target + 1;
      }
      outcome := Saved(target, row);
    }

    /** `increment_clicks()`: `UPDATE ... SET clicks = clicks + 1 WHERE id = pk`, nothing else. */
    method IncrementClicks(id: Id)
      requires Valid()
      modifies this
      ensures Valid()
      ensures rows == Clicked(old(rows), id) && nextId == old(nextId)
    {
      ClickedKeepsPairsUnique(rows, id);
      if id in rows {
        rows := rows[id := rows[id].(clicks := rows[id].clicks + 1)];
      }
    }
  }
}
