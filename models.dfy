/**
 * The stored records: bank accounts, payment authorizations and one-time
 * download links, and the insert that issues a link.
 *
 * Timestamps are integers counting microseconds, the resolution of Python's
 * datetime, from 0001-01-01 00:00:00 (`datetime.min`); a datetime exists only
 * up to 9999-12-31 23:59:59.999999 (`datetime.max`). A column declared without
 * `nullable=False` may hold NULL and is an Option here; string lengths declared
 * on columns are not modelled.
 */
module Models {
  import opened Wrappers

  const MicrosPerMinute: int := 60_000_000
  const MicrosPerDay: int := 86_400_000_000

  /** `datetime.max`: the last microsecond of day 3652059, 9999-12-31. */
  const MaxTimestamp: int := 3_652_059 * MicrosPerDay - 1

  /** Whether a timestamp is one a Python datetime can hold. */
  predicate InDatetimeRange(t: int) { 0 <= t <= MaxTimestamp }

  /** `OverflowError` from datetime arithmetic whose result has no datetime. */
  datatype LinkError = ExpiryOverflow

  /** Lifetime of a link when the caller does not give one. */
  const DefaultLinkMinutes: int := 15

  /** A bank account; routing and account numbers are stored only encrypted. */
  datatype BankAccount = BankAccount(
    id: string,
    customerId: string,
    routingCipher: string,
    routingNonce: string,
    accountCipher: string,
    accountNonce: string,
    accountType: string,
    last4: string,
    createdAt: Option<int>)

  /** A payer's consent to one debit, referring to the account to debit. */
  datatype PaymentAuthorization = PaymentAuthorization(
    id: string,
    customerId: string,
    payerName: string,
    practiceName: Option<string>,
    invoiceNumber: string,
    amountCents: int,
    consentVersion: string,
    consentSnapshot: string,
    consentCheckbox: Option<bool>,
    consentedAt: Option<int>,
    consentIp: Option<string>,
    bankAccountId: string)

  /** A download token for one exported file; usedAt stays None until redeemed. */
  datatype OneTimeLink = OneTimeLink(
    id: string,
    filePath: string,
    expiresAt: int,
    usedAt: Option<int>,
    createdBy: string)

  /** The `one_time_links` table, keyed by the primary key `id`. */
  class LinkTable {
    var links: map<string, OneTimeLink>

    /** Every record is stored under its own id. */
    ghost predicate Valid()
      reads this
    {
      forall k :: k in links ==> links[k].id == k
    }

    constructor ()
      ensures Valid() && links == map[]
    {
      links := map[];
    }

    /**
     * `OneTimeLink.create`: inserts a new record under the fresh id the
     * caller supplies (the id generator and the clock are parameters) and
     * returns that id as the token. The link expires `minutes` minutes after
     * `now` and has not been used. When that expiry is not a datetime, the
     * addition raises before the record is added, and the table is unchanged.
     */
    method Create(filePath: string, createdBy: string, now: int, freshId: string,
                  minutes: int := DefaultLinkMinutes)
      returns (r: Result<string, LinkError>)
      requires Valid() && freshId !in links
      requires InDatetimeRange(now)
      modifies this
      ensures Valid()
      ensures r.Success? <==> InDatetimeRange(now + minutes * MicrosPerMinute)
      ensures r.Failure? ==> r.error == ExpiryOverflow && links == old(links)
      ensures r.Success? ==>
              && r.value == freshId
              && r.value in links && links[r.value].usedAt == None
              && links[r.value].expiresAt == now + minutes * MicrosPerMinute
              && links[r.value].filePath == filePath && links[r.value].createdBy == createdBy
              && links.Keys == old(links.Keys) + {r.value} && |links| == |old(links)| + 1
              && forall k :: k in old(links) ==> links[k] == old(links)[k]
    {
      var expiresAt := now + minutes * MicrosPerMinute;
      if !InDatetimeRange(expiresAt) {
        return Failure(ExpiryOverflow);
      }
      var rec := OneTimeLink(freshId, filePath, expiresAt, None, createdBy);
      links := links[rec.id := rec];
      r := Success(rec.id);
    }
  }

  /** A caller that gives no lifetime gets a link valid for 15 minutes from now. */
  method IssueWithDefaultLifetime(table: LinkTable, filePath: string, createdBy: string,
                                  now: int, freshId: string)
    returns (r: Result<string, LinkError>)
    requires table.Valid() && freshId !in table.links && InDatetimeRange(now)
    modifies table
    ensures table.Valid()
    ensures r.Success? <==> now + 15 * 60_000_000 <= MaxTimestamp
    ensures r.Success? ==> r.value in table.links
                           && table.links[r.value].expiresAt == now + 15 * 60_000_000
  {
    r := table.Create(filePath, createdBy, now, freshId);
  }
}
