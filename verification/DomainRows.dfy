/** store_domains rows, as the backfill and the merchants' calls share them. */
module DomainRows {
  import opened Prelude

  datatype Kind = PlatformSubdomain | Custom
  datatype Verification = Pending | Verified | Failed
  datatype Tls = TlsPending | Issued | TlsError

  datatype Domain = Domain(
    store: nat, tenant: nat, hostname: string, isPrimary: bool, kind: Option<Kind>, status: Verification, tls: Option<Tls>)
}
