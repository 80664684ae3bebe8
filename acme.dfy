/**
 * The values this program reads from the ACME server through acme4j.
 * The server itself (accounts, orders, challenges, the wire protocol) is not
 * modelled: every answer it gives is an input of the model.
 */
module Acme {
  import opened Wrappers

  /**
   * acme4j's `Status`: the resource states of section 7.1.6 of RFC 8555
   * (pending, ready, processing, valid, invalid, revoked, deactivated,
   * expired) plus acme4j's own `CANCELED` and `UNKNOWN`.
   */
  datatype Status =
    | Pending | Ready | Processing | Valid | Invalid
    | Revoked | Deactivated | Expired | Canceled | Unknown

  /** The dns-01 challenge of an authorization: the TXT value to publish and its status. */
  datatype Dns01Challenge = Dns01Challenge(digest: string, status: Status)

  /**
   * An authorization as fetched from the order: the identifier's domain, its
   * own status and its dns-01 challenge, if the server offered one.
   */
  datatype Authorization = Authorization(domain: string, status: Status, dns01: Option<Dns01Challenge>)

  /**
   * What one request to the server yields: the status the response reports
   * for the resource, or an exception (an `AcmeException` or any other).
   */
  datatype AcmeReply = Answer(status: Status) | Failure
}
