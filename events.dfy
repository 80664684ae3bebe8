/**
 * The trace of a run: one event per call the program makes to the outside
 * world (ACME server, DNS vendor, resolver, clock, file system), each with
 * the answer the call received.
 */
module Events {
  import opened Acme
  import DnsLookupHelper
  import AlibabaDns

  /** The resource a status poll re-reads with `update()`. */
  datatype PollTarget = ChallengeOf(domain: string) | TheOrder

  datatype Event =
    | OpenSession(uri: string)
    | CreateAccount(created: bool)
    | CreateOrder(orderDomains: seq<string>, orderCreated: bool)
    | ResolveProvider(name: string)
    | VendorAdd(addRequest: AlibabaDns.AddRecordRequest, vendorReply: AlibabaDns.VendorReply)
    | DnsQuery(query: DnsLookupHelper.Query, visible: bool)
    | Sleep(millis: nat)
    | Trigger(domain: string, triggerReply: AcmeReply)
    | StatusUpdate(target: PollTarget, updateReply: AcmeReply)
    | VendorDelete(deleteRequest: AlibabaDns.DeleteRecordRequest, deleted: bool)
    | ExecuteOrder(csrDomains: seq<string>, executeReply: AcmeReply)
    | FetchCertificate(bound: bool)           // `getCertificate()`: a reference to the certificate's URL, or null
    | WriteFile(path: string, complete: bool) // a `FileWriter` opened on `path`, then filled or left partial

  predicate IsDnsQuery(e: Event) { e.DnsQuery? }
  predicate IsSleep(e: Event) { e.Sleep? }
  predicate IsStatusUpdate(e: Event) { e.StatusUpdate? }
  predicate IsVendorAdd(e: Event) { e.VendorAdd? }
  predicate IsTrigger(e: Event) { e.Trigger? }
  predicate IsVendorDelete(e: Event) { e.VendorDelete? }
  predicate IsOrderEvent(e: Event) { e.CreateOrder? || e.ExecuteOrder? }
  predicate IsWriteFile(e: Event) { e.WriteFile? }

  /** How many events of `es` satisfy `p`. */
  function Count(es: seq<Event>, p: Event -> bool): (n: nat)
    ensures n <= |es|
  {
    if es == [] then 0 else (if p(es[0]) then 1 else 0) + Count(es[1..], p)
  }

  /** No event satisfies `p` exactly when none is counted. */
  lemma {:induction false} CountZero(es: seq<Event>, p: Event -> bool)
    ensures Count(es, p) == 0 <==> forall i :: 0 <= i < |es| ==> !p(es[i])
  {
    if es != [] {
      CountZero(es[1..], p);
      assert forall i :: 1 <= i < |es| ==> es[i] == es[1..][i - 1];
    }
  }

  lemma {:induction false} CountConcat(a: seq<Event>, b: seq<Event>, p: Event -> bool)
    ensures Count(a + b, p) == Count(a, p) + Count(b, p)
  {
    if a == [] {
      assert a + b == b;
    } else {
      assert (a + b)[1..] == a[1..] + b;
      CountConcat(a[1..], b, p);
    }
  }
}
