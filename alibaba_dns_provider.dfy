/**
 * The Alibaba Cloud DNS provider, registered under the name "alibaba" with
 * prototype scope. It keeps the id of the record it added last in a single
 * slot and deletes by that id. Each vendor call is an input: the vendor
 * accepts an add with a record id or rejects it, and accepts or rejects a
 * delete. The requests the provider sends are results of the model.
 */
module AlibabaDns {
  import opened Wrappers

  /** The bean name under which the provider is registered. */
  const BeanName := "alibaba"
  /** The region every client profile is built for. */
  const Region := "cn-hangzhou"

  /** The client profile: region, access key id and access key secret. */
  datatype Profile = Profile(regionId: string, accessKeyId: Option<string>, accessKeySecret: Option<string>)

  datatype AddRecordRequest =
    AddRecordRequest(profile: Profile, action: string, domainName: string, rr: string, recordType: string, value: string)

  datatype DeleteRecordRequest = DeleteRecordRequest(profile: Profile, action: string, recordId: Option<string>)

  /** The vendor's answer to an add: the new record's id, or a client or server exception. */
  datatype VendorReply = Accepted(recordId: string) | Rejected

  /** How a Java method call ends: normally, or by throwing an exception with a message. */
  datatype Completion = Normal | Threw(message: string)

  /** The provider's fields; Java's null is `None`. */
  datatype ProviderState = ProviderState(recordId: Option<string>, accessKey: Option<string>, accessSecret: Option<string>)

  /** A freshly created provider: every field null. */
  const Unconfigured := ProviderState(None, None, None)

  function ProfileOf(st: ProviderState): Profile {
    Profile(Region, st.accessKey, st.accessSecret)
  }

  function AddRequestFor(st: ProviderState, domainName: string, txtValue: string, rR: string): AddRecordRequest {
    AddRecordRequest(ProfileOf(st), "AddDomainRecord", domainName, rR, "TXT", txtValue)
  }

  function AddFailureMessage(domainName: string, rR: string): string {
    "Failed to set TXT value to " + rR + "." + domainName
  }

  /** The provider after an add the vendor answered with `reply`. */
  function AfterAdd(st: ProviderState, reply: VendorReply): ProviderState {
    match reply
    case Accepted(id) => st.(recordId := Some(id))
    case Rejected => st
  }

  /** The delete request: it names only the stored record id. */
  function DeleteRequestFor(st: ProviderState): DeleteRecordRequest {
    DeleteRecordRequest(ProfileOf(st), "DeleteDomainRecord", st.recordId)
  }

  function RemoveWarning(domainName: string, rR: string): string {
    "Failed to remove TXT value from " + rR + "." + domainName + ", Please remove it manually!"
  }

  /** Whether the application context can produce a `DnsProvider` under `name`. */
  predicate IsRegistered(name: string) {
    name == BeanName
  }

  class AlibabaDnsProvider {
    var recordId: Option<string>
    var accessKey: Option<string>
    var accessSecret: Option<string>

    function State(): ProviderState
      reads this
    {
      ProviderState(recordId, accessKey, accessSecret)
    }

    /** Prototype scope: every lookup of the bean yields a new instance with every field null. */
    constructor ()
      ensures State() == Unconfigured
    {
      recordId, accessKey, accessSecret := None, None, None;
    }

    method SetAccessKey(key: string)
      modifies this`accessKey
      ensures accessKey == Some(key)
      ensures recordId == old(recordId) && accessSecret == old(accessSecret)
    {
      accessKey := Some(key);
    }

    method SetAccessSecret(secret: string)
      modifies this`accessSecret
      ensures accessSecret == Some(secret)
      ensures recordId == old(recordId) && accessKey == old(accessKey)
    {
      accessSecret := Some(secret);
    }

    /**
     * Sends an AddDomainRecord request for a TXT record `rR`.`domainName`
     * holding `txtValue`. An accepted add stores the vendor's record id; a
     * rejected one throws and leaves the stored id as it was.
     */
    method AddTxtValueToDomain(domainName: string, txtValue: string, rR: string, reply: VendorReply)
      returns (request: AddRecordRequest, completion: Completion)
      modifies this`recordId
      ensures request == AddRequestFor(old(State()), domainName, txtValue, rR)
      ensures State() == AfterAdd(old(State()), reply)
      ensures reply.Accepted? ==> completion == Normal && recordId == Some(reply.recordId)
      ensures reply.Rejected? ==> completion == Threw(AddFailureMessage(domainName, rR)) && recordId == old(recordId)
    {
      request := AddRequestFor(State(), domainName, txtValue, rR);
      match reply
      case Accepted(id) =>
        recordId := Some(id);
        completion := Normal;
      case Rejected =>
        completion := Threw(AddFailureMessage(domainName, rR));
    }

    /**
     * Sends a DeleteDomainRecord request for the stored record id; the
     * arguments name the record only in the log. It never throws: a vendor
     * failure yields a warning to remove the record by hand.
     */
    method RemoveTxtValueFromDomain(domainName: string, txtValue: string, rR: string, deleted: bool)
      returns (request: DeleteRecordRequest, warning: Option<string>)
      ensures request == DeleteRequestFor(State())
      ensures request.recordId == recordId && request.profile == Profile(Region, accessKey, accessSecret)
      ensures warning == if deleted then None else Some(RemoveWarning(domainName, rR))
    {
      request := DeleteRecordRequest(Profile(Region, accessKey, accessSecret), "DeleteDomainRecord", recordId);
      if deleted {
        warning := None;
      } else {
        warning := Some(RemoveWarning(domainName, rR));
      }
    }
  }
}
