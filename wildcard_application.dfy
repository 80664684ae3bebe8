/**
 * `WildcardApplication.run`: check the command-line options, open an ACME
 * session on the staging or production directory, create an account and an
 * order for `{domain, *.domain}`, drive every authorization of the order
 * through the dns-01 challenge, then execute the order, poll it, fetch the
 * certificate and write the chain and the domain key.
 *
 * Every answer from outside (ACME server, DNS vendor, resolver) is an input:
 * a `World` for the run and an `AuthScript` per authorization. `Run` and
 * `Authorize` are the specification; `RunApplication` and
 * `PerformAuthorization` are the imperative code, proved equal to them.
 * Any exception inside the outer `try` ends the run with `Failed`, after
 * which `run` returns normally; an exception outside it is `Crashed`.
 */
module WildcardApplication {
  import opened Wrappers
  import opened Acme
  import opened Events
  import opened Polling
  import DnsLookupHelper
  import AlibabaDns

  const ProdUri := "acme://letsencrypt.org"
  const StagingUri := "acme://letsencrypt.org/staging"
  /** The owner label passed to the provider for every TXT record. */
  const ChallengeLabel := "_acme-challenge"
  const ChainFileName := "domain-chain.crt"
  const KeyFileName := "domain.key"

  /** The command line as Spring presents it: every option given, with its values in order. */
  type Arguments = map<string, seq<string>>

  datatype Stage = Test | Prod

  datatype Config = Config(domain: string, providerName: string, accessKey: string, accessSecret: string, stage: Stage)

  /**
   * What the option checks decide: stop through `System.exit(0)`, throw out
   * of `run` (`get(0)` on an option given without a value), or go on.
   */
  datatype Options = Exit | Crash | Proceed(config: Config)

  predicate RequiredOptionMissing(args: Arguments) {
    "domain" !in args || "dnsProvider" !in args || "accessKey" !in args || "accessSecret" !in args
  }

  /** Some option that `run` reads with `get(0)` was given without a value. */
  predicate OptionWithoutValue(args: Arguments) {
    ("stage" in args && args["stage"] == [])
    || ("domain" in args && args["domain"] == [])
    || ("dnsProvider" in args && args["dnsProvider"] == [])
    || ("accessKey" in args && args["accessKey"] == [])
    || ("accessSecret" in args && args["accessSecret"] == [])
  }

  /** The stage is PROD only when the first `stage` value is exactly "PROD". */
  predicate ProdRequested(args: Arguments) {
    "stage" in args && args["stage"] != [] && args["stage"][0] == "PROD"
  }

  function CheckOptions(args: Arguments): Options {
    if RequiredOptionMissing(args) then Exit
    else if OptionWithoutValue(args) then Crash
    else
      Proceed(Config(args["domain"][0], args["dnsProvider"][0], args["accessKey"][0], args["accessSecret"][0],
                     if ProdRequested(args) then Prod else Test))
  }

  function SessionUri(stage: Stage): string {
    if stage == Prod then ProdUri else StagingUri
  }

  /** The identifiers of the order and of the CSR: the domain and its wildcard. */
  function DomainSet(domain: string): seq<string> {
    [domain, "*." + domain]
  }

  function OutputDirectory(domain: string): string {
    "certificate/" + domain + "/"
  }

  function ChainPath(domain: string): string {
    OutputDirectory(domain) + ChainFileName
  }

  function KeyPath(domain: string): string {
    OutputDirectory(domain) + KeyFileName
  }

  /**
   * The answers the outside world gives while one authorization is handled:
   * the authorization as fetched, the vendor's answers to the add and the
   * delete, the resolver seen by each propagation lookup, and the server's
   * replies to the trigger and to each `update()` of the challenge.
   */
  datatype AuthScript = AuthScript(
    auth: Authorization,
    addReply: AlibabaDns.VendorReply,
    dns: nat -> DnsLookupHelper.Query -> DnsLookupHelper.LookupOutcome,
    triggerReply: AcmeReply,
    updates: nat -> AcmeReply,
    deleted: bool)

  /**
   * The answers the outside world gives to one run: whether the account is
   * created, the order's authorizations (None when creating the order
   * throws), the replies to `execute` and to each `update()` of the order,
   * whether `getCertificate()` returns a certificate, and whether the
   * certificate chain, which is only downloaded while it is written, can be
   * downloaded. acme4j fetches each authorization lazily, inside the loop,
   * at `findChallenge`; a fetch that throws there is written as an
   * `AuthScript` without a dns-01 challenge, so it aborts at that point but
   * under the reason `NoDns01Challenge`.
   */
  datatype World = World(
    accountCreated: bool,
    order: Option<seq<AuthScript>>,
    executeReply: AcmeReply,
    orderUpdates: nat -> AcmeReply,
    certificateBound: bool,
    chainDownloaded: bool)

  /** The exception that ends a run inside the outer `try`. */
  datatype Failure =
    | AccountFailed
    | OrderFailed
    | NoDns01Challenge(domain: string)    // "Found no dns-01 challenge"
    | NoSuchProvider(name: string)         // `getBean` knows no such provider
    | ProviderFailed(message: string)      // `addTxtValueToDomain` threw
    | TriggerFailed(domain: string)
    | ChallengeUpdateFailed(domain: string)
    | ChallengeFailed(domain: string)      // INVALID seen inside the poll
    | ChallengeNotPassed(domain: string)   // not VALID after the poll
    | ExecuteFailed
    | OrderUpdateFailed
    | OrderInvalid                         // INVALID seen inside the order poll
    | NoCertificate                        // `getCertificate()` gave null
    | ChainDownloadFailed                  // `writeCertificate` could not download the chain

  datatype AuthEnd =
    | Skipped                                     // already VALID: `continue`
    | Authorized(cleanupWarning: Option<string>)  // challenge VALID, record removal attempted
    | Aborted(failure: Failure)

  datatype AuthResult = AuthResult(end: AuthEnd, events: seq<Event>)

  /** The provider as `run` configures it before the add: a fresh bean with both credentials set. */
  function ConfiguredProvider(cfg: Config): AlibabaDns.ProviderState {
    AlibabaDns.Unconfigured.(accessKey := Some(cfg.accessKey), accessSecret := Some(cfg.accessSecret))
  }

  /**
   * One iteration of the loop over the order's authorizations. A missing
   * dns-01 challenge aborts; a VALID authorization or challenge is skipped
   * without any call; otherwise: look up the provider, add the TXT record,
   * wait for propagation (whatever its result), trigger the challenge, poll
   * it, and remove the record only once the challenge is VALID.
   */
  function Authorize(cfg: Config, s: AuthScript): (r: AuthResult)
    ensures r.end.Skipped? <==> s.auth.dns01.Some? && (s.auth.status == Valid || s.auth.dns01.value.status == Valid)
    ensures r.end.Skipped? ==> r.events == []
    ensures s.auth.dns01.None? ==> r == AuthResult(Aborted(NoDns01Challenge(s.auth.domain)), [])
  {
    var auth := s.auth;
    match auth.dns01
    case None => AuthResult(Aborted(NoDns01Challenge(auth.domain)), [])
    case Some(challenge) =>
      if auth.status == Valid || challenge.status == Valid then AuthResult(Skipped, [])
      else
        var resolved := [ResolveProvider(cfg.providerName)];
        if !AlibabaDns.IsRegistered(cfg.providerName) then AuthResult(Aborted(NoSuchProvider(cfg.providerName)), resolved)
        else
          var provider := ConfiguredProvider(cfg);
          var added := resolved + [VendorAdd(AlibabaDns.AddRequestFor(provider, auth.domain, challenge.digest, ChallengeLabel), s.addReply)];
          if s.addReply.Rejected? then
            AuthResult(Aborted(ProviderFailed(AlibabaDns.AddFailureMessage(auth.domain, ChallengeLabel))), added)
          else
            var wait := PropagationWait(auth.domain, challenge.digest, s.dns, MaxAttempts, 0);
            var triggered := added + wait.events + [Trigger(auth.domain, s.triggerReply)];
            match s.triggerReply
            case Failure => AuthResult(Aborted(TriggerFailed(auth.domain)), triggered)
            case Answer(status) =>
              var poll := StatusPoll(s.updates, status, ChallengeOf(auth.domain), MaxAttempts, 0);
              var polled := triggered + poll.events;
              match poll.end
              case Rejected => AuthResult(Aborted(ChallengeFailed(auth.domain)), polled)
              case Exhausted(_) => AuthResult(Aborted(ChallengeNotPassed(auth.domain)), polled)
              case UpdateFailed => AuthResult(Aborted(ChallengeUpdateFailed(auth.domain)), polled)
              case Reached =>
                var request := AlibabaDns.DeleteRequestFor(AlibabaDns.AfterAdd(provider, s.addReply));
                var warning := if s.deleted then None else Some(AlibabaDns.RemoveWarning(auth.domain, ChallengeLabel));
                AuthResult(Authorized(warning), polled + [VendorDelete(request, s.deleted)])
  }

  datatype AuthorizationsResult = AuthorizationsResult(failure: Option<Failure>, events: seq<Event>)

  /** The loop over the order's authorizations, in order; the first abort ends it. */
  function AuthorizeAll(cfg: Config, scripts: seq<AuthScript>): AuthorizationsResult
    decreases |scripts|
  {
    if scripts == [] then AuthorizationsResult(None, [])
    else
      var first := Authorize(cfg, scripts[0]);
      if first.end.Aborted? then AuthorizationsResult(Some(first.end.failure), first.events)
      else
        var rest := AuthorizeAll(cfg, scripts[1..]);
        AuthorizationsResult(rest.failure, first.events + rest.events)
  }

  datatype RunOutcome =
    | Exited(code: int)          // `System.exit` in the option checks
    | Crashed                    // an exception escaped `run`
    | Failed(failure: Failure)   // caught and logged by the outer `try`
    | Issued                     // both files written in full

  datatype RunResult = RunResult(outcome: RunOutcome, events: seq<Event>)

  /**
   * From `order.execute` on: poll the order (INVALID aborts, running out of
   * attempts does not), get the certificate, open the chain file and
   * download the chain into it, then write the key. A failed download
   * leaves the chain file opened (created or truncated) and no key file.
   */
  function Finalize(cfg: Config, world: World): RunResult {
    var executed := [ExecuteOrder(DomainSet(cfg.domain), world.executeReply)];
    match world.executeReply
    case Failure => RunResult(Failed(ExecuteFailed), executed)
    case Answer(status) =>
      var poll := StatusPoll(world.orderUpdates, status, TheOrder, MaxAttempts, 0);
      var polled := executed + poll.events;
      match poll.end
      case Rejected => RunResult(Failed(OrderInvalid), polled)
      case UpdateFailed => RunResult(Failed(OrderUpdateFailed), polled)
      case _ =>
        var fetched := polled + [FetchCertificate(world.certificateBound)];
        if !world.certificateBound then RunResult(Failed(NoCertificate), fetched)
        else
          var chained := fetched + [WriteFile(ChainPath(cfg.domain), world.chainDownloaded)];
          if !world.chainDownloaded then RunResult(Failed(ChainDownloadFailed), chained)
          else RunResult(Issued, chained + [WriteFile(KeyPath(cfg.domain), true)])
  }

  /**
   * A whole run. Missing required options exit with status 0 before any
   * call; otherwise the session is opened on the production directory
   * exactly when the stage is PROD.
   */
  function Run(args: Arguments, world: World): (r: RunResult)
    ensures r.outcome.Exited? <==> RequiredOptionMissing(args)
    ensures r.outcome.Exited? ==> r.outcome.code == 0 && r.events == []
    ensures r.outcome.Crashed? <==> !RequiredOptionMissing(args) && OptionWithoutValue(args)
    ensures r.outcome.Crashed? ==> r.events == []
    ensures r.events != [] ==> r.events[0] == OpenSession(if ProdRequested(args) then ProdUri else StagingUri)
  {
    match CheckOptions(args)
    case Exit => RunResult(Exited(0), [])
    case Crash => RunResult(Crashed, [])
    case Proceed(cfg) =>
      var session := [OpenSession(SessionUri(cfg.stage)), CreateAccount(world.accountCreated)];
      if !world.accountCreated then RunResult(Failed(AccountFailed), session)
      else
        var ordered := session + [CreateOrder(DomainSet(cfg.domain), world.order.Some?)];
        match world.order
        case None => RunResult(Failed(OrderFailed), ordered)
        case Some(scripts) =>
          var auths := AuthorizeAll(cfg, scripts);
          if auths.failure.Some? then RunResult(Failed(auths.failure.value), ordered + auths.events)
          else
            var fin := Finalize(cfg, world);
            RunResult(fin.outcome, ordered + auths.events + fin.events)
  }

  /** The body of the loop over authorizations in `run`, with a fresh provider bean per authorization. */
  method PerformAuthorization(cfg: Config, s: AuthScript) returns (r: AuthResult)
    ensures r == Authorize(cfg, s)
  {
    var auth := s.auth;
    if auth.dns01.None? {
      return AuthResult(Aborted(NoDns01Challenge(auth.domain)), []);
    }
    var challenge := auth.dns01.value;
    if auth.status == Valid || challenge.status == Valid {
      return AuthResult(Skipped, []);
    }
    var events := [ResolveProvider(cfg.providerName)];
    if !AlibabaDns.IsRegistered(cfg.providerName) {
      return AuthResult(Aborted(NoSuchProvider(cfg.providerName)), events);
    }
    var provider := new AlibabaDns.AlibabaDnsProvider();
    provider.SetAccessKey(cfg.accessKey);
    provider.SetAccessSecret(cfg.accessSecret);
    assert provider.State() == ConfiguredProvider(cfg);
    var addRequest, completion := provider.AddTxtValueToDomain(auth.domain, challenge.digest, ChallengeLabel, s.addReply);
    events := events + [VendorAdd(addRequest, s.addReply)];
    if completion.Threw? {
      return AuthResult(Aborted(ProviderFailed(completion.message)), events);
    }
    var visible, waitEvents := WaitForPropagation(auth.domain, challenge.digest, s.dns);
    events := events + waitEvents + [Trigger(auth.domain, s.triggerReply)];
    if s.triggerReply.Failure? {
      return AuthResult(Aborted(TriggerFailed(auth.domain)), events);
    }
    var end, pollEvents := PollStatus(s.updates, s.triggerReply.status, ChallengeOf(auth.domain));
    events := events + pollEvents;
    match end
    case Rejected =>
      return AuthResult(Aborted(ChallengeFailed(auth.domain)), events);
    case Exhausted(_) =>
      return AuthResult(Aborted(ChallengeNotPassed(auth.domain)), events);
    case UpdateFailed =>
      return AuthResult(Aborted(ChallengeUpdateFailed(auth.domain)), events);
    case Reached =>
      var deleteRequest, warning := provider.RemoveTxtValueFromDomain(auth.domain, challenge.digest, ChallengeLabel, s.deleted);
      events := events + [VendorDelete(deleteRequest, s.deleted)];
      r := AuthResult(Authorized(warning), events);
  }

  /** `run`: the option checks, then the outer `try` with its loop over authorizations and the order poll. */
  method RunApplication(args: Arguments, world: World) returns (outcome: RunOutcome, events: seq<Event>)
    ensures RunResult(outcome, events) == Run(args, world)
  {
    var stage := Test;
    if "domain" !in args {
      return Exited(0), [];
    }
    if "dnsProvider" !in args {
      return Exited(0), [];
    }
    if "accessKey" !in args || "accessSecret" !in args {
      return Exited(0), [];
    }
    if "stage" in args {
      if args["stage"] == [] {
        return Crashed, [];
      }
      if args["stage"][0] == "PROD" {
        stage := Prod;
      }
    }
    if args["domain"] == [] || args["dnsProvider"] == [] || args["accessKey"] == [] || args["accessSecret"] == [] {
      return Crashed, [];
    }
    var domain := args["domain"][0];
    var config := Config(domain, args["dnsProvider"][0], args["accessKey"][0], args["accessSecret"][0], stage);
    assert CheckOptions(args) == Proceed(config);
    var domains := DomainSet(domain);

    var uri := StagingUri;
    if stage == Prod {
      uri := ProdUri;
    }
    events := [OpenSession(uri), CreateAccount(world.accountCreated)];
    if !world.accountCreated {
      return Failed(AccountFailed), events;
    }
    events := events + [CreateOrder(domains, world.order.Some?)];
    if world.order.None? {
      return Failed(OrderFailed), events;
    }
    var failure, authEvents := AuthorizeOrder(config, world.order.value);
    events := events + authEvents;
    if failure.Some? {
      return Failed(failure.value), events;
    }
    var finalEvents;
    outcome, finalEvents := FinalizeOrder(config, world);
    events := events + finalEvents;
  }

  /** The loop over the order's authorizations inside the outer `try`. */
  method AuthorizeOrder(config: Config, scripts: seq<AuthScript>) returns (failure: Option<Failure>, events: seq<Event>)
    ensures AuthorizationsResult(failure, events) == AuthorizeAll(config, scripts)
  {
    events := [];
    ghost var whole := AuthorizeAll(config, scripts);
    for i := 0 to |scripts|
      invariant whole.failure == AuthorizeAll(config, scripts[i..]).failure
      invariant whole.events == events + AuthorizeAll(config, scripts[i..]).events
    {
      assert scripts[i..][1..] == scripts[i + 1..];
      var r := PerformAuthorization(config, scripts[i]);
      events := events + r.events;
      if r.end.Aborted? {
        return Some(r.end.failure), events;
      }
    }
    assert scripts[|scripts|..] == [];
    failure := None;
  }

  /** From `order.execute` to the two `FileWriter`s. */
  method FinalizeOrder(config: Config, world: World) returns (outcome: RunOutcome, events: seq<Event>)
    ensures RunResult(outcome, events) == Finalize(config, world)
  {
    var domain := config.domain;
    events := [ExecuteOrder(DomainSet(domain), world.executeReply)];
    if world.executeReply.Failure? {
      return Failed(ExecuteFailed), events;
    }
    var end, pollEvents := PollStatus(world.orderUpdates, world.executeReply.status, TheOrder);
    events := events + pollEvents;
    if end.Rejected? {
      return Failed(OrderInvalid), events;
    }
    if end.UpdateFailed? {
      return Failed(OrderUpdateFailed), events;
    }
    events := events + [FetchCertificate(world.certificateBound)];
    if !world.certificateBound {
      return Failed(NoCertificate), events;
    }
    events := events + [WriteFile(ChainPath(domain), world.chainDownloaded)];
    if !world.chainDownloaded {
      return Failed(ChainDownloadFailed), events;
    }
    events := events + [WriteFile(KeyPath(domain), true)];
    outcome := Issued;
  }
}
