# letsencrypt-alibaba in Dafny

A model of the orchestrator in letsencrypt-alibaba, a Spring Boot command-line
program. It obtains a wildcard Let's Encrypt certificate for `example.com` and
`*.example.com` with the ACME dns-01 challenge. The TXT records are published
through the Alibaba Cloud DNS API.

The model covers:

- `WildcardApplication.run`: the option checks, the session, account and order, and the loop over authorizations (provider bean, TXT record, propagation wait, trigger, challenge poll, cleanup). After that come the CSR, `execute`, the order poll, the certificate and the two output files.
- `DnsLookupHelper.isValid`: whether the challenge record is visible.
- `AlibabaDnsProvider`: its setters, adding a TXT record and removing it by the stored record id.

Modules:

- `Wrappers`: `Option`.
- `Acme`: acme4j's `Status`, the authorization and its dns-01 challenge, and a server reply (`Answer(status)` or `Failure` for any exception).
- `DnsLookupHelper`: `IsValid` as a pure function of the resolver outcome, and the quote-stripping of TXT texts.
- `AlibabaDns`: the class `AlibabaDnsProvider` with the three fields the source mutates. Its methods are specified by functions on a `ProviderState` value.
- `Events`: the trace. Each call the program makes to the outside world is one `Event` carrying the answer it got: session, account, order, provider lookup, vendor add and delete, DNS lookup, sleep, trigger, `update()`, `execute`, `getCertificate()` and file write (a file opened, then filled in full or left partial).
- `Polling`: the three bounded waits. There is the propagation wait, and one status poll shared by the challenge and the order, since both have the same loop. Each is a specification function (`PropagationWait`, `StatusPoll`) plus a method with the source's `while` loop proved equal to it (`WaitForPropagation`, `PollStatus`).
- `WildcardApplication`: the specification functions `Authorize`, `AuthorizeAll`, `Finalize` and `Run`. Next to them are the imperative methods `PerformAuthorization`, `AuthorizeOrder`, `FinalizeOrder` and `RunApplication`, each proved equal to its function.
- `WildcardProperties`: lemmas about the whole run. They cover per-authorization bounds, the trigger after the wait whatever its result, removal only after VALID, fail-fast, the shared domain set, and where the output goes.

Everything the outside world decides is an input:

- A `World` for the run: account creation, the order's authorizations, the `execute` reply and the order's `update()` replies. It also says whether `getCertificate()` returns a certificate, and whether the chain can be downloaded. acme4j downloads the chain only inside `writeCertificate`, after the chain file has been opened.
- An `AuthScript` per authorization. acme4j fetches each authorization lazily, inside the loop, at `findChallenge`. A fetch that throws is written as an `AuthScript` without a dns-01 challenge. It aborts at that point with the same calls, but the recorded reason is `NoDns01Challenge`, not a failed fetch. The script holds the authorization, the vendor's add and delete answers, the resolver outcome seen by the k-th lookup (`nat -> Query -> LookupOutcome`), the trigger reply and the challenge's `update()` replies (`nat -> AcmeReply`).

A run ends in one of four ways:

- `Exited(0)`: the `System.exit` in the option checks.
- `Crashed`: `get(0)` on an option given without a value, which throws outside the `try`.
- `Failed(failure)`: any exception caught by the outer `try`. `run` then returns normally.
- `Issued`: both files written in full.

Behaviour of the code worth noting:

- A missing required option exits with status 0, not a non-zero status.
- When the order poll runs out of attempts without VALID, the run does not fail there. It goes on to `getCertificate()`. The outcome depends on whether a certificate comes back and whether its chain can be downloaded.
- An exception from a challenge or order `update()` is not absorbed by the wait. It aborts the run through the outer `try`.
- The TXT record is removed only after the challenge is VALID. On INVALID, on exhaustion and on a failed trigger or update it stays.
- A status that becomes INVALID on the last of the 50 updates ends the loop through the countdown. It is reported as "failed to pass the challenge" (`ChallengeNotPassed`), not as "challenge failed".
- An authorization without a dns-01 challenge aborts the run even when the authorization itself is already VALID: the null check on the challenge comes before the test that skips VALID authorizations.
- The chain file is created (or truncated) before the chain is downloaded. A failed download therefore leaves an empty or partial `domain-chain.crt` and no `domain.key`, and the run fails (`ChainDownloadFailed`).

## Model

| member | source | states |
|---|---|---|
| DnsLookupHelper.StripQuotes | src/main/java/com/futlabs/letsencrypt/DnsLookupHelper.java:21-23 | the result holds no double quote and keeps every other character as often as the text has it (the multisets agree once quotes are dropped), so it is never longer |
| DnsLookupHelper.IsValid | src/main/java/com/futlabs/letsencrypt/DnsLookupHelper.java:10-32 | the definition of `isValid` over the resolver outcome of the lookup of `_acme-challenge.<domain>`: false on an exception, on a result other than SUCCESSFUL, on no answers and on a null text; otherwise the first answer with its quotes removed compared with the digest. Its properties are stated by `IsValidExactly` and the lemmas below |
| DnsLookupHelper.IsValidExactly | src/main/java/com/futlabs/letsencrypt/DnsLookupHelper.java:10-32 | `isValid` is true exactly when the TXT lookup of `_acme-challenge.<domain>` completed with SUCCESSFUL and its first answer is a non-null text equal to the digest once every quote is removed. A thrown exception, any other result code, an empty answer list and a null text all give false |
| DnsLookupHelper.StripQuotesKeepsOthers | src/main/java/com/futlabs/letsencrypt/DnsLookupHelper.java:21-23 | a character occurs in the result exactly when it occurs in the input and is not a quote |
| DnsLookupHelper.StripQuotesUnchangedWithoutQuotes | src/main/java/com/futlabs/letsencrypt/DnsLookupHelper.java:20-23 | a text without quotes is left unchanged |
| DnsLookupHelper.UnquoteIsStripQuotes | src/main/java/com/futlabs/letsencrypt/DnsLookupHelper.java:21-23 | the `contains("\"")` guard makes no difference: guarded replacement equals unconditional replacement |
| DnsLookupHelper.StripQuotesIdempotent | src/main/java/com/futlabs/letsencrypt/DnsLookupHelper.java:22 | stripping twice is the same as stripping once |
| DnsLookupHelper.StripQuotesConcat | src/main/java/com/futlabs/letsencrypt/DnsLookupHelper.java:22 | stripping works character by character: it distributes over concatenation |
| DnsLookupHelper.QuotedDigestMatches | src/main/java/com/futlabs/letsencrypt/DnsLookupHelper.java:18-27 | a successful lookup whose first answer is the digest in quotes is valid, whatever answers follow |
| DnsLookupHelper.QuotedDigestNeverMatches | src/main/java/com/futlabs/letsencrypt/DnsLookupHelper.java:21-27 | a digest that contains a quote can never be found valid |
| DnsLookupHelper.OnlyFirstAnswerCounts | src/main/java/com/futlabs/letsencrypt/DnsLookupHelper.java:19 | two successful lookups with the same first answer give the same verdict, whatever the other answers |
| DnsLookupHelper.ChallengeQueryInjective | src/main/java/com/futlabs/letsencrypt/DnsLookupHelper.java:15 | different domains are looked up under different names |
| AlibabaDns.AlibabaDnsProvider.constructor | src/main/java/com/futlabs/letsencrypt/AlibabaDnsProvider.java:20-26 | each prototype-scoped bean starts with record id, access key and secret all null |
| AlibabaDns.AlibabaDnsProvider.SetAccessKey | src/main/java/com/futlabs/letsencrypt/AlibabaDnsProvider.java:28-31 | sets the access key and changes no other field |
| AlibabaDns.AlibabaDnsProvider.SetAccessSecret | src/main/java/com/futlabs/letsencrypt/AlibabaDnsProvider.java:33-36 | sets the access secret and changes no other field |
| AlibabaDns.AlibabaDnsProvider.AddTxtValueToDomain | src/main/java/com/futlabs/letsencrypt/AlibabaDnsProvider.java:38-61 | sends an `AddDomainRecord` TXT request for `rR` under the domain, with the value and a `cn-hangzhou` profile built from the current credentials. When the vendor accepts, the returned id becomes the record id and the call completes normally. When it rejects, the call throws "Failed to set TXT value to rR.domain" and the record id is unchanged |
| AlibabaDns.AlibabaDnsProvider.RemoveTxtValueFromDomain | src/main/java/com/futlabs/letsencrypt/AlibabaDnsProvider.java:63-82 | sends a `DeleteDomainRecord` request naming only the stored record id, with the current credentials. It never throws and changes no field. A rejected delete yields the "Please remove it manually!" warning and nothing else |
| Polling.PropagationWait | src/main/java/com/futlabs/letsencrypt/WildcardApplication.java:149-160 | the definition of the propagation wait: a lookup, then while the record is not seen and attempts remain, a 30 s sleep and another lookup. `WaitForPropagation` is proved equal to it, and the lemmas below state its properties |
| Polling.Retry | src/main/java/com/futlabs/letsencrypt/WildcardApplication.java:151-156 | one retry of the propagation loop uses up exactly one attempt: it records a 30 s sleep and the next lookup of the challenge name, reports that lookup's verdict, and leaves the outcome of the whole wait unchanged |
| Polling.WaitForPropagation | src/main/java/com/futlabs/letsencrypt/WildcardApplication.java:149-160 | the source's lookup-then-countdown loop records exactly the lookups and sleeps of `PropagationWait` with 50 attempts, and ends with its verdict |
| Polling.PropagationWaitEvents | src/main/java/com/futlabs/letsencrypt/WildcardApplication.java:150-156 | the wait makes only TXT lookups of the challenge name, and sleeps |
| Polling.PropagationWaitCounts | src/main/java/com/futlabs/letsencrypt/WildcardApplication.java:150-156 | with n attempts the wait makes between 1 and n+1 lookups and exactly one sleep fewer than lookups. A wait that never sees the record makes all n+1 lookups |
| Polling.LookupsMadeStep | src/main/java/com/futlabs/letsencrypt/WildcardApplication.java:151-155 | a wait whose first lookup misses makes one lookup more than the wait that follows it, and reaches the same verdict |
| Polling.PropagationWaitStopsAtFirstMatch | src/main/java/com/futlabs/letsencrypt/WildcardApplication.java:151-152 | every lookup before the last one found the record not visible: the wait stops at the first match |
| Polling.PropagationWaitReportsLastLookup | src/main/java/com/futlabs/letsencrypt/WildcardApplication.java:151-152 | the wait's verdict is that of its last lookup |
| Polling.StatusPoll | src/main/java/com/futlabs/letsencrypt/WildcardApplication.java:166-184 | the definition of the status poll: stop on VALID, then on an exhausted countdown, throw on INVALID, otherwise sleep 3 s and call `update()`, ending at once when it throws. `PollStatus` is proved equal to it, and the lemmas below state its properties |
| Polling.PollOnce | src/main/java/com/futlabs/letsencrypt/WildcardApplication.java:168-180 | one iteration of a status poll uses up exactly one attempt. It either ends the poll with the poll's own outcome (INVALID, or an `update()` that threw) or leaves the outcome of the whole poll unchanged |
| Polling.PollStatus | src/main/java/com/futlabs/letsencrypt/WildcardApplication.java:166-184 | the source's poll loop (VALID test, countdown, INVALID check, sleep, `update()`) records exactly the sleeps and updates of `StatusPoll` with 50 attempts and ends the way it does. The same loop polls the order at lines 209-227 |
| Polling.StatusPollRetries | src/main/java/com/futlabs/letsencrypt/WildcardApplication.java:168-179 | from a status neither VALID nor INVALID, with attempts left and an update that answers, the poll sleeps, updates and goes on from the new status |
| Polling.StatusPollUpdateThrows | src/main/java/com/futlabs/letsencrypt/WildcardApplication.java:176-179 | an `update()` that throws ends the poll at once, after one sleep and that update |
| Polling.StatusPollOnlyUpdatesAndSleeps | src/main/java/com/futlabs/letsencrypt/WildcardApplication.java:168-180 | a poll only sleeps and updates the polled resource |
| Polling.StatusPollEndsWithUpdate | src/main/java/com/futlabs/letsencrypt/WildcardApplication.java:176-179 | a poll that did anything ended on an `update()` |
| Polling.StatusPollEvents | src/main/java/com/futlabs/letsencrypt/WildcardApplication.java:168-180 | the two facts above together |
| Polling.StatusPollSleepsBeforeUpdates | src/main/java/com/futlabs/letsencrypt/WildcardApplication.java:176-179 | the poll's calls come in pairs, a 3 s sleep followed by an `update()`, with nothing in between: every update has its own sleep just before it, and there are as many sleeps as updates |
| Polling.UpdatesMadeStep | src/main/java/com/futlabs/letsencrypt/WildcardApplication.java:168-179 | a poll that answers its first update and goes on makes one update more than the poll that follows it |
| Polling.StatusPollUpdateBound | src/main/java/com/futlabs/letsencrypt/WildcardApplication.java:167-173 | at most `attempts` updates. A poll stopped by INVALID still had attempts left, and an exhausted poll used them all |
| Polling.StatusPollCounts | src/main/java/com/futlabs/letsencrypt/WildcardApplication.java:167-180 | the bound above, together with as many sleeps as updates |
| Polling.StatusPollStartsOpen | src/main/java/com/futlabs/letsencrypt/WildcardApplication.java:168-173 | a poll updates at all only when the starting status is neither VALID nor INVALID |
| Polling.StatusPollPassesOver | src/main/java/com/futlabs/letsencrypt/WildcardApplication.java:168-173 | every update before the last answered a status other than VALID and INVALID: the poll stops at the first decisive status |
| Polling.StatusPollOutcome | src/main/java/com/futlabs/letsencrypt/WildcardApplication.java:168-190 | the poll reaches VALID exactly when the last status seen is VALID, and fails on `update()` exactly when the last update threw. It stops on INVALID only when INVALID was last seen. When it runs out of attempts, it reports the last status seen, which is not VALID |
| WildcardApplication.CheckOptions | src/main/java/com/futlabs/letsencrypt/WildcardApplication.java:63-87 | the definition of the option checks: exit 0 when `domain`, `dnsProvider`, `accessKey` or `accessSecret` is missing, then a crash on `get(0)` of an option without a value, otherwise the first value of each option and the PROD stage only for a first `stage` value of "PROD". `Run`'s contract states what follows from it |
| WildcardApplication.Run | src/main/java/com/futlabs/letsencrypt/WildcardApplication.java:62-107 | the run exits with 0 and no call exactly when `domain`, `dnsProvider`, `accessKey` or `accessSecret` is missing. Otherwise it crashes with no call exactly when a read option has no value. Any run that makes calls opens its session on `acme://letsencrypt.org` exactly when the first `stage` value is "PROD", and on the staging directory otherwise |
| WildcardApplication.Authorize | src/main/java/com/futlabs/letsencrypt/WildcardApplication.java:123-132 | an authorization without a dns-01 challenge aborts with no call. One that is VALID, or whose challenge is VALID, is skipped with no call, and only those are skipped |
| WildcardApplication.AuthorizeAll | src/main/java/com/futlabs/letsencrypt/WildcardApplication.java:121-199 | the definition of the loop over the order's authorizations: each handled in turn by `Authorize`, stopping at the first that aborts. `AuthorizeOrder` is proved equal to it, and `AuthorizeAllFailFast` states its properties |
| WildcardApplication.PerformAuthorization | src/main/java/com/futlabs/letsencrypt/WildcardApplication.java:123-197 | the loop body, with a fresh provider bean given both credentials, produces exactly the outcome and calls of `Authorize` |
| WildcardApplication.AuthorizeOrder | src/main/java/com/futlabs/letsencrypt/WildcardApplication.java:121-199 | the loop over the order's authorizations produces exactly `AuthorizeAll`: the authorizations in order, stopping at the first that throws |
| WildcardApplication.Finalize | src/main/java/com/futlabs/letsencrypt/WildcardApplication.java:202-251 | the definition of everything from `execute` to the output files. `FinalizeOrder` is proved equal to it, and `FinalizeLayout` and `FinalizeWrites` state its properties |
| WildcardApplication.FinalizeOrder | src/main/java/com/futlabs/letsencrypt/WildcardApplication.java:202-251 | from `execute` to the output files, the code produces exactly `Finalize`. That covers `execute`, the order poll and `getCertificate()`. Then the chain file is opened and filled by the download, and the key file is written only after a successful download |
| WildcardApplication.RunApplication | src/main/java/com/futlabs/letsencrypt/WildcardApplication.java:62-256 | the whole of `run` produces exactly the outcome and trace of `Run` |
| WildcardProperties.AuthorizeBeforeAdd | src/main/java/com/futlabs/letsencrypt/WildcardApplication.java:123-139 | an authorization that does not get as far as the add is never authorized. At most the provider lookup has happened |
| WildcardProperties.AuthorizeRejectedAdd | src/main/java/com/futlabs/letsencrypt/WildcardApplication.java:144-147 | a rejected add aborts the authorization with the provider's "Failed to set TXT value" message, right after the provider lookup and the add |
| WildcardProperties.RejectedAddEndsAuthorization | src/main/java/com/futlabs/letsencrypt/WildcardApplication.java:144-147 | after a rejected add there is no lookup, no trigger and no delete: the rejected add is the last call |
| WildcardProperties.AuthorizeTriggerFailed | src/main/java/com/futlabs/letsencrypt/WildcardApplication.java:163 | a trigger that throws aborts the authorization after the add, the whole propagation wait and the trigger |
| WildcardProperties.AuthorizeAfterTrigger | src/main/java/com/futlabs/letsencrypt/WildcardApplication.java:144-197 | after a trigger that answers, the calls are: the add, the wait, the trigger, the poll and the cleanup. The authorization succeeds exactly when the poll reaches VALID |
| WildcardProperties.AuthorizeReached | src/main/java/com/futlabs/letsencrypt/WildcardApplication.java:187-197 | a poll that reaches VALID authorizes, and the record's removal is the last call |
| WildcardProperties.AuthorizeNotReached | src/main/java/com/futlabs/letsencrypt/WildcardApplication.java:166-190 | a poll that does not reach VALID aborts the authorization, and nothing is removed |
| WildcardProperties.AuthorizationBounds | src/main/java/com/futlabs/letsencrypt/WildcardApplication.java:144-197 | one authorization makes at most 51 lookups, 50 updates and 100 sleeps, and at most one add, one trigger and one delete |
| WildcardProperties.TriggerRegardlessOfPropagation | src/main/java/com/futlabs/letsencrypt/WildcardApplication.java:149-163 | after a successful add, the trigger comes right after the full propagation wait, whether or not the record was seen, and exactly once |
| WildcardProperties.CleanupFollowsValid | src/main/java/com/futlabs/letsencrypt/WildcardApplication.java:187-197 | when the poll reaches VALID, the delete is the last call and the call just before it reported VALID |
| WildcardProperties.CleanupOnlyAfterValid | src/main/java/com/futlabs/letsencrypt/WildcardApplication.java:186-197 | a delete happens exactly when the authorization succeeds, once. It comes right after the trigger or update that reported VALID and names the record id the add returned |
| WildcardProperties.AuthorizeEventsOnly | src/main/java/com/futlabs/letsencrypt/WildcardApplication.java:123-197 | handling an authorization makes only provider, DNS, sleep and challenge calls: never an order call, a fetch or a write |
| WildcardProperties.AuthorizeAllEventsOnly | src/main/java/com/futlabs/letsencrypt/WildcardApplication.java:121-199 | the same holds for the whole loop over authorizations |
| WildcardProperties.AuthorizeAllCompletes | src/main/java/com/futlabs/letsencrypt/WildcardApplication.java:121-199 | the loop completes exactly when no authorization throws, and then it has handled every authorization in turn |
| WildcardProperties.AuthorizeAllStopsAtFirst | src/main/java/com/futlabs/letsencrypt/WildcardApplication.java:121-199 | when the loop fails, it fails with the failure of the first authorization that throws, and nothing after it is handled |
| WildcardProperties.AuthorizeAllFailFast | src/main/java/com/futlabs/letsencrypt/WildcardApplication.java:121-199 | both directions together: completion over all authorizations, or the first failure and nothing after it |
| WildcardProperties.FetchAndWriteCounts | src/main/java/com/futlabs/letsencrypt/WildcardApplication.java:230-251 | after the order poll, `getCertificate()` is called once. Without a certificate nothing is written. With one, the chain file is opened. A failed download leaves it partial as the last call; otherwise the key follows and both files are complete, last |
| WildcardProperties.FinalizeLayout | src/main/java/com/futlabs/letsencrypt/WildcardApplication.java:206-251 | a failed `execute` ends the run. An order poll that sees INVALID or a failing update ends it before the fetch. VALID and exhaustion both go on to `getCertificate()`. The run then fails with `NoCertificate` on null and with `ChainDownloadFailed` when the download fails, and is issued otherwise |
| WildcardProperties.FinalizeWrites | src/main/java/com/futlabs/letsencrypt/WildcardApplication.java:202-251 | `execute` comes first with the CSR for `[d, *.d]`. There is exactly one order call. Both files are written in full, as the last two calls, exactly when the certificate is issued. A failed download leaves only the partial chain file, as the last call. Nothing is written in any other case |
| WildcardProperties.OrderInvalidStopsBeforeWrites | src/main/java/com/futlabs/letsencrypt/WildcardApplication.java:210-216 | an order found INVALID ends the run with no fetch and no write. The last call reported INVALID |
| WildcardProperties.OrderExhaustionFetches | src/main/java/com/futlabs/letsencrypt/WildcardApplication.java:209-230 | an order poll that runs out of attempts still calls `getCertificate()`. The outcome then depends only on whether a certificate came back and whether its chain could be downloaded |
| WildcardProperties.RunLayout | src/main/java/com/futlabs/letsencrypt/WildcardApplication.java:97-255 | once the order exists, a run is: session, account, order, the authorizations, and (only if none failed) the finalization. A failed authorization's failure is the run's outcome |
| WildcardProperties.HeadCounts | src/main/java/com/futlabs/letsencrypt/WildcardApplication.java:103-118 | opening the session, the account and the order make one order call, for `[d, *.d]`, and no fetch or write |
| WildcardProperties.RunFailFast | src/main/java/com/futlabs/letsencrypt/WildcardApplication.java:121-199 | if some authorization throws, the run fails with the failure of the first one that does. It never executes the order, fetches or writes |
| WildcardProperties.RunWritesAfterOrder | src/main/java/com/futlabs/letsencrypt/WildcardApplication.java:235-251 | once the order exists, the files written match the outcome. An issued run writes exactly `certificate/<d>/domain-chain.crt` and `certificate/<d>/domain.key`, in full and last. A failed download leaves only the partial chain file, as the last call. Any other run writes nothing |
| WildcardProperties.RunWrites | src/main/java/com/futlabs/letsencrypt/WildcardApplication.java:235-251 | for every run, the two output files under `certificate/<d>/` are written in full exactly when the certificate is issued, as the last two calls. The only other write is the partial chain file a failed download leaves. A run that stops in the option checks writes nothing |
| WildcardProperties.RunDomainSet | src/main/java/com/futlabs/letsencrypt/WildcardApplication.java:84-206 | the domain is the first `domain` value. The order and the CSR both carry `[d, *.d]`, the order is the third call, and an issued run makes exactly two order calls (create and execute) |

## Left out

- The ACME wire protocol, the account and domain key pairs, the CSR encoding and signing, and the certificate's contents (acme4j and BouncyCastle). The server's answers are inputs, and the CSR is recorded only by the domains it names.
- The Alibaba Cloud SDK objects and the HTTP calls they make. The vendor's answer to an add or a delete is an input.
- The dnsjava lookup itself. The resolver outcome of each lookup is an input. The `SimpleResolver` with TCP set is built but never attached to the lookup, so it has no effect and is not modelled.
- Time: sleeps are recorded with their length and counted, never timed. The `InterruptedException` handlers around the three waits are left out, because an interruption comes from outside the model. In the source, each handler logs the interruption as an error and sets the thread's interrupt flag again. Every later `Thread.sleep` in the same run then throws at once, so each later wait ends after its first check. The model has no such run.
- Spring: the application context is reduced to "`alibaba` gives a fresh provider, any other name throws". Because `getBean` throws for an unknown name, the null check after it is dead code and has no counterpart.
- `System.exit` is the outcome `Exited(0)`, and the process does not continue in the model.
- Logging, `printStackTrace`, the contents written through the two `FileWriter`s, `mkdirs`, and failures of the file system.
- The `DnsProvider` interface: the model has the one provider the application ships.
- AlibabaDns.AlibabaDnsProvider.RemoveTxtValueFromDomain: the vendor's answer to a delete is a boolean. The exception's type and stack trace are not modelled, only the warning text.
- WildcardApplication.Run: an `update()`, `trigger()` or `execute()` that throws is one `Failure` reply. The many exception types acme4j can throw are not told apart, since the outer `try` treats them all alike.
- WildcardApplication.Authorize: a lazy fetch of an authorization that throws at `findChallenge` has no reason of its own. It is written as an authorization without a dns-01 challenge, so the calls made are right but the failure is `NoDns01Challenge`.
